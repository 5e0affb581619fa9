/** The archive and decoders as the model sees them: the zip file is its
    entry-name list with a read operation, and every decoder (plistlib,
    biplist, plutil, UTF-8) is an opaque function given as a parameter. */
module Archive {
  import opened Wrappers
  import opened Text
  import opened PlistValue

  newtype byte = x: int | 0 <= x < 256

  type Bytes = seq<byte>

  /** An opened zip archive: `namelist()` in archive order, and `read(name)`,
      which either yields the entry's bytes or raises with a message. */
  datatype Zip = Zip(names: seq<string>, read: string -> Result<Bytes, string>)

  /** The external decoders. Each plist decoder yields the top-level
      dictionary or fails; `decodeUtf8` is `bytes.decode("utf-8",
      errors="ignore")` and `encodeUtf8` is `str.encode("utf-8")`. */
  datatype Codecs = Codecs(
    plistlib: Bytes -> Option<PMap>,
    biplist: Bytes -> Option<PMap>,
    plutil: Bytes -> Option<PMap>,
    decodeUtf8: Bytes -> string,
    encodeUtf8: string -> Bytes)

  /** `name.startswith("Payload/") and name.endswith(".app/Info.plist")` */
  predicate IsAppInfoPlist(name: string) {
    StartsWith(name, "Payload/") && EndsWith(name, ".app/Info.plist")
  }

  /** The index of the first element satisfying `p`. */
  function FirstIndex<T>(xs: seq<T>, p: T -> bool): (r: Option<nat>)
    ensures r.Some? ==> r.value < |xs| && p(xs[r.value])
    ensures r.Some? ==> forall j :: 0 <= j < r.value ==> !p(xs[j])
    ensures r.None? ==> forall j :: 0 <= j < |xs| ==> !p(xs[j])
  {
    if xs == [] then None
    else if p(xs[0]) then Some(0)
    else match FirstIndex(xs[1..], p)
      case None => None
      case Some(i) => Some(i + 1)
  }

  /** `next((f for f in names if p(f)), None)` */
  function FirstWhere(names: seq<string>, p: string -> bool): Option<string> {
    match FirstIndex(names, p)
    case None => None
    case Some(i) => Some(names[i])
  }

  /** `[f for f in names if p(f)]`: exactly the names satisfying `p`, its
      head being the first of them. */
  function Filter(names: seq<string>, p: string -> bool): (r: seq<string>)
    ensures forall x :: x in r <==> x in names && p(x)
    ensures |r| <= |names|
    ensures r == [] <==> FirstIndex(names, p).None?
    ensures r != [] ==> FirstWhere(names, p) == Some(r[0])
  {
    if names == [] then []
    else if p(names[0]) then [names[0]] + Filter(names[1..], p)
    else
      assert forall x :: x in names[1..] ==> x in names;
      Filter(names[1..], p)
  }
}
