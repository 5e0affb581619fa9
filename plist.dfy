/** Decoded property-list values as the Python code sees them. */
module PlistValue {
  import opened Wrappers

  /** A decoded value: a string, a list, or any other plist value (integer,
      real, boolean, date, data, dictionary), which the code only ever tests
      for truth or formats with `str()`; such a value carries its `str()`
      text and its truth value. */
  datatype PVal =
    | PString(s: string)
    | PArray(items: seq<PVal>)
    | PAtom(text: string, truthy: bool)

  /** A decoded top-level dictionary. */
  type PMap = map<string, PVal>

  /** `d.get(k)` */
  function Get(d: PMap, k: string): Option<PVal> {
    if k in d then Some(d[k]) else None
  }

  /** `d.get(k, default)`: the stored value whenever the key is present, even
      a falsy one. */
  function GetOr(d: PMap, k: string, default: PVal): PVal {
    if k in d then d[k] else default
  }

  /** `d.get('CFBundleDisplayName') or d.get('CFBundleName', 'Unknown')`:
      the display name when it is truthy, otherwise the bundle name whenever
      that key is present, even holding a falsy value, otherwise `'Unknown'`. */
  function AppNameOf(d: PMap): (r: PVal)
    ensures SomeTruthy(Get(d, "CFBundleDisplayName")) ==> r == d["CFBundleDisplayName"]
    ensures !SomeTruthy(Get(d, "CFBundleDisplayName")) && "CFBundleName" in d ==>
      r == d["CFBundleName"]
    ensures !SomeTruthy(Get(d, "CFBundleDisplayName")) && "CFBundleName" !in d ==>
      r == PString("Unknown")
  {
    var displayName := Get(d, "CFBundleDisplayName");
    if SomeTruthy(displayName) then displayName.value else GetOr(d, "CFBundleName", PString("Unknown"))
  }

  /** Python truthiness. */
  predicate Truthy(v: PVal) {
    match v
    case PString(s) => s != ""
    case PArray(items) => items != []
    case PAtom(_, t) => t
  }

  /** Truthiness of a value that may be `None`. */
  predicate SomeTruthy(o: Option<PVal>) {
    o.Some? && Truthy(o.value)
  }

  /** Python `a or b` over values that may be `None`. */
  function Or(a: Option<PVal>, b: Option<PVal>): (r: Option<PVal>)
    ensures SomeTruthy(a) ==> r == a
    ensures !SomeTruthy(a) ==> r == b
  {
    if SomeTruthy(a) then a else b
  }

  /** `str(v)`, as an f-string placeholder renders it: a string is itself,
      anything else renders as its `repr`. A list renders in Python's list
      syntax; string items are quoted with `'` without Python's escape rules. */
  function Str(v: PVal): (r: string)
    ensures v.PString? ==> r == v.s
    ensures v.PAtom? ==> r == v.text
    ensures v.PArray? ==> |r| >= 2 && r[0] == '[' && r[|r| - 1] == ']'
    ensures v == PArray([]) ==> r == "[]"
    ensures v.PArray? && |v.items| == 1 && v.items[0].PString? ==>
      r == "['" + v.items[0].s + "']"
  {
    match v
    case PString(s) => s
    case PAtom(_, _) => Repr(v)
    case PArray(items) =>
      assert |items| == 1 ==> ReprItems(items) == Repr(items[0]);
      assert Repr(v) == "[" + ReprItems(items) + "]";
      Repr(v)
  }

  function Repr(v: PVal): string {
    match v
    case PString(s) => "'" + s + "'"
    case PAtom(t, _) => t
    case PArray(items) => "[" + ReprItems(items) + "]"
  }

  function ReprItems(items: seq<PVal>): string {
    if items == [] then ""
    else if |items| == 1 then Repr(items[0])
    else Repr(items[0]) + ", " + ReprItems(items[1..])
  }
}
