/** utils.py: `extract_info`, the metadata reader of the GitHub-hosted
    variant. It starts from fixed defaults and overwrites them field by
    field; an exception anywhere leaves what was already written. */
module Utils {
  import opened Wrappers
  import opened Text
  import opened PlistValue
  import opened Archive
  import opened Pattern

  /** The `info` dictionary of `extract_info`. */
  datatype EntryInfo = EntryInfo(name: PVal, bundle: PVal, version: PVal, team: string)

  const Defaults := EntryInfo(PString("Unknown"), PString("unknown.bundle"), PString("1.0"), "Unknown")

  /** `name.endswith('embedded.mobileprovision')`, anywhere in the archive. */
  predicate IsProfile(name: string) {
    EndsWith(name, "embedded.mobileprovision")
  }

  const NameKey := "<key>Name</key>"
  const TeamIdKey := "<key>TeamIdentifier</key>"
  const ArrayOpen := "<array>"

  /** `<key>Name</key>\s*<string>([^<]+)</string>` tried at position `p`. */
  function NameAt(t: string, p: nat): Option<string> {
    LitRunAt(t, p, NameKey)
  }

  /** The text the pattern matches at `p`, with `w` the whitespace `\s*`
      consumed and `x` the captured group: a non-empty run without `<`. */
  ghost predicate NameShape(t: string, p: nat, w: string, x: string) {
    LitRunShape(t, p, NameKey, w, x)
  }

  /** `re.search` of the name pattern: position and captured group. */
  function NameMatch(t: string): (r: Option<(nat, string)>)
    ensures r.Some? ==> r.value.0 <= |t| && NameAt(t, r.value.0) == Some(r.value.1)
    ensures r.Some? ==> forall j :: 0 <= j < r.value.0 ==> NameAt(t, j).None?
    ensures r.None? ==> forall j :: 0 <= j <= |t| ==> NameAt(t, j).None?
  {
    var m := (p: nat) => NameAt(t, p);
    assert forall j: nat :: m(j) == NameAt(t, j);
    Search(|t|, 0, m)
  }

  /** The search finds the leftmost occurrence of the pattern, and its group
      is the value between the tags. */
  lemma {:induction false} NameMatchLeftmost(t: string)
    ensures NameMatch(t).Some? ==>
      var (p, x) := NameMatch(t).value; exists w :: NameShape(t, p, w, x)
    ensures forall p: nat, w: string, x: string | NameShape(t, p, w, x) ::
      NameMatch(t).Some? && NameMatch(t).value.0 <= p
      && (NameMatch(t).value.0 == p ==> NameMatch(t).value.1 == x)
  {
    if NameMatch(t).Some? {
      var (p, x) := NameMatch(t).value;
      LitRunSound(t, p, NameKey);
      var w :| LitRunShape(t, p, NameKey, w, x);
      assert NameShape(t, p, w, x);
    }
    forall p: nat, w: string, x: string | NameShape(t, p, w, x)
      ensures NameMatch(t).Some? && NameMatch(t).value.0 <= p
      ensures NameMatch(t).value.0 == p ==> NameMatch(t).value.1 == x
    {
      LitRunComplete(t, p, NameKey, w, x);
      var m := (q: nat) => NameAt(t, q);
      assert m(p).Some? && p <= |t|;
      assert NameMatch(t) == Search(|t|, 0, m);
    }
  }

  /** `<key>TeamIdentifier</key>\s*<array>\s*<string>([^<]+)</string>` tried
      at position `p`. */
  function TeamIdAt(t: string, p: nat): Option<string> {
    match LitSpaces(t, p, TeamIdKey)
    case None => None
    case Some(k) => LitRunAt(t, k, ArrayOpen)
  }

  ghost predicate TeamIdShape(t: string, p: nat, w1: string, w2: string, x: string) {
    && StartsAt(t, p, TeamIdKey + w1) && AllSpace(w1)
    && LitRunShape(t, p + |TeamIdKey| + |w1|, ArrayOpen, w2, x)
  }

  lemma TeamIdAtSound(t: string, p: nat)
    requires TeamIdAt(t, p).Some?
    ensures exists w1, w2 :: TeamIdShape(t, p, w1, w2, TeamIdAt(t, p).value)
  {
    var k := LitSpaces(t, p, TeamIdKey).value;
    LitSpacesSound(t, p, TeamIdKey);
    LitRunSound(t, k, ArrayOpen);
    var w2 :| LitRunShape(t, k, ArrayOpen, w2, TeamIdAt(t, p).value);
    assert TeamIdShape(t, p, t[p + |TeamIdKey|..k], w2, TeamIdAt(t, p).value);
  }

  lemma TeamIdAtComplete(t: string, p: nat, w1: string, w2: string, x: string)
    requires TeamIdShape(t, p, w1, w2, x)
    ensures TeamIdAt(t, p) == Some(x)
  {
    var k := p + |TeamIdKey| + |w1|;
    StartsAtHead(t, k, ArrayOpen + w2);
    LitSpacesComplete(t, p, TeamIdKey, w1);
    LitRunComplete(t, k, ArrayOpen, w2, x);
  }

  /** `re.search` of the identifier pattern. */
  function TeamIdMatch(t: string): (r: Option<(nat, string)>)
    ensures r.Some? ==> r.value.0 <= |t| && TeamIdAt(t, r.value.0) == Some(r.value.1)
    ensures r.Some? ==> forall j :: 0 <= j < r.value.0 ==> TeamIdAt(t, j).None?
    ensures r.None? ==> forall j :: 0 <= j <= |t| ==> TeamIdAt(t, j).None?
  {
    var m := (p: nat) => TeamIdAt(t, p);
    assert forall j: nat :: m(j) == TeamIdAt(t, j);
    Search(|t|, 0, m)
  }

  /** The search finds the leftmost occurrence of the identifier pattern. */
  lemma {:induction false} TeamIdMatchLeftmost(t: string)
    ensures TeamIdMatch(t).Some? ==>
      var (p, x) := TeamIdMatch(t).value; exists w1, w2 :: TeamIdShape(t, p, w1, w2, x)
    ensures forall p: nat, w1: string, w2: string, x: string | TeamIdShape(t, p, w1, w2, x) ::
      TeamIdMatch(t).Some? && TeamIdMatch(t).value.0 <= p
      && (TeamIdMatch(t).value.0 == p ==> TeamIdMatch(t).value.1 == x)
  {
    if TeamIdMatch(t).Some? {
      var (p, x) := TeamIdMatch(t).value;
      TeamIdAtSound(t, p);
    }
    forall p: nat, w1: string, w2: string, x: string | TeamIdShape(t, p, w1, w2, x)
      ensures TeamIdMatch(t).Some? && TeamIdMatch(t).value.0 <= p
      ensures TeamIdMatch(t).value.0 == p ==> TeamIdMatch(t).value.1 == x
    {
      TeamIdAtComplete(t, p, w1, w2, x);
      var m := (q: nat) => TeamIdAt(t, q);
      assert m(p).Some? && p <= |t|;
      assert TeamIdMatch(t) == Search(|t|, 0, m);
    }
  }

  /** The team text `extract_info` builds from a profile's text: the name
      group or `'Unknown'`, then ` (ID)` whenever the identifier pattern
      matches, even after `'Unknown'`. */
  function TeamText(t: string): (r: string)
    ensures NameMatch(t).None? && TeamIdMatch(t).None? ==> r == "Unknown"
    ensures NameMatch(t).Some? && TeamIdMatch(t).None? ==> r == NameMatch(t).value.1
    ensures TeamIdMatch(t).Some? ==>
      r == (if NameMatch(t).Some? then NameMatch(t).value.1 else "Unknown")
        + (" (" + TeamIdMatch(t).value.1 + ")")
  {
    var team := match NameMatch(t) case Some((_, x)) => x case None => "Unknown";
    match TeamIdMatch(t)
    case None => team
    case Some((_, id)) => team + (" (" + id + ")")
  }

  /** The team of an archive: from the first profile entry, if there is one
      and it can be read. */
  ghost function ProfileTeam(z: Zip, c: Codecs): string {
    match FirstWhere(z.names, IsProfile)
    case None => "Unknown"
    case Some(prov) =>
      match z.read(prov)
      case Err(_) => "Unknown"
      case Ok(raw) => TeamText(c.decodeUtf8(raw))
  }

  /** `extract_info(ipa_path)`. Only plistlib is tried. */
  method ExtractInfo(zip: Result<Zip, string>, c: Codecs) returns (info: EntryInfo)
    ensures zip.Err? ==> info == Defaults
    ensures zip.Ok? ==>
      var z := zip.value;
      match FirstWhere(z.names, IsAppInfoPlist)
      case None => info == Defaults
      case Some(path) =>
        match z.read(path)
        case Err(_) => info == Defaults
        case Ok(data) =>
          match c.plistlib(data)
          case None => info == Defaults
          case Some(p) =>
            && info.name == AppNameOf(p)
            && info.bundle == (if "CFBundleIdentifier" in p then p["CFBundleIdentifier"]
                               else PString("unknown.bundle"))
            && info.version == (if "CFBundleShortVersionString" in p then p["CFBundleShortVersionString"]
                                else PString("1.0"))
            && info.team == ProfileTeam(z, c)
  {
    info := Defaults;
    if zip.Err? {
      return;
    }
    var z := zip.value;
    var plistPath := FirstWhere(z.names, IsAppInfoPlist);
    if plistPath.None? {
      return;
    }
    var read := z.read(plistPath.value);
    if read.Err? {
      return;
    }
    var plistData := c.plistlib(read.value);
    if plistData.None? {
      return;
    }
    var p := plistData.value;
    info := info.(name := AppNameOf(p));
    info := info.(bundle := GetOr(p, "CFBundleIdentifier", PString("unknown.bundle")));
    info := info.(version := GetOr(p, "CFBundleShortVersionString", PString("1.0")));

    var provPath := FirstWhere(z.names, IsProfile);
    if provPath.Some? {
      var raw := z.read(provPath.value);
      if raw.Err? {
        return;
      }
      var content := c.decodeUtf8(raw.value);
      var teamNameMatch := NameMatch(content);
      var teamIdMatch := TeamIdMatch(content);
      if teamNameMatch.Some? {
        info := info.(team := teamNameMatch.value.1);
      }
      if teamIdMatch.Some? {
        info := info.(team := info.team + (" (" + teamIdMatch.value.1 + ")"));
      }
    }
  }
}
