/** ipa_utils.py: `extract_ipa_info`, the metadata reader of the Flask
    variant. It extracts the whole archive, takes the first `.app` directory
    under `Payload`, and raises when the layout is not as expected. */
module IpaUtils {
  import opened Wrappers
  import opened Text
  import opened PlistValue
  import opened Archive
  import opened Pattern

  /** The archive after `extractall`: the listing of `Payload/` in
      `os.listdir` order (`None` when there is no such directory), and the
      contents of the regular file at a path relative to the extraction
      directory (`None` when there is none). */
  datatype Extracted = Extracted(payload: Option<seq<string>>, file: string -> Option<Bytes>)

  /** The dictionary `extract_ipa_info` returns: exactly these five keys. */
  datatype IpaInfo = IpaInfo(
    app_name: PVal, bundle_id: PVal, version: PVal, team_name: string, repo: Option<string>)

  /** Why `extract_ipa_info` raises. */
  datatype IpaError =
    | ExtractFailed(msg: string)   // the archive cannot be extracted
    | NoPayloadDir                 // `os.listdir` of a missing `Payload`
    | NoAppDir(msg: string)        // the explicit raise
    | InfoPlistMissing             // `open` of a missing Info.plist
    | InfoPlistUnreadable          // `plistlib.load` fails

  const NoAppDirMsg := "Không tìm thấy thư mục .app trong IPA"

  predicate IsAppDir(item: string) {
    EndsWith(item, ".app")
  }

  function InfoPlistPath(app: string): string {
    "Payload/" + app + "/Info.plist"
  }

  function ProfilePath(app: string): string {
    "Payload/" + app + "/embedded.mobileprovision"
  }

  /** The `for item in os.listdir(payload_dir)` loop with its `break`: the
      first item ending in `.app`. */
  method FindAppDir(listing: seq<string>) returns (app: Option<string>)
    ensures app.None? <==> forall i :: 0 <= i < |listing| ==> !IsAppDir(listing[i])
    ensures app.Some? ==>
      exists i :: 0 <= i < |listing| && listing[i] == app.value && IsAppDir(app.value)
        && forall j :: 0 <= j < i ==> !IsAppDir(listing[j])
  {
    app := None;
    for i := 0 to |listing|
      invariant app.None?
      invariant forall j :: 0 <= j < i ==> !IsAppDir(listing[j])
    {
      if IsAppDir(listing[i]) {
        app := Some(listing[i]);
        assert forall j :: 0 <= j < i ==> !IsAppDir(listing[j]);
        return;
      }
    }
  }

  const TeamNameKey := "<key>TeamName</key>"

  /** `<key>TeamName</key>\s*<string>(.*?)</string>` tried at `p`. */
  function TeamNameAt(t: string, p: nat): Option<string> {
    LitLazyAt(t, p, TeamNameKey)
  }

  /** A text the pattern could match at `p`, with whitespace `w` and a
      one-line value `x`, which may itself contain `</string>`. */
  ghost predicate TeamNameShape(t: string, p: nat, w: string, x: string) {
    LitLazyShape(t, p, TeamNameKey, w, x)
  }

  function TeamNameMatch(t: string): (r: Option<(nat, string)>)
    ensures r.Some? ==> r.value.0 <= |t| && TeamNameAt(t, r.value.0) == Some(r.value.1)
    ensures r.Some? ==> forall j :: 0 <= j < r.value.0 ==> TeamNameAt(t, j).None?
    ensures r.None? ==> forall j :: 0 <= j <= |t| ==> TeamNameAt(t, j).None?
  {
    var m := (p: nat) => TeamNameAt(t, p);
    assert forall j: nat :: m(j) == TeamNameAt(t, j);
    Search(|t|, 0, m)
  }

  /** The search finds the leftmost occurrence of the shape and captures its
      shortest value. */
  lemma {:induction false} TeamNameMatchLeftmost(t: string)
    ensures TeamNameMatch(t).Some? ==>
      var (p, y) := TeamNameMatch(t).value;
      exists w :: TeamNameShape(t, p, w, y)
        && Shortest(t, p + |TeamNameKey| + |w|, StringOpen, StringClose, y)
    ensures forall p: nat, w: string, x: string | TeamNameShape(t, p, w, x) ::
      && TeamNameMatch(t).Some? && TeamNameMatch(t).value.0 <= p
      && (TeamNameMatch(t).value.0 == p ==>
            var y := TeamNameMatch(t).value.1; |y| <= |x| && x[..|y|] == y)
  {
    if TeamNameMatch(t).Some? {
      var (p, x) := TeamNameMatch(t).value;
      LitLazySound(t, p, TeamNameKey);
    }
    forall p: nat, w: string, x: string | TeamNameShape(t, p, w, x)
      ensures TeamNameMatch(t).Some? && TeamNameMatch(t).value.0 <= p
      ensures TeamNameMatch(t).value.0 == p ==>
        var y := TeamNameMatch(t).value.1; |y| <= |x| && x[..|y|] == y
    {
      LitLazyComplete(t, p, TeamNameKey, w, x);
      var m := (q: nat) => TeamNameAt(t, q);
      assert m(p).Some? && p <= |t|;
      assert TeamNameMatch(t) == Search(|t|, 0, m);
    }
  }

  /** The team name a profile yields: the captured value, or `'Unknown'`
      without a profile or without a match. */
  ghost function ProfileTeamName(profile: Option<Bytes>, c: Codecs): string {
    match profile
    case None => "Unknown"
    case Some(raw) =>
      match TeamNameMatch(c.decodeUtf8(raw))
      case None => "Unknown"
      case Some((_, x)) => x
  }

  /** `extract_ipa_info(ipa_path)`, with `repo` the value of the
      `GITHUB_REPO` environment variable. */
  method ExtractIpaInfo(tree: Result<Extracted, string>, c: Codecs, repo: Option<string>)
    returns (r: Result<IpaInfo, IpaError>)
    ensures tree.Err? ==> r == Err(ExtractFailed(tree.error))
    ensures tree.Ok? && tree.value.payload.None? ==> r == Err(NoPayloadDir)
    ensures tree.Ok? && tree.value.payload.Some? ==>
      var x := tree.value;
      match FirstWhere(x.payload.value, IsAppDir)
      case None => r == Err(NoAppDir(NoAppDirMsg))
      case Some(app) =>
        match x.file(InfoPlistPath(app))
        case None => r == Err(InfoPlistMissing)
        case Some(data) =>
          match c.plistlib(data)
          case None => r == Err(InfoPlistUnreadable)
          case Some(p) =>
            r == Ok(IpaInfo(
              AppNameOf(p),
              GetOr(p, "CFBundleIdentifier", PString("unknown.bundle")),
              GetOr(p, "CFBundleShortVersionString", PString("1.0")),
              ProfileTeamName(x.file(ProfilePath(app)), c),
              repo))
  {
    if tree.Err? {
      return Err(ExtractFailed(tree.error));
    }
    var x := tree.value;
    if x.payload.None? {
      return Err(NoPayloadDir);
    }
    var appDir := FindAppDir(x.payload.value);
    if appDir.None? {
      return Err(NoAppDir(NoAppDirMsg));
    }
    var app := appDir.value;
    var plistFile := x.file(InfoPlistPath(app));
    if plistFile.None? {
      return Err(InfoPlistMissing);
    }
    var plistData := c.plistlib(plistFile.value);
    if plistData.None? {
      return Err(InfoPlistUnreadable);
    }
    var p := plistData.value;
    var appName := AppNameOf(p);
    var bundleId := GetOr(p, "CFBundleIdentifier", PString("unknown.bundle"));
    var version := GetOr(p, "CFBundleShortVersionString", PString("1.0"));

    var teamName := "Unknown";
    var prov := x.file(ProfilePath(app));
    if prov.Some? {
      var data := c.decodeUtf8(prov.value);
      var m := TeamNameMatch(data);
      if m.Some? {
        teamName := m.value.1;
      }
    }
    return Ok(IpaInfo(appName, bundleId, version, teamName, repo));
  }
}
