/** main.py: the single-file bot. `parse_ipa` reads the app's metadata out of
    the uploaded archive; `process_ipa` names the two stored files, fills the
    installer manifest and builds the install link; `handle_docs` accepts
    only `.ipa` documents. */
module MainBot {
  import opened Wrappers
  import opened Text
  import opened PlistValue
  import opened Archive
  import opened Manifest

  const NoInfoPlistMsg := "Không tìm thấy Info.plist"
  const UnreadableMsg := "Không thể đọc Info.plist"

  /** The `info` dictionary of `parse_ipa`; every field starts as `None`. */
  datatype Meta = Meta(
    app_name: Option<PVal>,
    bundle_id: Option<PVal>,
    version: Option<PVal>,
    team_name: Option<PVal>,
    team_id: Option<PVal>,
    error: Option<string>)

  const Blank := Meta(None, None, None, None, None, None)

  /** The entries `parse_ipa` takes for the app's Info.plist; the first is
      the one read. */
  function PlistCandidates(names: seq<string>): (r: seq<string>)
    ensures forall x :: x in r <==> x in names && IsAppInfoPlist(x)
    ensures r != [] ==> FirstWhere(names, IsAppInfoPlist) == Some(r[0])
    ensures r == [] <==> forall i :: 0 <= i < |names| ==> !IsAppInfoPlist(names[i])
  {
    Filter(names, IsAppInfoPlist)
  }

  predicate IsAppProfile(name: string) {
    EndsWith(name, ".app/embedded.mobileprovision")
  }

  /** The provisioning-profile entries; the first is the one read. */
  function ProfileCandidates(names: seq<string>): (r: seq<string>)
    ensures forall x :: x in r <==> x in names && IsAppProfile(x)
    ensures r != [] ==> FirstWhere(names, IsAppProfile) == Some(r[0])
  {
    Filter(names, IsAppProfile)
  }

  /** plistlib, then biplist, then plutil. */
  function Decoders(c: Codecs): seq<Bytes -> Option<PMap>> {
    [c.plistlib, c.biplist, c.plutil]
  }

  /** Which decoder of the chain is the first to read `data`. */
  function FirstDecoder(c: Codecs, data: Bytes): Option<nat> {
    FirstIndex(Decoders(c), (d: Bytes -> Option<PMap>) => d(data).Some?)
  }

  /** The chain tried in order: the index of the decoder whose result is
      used, or `None` when all three fail. */
  lemma FirstDecoderChain(c: Codecs, data: Bytes)
    ensures FirstDecoder(c, data) ==
      if c.plistlib(data).Some? then Some(0)
      else if c.biplist(data).Some? then Some(1)
      else if c.plutil(data).Some? then Some(2)
      else None
  {
    var ds := Decoders(c);
    var r := FirstDecoder(c, data);
    assert ds[0] == c.plistlib && ds[1] == c.biplist && ds[2] == c.plutil;
    if r.Some? {
      assert r.value < 3;
    }
  }

  /** Where `re.search(r"<plist.*?</plist>", text, re.DOTALL)` matches: from
      the leftmost `<plist` to the end of the nearest `</plist>` after it. */
  function PlistSpanAt(text: string): (r: Option<(nat, nat)>)
    ensures r.Some? ==> var (p, e) := r.value;
      && StartsAt(text, p, "<plist") && p + 14 <= e && StartsAt(text, e - 8, "</plist>")
      && (forall j :: 0 <= j < p ==> !StartsAt(text, j, "<plist"))
      && (forall j :: p + 6 <= j < e - 8 ==> !StartsAt(text, j, "</plist>"))
    ensures r.None? <==>
      forall p, q :: StartsAt(text, p, "<plist") && p + 6 <= q ==> !StartsAt(text, q, "</plist>")
  {
    match Find(text, "<plist", 0)
    case None => None
    case Some(p) =>
      match Find(text, "</plist>", p + 6)
      case None => None
      case Some(q) => Some((p, q + 8))
  }

  /** The text `m.group(0)` of that match: the slice `PlistSpanAt` locates. */
  function PlistSpan(text: string): (r: Option<string>)
    ensures r.None? <==> PlistSpanAt(text).None?
    ensures r.Some? ==>
      var (p, e) := PlistSpanAt(text).value;
      p <= e <= |text| && r.value == text[p..e]
    ensures r.Some? ==> StartsWith(r.value, "<plist") && EndsWith(r.value, "</plist>")
  {
    match PlistSpanAt(text)
    case None => None
    case Some((p, e)) => Some(text[p..e])
  }

  /** `parse_ipa(file_path)`. `zip` is the result of opening the archive (an
      error carries the exception text); the three plist decoders are tried
      in turn and the first that succeeds wins. */
  method ParseIpa(zip: Result<Zip, string>, c: Codecs) returns (info: Meta)
    ensures zip.Err? ==> info == Blank.(error := Some(zip.error))
    ensures zip.Ok? && PlistCandidates(zip.value.names) == [] ==>
      info == Blank.(error := Some(NoInfoPlistMsg))
    ensures zip.Ok? && PlistCandidates(zip.value.names) != [] ==>
      var z := zip.value;
      match z.read(PlistCandidates(z.names)[0])
      case Err(e) => info == Blank.(error := Some(e))
      case Ok(data) =>
        match FirstDecoder(c, data)
        case None => info == Blank.(error := Some(UnreadableMsg))
        case Some(i) =>
          var p := Decoders(c)[i](data).value;
          && info.app_name == Or(Get(p, "CFBundleDisplayName"), Get(p, "CFBundleName"))
          && info.bundle_id == Get(p, "CFBundleIdentifier")
          && info.version == Get(p, "CFBundleShortVersionString")
          && TeamOutcome(z, c, info)
  {
    info := Blank;
    if zip.Err? {
      info := info.(error := Some(zip.error));
      return;
    }
    var z := zip.value;
    var plistFiles := PlistCandidates(z.names);
    if plistFiles == [] {
      info := info.(error := Some(NoInfoPlistMsg));
      return;
    }
    var plistPath := plistFiles[0];
    var read := z.read(plistPath);
    if read.Err? {
      info := info.(error := Some(read.error));
      return;
    }
    var data := read.value;
    FirstDecoderChain(c, data);
    var plist := c.plistlib(data);
    if plist.None? {
      plist := c.biplist(data);
      if plist.None? {
        plist := c.plutil(data);
        if plist.None? {
          info := info.(error := Some(UnreadableMsg));
          return;
        }
      }
    }
    var p := plist.value;
    info := info.(app_name := Or(Get(p, "CFBundleDisplayName"), Get(p, "CFBundleName")));
    info := info.(bundle_id := Get(p, "CFBundleIdentifier"));
    info := info.(version := Get(p, "CFBundleShortVersionString"));

    var emb := ProfileCandidates(z.names);
    if emb != [] {
      var raw := z.read(emb[0]);
      if raw.Err? {
        info := info.(error := Some(raw.error));
        return;
      }
      var text := c.decodeUtf8(raw.value);
      var m := PlistSpan(text);
      if m.Some? {
        var embedded := c.plistlib(c.encodeUtf8(m.value));
        if embedded.Some? {
          var pe := embedded.value;
          info := info.(team_name := Get(pe, "TeamName"));
          var teamIds := Get(pe, "TeamIdentifier");
          if teamIds.Some? && teamIds.value.PArray? && |teamIds.value.items| > 0 {
            info := info.(team_id := Some(teamIds.value.items[0]));
          }
        }
      }
    }
  }

  /** What the provisioning profile contributes to `info`: the team fields
      are set only from a profile whose plist span decodes, `team_id` only
      from a non-empty `TeamIdentifier` list, and a failing read of the
      profile is recorded as the error with the other fields kept. */
  ghost predicate TeamOutcome(z: Zip, c: Codecs, info: Meta) {
    var emb := ProfileCandidates(z.names);
    if emb == [] then info.team_name == None && info.team_id == None && info.error == None
    else match z.read(emb[0])
      case Err(e) => info.team_name == None && info.team_id == None && info.error == Some(e)
      case Ok(raw) =>
        && info.error == None
        && match PlistSpan(c.decodeUtf8(raw))
          case None => info.team_name == None && info.team_id == None
          case Some(span) =>
            match c.plistlib(c.encodeUtf8(span))
            case None => info.team_name == None && info.team_id == None
            case Some(pe) =>
              var ids := Get(pe, "TeamIdentifier");
              && info.team_name == Get(pe, "TeamName")
              && (info.team_id.Some? <==> ids.Some? && ids.value.PArray? && ids.value.items != [])
              && (info.team_id.Some? ==> info.team_id.value == ids.value.items[0])
  }

  /** The installer manifest template of `process_ipa`. */
  const ManifestTemplate := Template(
    XmlDeclaration + (
    "\n"
    + "<!DOCTYPE plist PUBLIC \"-//Apple//DTD PLIST 1.0//EN\" \"http://www.apple.com/DTDs/PropertyList-1.0.dtd\">\n"
    + "<plist version=\"1.0\">\n"
    + "<dict>\n"
    + "    <key>items</key>\n"
    + "    <array>\n"
    + "        <dict>\n"
    + "            <key>assets</key>\n"
    + "            <array>\n"
    + "                <dict>\n"
    + "                    <key>kind</key>\n"
    + "                    <string>software-package</string>\n"
    + "                    <key>url</key>\n"
    + "                    <string>"),
    "</string>\n"
    + "                </dict>\n"
    + "            </array>\n"
    + "            <key>metadata</key>\n"
    + "            <dict>\n"
    + "                <key>bundle-identifier</key>\n"
    + "                <string>",
    "</string>\n"
    + "                <key>bundle-version</key>\n"
    + "                <string>",
    "</string>\n"
    + "                <key>kind</key>\n"
    + "                <string>software</string>\n"
    + "                <key>title</key>\n"
    + "                <string>",
    ("</string>\n"
    + "            </dict>\n"
    + "        </dict>\n"
    + "    </array>\n"
    + "</dict>\n") + PlistEnd)

  /** `{x or ''}` in an f-string. */
  function OrEmpty(o: Option<PVal>): (r: string)
    ensures !SomeTruthy(o) ==> r == ""
    ensures SomeTruthy(o) ==> r == Str(o.value)
  {
    if SomeTruthy(o) then Str(o.value) else ""
  }

  /** The values `process_ipa` substitutes into the manifest. */
  function ManifestFields(ipaUrl: string, meta: Meta): (f: Fields)
    ensures f.url == ipaUrl
    ensures f.bundle == (if SomeTruthy(meta.bundle_id) then Str(meta.bundle_id.value) else "")
    ensures f.version == (if SomeTruthy(meta.version) then Str(meta.version.value) else "")
    ensures f.title == (if SomeTruthy(meta.app_name) then Str(meta.app_name.value) else "")
  {
    Fields(ipaUrl, OrEmpty(meta.bundle_id), OrEmpty(meta.version), OrEmpty(meta.app_name))
  }

  /** The manifest text uploaded as the `.plist` file. */
  function ManifestXml(ipaUrl: string, meta: Meta): (r: string)
    ensures StartsWith(r, XmlDeclaration) && EndsWith(r, PlistEnd)
  {
    FillFrames(ManifestTemplate, ManifestFields(ipaUrl, meta));
    Fill(ManifestTemplate, ManifestFields(ipaUrl, meta))
  }

  /** The manifest carries the URL, bundle id, version and title verbatim and
      in that order: plain values are read back unchanged. */
  lemma ManifestRoundTrip(ipaUrl: string, meta: Meta)
    requires PlainFields(ManifestFields(ipaUrl, meta))
    ensures Parse(ManifestTemplate, ManifestXml(ipaUrl, meta)) == Some(ManifestFields(ipaUrl, meta))
  {
    ParseFill(ManifestTemplate, ManifestFields(ipaUrl, meta));
  }

  /** Nothing is escaped: a title such as `X & Y` yields a manifest the
      reader does not accept. */
  lemma ManifestTitleUnescaped(ipaUrl: string, meta: Meta)
    requires Plain(ipaUrl) && Plain(OrEmpty(meta.bundle_id)) && Plain(OrEmpty(meta.version))
    requires !Plain(OrEmpty(meta.app_name))
    ensures Parse(ManifestTemplate, ManifestXml(ipaUrl, meta)) == None
  {
    MarkupTitleRejected(ManifestTemplate, ManifestFields(ipaUrl, meta));
  }

  const Host := "https://download.khoindvn.io.vn/"

  /** The names `process_ipa` derives from one random stem. */
  datatype Upload = Upload(
    ipaName: string, plistName: string,
    ipaPath: string, plistPath: string,
    ipaUrl: string, plistUrl: string)

  function UploadFor(rand: string): (u: Upload)
    ensures u.ipaPath == "iPA/" + u.ipaName && u.plistPath == "Plist/" + u.plistName
    ensures u.ipaUrl == Host + u.ipaPath && u.plistUrl == Host + u.plistPath
    ensures EndsWith(u.ipaName, ".ipa") && EndsWith(u.plistName, ".plist")
    ensures u.ipaName[..|u.ipaName| - 4] == rand == u.plistName[..|u.plistName| - 6]
  {
    var ipaName := rand + ".ipa";
    var plistName := rand + ".plist";
    Upload(ipaName, plistName, "iPA/" + ipaName, "Plist/" + plistName,
      Host + "iPA/" + ipaName, Host + "Plist/" + plistName)
  }

  /** The IPA and its manifest share one stem: either stored path determines
      the stem, and so the other path. */
  lemma UploadPathsPaired(r1: string, r2: string)
    ensures UploadFor(r1).ipaPath == UploadFor(r2).ipaPath <==> r1 == r2
    ensures UploadFor(r1).plistPath == UploadFor(r2).plistPath <==> r1 == r2
  {
    var u1, u2 := UploadFor(r1), UploadFor(r2);
    if u1.ipaPath == u2.ipaPath {
      assert u1.ipaName == u1.ipaPath[4..] == u2.ipaName;
    }
    if u1.plistPath == u2.plistPath {
      assert u1.plistName == u1.plistPath[6..] == u2.plistName;
    }
  }

  /** The link sent to the user, before shortening. */
  function InstallLinkFor(rand: string): (r: string)
    ensures ManifestUrlOf(r) == Some(UploadFor(rand).plistUrl)
  {
    InstallLink(UploadFor(rand).plistUrl)
  }

  const WrongFormatMsg := "❌ Vui lòng gửi đúng định dạng .ipa"

  datatype DocAction = Process | Reply(text: string)

  /** `handle_docs`: only a document whose name ends in `.ipa` is processed. */
  function HandleDocs(fileName: string): (a: DocAction)
    ensures a == Process <==> EndsWith(fileName, ".ipa")
    ensures a != Process ==> a == Reply(WrongFormatMsg)
  {
    if EndsWith(fileName, ".ipa") then Process else Reply(WrongFormatMsg)
  }
}
