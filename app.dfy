/** app.py: the pure parts of the Flask `/upload` route, which names the
    uploaded files, writes the installer manifest from the metadata
    `extract_ipa_info` returned, and builds the install link. */
module App {
  import opened Wrappers
  import opened Text
  import opened PlistValue
  import opened Manifest
  import opened IpaUtils

  /** `string.ascii_lowercase + string.digits`, the alphabet of the stem. */
  predicate IsStemChar(ch: char) {
    'a' <= ch <= 'z' || '0' <= ch <= '9'
  }

  /** What `random.choices(..., k=6)` joined can produce. */
  predicate IsRandomStem(stem: string) {
    |stem| == 6 && forall i :: 0 <= i < |stem| ==> IsStemChar(stem[i])
  }

  function IpaName(stem: string): (r: string)
    ensures |r| == |stem| + 4 && r[..|stem|] == stem && EndsWith(r, ".ipa")
  {
    stem + ".ipa"
  }

  /** `ipa_name.replace(".ipa", ".plist")`: every occurrence is replaced. */
  function PlistName(ipaName: string): (r: string)
    ensures EndsWith(ipaName, ".ipa") && '.' !in ipaName[..|ipaName| - 4] ==>
      r == ipaName[..|ipaName| - 4] + ".plist"
  {
    var r := Replace(ipaName, ".ipa", ".plist");
    if EndsWith(ipaName, ".ipa") && '.' !in ipaName[..|ipaName| - 4] then
      var stem := ipaName[..|ipaName| - 4];
      assert ipaName == stem + ".ipa";
      ReplaceTrailing(stem, ".ipa", ".plist");
      r
    else r
  }

  /** For a random stem the replacement touches only the extension, so both
      files share the stem. */
  lemma PlistNameSharesStem(stem: string)
    requires IsRandomStem(stem)
    ensures PlistName(IpaName(stem)) == stem + ".plist"
  {
    assert '.' !in stem by {
      forall i | 0 <= i < |stem| ensures stem[i] != '.' {
        assert IsStemChar(stem[i]);
      }
    }
    ReplaceTrailing(stem, ".ipa", ".plist");
  }

  /** The repository paths the two uploads go to. */
  function IpaPath(ipaName: string): string {
    "iPA/" + ipaName
  }

  function PlistPath(plistName: string): string {
    "Plist/" + plistName
  }

  lemma UploadPathsShareStem(stem: string)
    requires IsRandomStem(stem)
    ensures IpaPath(IpaName(stem)) == "iPA/" + stem + ".ipa"
    ensures PlistPath(PlistName(IpaName(stem))) == "Plist/" + stem + ".plist"
  {
    PlistNameSharesStem(stem);
  }

  /** The manifest of app.py with the indentation the triple-quoted string
      keeps after its first line. */
  const AppTemplate := Template(
    XmlDeclaration + (
    "\n"
    + "    <!DOCTYPE plist PUBLIC \"-//Apple//DTD PLIST 1.0//EN\" \"http://www.apple.com/DTDs/PropertyList-1.0.dtd\">\n"
    + "    <plist version=\"1.0\">\n"
    + "    <dict>\n"
    + "        <key>items</key>\n"
    + "        <array>\n"
    + "            <dict>\n"
    + "                <key>assets</key>\n"
    + "                <array>\n"
    + "                    <dict>\n"
    + "                        <key>kind</key><string>software-package</string>\n"
    + "                        <key>url</key><string>"),
    "</string>\n"
    + "                    </dict>\n"
    + "                </array>\n"
    + "                <key>metadata</key>\n"
    + "                <dict>\n"
    + "                    <key>bundle-identifier</key><string>",
    "</string>\n"
    + "                    <key>bundle-version</key><string>",
    "</string>\n"
    + "                    <key>kind</key><string>software</string>\n"
    + "                    <key>title</key><string>",
    ("</string>\n"
    + "                </dict>\n"
    + "            </dict>\n"
    + "        </array>\n"
    + "    </dict>\n"
    + "    ") + PlistEnd)

  /** The line break and indentation before the declaration and after
      `</plist>` in the literal. */
  const Margin := "\n    "

  /** Stripping a document framed by the declaration and `</plist>` removes
      exactly the margins. */
  lemma StripMargins(body: string)
    requires StartsWith(body, XmlDeclaration) && EndsWith(body, PlistEnd)
    ensures Strip(Margin + body + Margin) == body
    ensures StartsWith(body, "<?xml") && EndsWith(body, "</plist>")
  {
    StartsWithPrefix(body, XmlOpen, XmlDeclaration[|XmlOpen|..]);
    assert body[0] == body[..|XmlOpen|][0] == XmlOpen[0] == '<';
    assert body[|body| - 1] == PlistEnd[7] == '>';
    assert !IsSpace('<') && !IsSpace('>');
    assert AllSpace(Margin);
    StripSurrounded(Margin, body, Margin);
  }

  /** The values the f-string interpolates, each through `str()`. */
  function AppFields(ipaUrl: string, info: IpaInfo): Fields {
    Fields(ipaUrl, Str(info.bundle_id), Str(info.version), Str(info.app_name))
  }

  /** The f-string before `.strip()`. */
  function RawPlistContent(ipaUrl: string, info: IpaInfo): string {
    Margin + Fill(AppTemplate, AppFields(ipaUrl, info)) + Margin
  }

  /** `plist_content`: stripping removes exactly the margins, whatever the
      values, so the text opens with the declaration and closes with
      `</plist>`. */
  function PlistContent(ipaUrl: string, info: IpaInfo): (r: string)
    ensures r == Fill(AppTemplate, AppFields(ipaUrl, info))
    ensures StartsWith(r, "<?xml") && EndsWith(r, "</plist>")
  {
    FillFrames(AppTemplate, AppFields(ipaUrl, info));
    StripMargins(Fill(AppTemplate, AppFields(ipaUrl, info)));
    Strip(RawPlistContent(ipaUrl, info))
  }

  /** The bundle id, version and title go in verbatim and in that order:
      plain values are read back unchanged. */
  lemma PlistContentRoundTrip(ipaUrl: string, info: IpaInfo)
    requires PlainFields(AppFields(ipaUrl, info))
    ensures Parse(AppTemplate, PlistContent(ipaUrl, info)) == Some(AppFields(ipaUrl, info))
  {
    ParseFill(AppTemplate, AppFields(ipaUrl, info));
  }

  /** `install_url`, before the shortener. */
  function InstallUrl(plistUrl: string): (r: string)
    ensures StartsWith(r, "itms-services://?action=download-manifest&url=")
    ensures ManifestUrlOf(r) == Some(plistUrl)
  {
    InstallLinkRoundTrip(plistUrl);
    InstallLink(plistUrl)
  }
}
