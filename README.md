# ipa-host metadata and manifest model

A Dafny model of the deterministic core of a bot that re-hosts iOS `.ipa`
archives. The bot reads an app's name, bundle identifier, version and team
out of the archive. It stores the archive and an installer manifest under
paths that share one random stem. It then hands out an
`itms-services://?action=download-manifest&url=` install link.

The repository contains several variants of this logic. Each is modelled in
its own module:

- `MainBot` (main.py)
  - `parse_ipa`: candidate filter, plistlib → biplist → plutil decoder chain, `None` defaults, team fields from the profile's embedded plist.
  - The manifest f-string, the install link, the storage names of `process_ipa`.
  - The `.ipa` check of `handle_docs`.
- `Utils` (utils.py): `extract_info`.
  - Defaults `Unknown` / `unknown.bundle` / `1.0` / `Unknown`.
  - Regex scans for `Name` and `TeamIdentifier` in the profile text.
  - The `" (ID)"` append.
- `IpaUtils` (ipa_utils.py): `extract_ipa_info`.
  - The `for … break` search for the `.app` directory.
  - Field defaults.
  - The lazy `TeamName` scan.
  - The raising error paths.
- `App` (app.py): the pure parts of `/upload`.
  - Deriving `plist_name` with `str.replace`.
  - The stripped manifest.
  - The install URL.
- `Bot` (bot.py)
  - The `.ipa` check of `handle_ipa`.
  - `get_files` (descending sort, then Python slicing, `[]` on a non-200 status).
  - The delete buttons and the `split(":", 1)` parsing in `delete_callback`.

Shared modules:

- `Wrappers`: `Option` and `Result`.
- `Text`: Python string operations used by the source.
  - `startswith`/`endswith`.
  - `str.isspace`, as used by `\s` and `strip()`.
  - `split(c, 1)[1]` and `replace`.
  - Leftmost-match search for a regex.
- `PlistValue`: decoded plist values, Python truthiness, `or`, `dict.get` and `str()`.
- `Archive`: the zip archive as an ordered entry-name list with a read function, plus the decoder oracles.
- `Pattern`: the regex fragments the profile scans share (a literal, `\s*`, a `<string>` group that is either greedy `[^<]+` or lazy `.*?`), each with a soundness and a completeness lemma.
- `Manifest`: the installer-manifest template cut at its four placeholders, verbatim substitution, and a simplified reader of the model's own against which substitution is proved to round-trip.
  - The reader accepts as a value only *plain* text: characters that XML 1.0 character data carries unchanged.
  - Plain text has no `<` or `&`, no carriage return (XML end-of-line handling turns it into a line feed), and no `]]>`.
  - It also has no character outside the `Char` production of section 2.2 of the XML 1.0 recommendation.

Operations that change things step by step are methods with loops or
sequential updates: `ParseIpa`, `ExtractInfo`, `ExtractIpaInfo` and
`FindAppDir`. Each is proved against a specification stated over the inputs.
The pure expressions of the source are functions with lemmas.

Regular expressions are modelled per pattern. Each is tried at every start
position, left to right, and the leftmost success wins.
- `\s*` is the maximal run of whitespace characters.
- `[^<]+` is the maximal run without `<`.
- `(.*?)` without DOTALL stops at the first `</string>` and cannot cross a line end.
- `<plist.*?</plist>` with DOTALL runs from the leftmost `<plist` to the nearest `</plist>` after it.

For each pattern one lemma proves that a match has the textual shape the
pattern describes. Another proves that wherever the shape occurs, the search
finds a match there or further left.

Two behaviours of the code are worth stating on their own:
- The descriptor is the *first* entry whose name matches the path pattern.
  Candidates are not scored.
- Values go into the manifest without XML escaping.
  `MainBot.ManifestTitleUnescaped` proves the consequence: a title that is
  not plain, such as one containing `<` or `&`, yields a manifest the reader
  rejects.

## Model

| member | source | states |
|---|---|---|
| Text.SkipSpaces | utils.py:26 | `\s*` consumes the maximal run of `str.isspace` characters and stops at a non-space or the end |
| Text.Search | utils.py:26 | `re.search` semantics: the result is the first start position at which the pattern matches, and no earlier position matches |
| Text.AfterFirst | bot.py:111 | `split(":", 1)[1]` is absent (IndexError) exactly when the text has no colon |
| Text.AfterFirstJoin | bot.py:111 | splitting at the first colon recovers everything after a colon-free head, colons in the tail included |
| Text.ReplaceTrailing | app.py:48 | `replace` on a head free of the pattern's first character followed by the pattern replaces only that final occurrence |
| Text.ReplaceAbsent | app.py:48 | `replace` leaves a text in which the pattern never occurs unchanged |
| Text.TrimStart | app.py:81 | the removed prefix is all whitespace, the rest is a suffix, and it starts with a non-space |
| Text.TrimEnd | app.py:81 | the removed suffix is all whitespace, the rest is a prefix, and it ends with a non-space |
| Text.StripSurrounded | app.py:81 | `strip()` of whitespace + body + whitespace is the body when the body starts and ends with non-space |
| Text.Strip | app.py:81 | `strip()` is a contiguous part of the text with all-whitespace text on both sides, and it starts and ends with a non-space |
| PlistValue.Or | main.py:96 | Python `or`: the left value when it is truthy, otherwise the right value, even `None` |
| PlistValue.Str | main.py:167-173 | `str()` of a string is the string itself, of another scalar its text; a list renders in brackets, `[]` when empty and `['x']` for one string `x` |
| PlistValue.AppNameOf | utils.py:18 | display name when truthy; else `CFBundleName` whenever that key is present, even if falsy; else `'Unknown'` |
| Archive.FirstIndex | utils.py:11 | `next(...)` over a generator: the index of the first element satisfying the test, with none before it; `None` iff none satisfies it |
| Archive.Filter | main.py:65 | the list comprehension keeps exactly the matching names; empty iff none matches; its head is the first match |
| Manifest.InstallLink | main.py:182 | the link is the fixed `itms-services` prefix followed by the manifest URL, unchanged |
| Manifest.InstallLinkRoundTrip | main.py:182 | the manifest URL is recovered from the install link |
| Manifest.FillFrames | main.py:148-178 | any substitution into a template framed by the XML declaration and `</plist>` keeps both frames |
| Manifest.ParseFill | main.py:148-178 | substituting plain values into a well-formed template and reading back gives the same four values in order |
| Manifest.ParseSound | main.py:148-178 | every document the reader accepts is a substitution of the markup-free values it returns |
| Manifest.MarkupTitleRejected | main.py:148-178 | a title that is not plain (a `<`, `&`, carriage return, `]]>` or non-XML character) makes the document unreadable: nothing is escaped |
| MainBot.PlistCandidates | main.py:65-70 | candidates are exactly the names starting `Payload/` and ending `.app/Info.plist`; the first one is the first such name; empty iff none |
| MainBot.ProfileCandidates | main.py:101-103 | the profile candidates are exactly the names ending `.app/embedded.mobileprovision`; the first is the first such name |
| MainBot.FirstDecoderChain | main.py:74-91 | plistlib is used if it decodes, else biplist, else plutil, else the chain fails |
| MainBot.PlistSpanAt | main.py:104 | the span runs from the leftmost `<plist` to the end of the nearest `</plist>` after it; none iff no `</plist>` follows any `<plist` |
| MainBot.PlistSpan | main.py:104-107 | `m.group(0)` exists iff the pattern matches, and it is exactly the slice `PlistSpanAt` locates: from the leftmost `<plist` to the end of the nearest `</plist>` after it |
| MainBot.ParseIpa | main.py:60-117 | open error → only `error` set; no candidate → `error = "Không tìm thấy Info.plist"`, rest `None`; all decoders fail → `"Không thể đọc Info.plist"`, rest `None`; otherwise `app_name = DisplayName or Name`, ids copied or `None`; team fields only from a decodable profile span; team_id only from a non-empty list; a failing profile read records the error and keeps the fields |
| MainBot.OrEmpty | main.py:167-173 | `{x or ''}`: the empty string for a falsy or missing value, otherwise `str(x)` |
| MainBot.ManifestFields | main.py:161-173 | the manifest values are `ipa_url`, then `{x or ''}` of bundle id, version and app name |
| MainBot.ManifestXml | main.py:148-178 | the manifest opens with the XML declaration and closes with `</plist>` |
| MainBot.ManifestRoundTrip | main.py:148-178 | the manifest carries `ipa_url`, `bundle_id or ''`, `version or ''`, `app_name or ''` verbatim and in that order: plain values read back unchanged |
| MainBot.ManifestTitleUnescaped | main.py:173 | an app name with markup is embedded unescaped, so the manifest does not read back |
| MainBot.UploadFor | main.py:134-142 | `iPA/<r>.ipa` and `Plist/<r>.plist` under the host, both built from the same stem `r` |
| MainBot.UploadPathsPaired | main.py:134-142 | either storage path determines the stem and so the other path |
| MainBot.InstallLinkFor | main.py:182 | the install link points at the stored manifest's URL |
| MainBot.HandleDocs | main.py:211-217 | a document is processed iff its name ends `.ipa`; otherwise the wrong-format reply is sent |
| Pattern.LitSpacesSound | utils.py:27 | when `lit\s*` matches, the text there is the literal followed by an all-whitespace run |
| Pattern.LitSpacesComplete | utils.py:27 | after the literal, a whitespace run followed by a non-space is consumed entirely: `\s*` is greedy |
| Pattern.RunGroupSound | utils.py:26-27 | a `<string>([^<]+)</string>` match is the opening tag, a non-empty value without `<`, and the closing tag |
| Pattern.RunGroupComplete | utils.py:26-27 | wherever that shape occurs the group matches there with that value |
| Pattern.LazyGroupSound | ipa_utils.py:46 | a `<string>(.*?)</string>` match is the opening tag, a one-line value and the closing tag, and no shorter value closes |
| Pattern.LazyGroupComplete | ipa_utils.py:46 | wherever the opening tag is followed by a one-line value and the closing tag, the group matches, capturing a prefix of that value |
| Pattern.LitRunSound | utils.py:26-27 | a match of key, `\s*`, `<string>([^<]+)</string>` has that textual shape |
| Pattern.LitRunComplete | utils.py:26-27 | wherever the key, whitespace and a `<string>` value occur the pattern matches there with that value |
| Pattern.LitLazySound | ipa_utils.py:46 | a match of key, `\s*`, `<string>(.*?)</string>` has that shape with the shortest one-line value |
| Pattern.LitLazyComplete | ipa_utils.py:46 | wherever that shape occurs the pattern matches there, capturing a prefix of the value |
| Utils.NameMatchLeftmost | utils.py:26 | the search returns the leftmost occurrence of the `Name` shape and its value |
| Utils.NameMatch | utils.py:26 | `re.search` of the name pattern: the captured group at the first position where the pattern matches; none iff it matches nowhere |
| Utils.TeamIdAtSound | utils.py:27 | a `TeamIdentifier` match has the shape key, whitespace, `<array>`, whitespace, `<string>`, value, `</string>` |
| Utils.TeamIdAtComplete | utils.py:27 | wherever that shape occurs, the pattern matches there with that value |
| Utils.TeamIdMatchLeftmost | utils.py:27 | the search returns the leftmost occurrence of the `TeamIdentifier` shape and its value |
| Utils.TeamIdMatch | utils.py:27 | `re.search` of the identifier pattern: the captured group at the first position where the pattern matches; none iff it matches nowhere |
| Utils.TeamText | utils.py:28-31 | the result is exactly the name capture or `'Unknown'`, with ` (ID)` appended whenever the identifier matches, even after `'Unknown'` |
| Utils.ExtractInfo | utils.py:6-34 | defaults on an open error, a missing plist, a read or decode failure; otherwise the name rule, bundle/version stored values when present and defaults only when absent; team from the first profile, keeping earlier fields when its read fails |
| IpaUtils.FindAppDir | ipa_utils.py:24-27 | the first listing item ending `.app`; none iff no item does |
| IpaUtils.TeamNameMatchLeftmost | ipa_utils.py:46 | the search returns the leftmost match with the shortest capture; every occurrence of the shape lies at or after it, and one at the same position has the capture as a prefix |
| IpaUtils.TeamNameMatch | ipa_utils.py:46 | `re.search` of the team-name pattern: the captured group at the first position where the pattern matches; none iff it matches nowhere |
| IpaUtils.ExtractIpaInfo | ipa_utils.py:15-56 | raises on extraction failure, missing `Payload`, no `.app` directory, missing or undecodable Info.plist; otherwise exactly app_name/bundle_id/version/team_name/repo with the name rule, `unknown.bundle`/`1.0` only for absent keys, team_name `'Unknown'` unless the profile exists and matches |
| App.IpaName | app.py:47 | the stem followed by `.ipa` |
| App.PlistName | app.py:48 | a name `<stem>.ipa` whose stem has no `.` becomes `<stem>.plist` |
| App.PlistNameSharesStem | app.py:47-48 | for a six-character `[a-z0-9]` stem, `replace(".ipa", ".plist")` gives the same stem plus `.plist` |
| App.UploadPathsShareStem | app.py:47-83 | the IPA goes to `iPA/<stem>.ipa` and the manifest to `Plist/<stem>.plist` |
| App.StripMargins | app.py:55-81 | stripping the triple-quoted literal removes exactly its leading and trailing margins |
| App.PlistContent | app.py:55-81 | after `.strip()` the manifest is the template filled with the values, starting `<?xml` and ending `</plist>` |
| App.PlistContentRoundTrip | app.py:67-75 | `ipa_url`, `str(bundle_id)`, `str(version)`, `str(app_name)` are embedded verbatim and in that order: plain values read back unchanged |
| App.InstallUrl | app.py:86 | the install URL is the `itms-services` prefix followed by the manifest URL, which it gives back |
| Bot.HandleIpa | bot.py:44-48 | a document is forwarded iff its name ends `.ipa`; otherwise only the warning is sent |
| Bot.StrLtTotal | bot.py:88 | Python string order is total |
| Bot.StrLtTransitive | bot.py:88 | Python string order is transitive |
| Bot.Insert | bot.py:88 | inserting into a descending list keeps it descending and adds exactly that name |
| Bot.SortDesc | bot.py:88 | `sorted(..., reverse=True)` is a permutation of the names in descending order |
| Bot.DescendingUnique | bot.py:88 | two descending arrangements of the same names are equal, so the sort result is determined |
| Bot.SliceTo | bot.py:89 | `files[:limit]` is a prefix of length `min(limit, n)`; a negative limit drops that many names from the end |
| Bot.GetFiles | bot.py:83-89 | `get_files` with `limit` defaulting to 10: `[]` on a non-200 status; otherwise names in descending order drawn from the listing, `min(limit, n)` of them for a non-negative limit |
| Bot.GetFilesLargest | bot.py:83-89 | `[]` on a non-200 status; otherwise at most `limit` names in descending order, every kept name no smaller than any dropped one |
| Bot.GetFilesAnySort | bot.py:88-89 | the listing equals the slice of any descending arrangement of the names |
| Bot.IpaButtons | bot.py:96 | each IPA button carries `del_ipa:` + its file name |
| Bot.PlistButtons | bot.py:104 | each plist button carries `del_plist:` + its file name |
| Bot.ParseDeleteData | bot.py:110-113 | no result iff the data has no colon; the name is what follows the first colon; the path is `iPA/` + name for `del_ipa:` data, otherwise `Plist/` + name |
| Bot.IpaButtonRoundTrip | bot.py:110-111 | `del_ipa:` + `f` deletes `f` at `iPA/` + `f`, even when `f` contains `:` |
| Bot.PlistButtonRoundTrip | bot.py:112-113 | `del_plist:` + `f` deletes `f` at `Plist/` + `f` |
| Bot.ButtonsRoundTrip | bot.py:96-113 | every listed button deletes exactly the file on its label, at its folder |

## Left out

- Network calls are not modelled. This covers the GitHub contents API, is.gd shortening and the GitHub listing fetch. URLs the uploads return are parameters. A listing is its status code and the entries' names.
- Diagnostic logging on error paths is not modelled, for example the `print` of the exception at utils.py:33. It is output only and changes no result.
- Telegram and Flask dispatch, webhooks, polling, message texts with upload results (main.py:185-193, bot.py:64-73), the "no files" replies of `listipa`/`listplist`, and `time.sleep` are left out. They are I/O.
- Threading in main.py and web.py is left out. It is concurrency plumbing.
- Zip decompression, `extractall`, plistlib/biplist byte decoding, the `plutil` subprocess and UTF-8 decoding with `errors="ignore"` are given functions (`Archive.Codecs`, `Archive.Zip`, `IpaUtils.Extracted`). They are foreign code.
- `random_string` and `random.choices` are left out. The stem is a parameter, and `App.IsRandomStem` states what `random.choices` can produce.
- `estimate_time` is left out. It is float division and `ceil`.
- Environment variables are left out. `GITHUB_REPO` is the `repo` parameter of `IpaUtils.ExtractIpaInfo`.
- A decoded plist whose top level is not a dictionary is not modelled. The decoders return a map or nothing.
- Plist values other than strings and lists are carried as their `str()` text and truthiness (`PlistValue.PAtom`). Python's formatting of numbers, dates and data is not modelled.
- Manifest.Parse: the reader is a simplified reader of the model's own, not a full XML parser. It reads no entities, character references, CDATA sections or comments inside a value. Values outside plain text are rejected, not decoded.
- `PlistValue.Str` of a list quotes every string item with `'`. Python's `repr` switches to `"` for strings containing `'` and escapes control characters.
- IpaUtils.ExtractIpaInfo: a profile path that exists but cannot be read (a directory, a permission error) would raise. The model treats the profile as either readable or absent.
- Bot.GetFilesLargest: for a negative `limit` it states nothing beyond `Bot.SliceTo`, which gives the length and the prefix.
- Bot.SortDesc: the key function `lambda x: x["name"]` is applied before sorting, so records with equal names are not distinguished. Only the names are returned.
