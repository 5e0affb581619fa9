/** The installer manifest of the `itms-services://?action=download-manifest`
    protocol, produced by substituting four values, unescaped, into a fixed
    Apple property-list template; and a reference reader for documents of
    that shape, against which the substitution is proved to round-trip. */
module Manifest {
  import opened Wrappers
  import opened Text

  /** The install link the device opens: the manifest URL appended verbatim. */
  const InstallPrefix := "itms-services://?action=download-manifest&url="

  function InstallLink(plistUrl: string): (r: string)
    ensures StartsWith(r, InstallPrefix)
    ensures r[|InstallPrefix|..] == plistUrl
  {
    InstallPrefix + plistUrl
  }

  /** The URL an install link points to; undoes `InstallLink`. */
  function ManifestUrlOf(link: string): Option<string> {
    if StartsWith(link, InstallPrefix) then Some(link[|InstallPrefix|..]) else None
  }

  lemma InstallLinkRoundTrip(plistUrl: string)
    ensures ManifestUrlOf(InstallLink(plistUrl)) == Some(plistUrl)
  {
  }

  /** The first and the last markup of every manifest. */
  const XmlOpen := "<?xml"
  const XmlDeclaration := XmlOpen + " version=\"1.0\" encoding=\"UTF-8\"?>"
  const PlistEnd := "</plist>"

  /** A manifest template cut at its four placeholders: the package URL, the
      bundle identifier, the bundle version and the title, in that order. */
  datatype Template = Template(
    head: string, afterUrl: string, afterBundle: string, afterVersion: string, tail: string)

  /** The values as they appear in the manifest. */
  datatype Fields = Fields(url: string, bundle: string, version: string, title: string)

  /** Verbatim substitution, with no escaping. */
  function Fill(t: Template, f: Fields): string {
    t.head + f.url + t.afterUrl + f.bundle + t.afterBundle + f.version + t.afterVersion
      + f.title + t.tail
  }

  /** A manifest opens with the XML declaration and closes with `</plist>`
      when its template does, whatever the values. */
  lemma FillFrames(t: Template, f: Fields)
    requires StartsWith(t.head, XmlDeclaration) && EndsWith(t.tail, PlistEnd)
    ensures StartsWith(Fill(t, f), XmlDeclaration) && EndsWith(Fill(t, f), PlistEnd)
  {
  }

  /** A character XML 1.0 keeps as it is in character data: not markup, not a
      carriage return (end-of-line handling turns it into a line feed), and
      not a control character or non-character outside the `Char` production
      of section 2.2 of the XML 1.0 recommendation. */
  predicate PlainChar(c: char) {
    && c != '<' && c != '&' && c != '\r'
    && (c == '\t' || c == '\n' || ' ' <= c)
    && c != '\U{FFFE}' && c != '\U{FFFF}'
  }

  /** `]]>` begins at `i`; section 2.4 of XML 1.0 forbids it in character
      data. */
  predicate ClosesCdata(s: string, i: nat) {
    i + 3 <= |s| && s[i] == ']' && s[i + 1] == ']' && s[i + 2] == '>'
  }

  /** Position `i` of `s` holds a plain character that does not begin `]]>`. */
  predicate PlainAt(s: string, i: nat)
    requires i < |s|
  {
    PlainChar(s[i]) && !ClosesCdata(s, i)
  }

  /** Text an XML reader gives back character for character. */
  predicate Plain(s: string) {
    forall i :: 0 <= i < |s| ==> PlainAt(s, i)
  }

  predicate PlainFields(f: Fields) {
    Plain(f.url) && Plain(f.bundle) && Plain(f.version) && Plain(f.title)
  }

  /** After each placeholder the template goes on with markup, so the end of
      every value is visible. */
  predicate WellFormed(t: Template) {
    && t.afterUrl != [] && t.afterUrl[0] == '<'
    && t.afterBundle != [] && t.afterBundle[0] == '<'
    && t.afterVersion != [] && t.afterVersion[0] == '<'
    && t.tail != [] && t.tail[0] == '<'
  }

  /** Where plain text at the start of `s` ends: at the first character
      that is not plain or where `]]>` begins. */
  function PlainRun(s: string): (n: nat)
    ensures n <= |s|
    ensures forall i :: 0 <= i < n ==> PlainAt(s, i)
    ensures n < |s| ==> !PlainAt(s, n)
  {
    if s != [] && PlainAt(s, 0) then
      var n := PlainRun(s[1..]);
      PlainAtShift(s);
      n + 1
    else 0
  }

  /** Dropping the first character shifts every position down by one. */
  lemma PlainAtShift(s: string)
    requires s != []
    ensures forall i :: 0 < i < |s| ==> (PlainAt(s, i) <==> PlainAt(s[1..], i - 1))
  {
  }

  /** The prefix before the end of a plain run is plain. */
  lemma PlainPrefix(s: string, n: nat)
    requires n <= |s|
    requires forall i :: 0 <= i < n ==> PlainAt(s, i)
    ensures Plain(s[..n])
  {
    forall i | 0 <= i < n ensures PlainAt(s[..n], i) {
      assert PlainAt(s, i);
      assert s[..n][i] == s[i];
      assert i + 2 < n ==> s[..n][i + 1] == s[i + 1] && s[..n][i + 2] == s[i + 2];
    }
  }

  /** A `]]>` starting inside `v` cannot reach into markup after it. */
  lemma CdataInside(v: string, next: string, more: string, n: nat)
    requires n < |v| && next != [] && next[0] == '<'
    requires ClosesCdata(v + next + more, n)
    ensures ClosesCdata(v, n)
  {
  }

  /** Reads one text value and the markup `next` that must follow it; yields
      the value and what comes after the markup. */
  function Field(s: string, next: string): Option<(string, string)> {
    var n := PlainRun(s);
    if StartsWith(s[n..], next) then Some((s[..n], s[n + |next|..])) else None
  }

  lemma FieldReads(v: string, next: string, more: string)
    requires Plain(v) && next != [] && next[0] == '<'
    ensures Field(v + next + more, next) == Some((v, more))
  {
    var s := v + next + more;
    var n := PlainRun(s);
    assert s[|v|] == '<' && !PlainAt(s, |v|);
    assert n <= |v|;
    if n < |v| {
      assert PlainAt(v, n) && !PlainAt(s, n);
      assert s[n] == v[n];
      if ClosesCdata(s, n) {
        CdataInside(v, next, more, n);
      }
    }
    assert s[..|v|] == v;
    assert s[|v|..] == next + more;
  }

  lemma FieldSplits(s: string, next: string)
    requires Field(s, next).Some?
    ensures var (v, more) := Field(s, next).value; s == v + next + more && Plain(v)
  {
    var n := PlainRun(s);
    var v, more := s[..n], s[n + |next|..];
    assert StartsWith(s[n..], next) && Field(s, next).value == (v, more);
    PlainPrefix(s, n);
    assert s[n..] == s[n..][..|next|] + s[n..][|next|..];
    assert s[n..][|next|..] == more;
    assert s == v + s[n..];
  }

  /** `vs[0] + seps[0] + vs[1] + seps[1] + ...` */
  function Interleave(vs: seq<string>, seps: seq<string>): string
    requires |vs| == |seps|
  {
    if vs == [] then "" else vs[0] + seps[0] + Interleave(vs[1..], seps[1..])
  }

  /** Every separator opens with markup. */
  predicate Marked(seps: seq<string>) {
    forall i :: 0 <= i < |seps| ==> seps[i] != [] && seps[i][0] == '<'
  }

  predicate AllPlain(vs: seq<string>) {
    forall i :: 0 <= i < |vs| ==> Plain(vs[i])
  }

  /** Reads one value before each separator, and then the end of the text. */
  function ReadValues(s: string, seps: seq<string>): Option<seq<string>>
    decreases |seps|
  {
    if seps == [] then (if s == [] then Some([]) else None)
    else match Field(s, seps[0])
      case None => None
      case Some((v, more)) =>
        match ReadValues(more, seps[1..])
        case None => None
        case Some(vs) => Some([v] + vs)
  }

  lemma {:induction false} ReadInterleave(vs: seq<string>, seps: seq<string>)
    requires |vs| == |seps| && Marked(seps) && AllPlain(vs)
    ensures ReadValues(Interleave(vs, seps), seps) == Some(vs)
  {
    if vs != [] {
      var more := Interleave(vs[1..], seps[1..]);
      assert Interleave(vs, seps) == vs[0] + seps[0] + more;
      FieldReads(vs[0], seps[0], more);
      assert Marked(seps[1..]) by {
        forall i | 0 <= i < |seps[1..]| ensures seps[1..][i] != [] && seps[1..][i][0] == '<' {
          assert seps[1..][i] == seps[i + 1];
        }
      }
      assert AllPlain(vs[1..]) by {
        forall i | 0 <= i < |vs[1..]| ensures Plain(vs[1..][i]) {
          assert vs[1..][i] == vs[i + 1];
        }
      }
      ReadInterleave(vs[1..], seps[1..]);
      assert [vs[0]] + vs[1..] == vs;
    }
  }

  lemma {:induction false} ReadSound(s: string, seps: seq<string>)
    requires ReadValues(s, seps).Some?
    ensures |ReadValues(s, seps).value| == |seps|
    ensures AllPlain(ReadValues(s, seps).value)
    ensures s == Interleave(ReadValues(s, seps).value, seps)
    decreases |seps|
  {
    if seps != [] {
      FieldSplits(s, seps[0]);
      var (v, more) := Field(s, seps[0]).value;
      ReadSound(more, seps[1..]);
      var vs := ReadValues(more, seps[1..]).value;
      assert ReadValues(s, seps).value == [v] + vs;
      assert ([v] + vs)[1..] == vs;
    }
  }

  /** A last value holding markup never reads back, however the text after
      that markup continues. */
  lemma {:induction false} ReadRejectsLast(vs: seq<string>, seps: seq<string>)
    requires |vs| == |seps| > 0 && Marked(seps)
    requires AllPlain(vs[..|vs| - 1]) && !Plain(vs[|vs| - 1])
    ensures ReadValues(Interleave(vs, seps), seps) == None
  {
    var more := Interleave(vs[1..], seps[1..]);
    assert Interleave(vs, seps) == vs[0] + seps[0] + more;
    if |vs| == 1 {
      var s := vs[0] + seps[0] + more;
      var k :| 0 <= k < |vs[0]| && !PlainAt(vs[0], k);
      assert s[k] == vs[0][k];
      if ClosesCdata(vs[0], k) {
        assert s[k + 1] == vs[0][k + 1] && s[k + 2] == vs[0][k + 2];
      }
      assert !PlainAt(s, k);
      var n := PlainRun(s);
      assert n <= k;
    } else {
      assert Plain(vs[..|vs| - 1][0]);
      FieldReads(vs[0], seps[0], more);
      assert Marked(seps[1..]) by {
        forall i | 0 <= i < |seps[1..]| ensures seps[1..][i] != [] && seps[1..][i][0] == '<' {
          assert seps[1..][i] == seps[i + 1];
        }
      }
      assert AllPlain(vs[1..][..|vs[1..]| - 1]) by {
        assert vs[1..][..|vs[1..]| - 1] == vs[..|vs| - 1][1..];
      }
      assert vs[1..][|vs[1..]| - 1] == vs[|vs| - 1];
      ReadRejectsLast(vs[1..], seps[1..]);
    }
  }

  function Values(f: Fields): seq<string> {
    [f.url, f.bundle, f.version, f.title]
  }

  function Separators(t: Template): seq<string> {
    [t.afterUrl, t.afterBundle, t.afterVersion, t.tail]
  }

  lemma FillInterleaves(t: Template, f: Fields)
    ensures Fill(t, f) == t.head + Interleave(Values(f), Separators(t))
  {
    var vs, seps := Values(f), Separators(t);
    assert Interleave(vs[3..], seps[3..]) == f.title + t.tail;
    assert Interleave(vs[2..], seps[2..]) == f.version + t.afterVersion + (f.title + t.tail);
    assert Interleave(vs[1..], seps[1..])
      == f.bundle + t.afterBundle + (f.version + t.afterVersion + (f.title + t.tail));
  }

  /** A reader for documents of the template's shape: each value is the
      longest run of plain text at its place, after which the template must
      continue exactly. */
  function Parse(t: Template, doc: string): Option<Fields> {
    if !StartsWith(doc, t.head) then None
    else match ReadValues(doc[|t.head|..], Separators(t))
      case Some(vs) => if |vs| == 4 then Some(Fields(vs[0], vs[1], vs[2], vs[3])) else None
      case None => None
  }

  /** Values without markup come back exactly from the manifest they were
      substituted into. */
  lemma ParseFill(t: Template, f: Fields)
    requires WellFormed(t) && PlainFields(f)
    ensures Parse(t, Fill(t, f)) == Some(f)
  {
    FillInterleaves(t, f);
    var doc := Fill(t, f);
    assert doc[|t.head|..] == Interleave(Values(f), Separators(t));
    ReadInterleave(Values(f), Separators(t));
  }

  lemma ParseReads(t: Template, doc: string)
    requires Parse(t, doc).Some?
    ensures StartsWith(doc, t.head)
    ensures ReadValues(doc[|t.head|..], Separators(t)) == Some(Values(Parse(t, doc).value))
  {
    var vs := ReadValues(doc[|t.head|..], Separators(t)).value;
    assert |vs| == 4;
    assert Values(Parse(t, doc).value) == [vs[0], vs[1], vs[2], vs[3]] == vs;
  }

  /** Whatever the reader accepts is a manifest of this template whose values
      are plain. */
  lemma ParseSound(t: Template, doc: string)
    requires Parse(t, doc).Some?
    ensures PlainFields(Parse(t, doc).value)
    ensures doc == Fill(t, Parse(t, doc).value)
  {
    var f := Parse(t, doc).value;
    ParseReads(t, doc);
    ReadSound(doc[|t.head|..], Separators(t));
    PlainValues(f);
    FillOfRest(t, f, doc);
  }

  lemma FillOfRest(t: Template, f: Fields, doc: string)
    requires StartsWith(doc, t.head)
    requires doc[|t.head|..] == Interleave(Values(f), Separators(t))
    ensures doc == Fill(t, f)
  {
    FillInterleaves(t, f);
    assert doc == t.head + doc[|t.head|..];
  }

  lemma PlainValues(f: Fields)
    requires AllPlain(Values(f))
    ensures PlainFields(f)
  {
    var vs := Values(f);
    assert Plain(vs[0]) && Plain(vs[1]) && Plain(vs[2]) && Plain(vs[3]);
  }

  /** A title that is not plain, such as `X & Y`, is not read back: the
      substituted manifest is not of the template's shape. */
  lemma MarkupTitleRejected(t: Template, f: Fields)
    requires WellFormed(t) && Plain(f.url) && Plain(f.bundle) && Plain(f.version)
    requires !Plain(f.title)
    ensures Parse(t, Fill(t, f)) == None
  {
    FillInterleaves(t, f);
    var doc := Fill(t, f);
    assert doc[|t.head|..] == Interleave(Values(f), Separators(t));
    assert Values(f)[..3] == [f.url, f.bundle, f.version];
    ReadRejectsLast(Values(f), Separators(t));
  }
}
