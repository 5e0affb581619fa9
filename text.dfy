/** String operations the bot uses, with Python's semantics: `startswith`,
    `endswith`, `str.isspace`, `strip`, `replace`, `find` and `split(sep, 1)`. */
module Text {
  import opened Wrappers

  predicate StartsWith(s: string, p: string) {
    |p| <= |s| && s[..|p|] == p
  }

  predicate EndsWith(s: string, p: string) {
    |p| <= |s| && s[|s| - |p|..] == p
  }

  lemma StartsWithPrefix(s: string, p: string, q: string)
    requires StartsWith(s, p + q)
    ensures StartsWith(s, p)
  {
  }

  lemma StartsWithAppend(s: string, t: string, p: string)
    requires StartsWith(s, p)
    ensures StartsWith(s + t, p)
  {
  }

  /** `p` occurs in `s` at index `k`. */
  predicate StartsAt(s: string, k: nat, p: string) {
    k + |p| <= |s| && s[k..k + |p|] == p
  }

  /** Python's `str.isspace` on one character: what `\s` matches in a text
      regex and what `str.strip()` removes. */
  predicate IsSpace(c: char) {
    ('\t' <= c <= '\r') || ('\U{1c}' <= c <= ' ') || c == '\U{85}' || c == '\U{a0}'
    || c == '\U{1680}' || ('\U{2000}' <= c <= '\U{200a}') || c == '\U{2028}'
    || c == '\U{2029}' || c == '\U{202f}' || c == '\U{205f}' || c == '\U{3000}'
  }

  predicate AllSpace(s: string) {
    forall i :: 0 <= i < |s| ==> IsSpace(s[i])
  }

  lemma StartsAtConcat(s: string, k: nat, a: string, b: string)
    ensures StartsAt(s, k, a + b) <==> StartsAt(s, k, a) && StartsAt(s, k + |a|, b)
  {
    if StartsAt(s, k, a) && StartsAt(s, k + |a|, b) {
      assert s[k..k + |a + b|] == s[k..k + |a|] + s[k + |a|..k + |a| + |b|];
    }
    if StartsAt(s, k, a + b) {
      assert s[k..k + |a|] == (a + b)[..|a|];
      assert s[k + |a|..k + |a| + |b|] == (a + b)[|a|..];
    }
  }

  /** The end of the longest run of whitespace starting at `i` (a greedy `\s*`). */
  function SkipSpaces(s: string, i: nat): (j: nat)
    requires i <= |s|
    ensures i <= j <= |s|
    ensures AllSpace(s[i..j])
    ensures j < |s| ==> !IsSpace(s[j])
    decreases |s| - i
  {
    if i < |s| && IsSpace(s[i]) then SkipSpaces(s, i + 1) else i
  }

  /** A greedy `\s*` facing a whitespace run `w` followed by a non-space
      character consumes exactly `w`. */
  lemma SkipSpacesExact(s: string, i: nat, w: string)
    requires StartsAt(s, i, w) && AllSpace(w)
    requires i + |w| < |s| && !IsSpace(s[i + |w|])
    ensures SkipSpaces(s, i) == i + |w|
    decreases |w|
  {
    if w != [] {
      assert s[i] == s[i..i + |w|][0] == w[0];
      assert s[i + 1..i + |w|] == s[i..i + |w|][1..];
      SkipSpacesExact(s, i + 1, w[1..]);
    }
  }

  /** The end of the longest run without `stop` starting at `i` (a greedy
      `[^c]*`). */
  function RunEnd(s: string, i: nat, stop: char): (j: nat)
    requires i <= |s|
    ensures i <= j <= |s|
    ensures stop !in s[i..j]
    ensures j < |s| ==> s[j] == stop
    decreases |s| - i
  {
    if i < |s| && s[i] != stop then RunEnd(s, i + 1, stop) else i
  }

  /** A greedy `[^c]*` facing a run `x` without `c` followed by `c` consumes
      exactly `x`. */
  lemma RunEndExact(s: string, i: nat, stop: char, x: string)
    requires StartsAt(s, i, x) && stop !in x
    requires i + |x| < |s| && s[i + |x|] == stop
    ensures RunEnd(s, i, stop) == i + |x|
    decreases |x|
  {
    if x != [] {
      assert s[i] == s[i..i + |x|][0] == x[0];
      assert s[i + 1..i + |x|] == s[i..i + |x|][1..];
      RunEndExact(s, i + 1, stop, x[1..]);
    }
  }

  /** `s.find(p, from)`: the first index at or after `from` where `p` occurs. */
  function Find(s: string, p: string, from: nat): (r: Option<nat>)
    ensures r.Some? ==> from <= r.value && StartsAt(s, r.value, p)
    ensures r.Some? ==> forall j :: from <= j < r.value ==> !StartsAt(s, j, p)
    ensures r.None? ==> forall j :: from <= j ==> !StartsAt(s, j, p)
    decreases |s| - from
  {
    if from + |p| > |s| then None
    else if StartsAt(s, from, p) then Some(from)
    else Find(s, p, from + 1)
  }

  /** The first position in `from..n` at which the matcher `m` succeeds, with
      what it captured: how `re.search` tries start positions left to right. */
  function Search(n: nat, from: nat, m: nat -> Option<string>): (r: Option<(nat, string)>)
    ensures r.Some? ==> from <= r.value.0 <= n && m(r.value.0) == Some(r.value.1)
    ensures r.Some? ==> forall j :: from <= j < r.value.0 ==> m(j).None?
    ensures r.None? ==> forall j :: from <= j <= n ==> m(j).None?
    decreases n + 1 - from
  {
    if from > n then None
    else if m(from).Some? then Some((from, m(from).value))
    else Search(n, from + 1, m)
  }

  /** The index of the first `c` in `s`. */
  function IndexOf(s: string, c: char): (r: Option<nat>)
    ensures r.None? <==> c !in s
    ensures r.Some? ==> r.value < |s| && s[r.value] == c && c !in s[..r.value]
  {
    if s == [] then None
    else if s[0] == c then Some(0)
    else match IndexOf(s[1..], c)
      case None => None
      case Some(i) =>
        assert s[..i + 1] == [s[0]] + s[1..][..i];
        Some(i + 1)
  }

  /** `s.split(c, 1)[1]`: the text after the first `c`, or `None` where Python
      raises `IndexError` because `s` has no `c`. */
  function AfterFirst(s: string, c: char): (r: Option<string>)
    ensures r.None? <==> c !in s
  {
    match IndexOf(s, c)
    case None => None
    case Some(i) => Some(s[i + 1..])
  }

  /** Splitting at the first separator recovers what followed a separator-free
      head, whatever the tail contains. */
  lemma AfterFirstJoin(h: string, c: char, t: string)
    requires c !in h
    ensures AfterFirst(h + [c] + t, c) == Some(t)
  {
    var s := h + [c] + t;
    IndexOfJoin(h, c, t);
    assert s[|h| + 1..] == t;
  }

  lemma {:induction false} IndexOfJoin(h: string, c: char, t: string)
    requires c !in h
    ensures IndexOf(h + [c] + t, c) == Some(|h|)
  {
    if h != [] {
      assert (h + [c] + t)[1..] == h[1..] + [c] + t;
      IndexOfJoin(h[1..], c, t);
    }
  }

  /** `s.replace(pat, rep)`: every non-overlapping occurrence, left to right. */
  function Replace(s: string, pat: string, rep: string): string
    requires |pat| > 0
    decreases |s|
  {
    if |s| < |pat| then s
    else if s[..|pat|] == pat then rep + Replace(s[|pat|..], pat, rep)
    else [s[0]] + Replace(s[1..], pat, rep)
  }

  /** Where `pat` does not occur, `replace` changes nothing. */
  lemma {:induction false} ReplaceAbsent(s: string, pat: string, rep: string)
    requires |pat| > 0
    requires forall k :: 0 <= k < |s| ==> !StartsAt(s, k, pat)
    ensures Replace(s, pat, rep) == s
    decreases |s|
  {
    if |s| >= |pat| {
      assert !StartsAt(s, 0, pat);
      forall k | 0 <= k < |s[1..]| ensures !StartsAt(s[1..], k, pat) {
        assert !StartsAt(s, k + 1, pat);
        if k + |pat| <= |s[1..]| {
          assert s[1..][k..k + |pat|] == s[k + 1..k + 1 + |pat|];
        }
      }
      ReplaceAbsent(s[1..], pat, rep);
    }
  }

  /** When the head cannot contain the first character of `pat`, the only
      occurrence of `pat` in `head + pat` is the final one. */
  lemma {:induction false} ReplaceTrailing(head: string, pat: string, rep: string)
    requires |pat| > 0 && pat[0] !in head
    ensures Replace(head + pat, pat, rep) == head + rep
  {
    var s := head + pat;
    if head == [] {
      assert s == pat && s[..|pat|] == pat && s[|pat|..] == [];
      assert Replace(s[|pat|..], pat, rep) == [];
    } else {
      assert s[..|pat|][0] == head[0] != pat[0];
      assert s[..|pat|] != pat;
      assert s[0] == head[0] && s[1..] == head[1..] + pat;
      assert pat[0] !in head[1..];
      ReplaceTrailing(head[1..], pat, rep);
      assert [head[0]] + (head[1..] + rep) == head + rep;
    }
  }

  /** `s.lstrip()`: everything after the leading whitespace run. */
  function TrimStart(s: string): (r: string)
    ensures |r| <= |s|
    ensures r == s[|s| - |r|..]
    ensures AllSpace(s[..|s| - |r|])
    ensures r != [] ==> !IsSpace(r[0])
  {
    var j := SkipSpaces(s, 0);
    assert s[..j] == s[0..j];
    s[j..]
  }

  /** The start of the whitespace run that ends at `j`. */
  function SpacesBefore(s: string, j: nat): (i: nat)
    requires j <= |s|
    ensures i <= j
    ensures forall k :: i <= k < j ==> IsSpace(s[k])
    ensures i > 0 ==> !IsSpace(s[i - 1])
  {
    if j > 0 && IsSpace(s[j - 1]) then SpacesBefore(s, j - 1) else j
  }

  /** A whitespace run from `i` to `j` after a non-space character is
      exactly what the backward scan passes over. */
  lemma SpacesBeforeExact(s: string, i: nat, j: nat)
    requires 0 < i <= j <= |s| && !IsSpace(s[i - 1])
    requires forall k :: i <= k < j ==> IsSpace(s[k])
    ensures SpacesBefore(s, j) == i
    decreases j - i
  {
    if i < j {
      SpacesBeforeExact(s, i, j - 1);
    }
  }

  /** `s.rstrip()`: everything before the trailing whitespace run. */
  function TrimEnd(s: string): (r: string)
    ensures |r| <= |s|
    ensures r == s[..|r|]
    ensures AllSpace(s[|r|..])
    ensures r != [] ==> !IsSpace(r[|r| - 1])
  {
    var i := SpacesBefore(s, |s|);
    assert forall k :: 0 <= k < |s| - i ==> s[i..][k] == s[i + k];
    s[..i]
  }

  /** `s.strip()`: the text between the leading and the trailing whitespace
      runs. */
  function Strip(s: string): (r: string)
    ensures exists i ::
      && 0 <= i <= |s| - |r| && r == s[i..i + |r|]
      && AllSpace(s[..i]) && AllSpace(s[i + |r|..])
    ensures r != [] ==> !IsSpace(r[0]) && !IsSpace(r[|r| - 1])
  {
    var u := TrimStart(s);
    var r := TrimEnd(u);
    var i := |s| - |u|;
    SuffixSlices(s, i, |r|);
    assert u == s[i..] && r == u[..|r|];
    assert r == s[i..i + |r|] && AllSpace(s[..i]) && AllSpace(s[i + |r|..]);
    r
  }

  lemma SuffixSlices(s: string, i: nat, n: nat)
    requires i + n <= |s|
    ensures s[i..][..n] == s[i..i + n] && s[i..][n..] == s[i + n..]
  {
  }

  lemma TrimStartSkips(w: string, rest: string)
    requires AllSpace(w) && rest != [] && !IsSpace(rest[0])
    ensures TrimStart(w + rest) == rest
  {
    var s := w + rest;
    assert s[0..|w|] == w && s[|w|] == rest[0] && s[|w|..] == rest;
    SkipSpacesExact(s, 0, w);
  }

  lemma TrimEndSkips(rest: string, w: string)
    requires AllSpace(w) && rest != [] && !IsSpace(rest[|rest| - 1])
    ensures TrimEnd(rest + w) == rest
  {
    var s := rest + w;
    assert forall k :: |rest| <= k < |s| ==> s[k] == w[k - |rest|];
    assert s[|rest| - 1] == rest[|rest| - 1] && s[..|rest|] == rest;
    SpacesBeforeExact(s, |rest|, |s|);
  }

  /** Stripping a text that begins and ends with non-space characters and is
      wrapped in whitespace gives back exactly that text. */
  lemma StripSurrounded(w1: string, body: string, w2: string)
    requires AllSpace(w1) && AllSpace(w2)
    requires body != [] && !IsSpace(body[0]) && !IsSpace(body[|body| - 1])
    ensures Strip(w1 + body + w2) == body
  {
    assert w1 + body + w2 == w1 + (body + w2);
    TrimStartSkips(w1, body + w2);
    TrimEndSkips(body, w2);
  }
}
