/** The pieces the profile-scanning regular expressions are built from,
    stated once for any literal: a literal followed by `\s*`, a greedy group
    `([^c]+)` between two tags, and a lazy one-line group `(.*?)` between
    two tags. For each, one lemma says that a match has the textual shape
    the piece describes and another that the shape is matched. */
module Pattern {
  import opened Wrappers
  import opened Text

  /** The tags around a plist string value. */
  const StringOpen := "<string>"
  const StringClose := "</string>"

  lemma StartsAtHead(t: string, k: nat, s: string)
    requires StartsAt(t, k, s) && s != []
    ensures k < |t| && t[k] == s[0]
  {
  }

  /** `lit\s*` tried at `p`: where the whitespace after `lit` ends. The
      run is greedy, and only the maximal run can be followed by the next,
      non-space, part of a pattern. */
  function LitSpaces(t: string, p: nat, lit: string): (r: Option<nat>)
    ensures r.Some? ==> StartsAt(t, p, lit) && p + |lit| <= r.value <= |t|
  {
    if StartsAt(t, p, lit) then Some(SkipSpaces(t, p + |lit|)) else None
  }

  lemma LitSpacesSound(t: string, p: nat, lit: string)
    requires LitSpaces(t, p, lit).Some?
    ensures var k := LitSpaces(t, p, lit).value;
      StartsAt(t, p, lit + t[p + |lit|..k]) && AllSpace(t[p + |lit|..k])
  {
  }

  lemma LitSpacesComplete(t: string, p: nat, lit: string, w: string)
    requires StartsAt(t, p, lit + w) && AllSpace(w)
    requires p + |lit| + |w| < |t| && !IsSpace(t[p + |lit| + |w|])
    ensures LitSpaces(t, p, lit) == Some(p + |lit| + |w|)
  {
    StartsAtConcat(t, p, lit, w);
    SkipSpacesExact(t, p + |lit|, w);
  }

  /** `open([^c]+)close` tried at `k`: the longest run without `stop`, which
      must be non-empty and followed by `close`. */
  function RunGroupAt(t: string, k: nat, open: string, stop: char, close: string): Option<string> {
    if !StartsAt(t, k, open) then None
    else
      var j := RunEnd(t, k + |open|, stop);
      if j > k + |open| && StartsAt(t, j, close) then Some(t[k + |open|..j]) else None
  }

  ghost predicate RunGroupShape(t: string, k: nat, open: string, stop: char, close: string, x: string) {
    StartsAt(t, k, open + x + close) && x != [] && stop !in x
  }

  lemma RunGroupSound(t: string, k: nat, open: string, stop: char, close: string)
    requires RunGroupAt(t, k, open, stop, close).Some?
    ensures RunGroupShape(t, k, open, stop, close, RunGroupAt(t, k, open, stop, close).value)
  {
  }

  /** When `close` begins with the stop character, the greedy run ends
      exactly where the shape's value does. */
  lemma RunGroupComplete(t: string, k: nat, open: string, stop: char, close: string, x: string)
    requires close != [] && close[0] == stop
    requires RunGroupShape(t, k, open, stop, close, x)
    ensures RunGroupAt(t, k, open, stop, close) == Some(x)
  {
    StartsAtConcat(t, k, open + x, close);
    StartsAtConcat(t, k, open, x);
    var e := k + |open| + |x|;
    StartsAtHead(t, e, close);
    RunEndExact(t, k + |open|, stop, x);
  }

  /** `open(.*?)close` tried at `k`, without DOTALL: the shortest run up to
      the first `close`, which must not cross a line end. */
  function LazyGroupAt(t: string, k: nat, open: string, close: string): Option<string> {
    if !StartsAt(t, k, open) then None
    else match Find(t, close, k + |open|)
      case None => None
      case Some(q) =>
        var y := t[k + |open|..q];
        if '\n' in y then None else Some(y)
  }

  /** A text the lazy group could match: a one-line value `x`, which may
      itself contain `close`. */
  ghost predicate LazyGroupShape(t: string, k: nat, open: string, close: string, x: string) {
    StartsAt(t, k, open + x + close) && '\n' !in x
  }

  /** ... and no `close` begins inside `x`, so it is the shortest. */
  ghost predicate Shortest(t: string, k: nat, open: string, close: string, x: string) {
    forall j :: k + |open| <= j < k + |open| + |x| ==> !StartsAt(t, j, close)
  }

  lemma LazyGroupSound(t: string, k: nat, open: string, close: string)
    requires LazyGroupAt(t, k, open, close).Some?
    ensures var y := LazyGroupAt(t, k, open, close).value;
      LazyGroupShape(t, k, open, close, y) && Shortest(t, k, open, close, y)
  {
  }

  /** Wherever the shape occurs the lazy group matches, capturing the value
      up to its first `close`. */
  lemma LazyGroupComplete(t: string, k: nat, open: string, close: string, x: string)
    requires LazyGroupShape(t, k, open, close, x)
    ensures LazyGroupAt(t, k, open, close).Some?
    ensures var y := LazyGroupAt(t, k, open, close).value; |y| <= |x| && x[..|y|] == y
  {
    StartsAtConcat(t, k, open + x, close);
    StartsAtConcat(t, k, open, x);
    var a := k + |open|;
    assert Find(t, close, a).Some?;
    var q := Find(t, close, a).value;
    assert q <= a + |x|;
    assert t[a..q] == x[..q - a];
  }

  // The two patterns of this shape in the profile scans: a literal, `\s*`,
  // and a `<string>` group.

  /** `lit\s*<string>([^<]+)</string>` tried at `p`. */
  function LitRunAt(t: string, p: nat, lit: string): Option<string> {
    match LitSpaces(t, p, lit)
    case None => None
    case Some(k) => RunGroupAt(t, k, StringOpen, '<', StringClose)
  }

  ghost predicate LitRunShape(t: string, p: nat, lit: string, w: string, x: string) {
    && StartsAt(t, p, lit + w) && AllSpace(w)
    && RunGroupShape(t, p + |lit| + |w|, StringOpen, '<', StringClose, x)
  }

  lemma LitRunSound(t: string, p: nat, lit: string)
    requires LitRunAt(t, p, lit).Some?
    ensures exists w :: LitRunShape(t, p, lit, w, LitRunAt(t, p, lit).value)
  {
    var k := LitSpaces(t, p, lit).value;
    LitSpacesSound(t, p, lit);
    RunGroupSound(t, k, StringOpen, '<', StringClose);
    assert LitRunShape(t, p, lit, t[p + |lit|..k], LitRunAt(t, p, lit).value);
  }

  lemma LitRunComplete(t: string, p: nat, lit: string, w: string, x: string)
    requires LitRunShape(t, p, lit, w, x)
    ensures LitRunAt(t, p, lit) == Some(x)
  {
    var k := p + |lit| + |w|;
    StartsAtHead(t, k, StringOpen + x + StringClose);
    LitSpacesComplete(t, p, lit, w);
    RunGroupComplete(t, k, StringOpen, '<', StringClose, x);
  }

  /** `lit\s*<string>(.*?)</string>` tried at `p`. */
  function LitLazyAt(t: string, p: nat, lit: string): Option<string> {
    match LitSpaces(t, p, lit)
    case None => None
    case Some(k) => LazyGroupAt(t, k, StringOpen, StringClose)
  }

  ghost predicate LitLazyShape(t: string, p: nat, lit: string, w: string, x: string) {
    && StartsAt(t, p, lit + w) && AllSpace(w)
    && LazyGroupShape(t, p + |lit| + |w|, StringOpen, StringClose, x)
  }

  lemma LitLazySound(t: string, p: nat, lit: string)
    requires LitLazyAt(t, p, lit).Some?
    ensures exists w ::
      LitLazyShape(t, p, lit, w, LitLazyAt(t, p, lit).value)
      && Shortest(t, p + |lit| + |w|, StringOpen, StringClose, LitLazyAt(t, p, lit).value)
  {
    var k := LitSpaces(t, p, lit).value;
    LitSpacesSound(t, p, lit);
    LazyGroupSound(t, k, StringOpen, StringClose);
    assert LitLazyShape(t, p, lit, t[p + |lit|..k], LitLazyAt(t, p, lit).value);
  }

  lemma LitLazyComplete(t: string, p: nat, lit: string, w: string, x: string)
    requires LitLazyShape(t, p, lit, w, x)
    ensures LitLazyAt(t, p, lit).Some?
    ensures var y := LitLazyAt(t, p, lit).value; |y| <= |x| && x[..|y|] == y
  {
    var k := p + |lit| + |w|;
    StartsAtHead(t, k, StringOpen + x + StringClose);
    LitSpacesComplete(t, p, lit, w);
    LazyGroupComplete(t, k, StringOpen, StringClose, x);
  }
}
