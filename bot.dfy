/** bot.py: the string rules of the Telegram front end of the Flask
    variant: the `.ipa` check on incoming documents, the listing of recent
    uploads, and the delete buttons and their callback data. */
module Bot {
  import opened Wrappers
  import opened Text

  const NotIpaMsg := "⚠️ Vui lòng gửi đúng file .ipa"

  datatype IpaAction = Forward | Reject(text: string)

  /** `handle_ipa`: a document is processed only when its name ends in
      `.ipa`; otherwise the user is told so and nothing else happens. */
  function HandleIpa(fileName: string): (a: IpaAction)
    ensures a == Forward <==> EndsWith(fileName, ".ipa")
    ensures a != Forward ==> a == Reject(NotIpaMsg)
  {
    if !EndsWith(fileName, ".ipa") then Reject(NotIpaMsg) else Forward
  }

  // ---------------------------------------------------------------------
  // Listing: `get_files`
  // ---------------------------------------------------------------------

  /** Python's `<` on `str`: code points compared left to right, a proper
      prefix being smaller. */
  predicate StrLt(a: string, b: string)
    decreases |a|
  {
    if a == [] then b != []
    else if b == [] then false
    else if a[0] != b[0] then a[0] < b[0]
    else StrLt(a[1..], b[1..])
  }

  predicate StrLe(a: string, b: string) {
    !StrLt(b, a)
  }

  lemma {:induction false} StrLtIrreflexive(a: string)
    ensures !StrLt(a, a)
    decreases |a|
  {
    if a != [] {
      StrLtIrreflexive(a[1..]);
    }
  }

  lemma {:induction false} StrLtTotal(a: string, b: string)
    ensures a == b || StrLt(a, b) || StrLt(b, a)
    decreases |a|
  {
    if a != [] && b != [] && a[0] == b[0] {
      StrLtTotal(a[1..], b[1..]);
      if a[1..] == b[1..] {
        assert a == [a[0]] + a[1..] && b == [b[0]] + b[1..];
      }
    }
  }

  lemma {:induction false} StrLtTransitive(a: string, b: string, c: string)
    requires StrLt(a, b) && StrLt(b, c)
    ensures StrLt(a, c)
    decreases |a|
  {
    if a != [] && a[0] == b[0] && b[0] == c[0] {
      StrLtTransitive(a[1..], b[1..], c[1..]);
    }
  }

  lemma {:induction false} StrLtAsymmetric(a: string, b: string)
    requires StrLt(a, b)
    ensures StrLe(a, b)
  {
    if StrLt(b, a) {
      StrLtTransitive(a, b, a);
      StrLtIrreflexive(a);
    }
  }

  lemma StrLeTransitive(a: string, b: string, c: string)
    requires StrLe(a, b) && StrLe(b, c)
    ensures StrLe(a, c)
  {
    StrLtTotal(a, b);
    if StrLt(c, a) && a != b {
      StrLtTransitive(c, a, b);
    }
  }

  lemma StrLeAntisymmetric(a: string, b: string)
    requires StrLe(a, b) && StrLe(b, a)
    ensures a == b
  {
    StrLtTotal(a, b);
  }

  /** `reverse=True`: every name is at least as large as those after it. */
  predicate Descending(s: seq<string>) {
    forall i, j :: 0 <= i < j < |s| ==> StrLe(s[j], s[i])
  }

  /** No name of `s` exceeds `y`. */
  predicate AllAtMost(s: seq<string>, y: string) {
    forall j :: 0 <= j < |s| ==> StrLe(s[j], y)
  }

  lemma DescendingCons(y: string, s: seq<string>)
    requires Descending(s) && AllAtMost(s, y)
    ensures Descending([y] + s)
  {
  }

  /** Whatever is at least the head of a descending list is at least all
      of it. */
  lemma AboveHead(s: seq<string>, x: string)
    requires Descending(s) && s != [] && StrLe(s[0], x)
    ensures AllAtMost(s, x)
  {
    forall j | 0 < j < |s| ensures StrLe(s[j], x) {
      StrLeTransitive(s[j], s[0], x);
    }
  }

  /** The bound depends only on which names occur. */
  lemma AllAtMostMultiset(a: seq<string>, b: seq<string>, y: string)
    requires multiset(a) == multiset(b) && AllAtMost(b, y)
    ensures AllAtMost(a, y)
  {
    forall j | 0 <= j < |a| ensures StrLe(a[j], y) {
      assert a[j] in multiset(b);
      var k :| 0 <= k < |b| && b[k] == a[j];
    }
  }

  /** Keeping the head of `s` in front of `rest`, a descending arrangement
      of the tail of `s` and a smaller `x`. */
  lemma BelowHead(x: string, s: seq<string>, rest: seq<string>)
    requires Descending(s) && s != [] && StrLt(x, s[0])
    requires Descending(rest) && multiset(rest) == multiset(s[1..]) + multiset{x}
    ensures Descending([s[0]] + rest)
    ensures multiset([s[0]] + rest) == multiset(s) + multiset{x}
  {
    assert s == [s[0]] + s[1..];
    assert AllAtMost(s[1..] + [x], s[0]) by {
      StrLtAsymmetric(x, s[0]);
    }
    assert multiset(rest) == multiset(s[1..] + [x]);
    AllAtMostMultiset(rest, s[1..] + [x], s[0]);
    DescendingCons(s[0], rest);
  }

  /** Places `x` before the first smaller-or-equal name of a descending `s`. */
  function Insert(x: string, s: seq<string>): (r: seq<string>)
    requires Descending(s)
    ensures multiset(r) == multiset(s) + multiset{x}
    ensures Descending(r)
  {
    if s == [] then [x]
    else if StrLe(s[0], x) then
      AboveHead(s, x);
      DescendingCons(x, s);
      [x] + s
    else
      var rest := Insert(x, s[1..]);
      BelowHead(x, s, rest);
      [s[0]] + rest
  }

  /** `sorted(names, reverse=True)`. */
  function SortDesc(names: seq<string>): (r: seq<string>)
    ensures multiset(r) == multiset(names)
    ensures Descending(r)
  {
    if names == [] then []
    else
      assert names == [names[0]] + names[1..];
      Insert(names[0], SortDesc(names[1..]))
  }

  /** The first name of a descending arrangement is its largest. */
  lemma HeadIsLargest(a: seq<string>, x: string)
    requires Descending(a) && x in multiset(a)
    ensures StrLe(x, a[0])
  {
    var m :| 0 <= m < |a| && a[m] == x;
    if m == 0 {
      StrLtIrreflexive(x);
    }
  }

  lemma TailMultiset(a: seq<string>, b: seq<string>)
    requires a != [] && b != [] && a[0] == b[0] && multiset(a) == multiset(b)
    ensures multiset(a[1..]) == multiset(b[1..])
  {
    assert a == [a[0]] + a[1..] && b == [b[0]] + b[1..];
    assert multiset(a) == multiset{a[0]} + multiset(a[1..]);
    assert multiset(b) == multiset{b[0]} + multiset(b[1..]);
    assert multiset(a[1..]) == multiset(a) - multiset{a[0]};
    assert multiset(b[1..]) == multiset(b) - multiset{b[0]};
  }

  /** A total order admits one descending arrangement of a multiset, so
      `SortDesc` is the order `sorted` produces, whatever its method. */
  lemma {:induction false} DescendingUnique(a: seq<string>, b: seq<string>)
    requires Descending(a) && Descending(b) && multiset(a) == multiset(b)
    ensures a == b
    decreases |a|
  {
    assert |a| == |multiset(a)| == |multiset(b)| == |b|;
    if a != [] {
      assert a[0] in multiset(a) && b[0] in multiset(b);
      HeadIsLargest(b, a[0]);
      HeadIsLargest(a, b[0]);
      StrLeAntisymmetric(a[0], b[0]);
      TailMultiset(a, b);
      DescendingUnique(a[1..], b[1..]);
      assert a == [a[0]] + a[1..] && b == [b[0]] + b[1..];
    }
  }

  const DefaultLimit := 10

  /** `files[:limit]`: a negative bound counts from the end. */
  function SliceTo(s: seq<string>, limit: int): (r: seq<string>)
    ensures 0 <= limit ==> |r| == if limit < |s| then limit else |s|
    ensures limit < 0 ==> |r| == if |s| + limit < 0 then 0 else |s| + limit
    ensures r == s[..|r|]
  {
    if 0 <= limit then (if limit < |s| then s[..limit] else s)
    else if |s| + limit < 0 then []
    else s[..|s| + limit]
  }

  /** `get_files(subdir, limit)` once the listing has answered with `status`
      and the entries' `name`s. */
  function GetFiles(status: int, names: seq<string>, limit: int := DefaultLimit): (r: seq<string>)
    ensures status != 200 ==> r == []
    ensures status == 200 ==> Descending(r) && multiset(r) <= multiset(names)
    ensures status == 200 && 0 <= limit ==> |r| == if limit < |names| then limit else |names|
  {
    if status != 200 then []
    else
      var sorted := SortDesc(names);
      var r := SliceTo(sorted, limit);
      PrefixLargest(sorted, |r|);
      assert sorted == r + sorted[|r|..];
      assert multiset(sorted) == multiset(r) + multiset(sorted[|r|..]);
      r
  }

  /** A prefix of a descending arrangement holds its largest names. */
  lemma PrefixLargest(sorted: seq<string>, n: nat)
    requires Descending(sorted) && n <= |sorted|
    ensures Descending(sorted[..n])
    ensures forall x, i | x in multiset(sorted) - multiset(sorted[..n]) && 0 <= i < n ::
      StrLe(x, sorted[i])
  {
    assert sorted == sorted[..n] + sorted[n..];
    assert multiset(sorted) == multiset(sorted[..n]) + multiset(sorted[n..]);
    forall x, i | x in multiset(sorted) - multiset(sorted[..n]) && 0 <= i < n
      ensures StrLe(x, sorted[i])
    {
      assert x in multiset(sorted[n..]);
      var j :| 0 <= j < |sorted[n..]| && sorted[n..][j] == x;
      assert sorted[n + j] == x;
    }
  }

  /** A failed listing yields no files; otherwise the largest names in
      descending order, at most `limit` of them, each kept name no smaller
      than any dropped one. */
  lemma GetFilesLargest(status: int, names: seq<string>, limit: int)
    ensures status != 200 ==> GetFiles(status, names, limit) == []
    ensures status == 200 && 0 <= limit ==>
      var r := GetFiles(status, names, limit);
      && |r| == (if limit < |names| then limit else |names|)
      && Descending(r)
      && multiset(r) <= multiset(names)
      && forall x, i | x in multiset(names) - multiset(r) && 0 <= i < |r| :: StrLe(x, r[i])
  {
    if status == 200 && 0 <= limit {
      var sorted := SortDesc(names);
      var r := GetFiles(status, names, limit);
      assert r == sorted[..|r|];
      PrefixLargest(sorted, |r|);
      assert sorted == r + sorted[|r|..];
      assert multiset(sorted) == multiset(r) + multiset(sorted[|r|..]);
    }
  }

  /** The listing agrees with any descending arrangement of the names. */
  lemma GetFilesAnySort(names: seq<string>, sorted: seq<string>, limit: int)
    requires Descending(sorted) && multiset(sorted) == multiset(names)
    ensures GetFiles(200, names, limit) == SliceTo(sorted, limit)
  {
    DescendingUnique(SortDesc(names), sorted);
  }

  // ---------------------------------------------------------------------
  // Delete buttons and `delete_callback`
  // ---------------------------------------------------------------------

  const IpaTag := "del_ipa:"
  const PlistTag := "del_plist:"

  /** The callback data of the buttons `listipa` and `listplist` show. */
  function IpaButtons(files: seq<string>): (r: seq<string>)
    ensures |r| == |files|
    ensures forall i :: 0 <= i < |r| ==> r[i] == IpaTag + files[i]
  {
    seq(|files|, i requires 0 <= i < |files| => IpaTag + files[i])
  }

  function PlistButtons(files: seq<string>): (r: seq<string>)
    ensures |r| == |files|
    ensures forall i :: 0 <= i < |r| ==> r[i] == PlistTag + files[i]
  {
    seq(|files|, i requires 0 <= i < |files| => PlistTag + files[i])
  }

  /** What a press deletes: the name shown and its repository path. */
  datatype Deletion = Deletion(fname: string, path: string)

  /** `delete_callback`: both branches take `data.split(":", 1)[1]`, which
      raises (`None`) when the data has no colon. */
  function ParseDeleteData(data: string): (r: Option<Deletion>)
    ensures r.None? <==> ':' !in data
    ensures r.Some? ==> exists h :: ':' !in h && data == h + ":" + r.value.fname
    ensures r.Some? ==>
      r.value.path == (if StartsWith(data, IpaTag) then "iPA/" else "Plist/") + r.value.fname
  {
    match AfterFirst(data, ':')
    case None => None
    case Some(rest) =>
      var i := IndexOf(data, ':').value;
      assert data == data[..i] + ":" + rest;
      if StartsWith(data, IpaTag) then Some(Deletion(rest, "iPA/" + rest))
      else Some(Deletion(rest, "Plist/" + rest))
  }

  /** An IPA button deletes the file it shows, even when its name contains
      a colon. */
  lemma IpaButtonRoundTrip(f: string)
    ensures ParseDeleteData(IpaTag + f) == Some(Deletion(f, "iPA/" + f))
  {
    var data := IpaTag + f;
    assert data == "del_ipa" + [':'] + f;
    AfterFirstJoin("del_ipa", ':', f);
    assert data[..|IpaTag|] == IpaTag;
  }

  /** A plist button deletes the file it shows under `Plist/`. */
  lemma PlistButtonRoundTrip(f: string)
    ensures ParseDeleteData(PlistTag + f) == Some(Deletion(f, "Plist/" + f))
  {
    var data := PlistTag + f;
    assert data == "del_plist" + [':'] + f;
    AfterFirstJoin("del_plist", ':', f);
    assert data[..|IpaTag|][4] == 'p' != IpaTag[4];
    assert !StartsWith(data, IpaTag);
  }

  /** Every button of a listing deletes the file on its label. */
  lemma ButtonsRoundTrip(files: seq<string>)
    ensures forall i :: 0 <= i < |files| ==>
      ParseDeleteData(IpaButtons(files)[i]) == Some(Deletion(files[i], "iPA/" + files[i]))
    ensures forall i :: 0 <= i < |files| ==>
      ParseDeleteData(PlistButtons(files)[i]) == Some(Deletion(files[i], "Plist/" + files[i]))
  {
    forall i | 0 <= i < |files|
      ensures ParseDeleteData(IpaButtons(files)[i]) == Some(Deletion(files[i], "iPA/" + files[i]))
      ensures ParseDeleteData(PlistButtons(files)[i]) == Some(Deletion(files[i], "Plist/" + files[i]))
    {
      IpaButtonRoundTrip(files[i]);
      PlistButtonRoundTrip(files[i]);
    }
  }
}
