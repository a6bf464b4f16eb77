/** `str.split(delimiter)` and joining, with the conditions under which each undoes the other. */
module TextSplit {
  import opened Prelude

  predicate OccursAt(s: string, delim: string, i: nat) {
    i + |delim| <= |s| && s[i..i + |delim|] == delim
  }

  ghost predicate FreeOf(s: string, delim: string) {
    forall i: nat :: !OccursAt(s, delim, i)
  }

  /** First occurrence at or after `from`. */
  function Find(s: string, delim: string, from: nat): (r: Option<nat>)
    requires from <= |s|
    ensures r.Some? ==> from <= r.value && OccursAt(s, delim, r.value)
    ensures r.Some? ==> forall i: nat :: from <= i < r.value ==> !OccursAt(s, delim, i)
    ensures r.None? ==> forall i: nat :: from <= i ==> !OccursAt(s, delim, i)
    decreases |s| - from
  {
    if OccursAt(s, delim, from) then Some(from)
    else if from == |s| then None
    else Find(s, delim, from + 1)
  }

  function Split(s: string, delim: string): (pieces: seq<string>)
    requires delim != []
    ensures pieces != []
    decreases |s|
  {
    match Find(s, delim, 0)
    case None => [s]
    case Some(i) => [s[..i]] + Split(s[i + |delim|..], delim)
  }

  function Join(pieces: seq<string>, delim: string): (s: string)
    requires pieces != []
  {
    if |pieces| == 1 then pieces[0] else pieces[0] + delim + Join(pieces[1..], delim)
  }

  ghost predicate AllFree(pieces: seq<string>, delim: string) {
    forall k :: 0 <= k < |pieces| ==> FreeOf(pieces[k], delim)
  }

  /** The first character of the delimiter does not come back in it. */
  ghost predicate HeadOnce(delim: string) {
    delim != [] && forall k :: 0 < k < |delim| ==> delim[k] != delim[0]
  }

  lemma {:induction false} JoinSplit(s: string, delim: string)
    requires delim != []
    ensures Join(Split(s, delim), delim) == s
    decreases |s|
  {
    match Find(s, delim, 0)
    case None =>
    case Some(i) =>
      JoinSplit(s[i + |delim|..], delim);
      var rest := Split(s[i + |delim|..], delim);
      assert ([s[..i]] + rest)[1..] == rest;
      assert s == s[..i] + s[i..i + |delim|] + s[i + |delim|..];
  }

  lemma FreeBefore(s: string, delim: string, i: nat)
    requires delim != [] && Find(s, delim, 0) == Some(i)
    ensures FreeOf(s[..i], delim)
  {
    forall j: nat ensures !OccursAt(s[..i], delim, j) {
      if j + |delim| <= i {
        assert s[..i][j..j + |delim|] == s[j..j + |delim|];
        assert !OccursAt(s, delim, j);
      }
    }
  }

  lemma {:induction false} SplitFree(s: string, delim: string)
    requires delim != []
    ensures AllFree(Split(s, delim), delim)
    decreases |s|
  {
    match Find(s, delim, 0)
    case None =>
    case Some(i) =>
      SplitFree(s[i + |delim|..], delim);
      assert FreeOf(s[..i], delim) by { FreeBefore(s, delim, i); }
      hide FreeOf;
  }

  /** Text free of the delimiter stays so up to a delimiter put behind it. */
  lemma FindAfter(p: string, delim: string, rest: string)
    requires HeadOnce(delim) && FreeOf(p, delim)
    ensures Find(p + delim + rest, delim, 0) == Some(|p|)
  {
    var s := p + delim + rest;
    assert s[|p|..|p| + |delim|] == delim;
    assert OccursAt(s, delim, |p|);
    forall i: nat | i < |p| ensures !OccursAt(s, delim, i) {
      if i + |delim| <= |p| {
        assert s[i..i + |delim|] == p[i..i + |delim|];
        assert !OccursAt(p, delim, i);
      } else if i + |delim| <= |s| {
        assert s[i..i + |delim|][|p| - i] == s[|p|] == delim[0];
      }
    }
  }

  lemma SplitHead(p: string, delim: string, rest: string)
    requires HeadOnce(delim) && FreeOf(p, delim)
    ensures Split(p + delim + rest, delim) == [p] + Split(rest, delim)
  {
    FindAfter(p, delim, rest);
    var s := p + delim + rest;
    assert s[..|p|] == p && s[|p| + |delim|..] == rest;
  }

  /** Splitting undoes joining for pieces that do not hold the delimiter. */
  lemma {:induction false} SplitJoin(pieces: seq<string>, delim: string)
    requires pieces != [] && HeadOnce(delim) && AllFree(pieces, delim)
    ensures Split(Join(pieces, delim), delim) == pieces
    decreases |pieces|
  {
    if |pieces| == 1 {
      assert FreeOf(pieces[0], delim);
      assert pieces == [pieces[0]];
    } else {
      SplitJoin(pieces[1..], delim);
      assert FreeOf(pieces[0], delim);
      SplitHead(pieces[0], delim, Join(pieces[1..], delim));
      assert pieces == [pieces[0]] + pieces[1..];
    }
  }

  lemma {:induction false} JoinSnoc(pieces: seq<string>, last: string, delim: string)
    requires pieces != []
    ensures Join(pieces + [last], delim) == Join(pieces, delim) + delim + last
  {
    assert (pieces + [last])[1..] == pieces[1..] + [last];
    if |pieces| > 1 {
      JoinSnoc(pieces[1..], last, delim);
    } else {
      assert pieces[1..] + [last] == [last];
    }
  }

  lemma SplitStep(s: string, delim: string) returns (at: nat)
    requires delim != [] && |Split(s, delim)| > 1
    ensures OccursAt(s, delim, at) && at + |delim| <= |s|
    ensures Split(s, delim) == [s[..at]] + Split(s[at + |delim|..], delim)
  {
    hide Find;
    at := Find(s, delim, 0).value;
  }

  lemma FirstPiecePrefix(s: string, delim: string)
    requires delim != []
    ensures Split(s, delim)[0] <= s
  {
  }

  lemma BehindDelimiter(s: string, delim: string, at: nat, piece: string)
    requires OccursAt(s, delim, at) && piece <= s[at + |delim|..]
    ensures OccursAt(s, delim + piece, at)
  {
    var m, n := at + |delim|, |piece|;
    assert s[at..m + n] == s[at..m] + s[m..][..n];
  }

  lemma Deeper(s: string, from: nat, sub: string, j: nat)
    requires from <= |s| && OccursAt(s[from..], sub, j)
    ensures OccursAt(s, sub, from + j)
  {
    assert s[from..][j..j + |sub|] == s[from + j..from + j + |sub|];
  }

  /** Every piece after the first stands behind a delimiter in the text. */
  lemma {:induction false} PieceInText(s: string, delim: string, k: nat) returns (i: nat)
    requires delim != [] && 0 < k < |Split(s, delim)|
    ensures OccursAt(s, delim + Split(s, delim)[k], i)
    decreases |s|
  {
    hide *;
    var at := SplitStep(s, delim);
    var from := at + |delim|;
    var pieces := Split(s[from..], delim);
    assert k - 1 < |pieces| && Split(s, delim)[k] == pieces[k - 1];
    if k == 1 {
      FirstPiecePrefix(s[from..], delim);
      BehindDelimiter(s, delim, at, pieces[0]);
      i := at;
    } else {
      var j := PieceInText(s[from..], delim, k - 1);
      Deeper(s, from, delim + pieces[k - 1], j);
      i := from + j;
    }
  }

  lemma SplitUnfold(s: string, delim: string)
    requires delim != []
    ensures match Find(s, delim, 0)
            case None => Split(s, delim) == [s]
            case Some(i) => i + |delim| <= |s| && s == s[..i] + delim + s[i + |delim|..]
                            && Split(s, delim) == [s[..i]] + Split(s[i + |delim|..], delim)
  {
    hide Find;
    if Find(s, delim, 0).Some? {
      var i := Find(s, delim, 0).value;
      assert s == s[..i] + s[i..i + |delim|] + s[i + |delim|..];
    }
  }

  lemma FreeSplit(s: string, delim: string)
    requires delim != [] && FreeOf(s, delim)
    ensures Split(s, delim) == [s]
  {
    hide Find, OccursAt;
  }

  lemma NotFoundFree(s: string, delim: string)
    requires Find(s, delim, 0) == None
    ensures FreeOf(s, delim)
  {
  }

  lemma Regroup<T>(a: seq<T>, b: seq<T>, c: seq<T>)
    ensures (a + b) + c == a + (b + c)
  {
  }

  lemma SplitAppendStep(head: string, tail: string, delim: string, rest: string)
    requires HeadOnce(delim) && FreeOf(head, delim)
    requires Split(tail + delim + rest, delim) == Split(tail, delim) + Split(rest, delim)
    ensures Split(head + delim + tail + delim + rest, delim) == ([head] + Split(tail, delim)) + Split(rest, delim)
  {
    assert delim != [];
    hide *;
    SplitHead(head, delim, tail + delim + rest);
    Regroup(head + delim, tail, delim);
    Regroup(head + delim, tail + delim, rest);
    Regroup([head], Split(tail, delim), Split(rest, delim));
  }

  /** A delimiter in the text splits it there, whatever stands before. */
  lemma {:induction false} SplitAppend(pre: string, delim: string, rest: string)
    requires HeadOnce(delim)
    ensures Split(pre + delim + rest, delim) == Split(pre, delim) + Split(rest, delim)
    decreases |pre|
  {
    assert delim != [];
    hide *;
    SplitUnfold(pre, delim);
    match Find(pre, delim, 0)
    case None =>
      assert FreeOf(pre, delim) by { NotFoundFree(pre, delim); }
      SplitHead(pre, delim, rest);
    case Some(i) =>
      FreeBefore(pre, delim, i);
      var head, tail := pre[..i], pre[i + |delim|..];
      SplitAppend(tail, delim, rest);
      SplitAppendStep(head, tail, delim, rest);
  }

  lemma {:induction false} FindSkip(s: string, delim: string, from: nat, n: nat)
    requires delim != [] && from <= n <= |s| && forall i: nat :: from <= i < n ==> !OccursAt(s, delim, i)
    ensures Find(s, delim, from) == Find(s, delim, n)
    decreases n - from
  {
    hide OccursAt;
    if from < n {
      FindSkip(s, delim, from + 1, n);
    }
  }

  lemma OccursShift(x: string, rest: string, delim: string, i: nat)
    ensures OccursAt(x + rest, delim, |x| + i) == OccursAt(rest, delim, i)
  {
    if i + |delim| <= |rest| {
      assert (x + rest)[|x| + i..|x| + i + |delim|] == rest[i..i + |delim|];
    }
  }

  lemma {:induction false} FindShift(x: string, rest: string, delim: string, from: nat)
    requires delim != [] && from <= |rest|
    ensures Find(x + rest, delim, |x| + from) ==
              match Find(rest, delim, from) case None => None case Some(i) => Some(|x| + i)
    decreases |rest| - from
  {
    hide OccursAt;
    OccursShift(x, rest, delim, from);
    if from < |rest| {
      FindShift(x, rest, delim, from + 1);
    }
  }

  lemma LongerPieces(x: string, rest: string, i: nat, n: nat, tail: seq<string>)
    requires i + n <= |rest|
    ensures (x + rest)[|x| + i + n..] == rest[i + n..]
    ensures var pieces := [rest[..i]] + tail;
            [(x + rest)[..|x| + i]] + tail == [x + pieces[0]] + pieces[1..]
  {
    assert (x + rest)[..|x| + i] == x + rest[..i];
    assert ([rest[..i]] + tail)[1..] == tail;
  }

  lemma SplitFound(s: string, delim: string, i: nat)
    requires delim != [] && Find(s, delim, 0) == Some(i)
    ensures i + |delim| <= |s| && Split(s, delim) == [s[..i]] + Split(s[i + |delim|..], delim)
  {
    hide Find;
  }

  lemma SplitLongerFound(x: string, rest: string, delim: string, i: nat)
    requires delim != [] && Find(rest, delim, 0) == Some(i) && Find(x + rest, delim, 0) == Some(|x| + i)
    ensures var pieces := Split(rest, delim);
            Split(x + rest, delim) == [x + pieces[0]] + pieces[1..]
  {
    hide *;
    SplitFound(rest, delim, i);
    SplitFound(x + rest, delim, |x| + i);
    LongerPieces(x, rest, i, |delim|, Split(rest[i + |delim|..], delim));
  }

  /** Text in which no delimiter begins only lengthens the first piece. */
  lemma SplitLonger(x: string, rest: string, delim: string)
    requires delim != [] && forall i: nat :: i < |x| ==> !OccursAt(x + rest, delim, i)
    ensures var pieces := Split(rest, delim);
            Split(x + rest, delim) == [x + pieces[0]] + pieces[1..]
  {
    hide OccursAt, Find;
    FindSkip(x + rest, delim, 0, |x|);
    FindShift(x, rest, delim, 0);
    match Find(rest, delim, 0)
    case None =>
    case Some(i) =>
      hide *;
      SplitLongerFound(x, rest, delim, i);
  }

  /** No delimiter begins in `p` when one follows it directly. */
  ghost predicate CleanBefore(p: string, delim: string) {
    forall i: nat :: i < |p| ==> !OccursAt(p + delim, delim, i)
  }

  lemma FindAfterClean(p: string, delim: string, rest: string)
    requires delim != [] && CleanBefore(p, delim)
    ensures Find(p + delim + rest, delim, 0) == Some(|p|)
  {
    var s := p + delim + rest;
    forall i: nat | i < |p| ensures !OccursAt(s, delim, i) {
      assert !OccursAt(p + delim, delim, i);
      assert i + |delim| <= |p + delim| && s[i..i + |delim|] == (p + delim)[i..i + |delim|];
    }
    FindSkip(s, delim, 0, |p|);
    assert s[|p|..|p| + |delim|] == delim;
  }

  lemma SplitHeadClean(p: string, delim: string, rest: string)
    requires delim != [] && CleanBefore(p, delim)
    ensures Split(p + delim + rest, delim) == [p] + Split(rest, delim)
  {
    hide *;
    var s := p + delim + rest;
    FindAfterClean(p, delim, rest);
    SplitFound(s, delim, |p|);
    assert s[..|p|] == p && s[|p| + |delim|..] == rest;
  }

  /** Splitting undoes joining, for any delimiter, when no delimiter begins in a piece. */
  lemma {:induction false} SplitJoinClean(pieces: seq<string>, delim: string)
    requires pieces != [] && delim != [] && FreeOf(pieces[|pieces| - 1], delim)
    requires forall k :: 0 <= k < |pieces| - 1 ==> CleanBefore(pieces[k], delim)
    ensures Split(Join(pieces, delim), delim) == pieces
    decreases |pieces|
  {
    hide Split, CleanBefore, OccursAt;
    if |pieces| == 1 {
      SplitUnfold(pieces[0], delim);
      assert pieces == [pieces[0]];
    } else {
      SplitJoinClean(pieces[1..], delim);
      SplitHeadClean(pieces[0], delim, Join(pieces[1..], delim));
      assert pieces == [pieces[0]] + pieces[1..];
    }
  }
}
