/** Small shared vocabulary. */
module Prelude {

  datatype Option<+T> = None | Some(value: T)

  datatype Result<+T, +E> = Ok(value: T) | Err(error: E)

  /** No element or one. */
  function AsList<T>(o: Option<T>): (r: seq<T>) {
    match o case None => [] case Some(x) => [x]
  }

  function One(b: bool): nat { if b then 1 else 0 }

  /** `s` with the element at `k` taken out, as `list.pop(k)` leaves it. */
  function RemoveAt<T>(s: seq<T>, k: nat): (r: seq<T>)
    requires k < |s|
    ensures |r| == |s| - 1
    ensures multiset(r) == multiset(s) - multiset{s[k]}
  {
    assert s == s[..k] + [s[k]] + s[k + 1..];
    s[..k] + s[k + 1..]
  }

  /** `s` with `x` put before position `k`, as `list.insert(k, x)` leaves it. */
  function InsertAt<T>(s: seq<T>, k: nat, x: T): (r: seq<T>)
    requires k <= |s|
    ensures |r| == |s| + 1
    ensures multiset(r) == multiset(s) + multiset{x}
  {
    assert s == s[..k] + s[k..];
    s[..k] + [x] + s[k..]
  }

  ghost predicate Increasing(s: seq<nat>) {
    forall a, b :: 0 <= a < b < |s| ==> s[a] < s[b]
  }

  /** Sum of a sequence of integers. */
  function Sum(s: seq<int>): int {
    if s == [] then 0 else Sum(s[..|s| - 1]) + s[|s| - 1]
  }

  lemma {:induction false} SumAppend(s: seq<int>, t: seq<int>)
    ensures Sum(s + t) == Sum(s) + Sum(t)
    decreases |t|
  {
    if t == [] {
      assert s + t == s;
    } else {
      SumAppend(s, t[..|t| - 1]);
      assert (s + t)[..|s + t| - 1] == s + t[..|t| - 1];
    }
  }

  lemma {:induction false} SumUpdate(s: seq<int>, i: nat, x: int)
    requires i < |s|
    ensures Sum(s[i := x]) == Sum(s) - s[i] + x
  {
    var n := |s| - 1;
    if i < n {
      SumUpdate(s[..n], i, x);
      assert s[i := x][..n] == s[..n][i := x];
    } else {
      assert s[i := x][..n] == s[..n];
    }
  }

  lemma {:induction false} SumZero(s: seq<int>)
    requires forall i :: 0 <= i < |s| ==> s[i] == 0
    ensures Sum(s) == 0
  {
    if s != [] {
      SumZero(s[..|s| - 1]);
    }
  }

  /** Element-wise order carries over to sums, which are equal only for equal sequences. */
  lemma {:induction false} SumOrder(a: seq<int>, b: seq<int>)
    requires |a| == |b| && forall i :: 0 <= i < |a| ==> a[i] <= b[i]
    ensures Sum(a) <= Sum(b)
    ensures Sum(a) == Sum(b) <==> a == b
  {
    if a != [] {
      var n := |a| - 1;
      SumOrder(a[..n], b[..n]);
      assert a == a[..n] + [a[n]] && b == b[..n] + [b[n]];
    }
  }

  lemma {:induction false} RangeCount(n: nat, c: nat)
    ensures multiset(seq(n, i => i))[c] == if c < n then 1 else 0
  {
    if n > 0 {
      RangeCount(n - 1, c);
      assert seq(n, i => i) == seq(n - 1, i => i) + [n - 1];
    }
  }

  /** One more step of a first-in-first-out queue: out + queue stays queue + in. */
  lemma FifoExtend<T>(out: seq<T>, q: seq<T>, start: seq<T>, ins: seq<T>, dOut: seq<T>, q': seq<T>, dIn: seq<T>)
    requires out + q == start + ins && dOut + q' == q + dIn
    ensures (out + dOut) + q' == start + (ins + dIn)
  {
    calc {
      (out + dOut) + q';
      out + (dOut + q');
      out + (q + dIn);
      (out + q) + dIn;
      (start + ins) + dIn;
      start + (ins + dIn);
    }
  }

  /** An element that occurs once occurs at no second position. */
  lemma OnceDistinct<T>(s: seq<T>, a: nat, b: nat)
    requires a < b < |s| && multiset(s)[s[a]] <= 1
    ensures s[a] != s[b]
  {
    var head := s[..b];
    assert s == head + s[b..] && s[b..] == [s[b]] + s[b + 1..];
    assert head[a] in multiset(head);
    assert multiset(s) == multiset(head) + multiset{s[b]} + multiset(s[b + 1..]);
  }

  /** Naturals below m: there are at most m of them. */
  lemma {:induction false} BelowCard(s: set<nat>, m: nat)
    requires forall c :: c in s ==> c < m
    ensures |s| <= m
  {
    if m > 0 {
      BelowCard(s - {m - 1}, m - 1);
    } else {
      assert s == {};
    }
  }

  /** Position of insertion keeping `s` ordered by `key`, after every equal key. */
  function StableInsert<T>(s: seq<T>, x: T, key: T -> int): (r: seq<T>)
    ensures |r| == |s| + 1
    ensures multiset(r) == multiset(s) + multiset{x}
  {
    if s == [] then [x]
    else if key(s[|s| - 1]) <= key(x) then s + [x]
    else
      assert s == s[..|s| - 1] + [s[|s| - 1]];
      StableInsert(s[..|s| - 1], x, key) + [s[|s| - 1]]
  }

  /** Python's `sorted(s, key=key)`: stable, ascending. */
  function StableSort<T>(s: seq<T>, key: T -> int): (r: seq<T>)
    ensures |r| == |s|
    ensures multiset(r) == multiset(s)
  {
    if s == [] then []
    else
      assert s == s[..|s| - 1] + [s[|s| - 1]];
      StableInsert(StableSort(s[..|s| - 1], key), s[|s| - 1], key)
  }

  ghost predicate SortedBy<T>(s: seq<T>, key: T -> int) {
    forall i, j :: 0 <= i < j < |s| ==> key(s[i]) <= key(s[j])
  }

  lemma {:induction false} StableInsertSorted<T>(s: seq<T>, x: T, key: T -> int)
    requires SortedBy(s, key)
    ensures SortedBy(StableInsert(s, x, key), key)
  {
    if s != [] && key(s[|s| - 1]) > key(x) {
      var m := s[..|s| - 1];
      StableInsertSorted(m, x, key);
      var r := StableInsert(m, x, key);
      forall i | 0 <= i < |r| ensures key(r[i]) <= key(s[|s| - 1]) {
        assert r[i] in multiset(m) + multiset{x};
      }
    }
  }

  lemma {:induction false} StableSortSorted<T>(s: seq<T>, key: T -> int)
    ensures SortedBy(StableSort(s, key), key)
  {
    if s != [] {
      StableSortSorted(s[..|s| - 1], key);
      StableInsertSorted(StableSort(s[..|s| - 1], key), s[|s| - 1], key);
    }
  }

  /** The elements with a given key, in order. */
  function WithKey<T>(s: seq<T>, key: T -> int, v: int): (r: seq<T>) {
    if s == [] then [] else WithKey(s[..|s| - 1], key, v) + if key(s[|s| - 1]) == v then [s[|s| - 1]] else []
  }

  lemma {:induction false} StableInsertKeeps<T>(s: seq<T>, x: T, key: T -> int, v: int)
    ensures WithKey(StableInsert(s, x, key), key, v) == WithKey(s, key, v) + if key(x) == v then [x] else []
  {
    if s == [] {
      assert [x][..0] == [];
    } else if key(s[|s| - 1]) <= key(x) {
      assert (s + [x])[..|s|] == s;
    } else {
      var m := s[..|s| - 1];
      StableInsertKeeps(m, x, key, v);
      var r := StableInsert(m, x, key);
      assert (r + [s[|s| - 1]])[..|r|] == r;
    }
  }

  /** Sorting keeps elements with equal keys in their order. */
  lemma {:induction false} StableSortStable<T>(s: seq<T>, key: T -> int, v: int)
    ensures WithKey(StableSort(s, key), key, v) == WithKey(s, key, v)
  {
    if s != [] {
      StableSortStable(s[..|s| - 1], key, v);
      StableInsertKeeps(StableSort(s[..|s| - 1], key), s[|s| - 1], key, v);
    }
  }

  function MapSeq<T, U>(s: seq<T>, f: T -> U): (r: seq<U>)
    ensures |r| == |s|
    ensures forall i :: 0 <= i < |s| ==> r[i] == f(s[i])
  {
    seq(|s|, i requires 0 <= i < |s| => f(s[i]))
  }

  lemma MapSnoc<T, U>(s: seq<T>, x: T, f: T -> U)
    ensures MapSeq(s + [x], f) == MapSeq(s, f) + [f(x)]
  {
  }

  lemma {:induction false} StableInsertMap<T, U>(s: seq<T>, x: T, f: T -> U, key: T -> int, key': U -> int)
    requires forall y :: key(y) == key'(f(y))
    ensures StableInsert(MapSeq(s, f), f(x), key') == MapSeq(StableInsert(s, x, key), f)
  {
    if s == [] {
      assert MapSeq([x], f) == [f(x)];
    } else {
      var m, last := s[..|s| - 1], s[|s| - 1];
      assert MapSeq(s, f)[..|s| - 1] == MapSeq(m, f);
      if key(last) <= key(x) {
        MapSnoc(s, x, f);
      } else {
        StableInsertMap(m, x, f, key, key');
        MapSnoc(StableInsert(m, x, key), last, f);
      }
    }
  }

  /** Sorting commutes with renaming the elements, as long as the keys stay the same. */
  lemma {:induction false} StableSortMap<T, U>(s: seq<T>, f: T -> U, key: T -> int, key': U -> int)
    requires forall y :: key(y) == key'(f(y))
    ensures StableSort(MapSeq(s, f), key') == MapSeq(StableSort(s, key), f)
  {
    if s != [] {
      var m, last := s[..|s| - 1], s[|s| - 1];
      assert MapSeq(s, f)[..|s| - 1] == MapSeq(m, f);
      StableSortMap(m, f, key, key');
      StableInsertMap(StableSort(m, key), last, f, key, key');
    }
  }

  /** The lists of `ss`, one after another. */
  function Flat<T>(ss: seq<seq<T>>): (r: seq<T>) {
    if ss == [] then [] else Flat(ss[..|ss| - 1]) + ss[|ss| - 1]
  }

  lemma FlatSnoc<T>(ss: seq<seq<T>>, x: seq<T>)
    ensures Flat(ss + [x]) == Flat(ss) + x
  {
    assert (ss + [x])[..|ss|] == ss;
  }

  lemma {:induction false} FlatInsert<T>(ss: seq<seq<T>>, x: seq<T>, key: seq<T> -> int)
    ensures multiset(Flat(StableInsert(ss, x, key))) == multiset(Flat(ss)) + multiset(x)
  {
    if ss == [] || key(ss[|ss| - 1]) <= key(x) {
      FlatSnoc(ss, x);
    } else {
      var m, last := ss[..|ss| - 1], ss[|ss| - 1];
      FlatInsert(m, x, key);
      FlatSnoc(StableInsert(m, x, key), last);
    }
  }

  lemma {:induction false} FlatSort<T>(ss: seq<seq<T>>, key: seq<T> -> int)
    ensures multiset(Flat(StableSort(ss, key))) == multiset(Flat(ss))
  {
    if ss != [] {
      var m, last := ss[..|ss| - 1], ss[|ss| - 1];
      FlatSort(m, key);
      FlatInsert(StableSort(m, key), last, key);
    }
  }

  ghost predicate SameShape<T, U>(a: seq<seq<T>>, b: seq<seq<U>>) {
    |a| == |b| && forall i :: 0 <= i < |a| ==> |a[i]| == |b[i]|
  }

  lemma {:induction false} FlatLength<T, U>(a: seq<seq<T>>, b: seq<seq<U>>)
    requires SameShape(a, b)
    ensures |Flat(a)| == |Flat(b)|
  {
    if a != [] {
      FlatLength(a[..|a| - 1], b[..|b| - 1]);
    }
  }

  /** Position k of two lists of the same shape is the same place in both. */
  lemma {:induction false} FlatPlace<T, U>(a: seq<seq<T>>, b: seq<seq<U>>, k: nat) returns (i: nat, j: nat)
    requires SameShape(a, b) && k < |Flat(a)|
    ensures |Flat(a)| == |Flat(b)| && i < |a| && j < |a[i]| && j < |b[i]|
    ensures Flat(a)[k] == a[i][j] && Flat(b)[k] == b[i][j]
  {
    var n := |a| - 1;
    FlatLength(a[..n], b[..n]);
    if k < |Flat(a[..n])| {
      i, j := FlatPlace(a[..n], b[..n], k);
    } else {
      i, j := n, k - |Flat(a[..n])|;
    }
  }
}
