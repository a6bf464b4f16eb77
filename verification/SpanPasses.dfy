/** The recursive passes over the span forest: conversion, which trims every end time
    in place, and gathering. */
module SpanPasses {
  import opened Prelude
  import opened SpanForest

  datatype Perfetto = Perfetto(ts: int, dur: int, pid: int)

  /** What conversion writes into the span dictionaries. */
  datatype Marks = Marks(ends: seq<int>, perfetto: seq<Option<Perfetto>>)

  /** One call of the conversion on one span, with the pid handed down to it. */
  datatype Visit = Visit(id: nat, pid: int)

  const TRIM := 1000

  ghost predicate Fits(spans: Spans, m: Marks) {
    |m.ends| == |spans| && |m.perfetto| == |spans|
  }

  /** Trim one end time and record the converted span. */
  function ConvertOne(spans: Spans, m: Marks, v: Visit): (r: Marks)
    requires Fits(spans, m)
    ensures Fits(spans, r)
  {
    if v.id >= |spans| then m
    else
      var end := m.ends[v.id] - TRIM;
      Marks(m.ends[v.id := end],
            m.perfetto[v.id := Some(Perfetto(spans[v.id].start, end - spans[v.id].start, v.pid))])
  }

  function ConvertEach(spans: Spans, m: Marks, vs: seq<Visit>): (r: Marks)
    requires Fits(spans, m)
    ensures Fits(spans, r)
  {
    if vs == [] then m else ConvertOne(spans, ConvertEach(spans, m, vs[..|vs| - 1]), vs[|vs| - 1])
  }

  function Tag(ids: seq<nat>, pid: int): (vs: seq<Visit>)
    ensures |vs| == |ids|
    ensures forall k :: 0 <= k < |ids| ==> vs[k] == Visit(ids[k], pid)
  {
    seq(|ids|, k requires 0 <= k < |ids| => Visit(ids[k], pid))
  }

  lemma {:induction false} ConvertAppend(spans: Spans, m: Marks, a: seq<Visit>, b: seq<Visit>)
    requires Fits(spans, m)
    ensures ConvertEach(spans, m, a + b) == ConvertEach(spans, ConvertEach(spans, m, a), b)
    decreases |b|
  {
    hide ConvertOne;
    if b == [] {
      assert a + b == a;
    } else {
      ConvertAppend(spans, m, a, b[..|b| - 1]);
      assert (a + b)[..|a + b| - 1] == a + b[..|b| - 1];
    }
  }

  function Untrimmed(spans: Spans): (m: Marks)
    ensures Fits(spans, m)
    ensures forall i :: 0 <= i < |spans| ==> m.ends[i] == spans[i].end && m.perfetto[i] == None
  {
    Marks(seq(|spans|, i requires 0 <= i < |spans| => spans[i].end), seq(|spans|, _ => None))
  }

  lemma ListStep(spans: Spans, m: Marks, cs: seq<nat>, pid: int, d: nat, k: nat)
    requires Level(spans, cs, d) && k < |cs| && Fits(spans, m)
    ensures var before := ConvertEach(spans, m, Tag(ForestOrder(spans, cs[..k], d), pid));
            ConvertEach(spans, before, Tag(Preorder(spans, cs[k], d), pid))
            == ConvertEach(spans, m, Tag(ForestOrder(spans, cs[..k + 1], d), pid))
  {
    hide Preorder, ConvertEach;
    assert cs[..k + 1][..k] == cs[..k];
    var a, b := Tag(ForestOrder(spans, cs[..k], d), pid), Tag(Preorder(spans, cs[k], d), pid);
    ConvertAppend(spans, m, a, b);
    assert a + b == Tag(ForestOrder(spans, cs[..k + 1], d), pid);
  }

  /** The conversion calls made for one thread, which hands its own pid down. */
  ghost function OneThread(spans: Spans, t: nat): (vs: seq<Visit>)
    requires Grounded(spans, t) && Depth(spans, t) == 1
  {
    ChildrenLevel(spans, t);
    Tag(ForestOrder(spans, Children(spans, t), 2), spans[t].pid)
  }

  ghost function ThreadVisits(spans: Spans, ts: seq<nat>): (vs: seq<Visit>)
    requires Level(spans, ts, 1)
  {
    if ts == [] then [] else ThreadVisits(spans, ts[..|ts| - 1]) + OneThread(spans, ts[|ts| - 1])
  }

  ghost function AllVisits(spans: Spans): (vs: seq<Visit>) {
    TopsLevel(spans);
    ThreadVisits(spans, Threads(spans))
  }

  /** The conversion calls for a list of requests. */
  ghost function RequestVisits(spans: Spans, roots: seq<nat>): (vs: seq<Visit>)
    requires Level(spans, roots, 0)
  {
    FlatLevel(spans, roots, 0);
    ThreadVisits(spans, FlatChildren(spans, roots))
  }

  lemma NoThreads(spans: Spans)
    ensures FlatChildren(spans, []) == [] && ThreadVisits(spans, []) == []
  {
  }

  lemma RequestVisitsEnds(spans: Spans, m: Marks, roots: seq<nat>)
    requires Level(spans, roots, 0) && roots == Roots(spans) && Fits(spans, m)
    ensures roots[..0] == [] && ConvertEach(spans, m, RequestVisits(spans, [])) == m
    ensures roots[..|roots|] == roots && RequestVisits(spans, roots) == AllVisits(spans)
  {
    hide ThreadVisits;
    assert RequestVisits(spans, []) == [] by { NoThreads(spans); }
  }

  lemma LevelParts(spans: Spans, a: seq<nat>, b: seq<nat>, d: nat)
    requires Level(spans, a, d) && Level(spans, b, d)
    ensures Level(spans, a + b, d)
    ensures b != [] ==> Level(spans, b[..|b| - 1], d) && (a + b)[..|a + b| - 1] == a + b[..|b| - 1]
    ensures b == [] ==> a + b == a
  {
    hide Grounded;
  }

  lemma {:induction false} ThreadVisitsAppend(spans: Spans, a: seq<nat>, b: seq<nat>)
    requires Level(spans, a, 1) && Level(spans, b, 1)
    ensures Level(spans, a + b, 1)
    ensures ThreadVisits(spans, a + b) == ThreadVisits(spans, a) + ThreadVisits(spans, b)
    decreases |b|
  {
    hide OneThread;
    LevelParts(spans, a, b, 1);
    if b != [] {
      var n := |b| - 1;
      ThreadVisitsAppend(spans, a, b[..n]);
      var x, y, z := ThreadVisits(spans, a), ThreadVisits(spans, b[..n]), OneThread(spans, b[n]);
      assert (x + y) + z == x + (y + z);
    }
  }

  lemma RequestStep(spans: Spans, m: Marks, roots: seq<nat>, k: nat)
    requires Level(spans, roots, 0) && k < |roots| && Fits(spans, m)
    ensures Level(spans, Children(spans, roots[k]), 1)
    ensures var before := ConvertEach(spans, m, RequestVisits(spans, roots[..k]));
            ConvertEach(spans, before, ThreadVisits(spans, Children(spans, roots[k])))
            == ConvertEach(spans, m, RequestVisits(spans, roots[..k + 1]))
  {
    hide ConvertEach, ThreadVisits, Children;
    ChildrenLevel(spans, roots[k]);
    FlatLevel(spans, roots[..k], 0);
    var a, b := FlatChildren(spans, roots[..k]), Children(spans, roots[k]);
    assert roots[..k + 1][..k] == roots[..k];
    ThreadVisitsAppend(spans, a, b);
    ConvertAppend(spans, m, ThreadVisits(spans, a), ThreadVisits(spans, b));
  }

  function SetAll(tids: seq<nat>, ids: seq<nat>, line: nat): (r: seq<nat>)
    ensures |r| == |tids|
  {
    if ids == [] then tids
    else
      var r, last := SetAll(tids, ids[..|ids| - 1], line), ids[|ids| - 1];
      if last < |r| then r[last := line] else r
  }

  lemma {:induction false} SetAllAppend(tids: seq<nat>, a: seq<nat>, b: seq<nat>, line: nat)
    ensures SetAll(tids, a + b, line) == SetAll(SetAll(tids, a, line), b, line)
    decreases |b|
  {
    if b == [] {
      assert a + b == a;
    } else {
      SetAllAppend(tids, a, b[..|b| - 1], line);
      assert (a + b)[..|a + b| - 1] == a + b[..|b| - 1];
    }
  }

  ghost function LinesSet(spans: Spans, tids: seq<nat>, order: seq<nat>, lines: seq<nat>): (r: seq<nat>)
    requires Level(spans, order, 2) && |lines| == |order|
    ensures |r| == |tids|
  {
    if order == [] then tids
    else
      var n := |order| - 1;
      SetAll(LinesSet(spans, tids, order[..n], lines[..n]), Preorder(spans, order[n], 2), lines[n])
  }

  lemma OrderLevel(spans: Spans, order: seq<nat>)
    requires multiset(order) == multiset(Tops(spans))
    ensures Level(spans, order, 2)
  {
    TopsLevel(spans);
    forall c | c in order ensures Grounded(spans, c) && Depth(spans, c) == 2 {
      assert c in multiset(Tops(spans));
    }
  }

  class TraceSpans {
    const spans: Spans
    const child: seq<seq<nat>>
    var ends: seq<int>
    var perfetto: seq<Option<Perfetto>>
    var tids: seq<nat>

    ghost function View(): Marks
      reads this
    {
      Marks(ends, perfetto)
    }

    ghost predicate Valid()
      reads this
    {
      && Fits(spans, View())
      && |tids| == |spans|
      && |child| == |spans|
      && forall p :: 0 <= p < |spans| ==> child[p] == Children(spans, p)
    }

    constructor (spans: Spans, child: seq<seq<nat>>)
      requires |child| == |spans| && forall p :: 0 <= p < |spans| ==> child[p] == Children(spans, p)
      ensures Valid() && View() == Untrimmed(spans) && this.spans == spans
    {
      this.spans, this.child := spans, child;
      ends := seq(|spans|, i requires 0 <= i < |spans| => spans[i].end);
      perfetto := seq(|spans|, _ => None);
      tids := seq(|spans|, _ => 0);
    }

    /** Trim the end of one span and record its conversion. */
    method Mark(i: nat, pid: int)
      requires Valid() && i < |spans|
      modifies this
      ensures Valid() && View() == ConvertEach(spans, old(View()), [Visit(i, pid)])
    {
      ends := ends[i := ends[i] - TRIM];
      perfetto := perfetto[i := Some(Perfetto(spans[i].start, ends[i] - spans[i].start, pid))];
      assert [Visit(i, pid)][..0] == [];
    }

    /** `__convert_to_perfetto_span`: this span, then its children one after another. */
    method Convert(i: nat, pid: int, ghost d: nat)
      requires Valid() && Grounded(spans, i) && Depth(spans, i) == d
      modifies this
      ensures Valid()
      ensures View() == ConvertEach(spans, old(View()), Tag(Preorder(spans, i, d), pid))
      decreases |spans| - d, 0
    {
      hide Children, ConvertEach;
      ChildrenLevel(spans, i);
      Mark(i, pid);
      ConvertList(child[i], pid, d + 1);
      ghost var rest := Tag(ForestOrder(spans, Children(spans, i), d + 1), pid);
      ConvertAppend(spans, old(View()), [Visit(i, pid)], rest);
      assert [Visit(i, pid)] + rest == Tag(Preorder(spans, i, d), pid);
    }

    method ConvertList(cs: seq<nat>, pid: int, ghost d: nat)
      requires Valid() && Level(spans, cs, d)
      modifies this
      ensures Valid()
      ensures View() == ConvertEach(spans, old(View()), Tag(ForestOrder(spans, cs, d), pid))
      decreases |spans| - d, 1 + |cs|
    {
      hide Preorder, ConvertOne;
      ghost var m0 := View();
      for k := 0 to |cs|
        invariant Valid()
        invariant View() == ConvertEach(spans, m0, Tag(ForestOrder(spans, cs[..k], d), pid))
      {
        DepthBound(spans, cs[k]);
        Convert(cs[k], pid, d);
        ListStep(spans, m0, cs, pid, d, k);
      }
      assert cs[..|cs|] == cs;
    }

    /** The threads of one request: convert what hangs below each and collect it. */
    method ConvertThreads(ts: seq<nat>) returns (tops: seq<nat>)
      requires Valid() && Level(spans, ts, 1)
      modifies this
      ensures Valid()
      ensures View() == ConvertEach(spans, old(View()), ThreadVisits(spans, ts))
      ensures tops == FlatChildren(spans, ts)
    {
      hide ConvertOne, Children;
      tops := [];
      for k := 0 to |ts|
        invariant Valid()
        invariant View() == ConvertEach(spans, old(View()), ThreadVisits(spans, ts[..k]))
        invariant tops == FlatChildren(spans, ts[..k])
      {
        ChildrenLevel(spans, ts[k]);
        ConvertList(child[ts[k]], spans[ts[k]].pid, 2);
        tops := tops + child[ts[k]];
        assert ts[..k + 1][..k] == ts[..k];
        ConvertAppend(spans, old(View()), ThreadVisits(spans, ts[..k]),
                      Tag(ForestOrder(spans, Children(spans, ts[k]), 2), spans[ts[k]].pid));
      }
      assert ts[..|ts|] == ts;
    }

    /** `generate_perfetto_span` over the engine's requests. */
    method ConvertRequests(roots: seq<nat>) returns (tops: seq<seq<nat>>)
      requires Valid() && roots == Roots(spans)
      modifies this
      ensures Valid()
      ensures View() == ConvertEach(spans, old(View()), AllVisits(spans))
      ensures |tops| == |roots|
      ensures forall k :: 0 <= k < |roots| ==> tops[k] == FlatChildren(spans, Children(spans, roots[k]))
    {
      hide ConvertEach, Children, FlatChildren, RequestVisits, AllVisits, ThreadVisits, Roots;
      TopsLevel(spans);
      tops := [];
      RequestVisitsEnds(spans, View(), roots);
      for k := 0 to |roots|
        invariant Valid()
        invariant View() == ConvertEach(spans, old(View()), RequestVisits(spans, roots[..k]))
        invariant |tops| == k
        invariant forall i :: 0 <= i < k ==> tops[i] == FlatChildren(spans, Children(spans, roots[i]))
      {
        ChildrenLevel(spans, roots[k]);
        var top := ConvertThreads(child[roots[k]]);
        tops := tops + [top];
        RequestStep(spans, old(View()), roots, k);
      }
    }

    /** `__set_span_tid`: the span and everything below it get the line. */
    method SetTid(i: nat, line: nat, ghost d: nat)
      requires Valid() && Grounded(spans, i) && Depth(spans, i) == d
      modifies `tids
      ensures Valid() && tids == SetAll(old(tids), Preorder(spans, i, d), line)
      decreases |spans| - d, 0
    {
      hide Children;
      ChildrenLevel(spans, i);
      tids := tids[i := line];
      assert tids == SetAll(old(tids), [i], line) by { assert [i][..0] == []; }
      SetTidList(child[i], line, d + 1);
      SetAllAppend(old(tids), [i], ForestOrder(spans, Children(spans, i), d + 1), line);
    }

    method SetTidList(cs: seq<nat>, line: nat, ghost d: nat)
      requires Valid() && Level(spans, cs, d)
      modifies `tids
      ensures Valid() && tids == SetAll(old(tids), ForestOrder(spans, cs, d), line)
      decreases |spans| - d, 1 + |cs|
    {
      hide Preorder;
      for k := 0 to |cs|
        invariant Valid() && tids == SetAll(old(tids), ForestOrder(spans, cs[..k], d), line)
      {
        DepthBound(spans, cs[k]);
        SetTid(cs[k], line, d);
        assert cs[..k + 1][..k] == cs[..k];
        SetAllAppend(old(tids), ForestOrder(spans, cs[..k], d), Preorder(spans, cs[k], d), line);
      }
      assert cs[..|cs|] == cs;
    }

    /** The layout hands each laid-out span its line. */
    method SetLines(order: seq<nat>, lines: seq<nat>)
      requires Valid() && Level(spans, order, 2) && |lines| == |order|
      modifies `tids
      ensures Valid() && tids == LinesSet(spans, old(tids), order, lines)
    {
      hide Preorder, SetAll;
      for k := 0 to |order|
        invariant Valid() && tids == LinesSet(spans, old(tids), order[..k], lines[..k])
      {
        SetTid(order[k], lines[k], 2);
        assert order[..k + 1][..k] == order[..k] && lines[..k + 1][..k] == lines[..k];
      }
      assert order[..|order|] == order && lines[..|lines|] == lines;
    }

    /** `__gather_one_span`. */
    method GatherOne(i: nat, ghost d: nat) returns (ids: seq<nat>)
      requires Valid() && Grounded(spans, i) && Depth(spans, i) == d
      ensures ids == Preorder(spans, i, d)
      decreases |spans| - d, 0
    {
      hide Children;
      ChildrenLevel(spans, i);
      var rest := GatherList(child[i], d + 1);
      ids := [i] + rest;
    }

    method GatherList(cs: seq<nat>, ghost d: nat) returns (ids: seq<nat>)
      requires Valid() && Level(spans, cs, d)
      ensures ids == ForestOrder(spans, cs, d)
      decreases |spans| - d, 1 + |cs|
    {
      hide Preorder;
      ids := [];
      for k := 0 to |cs|
        invariant ids == ForestOrder(spans, cs[..k], d)
      {
        DepthBound(spans, cs[k]);
        var one := GatherOne(cs[k], d);
        ids := ids + one;
        assert cs[..k + 1][..k] == cs[..k];
      }
      assert cs[..|cs|] == cs;
    }

    /** `gather_all_perfetto_elems` on the laid-out spans, which layout may have reordered. */
    method GatherAll(order: seq<nat>) returns (ids: seq<nat>)
      requires Valid() && multiset(order) == multiset(Tops(spans))
      ensures Level(spans, order, 2) && ids == ForestOrder(spans, order, 2)
      ensures forall j :: 0 <= j < |spans| ==> multiset(ids)[j] == if Emitted(spans, j) then 1 else 0
    {
      hide ForestOrder, Tops, Emitted;
      assert Level(spans, order, 2) by { OrderLevel(spans, order); }
      ids := GatherList(order, 2);
      forall j | 0 <= j < |spans| ensures multiset(ids)[j] == if Emitted(spans, j) then 1 else 0 {
        EmittedExactlyOnce(spans, order, j);
      }
    }
  }

  // ----- what conversion leaves behind -------------------------------------

  function Ids(vs: seq<Visit>): (r: seq<nat>)
    ensures |r| == |vs|
    ensures forall k :: 0 <= k < |vs| ==> r[k] == vs[k].id
  {
    seq(|vs|, k requires 0 <= k < |vs| => vs[k].id)
  }

  lemma IdsSnoc(vs: seq<Visit>)
    requires vs != []
    ensures Ids(vs) == Ids(vs[..|vs| - 1]) + [vs[|vs| - 1].id]
  {
  }

  /** Each visit of a span takes 1000 ns off its end. */
  lemma {:induction false} TrimPerVisit(spans: Spans, m: Marks, vs: seq<Visit>, j: nat)
    requires Fits(spans, m) && j < |spans|
    ensures ConvertEach(spans, m, vs).ends[j] == m.ends[j] - TRIM * multiset(Ids(vs))[j]
  {
    if vs != [] {
      TrimPerVisit(spans, m, vs[..|vs| - 1], j);
      IdsSnoc(vs);
    }
  }

  /** A span visited only with one pid ends with that pid and its trimmed duration. */
  lemma {:induction false} RecordOfVisits(spans: Spans, m: Marks, vs: seq<Visit>, j: nat, pid: int)
    requires Fits(spans, m) && j < |spans|
    requires forall v :: v in vs && v.id == j ==> v.pid == pid
    ensures var r := ConvertEach(spans, m, vs);
            r.perfetto[j] == if multiset(Ids(vs))[j] == 0 then m.perfetto[j]
                             else Some(Perfetto(spans[j].start, r.ends[j] - spans[j].start, pid))
  {
    if vs != [] {
      RecordOfVisits(spans, m, vs[..|vs| - 1], j, pid);
      IdsSnoc(vs);
    }
  }

  lemma {:induction false} ForestAppend(spans: Spans, a: seq<nat>, b: seq<nat>, d: nat)
    requires Level(spans, a, d) && Level(spans, b, d)
    ensures Level(spans, a + b, d)
    ensures ForestOrder(spans, a + b, d) == ForestOrder(spans, a, d) + ForestOrder(spans, b, d)
    decreases |b|
  {
    hide Preorder, Grounded, Level;
    LevelParts(spans, a, b, d);
    if b != [] {
      ForestAppend(spans, a, b[..|b| - 1], d);
    }
  }

  lemma {:induction false} VisitedIds(spans: Spans, ts: seq<nat>)
    requires Level(spans, ts, 1)
    ensures Level(spans, FlatChildren(spans, ts), 2)
    ensures Ids(ThreadVisits(spans, ts)) == ForestOrder(spans, FlatChildren(spans, ts), 2)
  {
    hide Children, Grounded, Preorder;
    FlatLevel(spans, ts, 1);
    if ts != [] {
      var n := |ts| - 1;
      VisitedIds(spans, ts[..n]);
      ChildrenLevel(spans, ts[n]);
      FlatLevel(spans, ts[..n], 1);
      var a, b := FlatChildren(spans, ts[..n]), Children(spans, ts[n]);
      ForestAppend(spans, a, b, 2);
      var f := Tag(ForestOrder(spans, b, 2), spans[ts[n]].pid);
      assert Ids(ThreadVisits(spans, ts[..n]) + f) == Ids(ThreadVisits(spans, ts[..n])) + Ids(f);
      assert Ids(f) == ForestOrder(spans, b, 2);
    }
  }

  /** Every visit below a thread carries the pid of the visited span's own thread. */
  lemma {:induction false} VisitPid(spans: Spans, ts: seq<nat>, v: Visit)
    requires Level(spans, ts, 1) && v in ThreadVisits(spans, ts) && v.id < |spans|
    ensures Emitted(spans, v.id) && v.pid == spans[AncestorAt(spans, v.id, 1)].pid
  {
    hide ForestOrder, Grounded, Children, AncestorAt;
    var n := |ts| - 1;
    ChildrenLevel(spans, ts[n]);
    var cs := Children(spans, ts[n]);
    var last := Tag(ForestOrder(spans, cs, 2), spans[ts[n]].pid);
    if v in last {
      assert v.id in ForestOrder(spans, cs, 2);
      assert v.id in multiset(ForestOrder(spans, cs, 2));
      ForestCount(spans, cs, 2, v.id);
      assert AncestorAt(spans, v.id, 2) in multiset(cs);
      AncestorStep(spans, v.id, 1);
    } else {
      VisitPid(spans, ts[..n], v);
    }
  }

  lemma VisitedOnce(spans: Spans, j: nat)
    requires j < |spans|
    ensures multiset(Ids(AllVisits(spans)))[j] == if Emitted(spans, j) then 1 else 0
  {
    hide ThreadVisits, ForestOrder, Emitted, FlatChildren;
    TopsLevel(spans);
    VisitedIds(spans, Threads(spans));
    EmittedExactlyOnce(spans, Tops(spans), j);
  }

  lemma AllVisitsPid(spans: Spans, v: Visit)
    requires v in AllVisits(spans) && v.id < |spans|
    ensures Emitted(spans, v.id) && v.pid == spans[AncestorAt(spans, v.id, 1)].pid
  {
    hide ThreadVisits, AncestorAt, Threads;
    TopsLevel(spans);
    VisitPid(spans, Threads(spans), v);
  }

  ghost function Converted(spans: Spans): (m: Marks)
    ensures Fits(spans, m)
  {
    ConvertEach(spans, Untrimmed(spans), AllVisits(spans))
  }

  /** After conversion a span two or more levels below a request has lost exactly 1000 ns;
      every other span ends as it was read. */
  lemma TrimmedOnce(spans: Spans, j: nat)
    requires j < |spans|
    ensures Converted(spans).ends[j] == if Emitted(spans, j) then spans[j].end - 1000 else spans[j].end
  {
    hide ConvertEach, AllVisits, Emitted;
    VisitedOnce(spans, j);
    TrimPerVisit(spans, Untrimmed(spans), AllVisits(spans), j);
  }

  /** The emitted record of such a span holds its start, its trimmed length and the pid of the
      thread above it; no other span gets a record. */
  lemma RecordedOnce(spans: Spans, j: nat)
    requires j < |spans|
    ensures Converted(spans).perfetto[j] ==
              if Emitted(spans, j) then
                Some(Perfetto(spans[j].start, spans[j].end - 1000 - spans[j].start, spans[AncestorAt(spans, j, 1)].pid))
              else None
  {
    hide ConvertEach, AllVisits, AncestorAt, Grounded, Ids;
    var vs := AllVisits(spans);
    VisitedOnce(spans, j);
    var pid := if Emitted(spans, j) then spans[AncestorAt(spans, j, 1)].pid else 0;
    forall v | v in vs && v.id == j ensures v.pid == pid {
      AllVisitsPid(spans, v);
    }
    RecordOfVisits(spans, Untrimmed(spans), vs, j, pid);
    TrimmedOnce(spans, j);
  }

  // ----- lines for whole subtrees ------------------------------------------------------------

  lemma {:induction false} SetAllAt(tids: seq<nat>, ids: seq<nat>, line: nat, j: nat)
    requires j < |tids|
    ensures SetAll(tids, ids, line)[j] == if j in ids then line else tids[j]
  {
    if ids != [] {
      SetAllAt(tids, ids[..|ids| - 1], line, j);
      assert ids == ids[..|ids| - 1] + [ids[|ids| - 1]];
    }
  }

  lemma {:induction false} LinesSetAt(spans: Spans, tids: seq<nat>, order: seq<nat>, lines: seq<nat>, j: nat, k: nat)
    requires Level(spans, order, 2) && |lines| == |order| && |tids| == |spans| && j < |spans|
    requires forall a, b :: 0 <= a < b < |order| ==> order[a] != order[b]
    requires Emitted(spans, j) && k < |order| && order[k] == AncestorAt(spans, j, 2)
    ensures LinesSet(spans, tids, order, lines)[j] == lines[k]
    decreases |order|
  {
    hide Preorder, AncestorAt, SetAll, Grounded;
    var n := |order| - 1;
    var before := LinesSet(spans, tids, order[..n], lines[..n]);
    PreorderCount(spans, order[n], 2, j);
    SetAllAt(before, Preorder(spans, order[n], 2), lines[n], j);
    assert j in Preorder(spans, order[n], 2) <==> j in multiset(Preorder(spans, order[n], 2));
    if k < n {
      LinesSetAt(spans, tids, order[..n], lines[..n], j, k);
    }
  }

  lemma TopsDistinct(spans: Spans, order: seq<nat>, a: nat, b: nat)
    requires multiset(order) == multiset(Tops(spans)) && a < b < |order|
    ensures order[a] != order[b]
  {
    hide Tops, Grounded;
    OrderLevel(spans, order);
    assert order[a] in order;
    TopsCount(spans, order[a]);
    OnceDistinct(order, a, b);
  }

  /** Every emitted span is drawn on the line of the laid-out span it hangs below. */
  lemma LineOfTop(spans: Spans, tids: seq<nat>, order: seq<nat>, lines: seq<nat>, j: nat, k: nat)
    requires multiset(order) == multiset(Tops(spans)) && |lines| == |order| && |tids| == |spans|
    requires j < |spans| && Emitted(spans, j) && k < |order| && order[k] == AncestorAt(spans, j, 2)
    ensures Level(spans, order, 2) && LinesSet(spans, tids, order, lines)[j] == lines[k]
  {
    hide LinesSet, AncestorAt, Emitted, Tops;
    OrderLevel(spans, order);
    forall a, b | 0 <= a < b < |order| ensures order[a] != order[b] {
      TopsDistinct(spans, order, a, b);
    }
    LinesSetAt(spans, tids, order, lines, j, k);
  }
}
