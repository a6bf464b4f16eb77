/** The whole converter, from the spans read from the trace to the records written: tree, conversion,
    layout, lines for subtrees and gathering, one after another. */
module TracePipeline {
  import opened Prelude
  import opened SpanForest
  import opened SpanPasses
  import SpanLayout
  import LayoutPass

  /** A gateway span has no child list, so its conversion raises; a request without spans has no first start. */
  datatype TraceError = NoChildList | EmptyRequest

  // ----- what each stage hands to the next --------------------------------------

  /** The layout's view of a converted span: pid of its record, start, trimmed end. */
  function LaidSpan(spans: Spans, m: Marks): nat -> SpanLayout.Span
    requires Fits(spans, m)
  {
    (id: nat) =>
      if id >= |spans| then SpanLayout.Span(SpanLayout.Engine(0), 0, 0)
      else
        var pid := match m.perfetto[id] case None => 0 case Some(p) => p.pid;
        SpanLayout.Span(SpanLayout.Engine(pid), spans[id].start, m.ends[id])
  }

  function StartOfId(spans: Spans): nat -> int {
    (id: nat) => if id >= |spans| then 0 else spans[id].start
  }

  function FirstStartOfIds(spans: Spans): seq<nat> -> int {
    (ids: seq<nat>) => if ids == [] || ids[0] >= |spans| then 0 else spans[ids[0]].start
  }

  /** `root_span["spans"]` of every request, sorted by start. */
  function SortIds(spans: Spans, tops: seq<seq<nat>>): (r: seq<seq<nat>>)
    ensures |r| == |tops|
    ensures forall i :: 0 <= i < |r| ==> r[i] == StableSort(tops[i], StartOfId(spans))
  {
    seq(|tops|, i requires 0 <= i < |tops| => StableSort(tops[i], StartOfId(spans)))
  }

  /** The order in which spans are laid out. */
  function LaidIds(spans: Spans, tops: seq<seq<nat>>): (r: seq<seq<nat>>) {
    StableSort(SortIds(spans, tops), FirstStartOfIds(spans))
  }

  function LaidSpans(spans: Spans, m: Marks, ids: seq<seq<nat>>): (r: seq<seq<SpanLayout.Span>>)
    requires Fits(spans, m)
    ensures |r| == |ids|
    ensures forall i :: 0 <= i < |r| ==> r[i] == MapSeq(ids[i], LaidSpan(spans, m))
  {
    seq(|ids|, i requires 0 <= i < |ids| => MapSeq(ids[i], LaidSpan(spans, m)))
  }

  /** The layout sorts the spans of the requests exactly as their ids are sorted. */
  lemma SortEachIds(spans: Spans, m: Marks, tops: seq<seq<nat>>)
    requires Fits(spans, m)
    ensures LayoutPass.SortEach(LaidSpans(spans, m, tops)) == LaidSpans(spans, m, SortIds(spans, tops))
  {
    var f := LaidSpan(spans, m);
    forall i | 0 <= i < |tops|
      ensures LayoutPass.SortSpans(MapSeq(tops[i], f)) == MapSeq(StableSort(tops[i], StartOfId(spans)), f)
    {
      StableSortMap(tops[i], f, StartOfId(spans), LayoutPass.StartOf);
    }
  }

  lemma LayoutOrderIsIds(spans: Spans, m: Marks, tops: seq<seq<nat>>)
    requires Fits(spans, m)
    ensures LayoutPass.LayoutOrder(LaidSpans(spans, m, tops), []) == LaidSpans(spans, m, LaidIds(spans, tops)) + [[]]
  {
    var f := (ids: seq<nat>) => MapSeq(ids, LaidSpan(spans, m));
    var sorted := SortIds(spans, tops);
    SortEachIds(spans, m, tops);
    assert LaidSpans(spans, m, sorted) == MapSeq(sorted, f);
    StableSortMap(sorted, f, FirstStartOfIds(spans), LayoutPass.FirstStart);
    assert LaidSpans(spans, m, LaidIds(spans, tops)) == MapSeq(LaidIds(spans, tops), f);
    assert LayoutPass.SortSpans([]) == [];
  }

  // ----- the spans laid out are those two levels below a request ---------------------

  /** The spans below the threads of each request. */
  ghost function TopsOf(spans: Spans, roots: seq<nat>): (r: seq<seq<nat>>)
    ensures |r| == |roots|
    ensures forall k :: 0 <= k < |roots| ==> r[k] == FlatChildren(spans, Children(spans, roots[k]))
  {
    seq(|roots|, k requires 0 <= k < |roots| => FlatChildren(spans, Children(spans, roots[k])))
  }

  lemma {:induction false} FlatChildrenAppend(spans: Spans, a: seq<nat>, b: seq<nat>)
    ensures FlatChildren(spans, a + b) == FlatChildren(spans, a) + FlatChildren(spans, b)
    decreases |b|
  {
    hide Children;
    if b == [] {
      assert a + b == a;
    } else {
      FlatChildrenAppend(spans, a, b[..|b| - 1]);
      assert (a + b)[..|a + b| - 1] == a + b[..|b| - 1];
    }
  }

  lemma {:induction false} FlatTops(spans: Spans, roots: seq<nat>)
    ensures Flat(TopsOf(spans, roots)) == FlatChildren(spans, FlatChildren(spans, roots))
  {
    hide Children;
    if roots != [] {
      var n := |roots| - 1;
      FlatTops(spans, roots[..n]);
      assert TopsOf(spans, roots)[..n] == TopsOf(spans, roots[..n]);
      FlatChildrenAppend(spans, FlatChildren(spans, roots[..n]), Children(spans, roots[n]));
    }
  }

  lemma {:induction false} FlatSortIds(spans: Spans, tops: seq<seq<nat>>)
    ensures multiset(Flat(SortIds(spans, tops))) == multiset(Flat(tops))
  {
    if tops != [] {
      var n := |tops| - 1;
      FlatSortIds(spans, tops[..n]);
      assert SortIds(spans, tops)[..n] == SortIds(spans, tops[..n]);
    }
  }

  /** Both the layout order and the gathering order hold every top once. */
  lemma OrdersHoldTops(spans: Spans, tops: seq<seq<nat>>)
    requires tops == TopsOf(spans, Roots(spans))
    ensures multiset(Flat(SortIds(spans, tops))) == multiset(Flat(LaidIds(spans, tops))) == multiset(Tops(spans))
  {
    FlatTops(spans, Roots(spans));
    FlatSortIds(spans, tops);
    FlatSort(SortIds(spans, tops), FirstStartOfIds(spans));
  }

  // ----- what the output guarantees -------------------------------------------------

  /** The steps of the layout pass for a trace without gateway spans. */
  ghost function LayoutEvents(spans: Spans): (evs: seq<SpanLayout.Event>) {
    var laid := LaidSpans(spans, Converted(spans), TopsOf(spans, Roots(spans)));
    LayoutPass.AllEvents(LayoutPass.LayoutOrder(laid, []))
  }

  ghost predicate IsTop(spans: Spans, j: nat) {
    Grounded(spans, j) && Depth(spans, j) == 2
  }

  /** The record conversion writes for an emitted span. */
  ghost function Record(spans: Spans, j: nat): (p: Perfetto)
    requires Emitted(spans, j)
  {
    Perfetto(spans[j].start, spans[j].end - 1000 - spans[j].start, spans[AncestorAt(spans, j, 1)].pid)
  }

  predicate Apart(a: Perfetto, b: Perfetto) {
    a.ts + a.dur <= b.ts || b.ts + b.dur <= a.ts
  }

  /** Positive-length records with the same pid do not overlap, unless an instant of that pid pierced a
      stored interval during the layout. */
  ghost predicate PairApart(spans: Spans, a: nat, b: nat)
    requires Emitted(spans, a) && Emitted(spans, b)
  {
    var x, y := Record(spans, a), Record(spans, b);
    x.pid == y.pid && x.dur > 0 && y.dur > 0 && SpanLayout.NoPiercing(LayoutEvents(spans), SpanLayout.Engine(x.pid)) ==>
      Apart(x, y)
  }

  ghost predicate RecordsApart(spans: Spans, tids: seq<nat>)
    requires |tids| == |spans|
  {
    forall a: nat, b: nat :: IsTop(spans, a) && IsTop(spans, b) && a != b && tids[a] == tids[b] ==>
      PairApart(spans, a, b)
  }

  /** Every emitted span is drawn on the line of the top it hangs below. */
  ghost predicate LinesInherited(spans: Spans, tids: seq<nat>)
    requires |tids| == |spans|
  {
    forall j: nat :: Emitted(spans, j) ==> tids[j] == tids[AncestorAt(spans, j, 2)]
  }

  /** What the layout sees of a top is its record. */
  lemma LaidIsRecord(spans: Spans, a: nat)
    requires IsTop(spans, a)
    ensures var x := Record(spans, a);
            LaidSpan(spans, Converted(spans))(a) == SpanLayout.Span(SpanLayout.Engine(x.pid), x.ts, x.ts + x.dur)
  {
    hide Converted, AncestorAt, Grounded;
    RecordedOnce(spans, a);
    TrimmedOnce(spans, a);
  }

  lemma OwnAncestor(spans: Spans, a: nat)
    requires IsTop(spans, a)
    ensures AncestorAt(spans, a, 2) == a
  {
  }

  lemma TopInRange(spans: Spans, a: nat)
    requires IsTop(spans, a)
    ensures a < |spans| && Emitted(spans, a)
  {
  }

  /** The line of a top is the tid its place in the layout order was given. */
  lemma TopPlace(spans: Spans, ids: seq<seq<nat>>, tids: seq<seq<nat>>, before: seq<nat>, a: nat)
    returns (i: nat, j: nat)
    requires SameShape(ids, tids) && multiset(Flat(ids)) == multiset(Tops(spans)) && |before| == |spans|
    requires IsTop(spans, a)
    ensures i < |ids| && j < |ids[i]| && j < |tids[i]| && ids[i][j] == a
    ensures Level(spans, Flat(ids), 2) && |Flat(tids)| == |Flat(ids)|
    ensures LinesSet(spans, before, Flat(ids), Flat(tids))[a] == tids[i][j]
  {
    hide Flat, Tops, AncestorAt, LinesSet, Grounded;
    assert a < |spans| by { TopInRange(spans, a); }
    TopsCount(spans, a);
    assert a in multiset(Flat(ids));
    var k :| 0 <= k < |Flat(ids)| && Flat(ids)[k] == a;
    i, j := FlatPlace(ids, tids, k);
    OwnAncestor(spans, a);
    LineOfTop(spans, before, Flat(ids), Flat(tids), a, k);
  }

  /** The tids the layout returns for the engine's requests fit their ids. */
  ghost predicate LaidOut(spans: Spans, ids: seq<seq<nat>>, tids: seq<seq<nat>>) {
    var order := LaidSpans(spans, Converted(spans), ids) + [[]];
    && LayoutPass.TidsShape(order) && tids == LayoutPass.TidsPerRequest(order)[..|ids|]
    && LayoutPass.AllEvents(order) == LayoutEvents(spans)
  }

  lemma LaidOutShape(spans: Spans, ids: seq<seq<nat>>, tids: seq<seq<nat>>)
    requires LaidOut(spans, ids, tids)
    ensures SameShape(ids, tids)
  {
    hide LayoutPass.TidsPerRequest, LayoutPass.AllEvents, LayoutEvents, Converted;
    var order := LaidSpans(spans, Converted(spans), ids) + [[]];
    forall i | 0 <= i < |ids| ensures |ids[i]| == |tids[i]| {
      assert |order[i]| == |ids[i]|;
    }
  }

  lemma PlacesDisjoint(spans: Spans, ids: seq<seq<nat>>, tids: seq<seq<nat>>, i: nat, j: nat, k: nat, l: nat)
    requires LaidOut(spans, ids, tids) && SameShape(ids, tids) && i < |ids| && j < |ids[i]| && k < |ids| && l < |ids[k]|
    requires tids[i][j] == tids[k][l] && ids[i][j] != ids[k][l] && IsTop(spans, ids[i][j]) && IsTop(spans, ids[k][l])
    ensures PairApart(spans, ids[i][j], ids[k][l])
  {
    hide LayoutPass.TidsPerRequest, LayoutPass.AllEvents, LayoutEvents, Converted, SpanLayout.NoPiercing, LaidSpan;
    hide Record, AncestorAt, Grounded;
    var a, b := ids[i][j], ids[k][l];
    var order := LaidSpans(spans, Converted(spans), ids) + [[]];
    LaidIsRecord(spans, a);
    LaidIsRecord(spans, b);
    assert order[i][j] == LaidSpan(spans, Converted(spans))(a) && order[k][l] == LaidSpan(spans, Converted(spans))(b);
    if SpanLayout.NoPiercing(LayoutEvents(spans), order[i][j].pid) {
      LayoutPass.PassDisjoint(order, order[i][j].pid);
    }
  }

  /** Layout and lines together: records on one line are apart. */
  lemma OutputApart(spans: Spans, ids: seq<seq<nat>>, tids: seq<seq<nat>>, before: seq<nat>)
    requires LaidOut(spans, ids, tids) && multiset(Flat(ids)) == multiset(Tops(spans)) && |before| == |spans|
    ensures Level(spans, Flat(ids), 2) && |Flat(tids)| == |Flat(ids)|
    ensures RecordsApart(spans, LinesSet(spans, before, Flat(ids), Flat(tids)))
  {
    hide Flat, Tops, LinesSet, LaidOut, IsTop, PairApart;
    LaidOutShape(spans, ids, tids);
    FlatLength(ids, tids);
    OrderLevel(spans, Flat(ids));
    var lines := LinesSet(spans, before, Flat(ids), Flat(tids));
    forall a: nat | IsTop(spans, a) ensures Emitted(spans, a) && a < |spans| {
      TopInRange(spans, a);
    }
    forall a: nat, b: nat | IsTop(spans, a) && IsTop(spans, b) && a != b && lines[a] == lines[b]
      ensures PairApart(spans, a, b)
    {
      var i, j := TopPlace(spans, ids, tids, before, a);
      var k, l := TopPlace(spans, ids, tids, before, b);
      PlacesDisjoint(spans, ids, tids, i, j, k, l);
    }
  }

  lemma OutputInherits(spans: Spans, order: seq<nat>, lines: seq<nat>, before: seq<nat>)
    requires multiset(order) == multiset(Tops(spans)) && |lines| == |order| && |before| == |spans|
    ensures Level(spans, order, 2) && LinesInherited(spans, LinesSet(spans, before, order, lines))
  {
    hide Tops, LinesSet, AncestorAt, Grounded;
    OrderLevel(spans, order);
    forall j: nat | Emitted(spans, j)
      ensures j < |spans|
      ensures LinesSet(spans, before, order, lines)[j] == LinesSet(spans, before, order, lines)[AncestorAt(spans, j, 2)]
    {
      var top := AncestorAt(spans, j, 2);
      OwnAncestor(spans, top);
      TopsCount(spans, top);
      assert top in multiset(order);
      var k :| 0 <= k < |order| && order[k] == top;
      LineOfTop(spans, before, order, lines, j, k);
      LineOfTop(spans, before, order, lines, top, k);
    }
  }

  lemma TopsAreTops(spans: Spans, i: nat, j: nat)
    requires i < |Roots(spans)| && j < |TopsOf(spans, Roots(spans))[i]|
    ensures IsTop(spans, TopsOf(spans, Roots(spans))[i][j])
  {
    hide Children;
    TopsLevel(spans);
    var root := Roots(spans)[i];
    assert root in Roots(spans);
    ChildrenLevel(spans, root);
    FlatLevel(spans, Children(spans, root), 1);
  }

  /** A pid none of whose laid-out spans is an instant after the trim is never pierced. */
  lemma NoInstantTops(spans: Spans, pid: int)
    requires forall a: nat :: IsTop(spans, a) && Record(spans, a).pid == pid ==> Record(spans, a).dur != 0
    ensures SpanLayout.NoPiercing(LayoutEvents(spans), SpanLayout.Engine(pid))
  {
    hide LayoutPass.AllEvents, LayoutPass.LayoutOrder, Converted, SpanLayout.NoPiercing, LaidSpan, Record;
    var tops := TopsOf(spans, Roots(spans));
    var laid := LaidSpans(spans, Converted(spans), tops);
    var p := (sp: SpanLayout.Span) => sp.pid == SpanLayout.Engine(pid) ==> sp.start != sp.end;
    var all := laid + [[]];
    forall i, j | 0 <= i < |all| && 0 <= j < |all[i]| ensures p(all[i][j]) {
      assert all[i] == laid[i];
      TopsAreTops(spans, i, j);
      LaidIsRecord(spans, tops[i][j]);
    }
    assert LayoutPass.Every(all, p);
    LayoutPass.PassUnpierced(laid, [], SpanLayout.Engine(pid));
  }

  // ----- the converter -----------------------------------------------------------------

  lemma EmptyLists(laid: seq<seq<SpanLayout.Span>>, tops: seq<seq<nat>>)
    requires SameShape(laid, tops)
    ensures (exists i :: 0 <= i < |laid| && laid[i] == []) <==> exists i :: 0 <= i < |tops| && tops[i] == []
  {
    if i :| 0 <= i < |laid| && laid[i] == [] {
      assert tops[i] == [];
    }
    if i :| 0 <= i < |tops| && tops[i] == [] {
      assert laid[i] == [];
    }
  }

  lemma LaidOutHolds(spans: Spans, tops: seq<seq<nat>>, ids: seq<seq<nat>>, tids: seq<seq<nat>>)
    requires tops == TopsOf(spans, Roots(spans)) && ids == LaidIds(spans, tops)
    requires var order := LayoutPass.LayoutOrder(LaidSpans(spans, Converted(spans), tops), []);
             && LayoutPass.TidsShape(order) && |ids| <= |order| && tids == LayoutPass.TidsPerRequest(order)[..|ids|]
    ensures LaidOut(spans, ids, tids)
  {
    hide LayoutPass.LayoutOrder, LayoutPass.TidsPerRequest, LayoutPass.AllEvents, Converted, TopsOf, LaidIds, LaidSpans;
    LayoutOrderIsIds(spans, Converted(spans), tops);
  }

  lemma ConvertedIs(spans: Spans)
    ensures Converted(spans) == ConvertEach(spans, Untrimmed(spans), AllVisits(spans))
  {
  }

  lemma RecordIs(spans: Spans, j: nat)
    requires j < |spans|
    ensures Converted(spans).perfetto[j] == if Emitted(spans, j) then Some(Record(spans, j)) else None
  {
    hide Converted, AncestorAt, Emitted;
    RecordedOnce(spans, j);
  }

  /** Lay out the converted spans and hand the lines down. */
  method LayOut(t: TraceSpans, tops: seq<seq<nat>>) returns (err: Option<TraceError>)
    requires t.Valid() && t.View() == Converted(t.spans) && tops == TopsOf(t.spans, Roots(t.spans))
    modifies t`tids
    ensures t.Valid() && t.View() == Converted(t.spans)
    ensures err == if (exists i :: 0 <= i < |tops| && tops[i] == []) then Some(EmptyRequest) else None
    ensures err == None ==> RecordsApart(t.spans, t.tids) && LinesInherited(t.spans, t.tids)
  {
    hide Converted, LaidIds, Flat, Tops, TopsOf, LinesSet, LayoutPass.AllEvents, LayoutPass.LayoutOrder;
    hide LayoutPass.TidsPerRequest, RecordsApart, LinesInherited, LaidOut, Roots, LaidSpan;
    var laid := LaidSpans(t.spans, Marks(t.ends, t.perfetto), tops);
    var layout, tids := LayoutPass.GenerateLayout(laid, []);
    EmptyLists(laid, tops);
    if layout.Err? {
      return Some(EmptyRequest);
    }
    var ids := LaidIds(t.spans, tops);
    LayoutOrderIsIds(t.spans, Converted(t.spans), tops);
    tids := tids[..|ids|];
    assert LaidOut(t.spans, ids, tids) by { LaidOutHolds(t.spans, tops, ids, tids); }
    OrdersHoldTops(t.spans, tops);
    OutputApart(t.spans, ids, tids, t.tids);
    OutputInherits(t.spans, Flat(ids), Flat(tids), t.tids);
    t.SetLines(Flat(ids), Flat(tids));
    err := None;
  }

  /** `main`, up to the records: a gateway span stops the conversion, a request without spans the layout.
      Otherwise each span two or more levels below a request is written once, with its start, trimmed
      length and thread pid, on the line of its top; tops on one line do not overlap. */
  method ConvertTrace(spans: Spans, gateway: Spans) returns (r: Result<TraceSpans, TraceError>, ids: seq<nat>)
    ensures r.Err? <==> gateway != [] || exists i :: 0 <= i < |Roots(spans)| && TopsOf(spans, Roots(spans))[i] == []
    ensures r.Err? ==> r.error == if gateway != [] then NoChildList else EmptyRequest
    ensures r.Ok? ==>
              var t := r.value;
              && |t.perfetto| == |t.tids| == |spans|
              && (forall j: nat :: j < |spans| ==>
                    && multiset(ids)[j] == One(Emitted(spans, j))
                    && t.perfetto[j] == if Emitted(spans, j) then Some(Record(spans, j)) else None)
              && RecordsApart(spans, t.tids) && LinesInherited(spans, t.tids)
              && var order := Flat(SortIds(spans, TopsOf(spans, Roots(spans))));
                 Level(spans, order, 2) && ids == ForestOrder(spans, order, 2)
  {
    hide Converted, ForestOrder, ConvertEach, AllVisits, Flat, Tops, RecordsApart, LinesInherited, Record, Roots;
    hide Emitted, FlatChildren;
    ids := [];
    var child, roots := BuildSpanTree(spans);
    var t := new TraceSpans(spans, child);
    var tops := t.ConvertRequests(roots);
    assert tops == TopsOf(spans, Roots(spans));
    assert t.View() == Converted(spans) by { ConvertedIs(spans); }
    if gateway != [] {
      return Err(NoChildList), ids;
    }
    var err := LayOut(t, tops);
    if err != None {
      return Err(err.value), ids;
    }
    OrdersHoldTops(spans, tops);
    ids := t.GatherAll(Flat(SortIds(spans, tops)));
    forall j: nat | j < |spans|
      ensures t.perfetto[j] == if Emitted(spans, j) then Some(Record(spans, j)) else None
    {
      RecordIs(spans, j);
    }
    r := Ok(t);
  }
}
