/** The trace layout engine: interval containers, the sticky / first-fit line
    allocator, and the layout pass over all requests and the gateway spans. */
module SpanLayout {
  import opened Prelude

  datatype Interval = Interval(start: int, end: int)

  type Line = seq<Interval>

  /** Tuple order of Python on (start, end). */
  predicate TupleLess(a: Interval, b: Interval) {
    a.start < b.start || (a.start == b.start && a.end < b.end)
  }

  /** CPython's binary search: narrow [lo, hi) while `before` holds at the middle. */
  function Bisect(ivs: Line, before: Interval -> bool, lo: nat, hi: nat): (idx: nat)
    requires lo <= hi <= |ivs|
    ensures lo <= idx <= hi
    decreases hi - lo
  {
    if lo == hi then lo
    else
      var mid := (lo + hi) / 2;
      if before(ivs[mid]) then Bisect(ivs, before, mid + 1, hi) else Bisect(ivs, before, lo, mid)
  }

  /** `bisect_left(intervals, (start, -inf))`. */
  function BisectStart(ivs: Line, start: int): (idx: nat)
    ensures idx <= |ivs|
  {
    Bisect(ivs, (x: Interval) => x.start < start, 0, |ivs|)
  }

  /** The two-neighbour conflict test. */
  predicate Overlaps(ivs: Line, start: int, end: int) {
    var idx := BisectStart(ivs, start);
    || (idx > 0 && ivs[idx - 1].end > start)
    || (idx < |ivs| && ivs[idx].start < end)
  }

  /** `bisect_left(intervals, (start, end))`. */
  function BisectTuple(ivs: Line, iv: Interval): (idx: nat)
    ensures idx <= |ivs|
  {
    Bisect(ivs, (x: Interval) => TupleLess(x, iv), 0, |ivs|)
  }

  /** `insort_left(intervals, (start, end))`. */
  function Insert(ivs: Line, iv: Interval): (r: Line)
    ensures |r| == |ivs| + 1
    ensures multiset(r) == multiset(ivs) + multiset{iv}
  {
    InsertAt(ivs, BisectTuple(ivs, iv), iv)
  }

  ghost predicate LexSorted(ivs: Line) {
    forall i, j :: 0 <= i < j < |ivs| ==> !TupleLess(ivs[j], ivs[i])
  }

  /** Every interval lies, start and end, at or before the start of each later one. */
  ghost predicate Separated(ivs: Line) {
    forall i, j :: 0 <= i < j < |ivs| ==> ivs[i].start <= ivs[j].start && ivs[i].end <= ivs[j].start
  }

  /** What the neighbour test means of one stored interval. */
  predicate Hits(iv: Interval, start: int, end: int) {
    || iv.start < start < iv.end
    || start <= iv.start < end
  }

  lemma {:induction false} BisectSplits(ivs: Line, before: Interval -> bool, lo: nat, hi: nat)
    requires lo <= hi <= |ivs|
    requires forall i, j :: 0 <= i < j < |ivs| && before(ivs[j]) ==> before(ivs[i])
    requires forall i :: 0 <= i < lo ==> before(ivs[i])
    requires forall i :: hi <= i < |ivs| ==> !before(ivs[i])
    ensures forall i :: 0 <= i < Bisect(ivs, before, lo, hi) ==> before(ivs[i])
    ensures forall i :: Bisect(ivs, before, lo, hi) <= i < |ivs| ==> !before(ivs[i])
    decreases hi - lo
  {
    if lo < hi {
      var mid := (lo + hi) / 2;
      if before(ivs[mid]) {
        BisectSplits(ivs, before, mid + 1, hi);
      } else {
        BisectSplits(ivs, before, lo, mid);
      }
    }
  }

  lemma BisectStartSplits(ivs: Line, start: int)
    requires LexSorted(ivs)
    ensures forall i :: 0 <= i < BisectStart(ivs, start) ==> ivs[i].start < start
    ensures forall i :: BisectStart(ivs, start) <= i < |ivs| ==> start <= ivs[i].start
  {
    var before := (x: Interval) => x.start < start;
    forall i, j | 0 <= i < j < |ivs| && before(ivs[j]) ensures before(ivs[i]) {
      assert !TupleLess(ivs[j], ivs[i]);
    }
    BisectSplits(ivs, before, 0, |ivs|);
  }

  /** The fast two-neighbour test agrees with a scan of every stored interval,
      for every query, also one that ends before it starts. */
  lemma OverlapIsScan(ivs: Line, start: int, end: int)
    requires LexSorted(ivs) && Separated(ivs)
    ensures Overlaps(ivs, start, end) <==> exists iv :: iv in ivs && Hits(iv, start, end)
  {
    BisectStartSplits(ivs, start);
    var idx := BisectStart(ivs, start);
    if Overlaps(ivs, start, end) {
      if idx > 0 && ivs[idx - 1].end > start {
        assert ivs[idx - 1] in ivs && Hits(ivs[idx - 1], start, end);
      } else {
        assert ivs[idx] in ivs && Hits(ivs[idx], start, end);
      }
    }
    if iv :| iv in ivs && Hits(iv, start, end) {
      var i :| 0 <= i < |ivs| && ivs[i] == iv;
      if i < idx {
        assert i < idx - 1 ==> ivs[i].end <= ivs[idx - 1].start;
      } else {
        assert i > idx ==> ivs[idx].start <= ivs[i].start;
      }
    }
  }

  /** On positive-length intervals that scan is the textbook overlap of half-open intervals. */
  lemma OverlapIsIntersection(ivs: Line, start: int, end: int)
    requires LexSorted(ivs) && Separated(ivs) && start < end
    requires forall iv :: iv in ivs ==> iv.start < iv.end
    ensures Overlaps(ivs, start, end) <==> exists iv :: iv in ivs && iv.start < end && start < iv.end
  {
    OverlapIsScan(ivs, start, end);
    if Overlaps(ivs, start, end) {
      var iv :| iv in ivs && Hits(iv, start, end);
      assert iv.start < end && start < iv.end;
    }
    if iv :| iv in ivs && iv.start < end && start < iv.end {
      assert Hits(iv, start, end);
    }
  }

  lemma InsertSplits(ivs: Line, iv: Interval)
    requires LexSorted(ivs)
    ensures forall i :: 0 <= i < BisectTuple(ivs, iv) ==> TupleLess(ivs[i], iv)
    ensures forall i :: BisectTuple(ivs, iv) <= i < |ivs| ==> !TupleLess(ivs[i], iv)
  {
    var before := (x: Interval) => TupleLess(x, iv);
    forall i, j | 0 <= i < j < |ivs| && before(ivs[j]) ensures before(ivs[i]) {
      assert !TupleLess(ivs[j], ivs[i]);
    }
    BisectSplits(ivs, before, 0, |ivs|);
  }

  lemma InsertKeepsOrder(ivs: Line, iv: Interval)
    requires LexSorted(ivs)
    ensures LexSorted(Insert(ivs, iv))
  {
    InsertSplits(ivs, iv);
    var r, idx := Insert(ivs, iv), BisectTuple(ivs, iv);
    forall i, j | 0 <= i < j < |r| ensures !TupleLess(r[j], r[i]) {
      assert r[i] == if i < idx then ivs[i] else if i == idx then iv else ivs[i - 1];
      assert r[j] == if j < idx then ivs[j] else if j == idx then iv else ivs[j - 1];
    }
  }

  /** An interval stored in front of a span that passed the conflict test ends before it. */
  lemma InFrontEnds(ivs: Line, iv: Interval, i: nat)
    requires LexSorted(ivs) && Separated(ivs) && !Overlaps(ivs, iv.start, iv.end) && i < BisectTuple(ivs, iv)
    ensures ivs[i].start <= iv.start && ivs[i].end <= iv.start
  {
    hide BisectTuple, Overlaps;
    InsertSplits(ivs, iv);
    OverlapIsScan(ivs, iv.start, iv.end);
    assert TupleLess(ivs[i], iv) && ivs[i] in ivs;
  }

  /** A span that passed the conflict test ends before the intervals stored behind it. */
  lemma BehindStarts(ivs: Line, iv: Interval, i: nat)
    requires LexSorted(ivs) && Separated(ivs) && !Overlaps(ivs, iv.start, iv.end)
    requires BisectTuple(ivs, iv) <= i < |ivs|
    ensures iv.start <= ivs[i].start && iv.end <= ivs[i].start
  {
    hide BisectTuple, Overlaps;
    InsertSplits(ivs, iv);
    OverlapIsScan(ivs, iv.start, iv.end);
    assert !TupleLess(ivs[i], iv) && ivs[i] in ivs;
  }

  /** A span that passed the conflict test keeps its line separated. */
  lemma InsertKeepsSeparated(ivs: Line, iv: Interval)
    requires LexSorted(ivs) && Separated(ivs) && !Overlaps(ivs, iv.start, iv.end)
    ensures Separated(Insert(ivs, iv))
  {
    hide BisectTuple, Overlaps, LexSorted;
    var idx := BisectTuple(ivs, iv);
    var r := Insert(ivs, iv);
    forall i, j | 0 <= i < j < |r| ensures r[i].start <= r[j].start && r[i].end <= r[j].start {
      assert r[i] == if i < idx then ivs[i] else if i == idx then iv else ivs[i - 1];
      assert r[j] == if j < idx then ivs[j] else if j == idx then iv else ivs[j - 1];
      if i == idx {
        BehindStarts(ivs, iv, j - 1);
      } else if j == idx {
        InFrontEnds(ivs, iv, i);
      }
    }
  }

  /** Insertion never repairs a line that is not separated. */
  lemma InsertReflectsSeparated(ivs: Line, iv: Interval)
    requires LexSorted(ivs) && Separated(Insert(ivs, iv))
    ensures Separated(ivs)
  {
    InsertSplits(ivs, iv);
    var idx := BisectTuple(ivs, iv);
    var r := Insert(ivs, iv);
    forall i, j | 0 <= i < j < |ivs| ensures ivs[i].start <= ivs[j].start && ivs[i].end <= ivs[j].start {
      var i', j' := if i < idx then i else i + 1, if j < idx then j else j + 1;
      assert r[i'] == ivs[i] && r[j'] == ivs[j];
    }
  }

  /** An instant put on a separated line leaves it separated exactly when it pierces nothing. */
  lemma InsertInstant(ivs: Line, t: int)
    requires LexSorted(ivs) && Separated(ivs)
    ensures Separated(Insert(ivs, Interval(t, t))) <==> !Overlaps(ivs, t, t)
  {
    var iv := Interval(t, t);
    if !Overlaps(ivs, t, t) {
      InsertKeepsSeparated(ivs, iv);
    } else {
      OverlapIsScan(ivs, t, t);
      InsertSplits(ivs, iv);
      var x :| x in ivs && Hits(x, t, t);
      var i :| 0 <= i < |ivs| && ivs[i] == x;
      var idx := BisectTuple(ivs, iv);
      assert i < idx;
      assert Insert(ivs, iv)[i] == x && Insert(ivs, iv)[idx] == iv;
    }
  }

  // ----- the allocator ---------------------------------------------------

  datatype Pid = Engine(id: int) | Gateway

  datatype Span = Span(pid: Pid, start: int, end: int)

  /** `graph`, `trans_graph_status` and `slot_meta_data`; lines are numbered from 1. */
  datatype State = State(graph: map<Pid, seq<Line>>, sticky: map<Pid, nat>, slots: seq<(Pid, nat)>)

  function LinesOf(graph: map<Pid, seq<Line>>, pid: Pid): (r: seq<Line>) {
    if pid in graph then graph[pid] else []
  }

  /** First line, by number, on which the span meets no conflict; |lines| if none. */
  function FirstFree(lines: seq<Line>, start: int, end: int): (k: nat)
    ensures k <= |lines|
    ensures forall i :: 0 <= i < k ==> Overlaps(lines[i], start, end)
    ensures k < |lines| ==> !Overlaps(lines[k], start, end)
  {
    if lines == [] then 0
    else if !Overlaps(lines[0], start, end) then 0
    else 1 + FirstFree(lines[1..], start, end)
  }

  ghost predicate StickyInRange(st: State) {
    forall p :: p in st.sticky ==> p in st.graph && 1 <= st.sticky[p] <= |st.graph[p]|
  }

  ghost predicate AllLexSorted(lines: seq<Line>) {
    forall i :: 0 <= i < |lines| ==> LexSorted(lines[i])
  }

  ghost predicate GraphSorted(graph: map<Pid, seq<Line>>) {
    forall p :: p in graph ==> AllLexSorted(graph[p])
  }

  /** `__find_line`: the request's current line if it fits (an instant is not even
      tested), else the first line that fits, else a new one. */
  function FindLine(st: State, sp: Span): (line: nat)
    requires StickyInRange(st)
    ensures 1 <= line <= |LinesOf(st.graph, sp.pid)| + 1
  {
    var lines := LinesOf(st.graph, sp.pid);
    if sp.pid in st.sticky && (sp.start == sp.end || !Overlaps(lines[st.sticky[sp.pid] - 1], sp.start, sp.end))
    then st.sticky[sp.pid]
    else FirstFree(lines, sp.start, sp.end) + 1
  }

  /** Line number `line`, empty if it is the one about to be opened. */
  function Target(lines: seq<Line>, line: nat): (r: Line)
    requires 1 <= line <= |lines| + 1
  {
    if line <= |lines| then lines[line - 1] else []
  }

  /** The lines of one pid after a span went to `line`, which may be new. */
  function Put(lines: seq<Line>, line: nat, iv: Interval): (r: seq<Line>)
    requires 1 <= line <= |lines| + 1
    ensures |r| == if line == |lines| + 1 then line else |lines|
    ensures r[line - 1] == Insert(Target(lines, line), iv)
    ensures forall i :: 0 <= i < |lines| && i != line - 1 ==> r[i] == lines[i]
  {
    if line == |lines| + 1 then lines + [Insert([], iv)] else lines[line - 1 := Insert(lines[line - 1], iv)]
  }

  /** `__find_line` followed by `insert_span` on the line it returns. */
  function Place(st: State, sp: Span): (r: State)
    requires StickyInRange(st)
    ensures StickyInRange(r)
  {
    var line, lines := FindLine(st, sp), LinesOf(st.graph, sp.pid);
    State(st.graph[sp.pid := Put(lines, line, Interval(sp.start, sp.end))],
          st.sticky[sp.pid := line],
          if line == |lines| + 1 then st.slots + [(sp.pid, line)] else st.slots)
  }

  lemma PutKeepsOrder(lines: seq<Line>, line: nat, iv: Interval)
    requires 1 <= line <= |lines| + 1 && AllLexSorted(lines)
    ensures AllLexSorted(Put(lines, line, iv))
  {
    InsertKeepsOrder(Target(lines, line), iv);
  }

  // ----- runs ------------------------------------------------------------

  /** One step of the layout pass: a request begins with no current lines, or a span is placed. */
  datatype Event = Begin | Lay(span: Span)

  const EMPTY := State(map[], map[], [])

  function Step(st: State, ev: Event): (r: State)
    requires StickyInRange(st)
    ensures StickyInRange(r)
  {
    match ev
    case Begin => st.(sticky := map[])
    case Lay(sp) => Place(st, sp)
  }

  function Run(evs: seq<Event>): (st: State)
    ensures StickyInRange(st)
  {
    if evs == [] then EMPTY else Step(Run(evs[..|evs| - 1]), evs[|evs| - 1])
  }

  lemma {:induction false} RunSorted(evs: seq<Event>)
    ensures GraphSorted(Run(evs).graph)
  {
    if evs != [] {
      var n := |evs| - 1;
      RunSorted(evs[..n]);
      if evs[n].Lay? {
        var st, sp := Run(evs[..n]), evs[n].span;
        PutKeepsOrder(LinesOf(st.graph, sp.pid), FindLine(st, sp), Interval(sp.start, sp.end));
      }
    }
  }

  /** After any run, `thread_name` records exist for exactly the lines in use, one each. */
  lemma {:induction false} RunSlots(evs: seq<Event>, pid: Pid, line: nat)
    ensures multiset(Run(evs).slots)[(pid, line)] == if 1 <= line <= |LinesOf(Run(evs).graph, pid)| then 1 else 0
  {
    if evs != [] {
      var n := |evs| - 1;
      RunSlots(evs[..n], pid, line);
    }
  }

  ghost predicate SeparatedLines(lines: seq<Line>) {
    forall i :: 0 <= i < |lines| ==> Separated(lines[i])
  }

  /** The span is an instant that takes the untested shortcut into the inside of a stored interval. */
  ghost predicate Pierces(st: State, sp: Span)
    requires StickyInRange(st)
  {
    && sp.pid in st.sticky && sp.start == sp.end
    && exists iv :: iv in st.graph[sp.pid][st.sticky[sp.pid] - 1] && iv.start < sp.start < iv.end
  }

  /** No span of that pid pierces the state it is laid on. */
  ghost predicate NoPiercing(evs: seq<Event>, pid: Pid) {
    if evs == [] then true
    else
      var pre, ev := evs[..|evs| - 1], evs[|evs| - 1];
      NoPiercing(pre, pid) && !(ev.Lay? && ev.span.pid == pid && Pierces(Run(pre), ev.span))
  }

  lemma PutReflectsSeparated(lines: seq<Line>, line: nat, iv: Interval)
    requires 1 <= line <= |lines| + 1 && AllLexSorted(lines)
    requires SeparatedLines(Put(lines, line, iv))
    ensures SeparatedLines(lines)
  {
    var r := Put(lines, line, iv);
    forall i | 0 <= i < |lines| ensures Separated(lines[i]) {
      if i == line - 1 {
        assert Separated(r[i]);
        InsertReflectsSeparated(lines[i], iv);
      } else {
        assert r[i] == lines[i];
      }
    }
  }

  lemma PutSeparatedIff(lines: seq<Line>, line: nat, iv: Interval)
    requires 1 <= line <= |lines| + 1 && AllLexSorted(lines)
    requires iv.start == iv.end || !Overlaps(Target(lines, line), iv.start, iv.end)
    ensures SeparatedLines(Put(lines, line, iv)) <==>
              SeparatedLines(lines) && !Overlaps(Target(lines, line), iv.start, iv.end)
  {
    var target := Target(lines, line);
    var r := Put(lines, line, iv);
    if SeparatedLines(r) {
      PutReflectsSeparated(lines, line, iv);
    }
    if SeparatedLines(lines) {
      assert LexSorted(target) && Separated(target);
      if Overlaps(target, iv.start, iv.end) {
        InsertInstant(target, iv.start);
        assert !Separated(r[line - 1]);
      } else {
        InsertKeepsSeparated(target, iv);
      }
    }
  }

  lemma PiercesIff(st: State, sp: Span)
    requires StickyInRange(st) && GraphSorted(st.graph) && SeparatedLines(LinesOf(st.graph, sp.pid))
    ensures var target := Target(LinesOf(st.graph, sp.pid), FindLine(st, sp));
            && Pierces(st, sp) == Overlaps(target, sp.start, sp.end)
            && (sp.start == sp.end || !Overlaps(target, sp.start, sp.end))
  {
    var lines, line := LinesOf(st.graph, sp.pid), FindLine(st, sp);
    var target := Target(lines, line);
    assert AllLexSorted(lines);
    OverlapIsScan(target, sp.start, sp.end);
  }

  lemma PlaceSeparatedIff(st: State, sp: Span)
    requires StickyInRange(st) && GraphSorted(st.graph)
    ensures SeparatedLines(LinesOf(Place(st, sp).graph, sp.pid)) <==>
              SeparatedLines(LinesOf(st.graph, sp.pid)) && !Pierces(st, sp)
  {
    var line, lines, iv := FindLine(st, sp), LinesOf(st.graph, sp.pid), Interval(sp.start, sp.end);
    assert AllLexSorted(lines);
    if SeparatedLines(Put(lines, line, iv)) {
      PutReflectsSeparated(lines, line, iv);
    }
    if SeparatedLines(lines) {
      PiercesIff(st, sp);
      PutSeparatedIff(lines, line, iv);
    }
  }

  /** The whole run leaves every line of a pid separated exactly when no step of that
      pid put an untested instant inside a stored interval. */
  lemma {:induction false} SeparatedIffNoPiercing(evs: seq<Event>, pid: Pid)
    ensures SeparatedLines(LinesOf(Run(evs).graph, pid)) <==> NoPiercing(evs, pid)
  {
    if evs != [] {
      var n := |evs| - 1;
      SeparatedIffNoPiercing(evs[..n], pid);
      if evs[n].Lay? && evs[n].span.pid == pid {
        RunSorted(evs[..n]);
        PlaceSeparatedIff(Run(evs[..n]), evs[n].span);
      }
    }
  }

  ghost predicate NoInstants(evs: seq<Event>, pid: Pid) {
    forall k :: 0 <= k < |evs| && evs[k].Lay? && evs[k].span.pid == pid ==> evs[k].span.start != evs[k].span.end
  }

  lemma {:induction false} NoInstantsNoPiercing(evs: seq<Event>, pid: Pid)
    requires NoInstants(evs, pid)
    ensures NoPiercing(evs, pid)
  {
    if evs != [] {
      NoInstantsNoPiercing(evs[..|evs| - 1], pid);
    }
  }

  lemma NoInstantsSeparated(evs: seq<Event>, pid: Pid)
    requires NoInstants(evs, pid)
    ensures SeparatedLines(LinesOf(Run(evs).graph, pid))
  {
    NoInstantsNoPiercing(evs, pid);
    SeparatedIffNoPiercing(evs, pid);
  }

  /** The `tid` the span of step k is given. */
  function TidAt(evs: seq<Event>, k: nat): (line: nat)
    requires k < |evs| && evs[k].Lay?
  {
    FindLine(Run(evs[..k]), evs[k].span)
  }

  /** `iv` is stored on that line of that pid. */
  ghost predicate Stored(graph: map<Pid, seq<Line>>, pid: Pid, line: nat, iv: Interval) {
    pid in graph && 1 <= line <= |graph[pid]| && iv in graph[pid][line - 1]
  }

  lemma PlaceStores(st: State, sp: Span)
    requires StickyInRange(st)
    ensures Stored(Place(st, sp).graph, sp.pid, FindLine(st, sp), Interval(sp.start, sp.end))
  {
    var line, lines, iv := FindLine(st, sp), LinesOf(st.graph, sp.pid), Interval(sp.start, sp.end);
    assert iv in multiset(Put(lines, line, iv)[line - 1]);
  }

  lemma PlaceKeepsStored(st: State, sp: Span, pid: Pid, line: nat, iv: Interval)
    requires StickyInRange(st) && Stored(st.graph, pid, line, iv)
    ensures Stored(Place(st, sp).graph, pid, line, iv)
  {
    hide FindLine, Insert, Put;
    if pid == sp.pid {
      var r := Put(st.graph[pid], FindLine(st, sp), Interval(sp.start, sp.end));
      assert iv in multiset(st.graph[pid][line - 1]);
      assert iv in multiset(r[line - 1]);
    }
  }

  lemma {:induction false} PlacedStays(evs: seq<Event>, k: nat)
    requires k < |evs| && evs[k].Lay?
    ensures Stored(Run(evs).graph, evs[k].span.pid, TidAt(evs, k), Interval(evs[k].span.start, evs[k].span.end))
    decreases |evs|
  {
    var sp, n := evs[k].span, |evs| - 1;
    if k == n {
      PlaceStores(Run(evs[..n]), sp);
    } else {
      PlacedStays(evs[..n], k);
      assert evs[..n][..k] == evs[..k];
      if evs[n].Lay? {
        PlaceKeepsStored(Run(evs[..n]), evs[n].span, sp.pid, TidAt(evs, k), Interval(sp.start, sp.end));
      }
    }
  }

  predicate Disjoint(a: Span, b: Span) {
    a.end <= b.start || b.end <= a.start
  }

  /** A stored interval of the line stands in the way of the span. */
  ghost predicate Blocked(line: Line, sp: Span) {
    exists iv :: iv in line && Hits(iv, sp.start, sp.end)
  }

  lemma BlockedLines(lines: seq<Line>, sp: Span)
    requires AllLexSorted(lines) && SeparatedLines(lines)
    ensures forall i :: 0 <= i < |lines| ==> Overlaps(lines[i], sp.start, sp.end) == Blocked(lines[i], sp)
  {
    hide Overlaps, Separated, LexSorted;
    forall i | 0 <= i < |lines| ensures Overlaps(lines[i], sp.start, sp.end) == Blocked(lines[i], sp) {
      OverlapIsScan(lines[i], sp.start, sp.end);
    }
  }

  lemma NothingBlocks(sp: Span)
    ensures !Blocked([], sp)
  {
  }

  /** On separated lines, in terms of what the lines store: only an instant that follows another span
      of its request may land on a blocked line; a request leaves its current line only when that one
      is blocked, and then every line before the one taken is blocked. */
  lemma FoundLine(st: State, sp: Span)
    requires StickyInRange(st) && GraphSorted(st.graph) && SeparatedLines(LinesOf(st.graph, sp.pid))
    ensures var lines, line := LinesOf(st.graph, sp.pid), FindLine(st, sp);
            && (Blocked(Target(lines, line), sp) ==> sp.start == sp.end && sp.pid in st.sticky)
            && (sp.pid in st.sticky && line != st.sticky[sp.pid] ==> Blocked(lines[st.sticky[sp.pid] - 1], sp))
            && (sp.pid !in st.sticky || line != st.sticky[sp.pid] ==>
                  forall i :: 0 <= i < line - 1 ==> Blocked(lines[i], sp))
  {
    hide Overlaps, Separated, LexSorted, Blocked;
    var lines := LinesOf(st.graph, sp.pid);
    assert AllLexSorted(lines);
    BlockedLines(lines, sp);
    assert !Blocked([], sp) by { NothingBlocks(sp); }
  }

  lemma {:induction false} NoPiercingPrefix(evs: seq<Event>, pid: Pid, k: nat)
    requires k <= |evs| && NoPiercing(evs, pid)
    ensures NoPiercing(evs[..k], pid)
    decreases |evs|
  {
    if k < |evs| {
      var n := |evs| - 1;
      NoPiercingPrefix(evs[..n], pid, k);
      assert evs[..n][..k] == evs[..k];
    } else {
      assert evs[..k] == evs;
    }
  }

  /** Positive-length spans of a pid that share a tid are disjoint, whatever requests they belong to and
      whatever backward spans and harmless instants were laid between them. */
  lemma SameLineDisjoint(evs: seq<Event>, a: nat, b: nat)
    requires a < b < |evs| && evs[a].Lay? && evs[b].Lay?
    requires NoPiercing(evs, evs[a].span.pid)
    requires evs[a].span.pid == evs[b].span.pid && TidAt(evs, a) == TidAt(evs, b)
    requires evs[a].span.start < evs[a].span.end && evs[b].span.start < evs[b].span.end
    ensures Disjoint(evs[a].span, evs[b].span)
  {
    hide FindLine, Place, NoPiercing, SeparatedLines;
    var x, y, pre := evs[a].span, evs[b].span, evs[..b];
    assert pre[..a] == evs[..a];
    PlacedStays(pre, a);
    NoPiercingPrefix(evs, x.pid, b);
    SeparatedIffNoPiercing(pre, x.pid);
    RunSorted(pre);
    FoundLine(Run(pre), y);
    assert !Hits(Interval(x.start, x.end), y.start, y.end);
  }

  lemma RunPrefix(evs: seq<Event>, k: nat)
    requires 0 < k <= |evs|
    ensures Run(evs[..k]) == Step(Run(evs[..k - 1]), evs[k - 1])
  {
    assert evs[..k][..k - 1] == evs[..k - 1];
  }

  lemma PiercedLine()
    ensures Insert([], Interval(0, 10)) == [Interval(0, 10)]
    ensures Insert([Interval(0, 10)], Interval(5, 5)) == [Interval(0, 10), Interval(5, 5)]
    ensures !Overlaps([Interval(0, 10), Interval(5, 5)], 6, 8)
  {
    var line := [Interval(0, 10), Interval(5, 5)];
    InsertSplits([Interval(0, 10)], Interval(5, 5));
    BisectStartSplits(line, 6);
    assert line[1].start < 6;
    assert BisectStart(line, 6) == 2;
  }

  lemma PiercedStates(p: Pid)
    ensures FindLine(EMPTY, Span(p, 0, 10)) == 1
    ensures var st := Place(Place(EMPTY, Span(p, 0, 10)), Span(p, 5, 5));
            p in st.sticky && st.sticky[p] == 1 && st.graph[p][0] == [Interval(0, 10), Interval(5, 5)]
  {
    PiercedLine();
    var st1 := Place(EMPTY, Span(p, 0, 10));
    assert LinesOf(st1.graph, p) == [[Interval(0, 10)]];
    assert FindLine(st1, Span(p, 5, 5)) == 1;
  }

  lemma PiercedFindLine(p: Pid, st0: State, st1: State, st2: State)
    requires st0 == EMPTY && st1 == Place(st0, Span(p, 0, 10)) && st2 == Place(st1, Span(p, 5, 5))
    ensures FindLine(st0, Span(p, 0, 10)) == FindLine(st2, Span(p, 6, 8)) == 1
  {
    PiercedStates(p);
    PiercedLine();
  }

  /** The shortcut for instants really does break disjointness: a request with spans
      [0,10), the instant 5 and [6,8) lays the first and the last on the same line. */
  lemma InstantBreaksDisjointness(evs: seq<Event>, p: Pid)
    requires |evs| == 4 && evs[0] == Begin && evs[1] == Lay(Span(p, 0, 10))
    requires evs[2] == Lay(Span(p, 5, 5)) && evs[3] == Lay(Span(p, 6, 8))
    ensures TidAt(evs, 1) == TidAt(evs, 3) && !Disjoint(evs[1].span, evs[3].span)
  {
    hide Place, FindLine;
    RunPrefix(evs, 1);
    RunPrefix(evs, 2);
    RunPrefix(evs, 3);
    PiercedFindLine(p, Run(evs[..1]), Run(evs[..2]), Run(evs[..3]));
  }
}
