/** The layout pass as it runs: the line graph, the current lines and the slot
    records are updated in place, and the pass is proved against `SpanLayout.Run`. */
module LayoutPass {
  import opened Prelude
  import opened SpanLayout
  import opened GatewayColouring
  import opened LineChoice

  class SpanLayoutContainer {
    var intervals: Line

    constructor ()
      ensures intervals == []
    {
      intervals := [];
    }

    method CheckOverlap(start: int, end: int) returns (conflict: bool)
      ensures conflict == Overlaps(intervals, start, end)
    {
      var idx := BisectStart(intervals, start);
      if idx > 0 {
        if intervals[idx - 1].end > start { return true; }
      }
      if idx < |intervals| {
        if intervals[idx].start < end { return true; }
      }
      return false;
    }

    method InsertSpan(start: int, end: int)
      modifies this
      ensures intervals == Insert(old(intervals), Interval(start, end))
      ensures LexSorted(old(intervals)) ==> LexSorted(intervals)
      ensures LexSorted(old(intervals)) && Separated(old(intervals)) ==>
                (!Overlaps(old(intervals), start, end) ==> Separated(intervals))
                && (start == end && Overlaps(old(intervals), start, end) ==> !Separated(intervals))
    {
      hide LexSorted, Separated, Insert, Overlaps;
      if LexSorted(intervals) {
        InsertKeepsOrder(intervals, Interval(start, end));
        if Separated(intervals) {
          if start == end {
            InsertInstant(intervals, start);
          } else if !Overlaps(intervals, start, end) {
            InsertKeepsSeparated(intervals, Interval(start, end));
          }
        }
      }
      intervals := Insert(intervals, Interval(start, end));
    }
  }

  /** Container i of pid p is at home there, and holds line i. */
  ghost predicate Owned(p: Pid, cs: seq<SpanLayoutContainer>, ls: seq<Line>, home: map<SpanLayoutContainer, (Pid, nat)>)
    reads cs
  {
    |cs| == |ls| && forall i :: 0 <= i < |cs| ==> cs[i] in home && home[cs[i]] == (p, i) && cs[i].intervals == ls[i]
  }

  lemma OwnedKept(p: Pid, cs: seq<SpanLayoutContainer>, ls: seq<Line>, home: map<SpanLayoutContainer, (Pid, nat)>,
                  c: SpanLayoutContainer, where: (Pid, nat))
    requires Owned(p, cs, ls, home) && c !in cs
    ensures Owned(p, cs, ls, home[c := where])
  {
  }

  lemma OwnedSnoc(p: Pid, cs: seq<SpanLayoutContainer>, ls: seq<Line>, home: map<SpanLayoutContainer, (Pid, nat)>,
                  c: SpanLayoutContainer)
    requires Owned(p, cs, ls, home) && c !in cs && c.intervals == []
    ensures Owned(p, cs + [c], ls + [[]], home[c := (p, |cs|)])
  {
  }

  /** State after a request began in `st` and its first n spans were laid. */
  function LayAll(st: State, spans: seq<Span>, n: nat): (r: State)
    requires StickyInRange(st) && n <= |spans|
    ensures StickyInRange(r)
  {
    if n == 0 then Step(st, Begin) else Place(LayAll(st, spans, n - 1), spans[n - 1])
  }

  /** The tids given to the first n spans of a request that began in `st`. */
  function TidsOf(st: State, spans: seq<Span>, n: nat): (tids: seq<nat>)
    requires StickyInRange(st) && n <= |spans|
    ensures |tids| == n
  {
    if n == 0 then [] else TidsOf(st, spans, n - 1) + [SpanLayout.FindLine(LayAll(st, spans, n - 1), spans[n - 1])]
  }

  lemma OpenThenInsert(lines: seq<Line>, line: nat, iv: Interval)
    requires 1 <= line <= |lines| + 1
    ensures var grown := if line <= |lines| then lines else lines + [[]];
            grown[line - 1 := Insert(grown[line - 1], iv)] == Put(lines, line, iv)
  {
  }

  /** Every line of every pid has a container of its own, which holds what `lines` says. */
  ghost predicate Mirrored(graph: map<Pid, seq<SpanLayoutContainer>>, lines: map<Pid, seq<Line>>,
                           home: map<SpanLayoutContainer, (Pid, nat)>, repr: set<SpanLayoutContainer>)
    reads repr
  {
    && graph.Keys == lines.Keys && home.Keys == repr
    && (forall p, c :: p in graph && c in graph[p] ==> c in repr)
    && (forall p :: p in graph ==> Owned(p, graph[p], lines[p], home))
  }

  lemma AddMirrored(graph: map<Pid, seq<SpanLayoutContainer>>, lines: map<Pid, seq<Line>>,
                    home: map<SpanLayoutContainer, (Pid, nat)>, repr: set<SpanLayoutContainer>,
                    pid: Pid, cs: seq<SpanLayoutContainer>, c: SpanLayoutContainer)
    requires Mirrored(graph, lines, home, repr) && c !in repr && c.intervals == []
    requires cs == if pid in graph then graph[pid] else []
    ensures Mirrored(graph[pid := cs + [c]], lines[pid := LinesOf(lines, pid) + [[]]],
                     home[c := (pid, |cs|)], repr + {c})
  {
    OwnedSnoc(pid, cs, LinesOf(lines, pid), home, c);
    forall p | p in graph ensures Owned(p, graph[p], lines[p], home[c := (pid, |cs|)]) {
      OwnedKept(p, graph[p], lines[p], home, c, (pid, |cs|));
    }
    hide Owned;
  }

  class LayoutGraph {
    var graph: map<Pid, seq<SpanLayoutContainer>>
    var sticky: map<Pid, nat>
    var slots: seq<(Pid, nat)>
    ghost var lines: map<Pid, seq<Line>>          // contents of the containers
    ghost var home: map<SpanLayoutContainer, (Pid, nat)>   // where each container is used
    ghost var repr: set<SpanLayoutContainer>

    ghost function View(): State
      reads this
    {
      State(lines, sticky, slots)
    }

    ghost predicate Mirrors()
      reads `graph, `lines, `home, `repr, repr
    {
      Mirrored(graph, lines, home, repr)
    }

    ghost predicate Valid()
      reads this, repr
    {
      Mirrors() && StickyInRange(View())
    }

    constructor ()
      ensures Valid() && View() == EMPTY && repr == {}
    {
      graph, sticky, slots := map[], map[], [];
      lines, home, repr := map[], map[], {};
    }

    /** An empty container behind the last line of `pid`. */
    method AddContainer(pid: Pid, c: SpanLayoutContainer)
      requires Mirrors() && c !in repr && c.intervals == []
      modifies `graph, `lines, `home, `repr
      ensures Mirrors() && repr == old(repr) + {c}
      ensures lines == old(lines)[pid := LinesOf(old(lines), pid) + [[]]]
    {
      var cs := if pid in graph then graph[pid] else [];
      AddMirrored(graph, lines, home, repr, pid, cs, c);
      hide Mirrored;
      graph := graph[pid := cs + [c]];
      lines := lines[pid := LinesOf(lines, pid) + [[]]];
      home := home[c := (pid, |cs|)];
      repr := repr + {c};
    }

    /** A new empty line for `pid`, made current, with its slot record. */
    method OpenLine(pid: Pid, line: nat)
      requires Mirrors() && line == |LinesOf(lines, pid)| + 1
      modifies this
      ensures Mirrors() && fresh(repr - old(repr))
      ensures lines == old(lines)[pid := LinesOf(old(lines), pid) + [[]]]
      ensures slots == old(slots) + [(pid, line)] && sticky == old(sticky)[pid := line]
    {
      hide Mirrors;
      var c := new SpanLayoutContainer();
      AddContainer(pid, c);
      sticky := sticky[pid := line];
      slots := slots + [(pid, line)];
    }

    /** A request starts with no current lines. */
    method Begin()
      requires Valid()
      modifies `sticky
      ensures Valid() && View() == Step(old(View()), Event.Begin)
    {
      hide Mirrors;
      sticky := map[];
    }

    lemma SameShape(pid: Pid)
      requires Mirrors()
      ensures pid in graph <==> pid in lines
      ensures pid in graph ==> |graph[pid]| == |lines[pid]|
    {
      assert pid in graph ==> Owned(pid, graph[pid], lines[pid], home);
    }

    /** The conflict test on the container of a line. */
    method Conflicts(pid: Pid, line: nat, start: int, end: int) returns (conflict: bool)
      requires Mirrors() && pid in lines && 1 <= line <= |lines[pid]|
      ensures conflict == Overlaps(lines[pid][line - 1], start, end)
    {
      hide Overlaps;
      assert Owned(pid, graph[pid], lines[pid], home);
      conflict := graph[pid][line - 1].CheckOverlap(start, end);
    }

    /** `__find_line`, which opens the line it returns when that line is new. */
    method FindLine(pid: Pid, start: int, end: int) returns (line: nat)
      requires Valid()
      modifies this
      ensures Mirrors() && fresh(repr - old(repr))
      ensures line == SpanLayout.FindLine(old(View()), Span(pid, start, end))
      ensures var before := LinesOf(old(lines), pid);
              && lines == old(lines)[pid := if line <= |before| then before else before + [[]]]
              && slots == old(slots) + (if line <= |before| then [] else [(pid, line)])
      ensures sticky == old(sticky)[pid := line]
    {
      hide Overlaps, Mirrors;
      SameShape(pid);
      if pid in sticky {
        line := sticky[pid];
        if start == end {
          return;
        }
        var conflict := Conflicts(pid, line, start, end);
        if !conflict {
          return;
        }
      }
      if pid !in graph {
        line := 1;
        OpenLine(pid, line);
        return;
      }
      for i := 0 to |graph[pid]|
        invariant unchanged(this) && Mirrors()
        invariant forall j :: 0 <= j < i ==> Overlaps(lines[pid][j], start, end)
      {
        var conflict := Conflicts(pid, i + 1, start, end);
        if !conflict {
          sticky := sticky[pid := i + 1];
          return i + 1;
        }
      }
      line := |graph[pid]| + 1;
      OpenLine(pid, line);
    }

    /** Store an interval in the container of a line. */
    method StoreSpan(pid: Pid, line: nat, start: int, end: int)
      requires Mirrors() && pid in lines && 1 <= line <= |lines[pid]|
      modifies `lines, repr
      ensures Mirrors()
      ensures var was := old(lines)[pid];
              lines == old(lines)[pid := was[line - 1 := Insert(was[line - 1], Interval(start, end))]]
    {
      hide Insert;
      var c := graph[pid][line - 1];
      assert Owned(pid, graph[pid], lines[pid], home);
      c.InsertSpan(start, end);
      lines := lines[pid := lines[pid][line - 1 := Insert(lines[pid][line - 1], Interval(start, end))]];
      forall p | p in graph ensures Owned(p, graph[p], lines[p], home) {
        assert old(Owned(p, graph[p], lines[p], home));
        assert forall i :: 0 <= i < |graph[p]| && graph[p][i] == c ==> home[c] == (p, i);
      }
    }

    /** Find a line and store the span in its container. */
    method LaySpan(sp: Span) returns (line: nat)
      requires Valid()
      modifies this, repr
      ensures Valid() && fresh(repr - old(repr))
      ensures line == SpanLayout.FindLine(old(View()), sp)
      ensures View() == Place(old(View()), sp)
    {
      hide Mirrors, SpanLayout.FindLine, Insert, Put;
      line := FindLine(sp.pid, sp.start, sp.end);
      OpenThenInsert(LinesOf(old(lines), sp.pid), line, Interval(sp.start, sp.end));
      StoreSpan(sp.pid, line, sp.start, sp.end);
      assert lines == Place(old(View()), sp).graph;
    }

    /** One request, or the gateway's spans: current lines start empty. */
    method LayRequest(spans: seq<Span>, ghost st: State) returns (tids: seq<nat>)
      requires Valid() && View() == st
      modifies this, repr
      ensures Valid() && fresh(repr - old(repr)) && View() == LayAll(st, spans, |spans|)
      ensures tids == TidsOf(st, spans, |spans|)
    {
      hide Mirrors, StickyInRange, Place, Step, SpanLayout.FindLine;
      Begin();
      tids := [];
      for i := 0 to |spans|
        invariant Valid() && fresh(repr - old(repr)) && View() == LayAll(st, spans, i)
        invariant tids == TidsOf(st, spans, i)
      {
        var line := LaySpan(spans[i]);
        tids := tids + [line];
      }
    }
  }

  // ----- the events of a whole pass ------------------------------------------

  /** The steps of laying one request. */
  function RequestEvents(spans: seq<Span>): (evs: seq<Event>)
    ensures |evs| == |spans| + 1 && evs[0] == Begin
    ensures forall k :: 0 <= k < |spans| ==> evs[k + 1] == Lay(spans[k])
  {
    [Begin] + seq(|spans|, i requires 0 <= i < |spans| => Lay(spans[i]))
  }

  function AllEvents(reqs: seq<seq<Span>>): (evs: seq<Event>) {
    if reqs == [] then [] else AllEvents(reqs[..|reqs| - 1]) + RequestEvents(reqs[|reqs| - 1])
  }

  lemma RequestEventAt(evs: seq<Event>, all: seq<Event>, spans: seq<Span>, m: nat)
    requires all == evs + RequestEvents(spans) && |evs| < m <= |all|
    ensures all[..|evs|] == evs
    ensures all[m - 1] == if m == |evs| + 1 then Begin else Lay(spans[m - |evs| - 2])
  {
  }

  /** Laying a request continues the run by its events. */
  lemma {:induction false} LayAllIsRun(evs: seq<Event>, all: seq<Event>, spans: seq<Span>, n: nat, m: nat)
    requires n <= |spans| && all == evs + RequestEvents(spans) && m == |evs| + 1 + n
    ensures LayAll(Run(evs), spans, n) == Run(all[..m])
  {
    hide Place, RequestEvents;
    RequestEventAt(evs, all, spans, m);
    if n == 0 {
      RunPrefix(all, m);
    } else {
      var st, before, last := LayAll(Run(evs), spans, n - 1), Run(all[..m - 1]), Lay(spans[n - 1]);
      assert st == before by { LayAllIsRun(evs, all, spans, n - 1, m - 1); }
      assert Run(all[..m]) == Step(before, last) by { RunPrefix(all, m); }
    }
  }

  /** The tids of a request are those of the run. */
  lemma {:induction false} TidsAreRun(evs: seq<Event>, all: seq<Event>, spans: seq<Span>, n: nat, k: nat, m: nat)
    requires k < n <= |spans| && all == evs + RequestEvents(spans) && m == |evs| + 1 + k
    ensures all[m] == Lay(spans[k])
    ensures TidsOf(Run(evs), spans, n)[k] == TidAt(all, m)
  {
    hide Place, RequestEvents, SpanLayout.FindLine, Run;
    RequestEventAt(evs, all, spans, m + 1);
    if k < n - 1 {
      TidsAreRun(evs, all, spans, n - 1, k, m);
    } else {
      LayAllIsRun(evs, all, spans, k, m);
    }
  }

  function TidsPerRequest(order: seq<seq<Span>>): (tids: seq<seq<nat>>) {
    if order == [] then []
    else
      var pre, last := order[..|order| - 1], order[|order| - 1];
      TidsPerRequest(pre) + [TidsOf(Run(AllEvents(pre)), last, |last|)]
  }

  lemma LayoutStep(order: seq<seq<Span>>, i: nat)
    requires i < |order|
    ensures var st := Run(AllEvents(order[..i]));
            && Run(AllEvents(order[..i + 1])) == LayAll(st, order[i], |order[i]|)
            && TidsPerRequest(order[..i + 1]) == TidsPerRequest(order[..i]) + [TidsOf(st, order[i], |order[i]|)]
  {
    assert order[..i + 1][..i] == order[..i];
    var evs := AllEvents(order[..i]);
    var all := evs + RequestEvents(order[i]);
    LayAllIsRun(evs, all, order[i], |order[i]|, |all|);
    assert all[..|all|] == all;
  }

  lemma {:induction false} EventsPrefix(order: seq<seq<Span>>, i: nat)
    requires i <= |order|
    ensures AllEvents(order[..i]) <= AllEvents(order)
    decreases |order|
  {
    if i < |order| {
      var n := |order| - 1;
      EventsPrefix(order[..n], i);
      assert order[..n][..i] == order[..i];
    } else {
      assert order[..i] == order;
    }
  }

  lemma {:induction false} TidsIndex(order: seq<seq<Span>>, i: nat)
    requires i < |order|
    ensures |TidsPerRequest(order)| == |order|
    ensures TidsPerRequest(order)[i] == TidsOf(Run(AllEvents(order[..i])), order[i], |order[i]|)
    decreases |order|
  {
    hide Run, TidsOf, AllEvents;
    var n := |order| - 1;
    if n > 0 {
      TidsIndex(order[..n], if i < n then i else 0);
      assert i < n ==> order[..n][..i] == order[..i];
    }
  }

  /** Where span j of request i is laid. */
  ghost function EventOf(order: seq<seq<Span>>, i: nat, j: nat): (m: nat)
    requires i < |order| && j < |order[i]|
  {
    |AllEvents(order[..i])| + 1 + j
  }

  lemma TidInPrefix(pre: seq<Event>, all: seq<Event>, m: nat)
    requires pre <= all && m < |pre| && pre[m].Lay?
    ensures all[m] == pre[m] && TidAt(all, m) == TidAt(pre, m)
  {
    hide Run, SpanLayout.FindLine;
    assert all[..m] == pre[..m];
  }

  lemma EventsUpTo(order: seq<seq<Span>>, i: nat)
    requires i < |order|
    ensures AllEvents(order[..i]) + RequestEvents(order[i]) <= AllEvents(order)
  {
    hide RequestEvents;
    assert order[..i + 1][..i] == order[..i];
    EventsPrefix(order, i + 1);
  }

  /** The tid the pass gives to span j of request i is the line the run puts it on. */
  lemma SpanEvent(order: seq<seq<Span>>, i: nat, j: nat)
    requires i < |order| && j < |order[i]|
    ensures var all, m := AllEvents(order), EventOf(order, i, j);
            && m < |all| && all[m] == Lay(order[i][j])
            && |TidsPerRequest(order)| == |order| && |TidsPerRequest(order)[i]| == |order[i]|
            && TidsPerRequest(order)[i][j] == TidAt(all, m)
  {
    hide Run, AllEvents, TidsPerRequest, TidsOf, TidAt, RequestEvents;
    var evs, m := AllEvents(order[..i]), EventOf(order, i, j);
    var upTo := evs + RequestEvents(order[i]);
    TidsIndex(order, i);
    TidsAreRun(evs, upTo, order[i], |order[i]|, j, m);
    EventsUpTo(order, i);
    TidInPrefix(upTo, AllEvents(order), m);
  }

  lemma EventsOrdered(order: seq<seq<Span>>, i: nat, j: nat, k: nat, l: nat)
    requires i < |order| && j < |order[i]| && k < |order| && l < |order[k]|
    requires i < k || (i == k && j < l)
    ensures EventOf(order, i, j) < EventOf(order, k, l)
  {
    if i < k {
      EventsPrefix(order[..k], i + 1);
      assert order[..k][..i + 1] == order[..i + 1] && order[..i + 1][..i] == order[..i];
    }
  }

  /** `tids` gives a tid to every span of `order`. */
  ghost predicate TidsFor(order: seq<seq<Span>>, tids: seq<seq<nat>>) {
    |tids| == |order| && forall i :: 0 <= i < |order| ==> |tids[i]| == |order[i]|
  }

  /** No two positive-length spans of the pid that were given the same tid overlap. */
  ghost predicate TidsApart(order: seq<seq<Span>>, tids: seq<seq<nat>>, pid: Pid)
    requires TidsFor(order, tids)
  {
    forall i, j, k, l ::
      && 0 <= i < |order| && 0 <= j < |order[i]| && 0 <= k < |order| && 0 <= l < |order[k]| && (i, j) != (k, l)
      && order[i][j].pid == order[k][l].pid == pid && tids[i][j] == tids[k][l]
      && order[i][j].start < order[i][j].end && order[k][l].start < order[k][l].end
      ==> Disjoint(order[i][j], order[k][l])
  }

  ghost predicate TidsShape(order: seq<seq<Span>>) {
    TidsFor(order, TidsPerRequest(order))
  }

  lemma PairDisjoint(order: seq<seq<Span>>, i: nat, j: nat, k: nat, l: nat)
    requires i < |order| && j < |order[i]| && k < |order| && l < |order[k]|
    requires i < k || (i == k && j < l)
    requires NoPiercing(AllEvents(order), order[i][j].pid) && order[i][j].pid == order[k][l].pid
    requires order[i][j].start < order[i][j].end && order[k][l].start < order[k][l].end
    requires TidsShape(order) && TidsPerRequest(order)[i][j] == TidsPerRequest(order)[k][l]
    ensures Disjoint(order[i][j], order[k][l])
  {
    hide Run, AllEvents, TidsPerRequest, EventOf, SpanLayout.FindLine, NoPiercing;
    SpanEvent(order, i, j);
    SpanEvent(order, k, l);
    EventsOrdered(order, i, j, k, l);
    SameLineDisjoint(AllEvents(order), EventOf(order, i, j), EventOf(order, k, l));
  }

  lemma TidsFit(order: seq<seq<Span>>)
    ensures TidsShape(order)
  {
    hide Run, AllEvents, TidsOf;
    forall i | 0 <= i < |order| ensures |TidsPerRequest(order)| == |order| && |TidsPerRequest(order)[i]| == |order[i]| {
      TidsIndex(order, i);
    }
  }

  lemma DisjointSymmetric(a: Span, b: Span)
    ensures Disjoint(a, b) == Disjoint(b, a)
  {
  }

  /** In the whole pass, over all requests and the gateway, positive-length spans with the same pid and
      tid are disjoint unless an instant of that pid pierced a stored interval. */
  lemma PassDisjoint(order: seq<seq<Span>>, pid: Pid)
    requires NoPiercing(AllEvents(order), pid)
    ensures TidsShape(order) && TidsApart(order, TidsPerRequest(order), pid)
  {
    hide AllEvents, TidsPerRequest, NoPiercing, Disjoint;
    TidsFit(order);
    var tids := TidsPerRequest(order);
    forall i, j, k, l |
      && 0 <= i < |order| && 0 <= j < |order[i]| && 0 <= k < |order| && 0 <= l < |order[k]| && (i, j) != (k, l)
      && order[i][j].pid == order[k][l].pid == pid && tids[i][j] == tids[k][l]
      && order[i][j].start < order[i][j].end && order[k][l].start < order[k][l].end
      ensures Disjoint(order[i][j], order[k][l])
    {
      if i < k || (i == k && j < l) {
        PairDisjoint(order, i, j, k, l);
      } else {
        PairDisjoint(order, k, l, i, j);
        DisjointSymmetric(order[k][l], order[i][j]);
      }
    }
  }

  // ----- which tid each span gets --------------------------------------------------

  /** Span (k, l) is laid before span (i, j). */
  predicate Earlier(k: nat, l: nat, i: nat, j: nat) {
    k < i || (k == i && l < j)
  }

  /** No span laid before (i, j) with tid m is in its way. */
  ghost predicate Clear(order: seq<seq<Span>>, tids: seq<seq<nat>>, i: nat, j: nat, m: nat)
    requires TidsFor(order, tids) && i < |order| && j < |order[i]|
  {
    forall k: nat, l: nat :: k < |order| && l < |order[k]| && Earlier(k, l, i, j) && tids[k][l] == m ==>
      !InTheWay(order[k][l], order[i][j])
  }

  /** The tid of the request's latest span of the pid among its first j. */
  ghost function PreviousTid(order: seq<seq<Span>>, tids: seq<seq<nat>>, pid: Pid, i: nat, j: nat): (r: Option<nat>)
    requires TidsFor(order, tids) && i < |order| && j <= |order[i]|
  {
    if j == 0 then None
    else if order[i][j - 1].pid == pid then Some(tids[i][j - 1])
    else PreviousTid(order, tids, pid, i, j - 1)
  }

  /** The tid of span (i, j), in spans and tids alone. A request starts without a current line: its first
      span of a pid gets the lowest tid with nothing in the way. A later one keeps the tid of the request's
      previous span of the pid if it is an instant or nothing there is in its way. */
  ghost predicate GreedyTid(order: seq<seq<Span>>, tids: seq<seq<nat>>, i: nat, j: nat)
    requires TidsFor(order, tids) && i < |order| && j < |order[i]|
  {
    var sp, t, last := order[i][j], tids[i][j], PreviousTid(order, tids, order[i][j].pid, i, j);
    if last.Some? && (sp.start == sp.end || Clear(order, tids, i, j, last.value)) then t == last.value
    else t >= 1 && Clear(order, tids, i, j, t) && forall m: nat :: 1 <= m < t ==> !Clear(order, tids, i, j, m)
  }

  ghost predicate GreedyTids(order: seq<seq<Span>>, tids: seq<seq<nat>>, pid: Pid)
    requires TidsFor(order, tids)
  {
    forall i: nat, j: nat :: i < |order| && j < |order[i]| && order[i][j].pid == pid ==> GreedyTid(order, tids, i, j)
  }

  /** Every span event of a pass is some span of some request. */
  lemma {:induction false} EventPlace(order: seq<seq<Span>>, e: nat) returns (k: nat, l: nat)
    requires e < |AllEvents(order)| && AllEvents(order)[e].Lay?
    ensures k < |order| && l < |order[k]| && EventOf(order, k, l) == e && AllEvents(order)[e] == Lay(order[k][l])
  {
    var n := |order| - 1;
    var before := AllEvents(order[..n]);
    if e < |before| {
      k, l := EventPlace(order[..n], e);
      assert order[..n][..k] == order[..k];
    } else {
      k, l := n, e - |before| - 1;
    }
  }

  lemma EarlierIff(order: seq<seq<Span>>, k: nat, l: nat, i: nat, j: nat)
    requires i < |order| && j < |order[i]| && k < |order| && l < |order[k]|
    ensures Earlier(k, l, i, j) <==> EventOf(order, k, l) < EventOf(order, i, j)
  {
    hide EventOf;
    if Earlier(k, l, i, j) {
      EventsOrdered(order, k, l, i, j);
    } else if Earlier(i, j, k, l) {
      EventsOrdered(order, i, j, k, l);
    }
  }

  lemma ClearIff(order: seq<seq<Span>>, tids: seq<seq<nat>>, i: nat, j: nat, m: nat)
    requires tids == TidsPerRequest(order) && TidsFor(order, tids) && i < |order| && j < |order[i]|
    ensures var all, e := AllEvents(order), EventOf(order, i, j);
            e < |all| && all[e].Lay? && (Clear(order, tids, i, j, m) <==> ClearAt(all, e, m))
  {
    hide AllEvents, TidsPerRequest, EventOf, TidAt, InTheWay;
    var all, e := AllEvents(order), EventOf(order, i, j);
    SpanEvent(order, i, j);
    if !Clear(order, tids, i, j, m) {
      var k: nat, l: nat :| k < |order| && l < |order[k]| && Earlier(k, l, i, j) && tids[k][l] == m
                            && InTheWay(order[k][l], order[i][j]);
      SpanEvent(order, k, l);
      EarlierIff(order, k, l, i, j);
      assert !ClearAt(all, e, m);
    }
    if !ClearAt(all, e, m) {
      var x :| 0 <= x < e && all[x].Lay? && TidAt(all, x) == m && InTheWay(all[x].span, all[e].span);
      var k, l := EventPlace(order, x);
      SpanEvent(order, k, l);
      EarlierIff(order, k, l, i, j);
      assert !Clear(order, tids, i, j, m);
    }
  }

  /** At the start of a request no span of it has been laid. */
  lemma RequestStart(order: seq<seq<Span>>, i: nat)
    requires i < |order|
    ensures var all, e := AllEvents(order), |AllEvents(order[..i])|;
            e < |all| && all[e] == Begin
  {
    hide RequestEvents;
    EventsUpTo(order, i);
    var upTo := AllEvents(order[..i]) + RequestEvents(order[i]);
    assert upTo[|AllEvents(order[..i])|] == RequestEvents(order[i])[0];
  }

  lemma {:induction false} PreviousIsLast(order: seq<seq<Span>>, tids: seq<seq<nat>>, pid: Pid, i: nat, j: nat)
    requires tids == TidsPerRequest(order) && TidsFor(order, tids) && i < |order| && j <= |order[i]|
    ensures var all, e := AllEvents(order), |AllEvents(order[..i])| + 1 + j;
            e <= |all| && LastTid(all, pid, e) == PreviousTid(order, tids, pid, i, j)
  {
    hide AllEvents, TidsPerRequest, TidAt;
    if j == 0 {
      RequestStart(order, i);
    } else {
      PreviousIsLast(order, tids, pid, i, j - 1);
      SpanEvent(order, i, j - 1);
    }
  }

  /** Every tid the pass gives to spans of a pid that was not pierced is the greedy one. */
  lemma PassGreedy(order: seq<seq<Span>>, pid: Pid)
    requires NoPiercing(AllEvents(order), pid)
    ensures TidsShape(order) && GreedyTids(order, TidsPerRequest(order), pid)
  {
    hide AllEvents, TidsPerRequest, NoPiercing, TidAt, Clear, ClearAt, LastTid, PreviousTid;
    TidsFit(order);
    var tids := TidsPerRequest(order);
    forall i: nat, j: nat | i < |order| && j < |order[i]| && order[i][j].pid == pid
      ensures GreedyTid(order, tids, i, j)
    {
      var all, e := AllEvents(order), EventOf(order, i, j);
      SpanEvent(order, i, j);
      PlacedGreedily(all, e);
      PreviousIsLast(order, tids, pid, i, j);
      forall m: nat ensures Clear(order, tids, i, j, m) <==> ClearAt(all, e, m) {
        ClearIff(order, tids, i, j, m);
      }
    }
  }

  // ----- the pass ---------------------------------------------------------------

  function StartOf(sp: Span): int { sp.start }

  function FirstStart(spans: seq<Span>): int {
    if spans == [] then 0 else spans[0].start
  }

  function SortSpans(spans: seq<Span>): (r: seq<Span>) {
    StableSort(spans, StartOf)
  }

  function SortEach(roots: seq<seq<Span>>): (r: seq<seq<Span>>)
    ensures |r| == |roots|
    ensures forall i :: 0 <= i < |r| ==> r[i] == SortSpans(roots[i])
  {
    seq(|roots|, i requires 0 <= i < |roots| => SortSpans(roots[i]))
  }

  /** Requests in order of their first span, each in order of start; the gateway last. */
  function LayoutOrder(roots: seq<seq<Span>>, gateway: seq<Span>): (r: seq<seq<Span>>) {
    StableSort(SortEach(roots), FirstStart) + [SortSpans(gateway)]
  }

  /** No request is empty, requests are ordered by their first start, each one by start. */
  ghost predicate InStartOrders(reqs: seq<seq<Span>>) {
    && (forall i :: 0 <= i < |reqs| ==> reqs[i] != [])
    && (forall i, j :: 0 <= i < j < |reqs| ==> reqs[i][0].start <= reqs[j][0].start)
    && (forall i, a, b :: 0 <= i < |reqs| && 0 <= a < b < |reqs[i]| ==> reqs[i][a].start <= reqs[i][b].start)
  }

  lemma SpansInOrder(spans: seq<Span>)
    ensures forall a, b :: 0 <= a < b < |SortSpans(spans)| ==> SortSpans(spans)[a].start <= SortSpans(spans)[b].start
  {
    var r := SortSpans(spans);
    StableSortSorted(spans, StartOf);
    forall a, b | 0 <= a < b < |r| ensures r[a].start <= r[b].start {
      assert StartOf(r[a]) <= StartOf(r[b]);
    }
  }

  lemma RequestInOrder(roots: seq<seq<Span>>, req: seq<Span>)
    requires (forall i :: 0 <= i < |roots| ==> roots[i] != []) && req in multiset(SortEach(roots))
    ensures req != [] && forall a, b :: 0 <= a < b < |req| ==> req[a].start <= req[b].start
  {
    var each := SortEach(roots);
    var k :| 0 <= k < |each| && each[k] == req;
    SpansInOrder(roots[k]);
    assert |req| == |roots[k]|;
  }

  lemma RequestsInOrder(roots: seq<seq<Span>>)
    requires forall i :: 0 <= i < |roots| ==> roots[i] != []
    ensures InStartOrders(StableSort(SortEach(roots), FirstStart))
  {
    hide StableSort, SortEach;
    var r: seq<seq<Span>> := StableSort(SortEach(roots), FirstStart);
    StableSortSorted(SortEach(roots), FirstStart);
    forall i | 0 <= i < |r|
      ensures r[i] != [] && forall a, b :: 0 <= a < b < |r[i]| ==> r[i][a].start <= r[i][b].start
    {
      assert r[i] in multiset(r);
      RequestInOrder(roots, r[i]);
    }
    forall i, j | 0 <= i < j < |r| ensures r[i][0].start <= r[j][0].start {
      assert FirstStart(r[i]) <= FirstStart(r[j]);
    }
  }

  datatype LayoutError = EmptyRequest

  /** `sorted(roots, key=first start)`, which fails when a request has no span. */
  method SortRequests(roots: seq<seq<Span>>) returns (r: Result<seq<seq<Span>>, LayoutError>)
    ensures r.Err? <==> exists i :: 0 <= i < |roots| && roots[i] == []
    ensures r.Ok? ==> r.value == StableSort(SortEach(roots), FirstStart) && InStartOrders(r.value)
  {
    var each := SortEach(roots);
    for i := 0 to |each|
      invariant forall j :: 0 <= j < i ==> roots[j] != []
    {
      assert |each[i]| == |roots[i]|;
      if each[i] == [] {
        return Err(EmptyRequest);
      }
    }
    RequestsInOrder(roots);
    r := Ok(StableSort(each, FirstStart));
  }

  method LayRequests(order: seq<seq<Span>>) returns (g: LayoutGraph, tids: seq<seq<nat>>)
    ensures fresh(g) && fresh(g.repr) && g.Valid() && g.View() == Run(AllEvents(order))
    ensures tids == TidsPerRequest(order)
  {
    hide LayoutGraph.Mirrors;
    tids := [];
    g := new LayoutGraph();
    for i := 0 to |order|
      invariant fresh(g) && fresh(g.repr) && g.Valid() && g.View() == Run(AllEvents(order[..i]))
      invariant tids == TidsPerRequest(order[..i])
    {
      var line := g.LayRequest(order[i], g.View());
      tids := tids + [line];
      LayoutStep(order, i);
    }
    assert order[..|order|] == order;
  }

  /** `generate_perfetto_span_layout`: the engine's requests, then the gateway. */
  method GenerateLayout(roots: seq<seq<Span>>, gateway: seq<Span>)
    returns (r: Result<LayoutGraph, LayoutError>, tids: seq<seq<nat>>)
    ensures r.Err? <==> exists i :: 0 <= i < |roots| && roots[i] == []
    ensures r.Ok? ==>
              var order := LayoutOrder(roots, gateway);
              && r.value.View() == Run(AllEvents(order))
              && tids == TidsPerRequest(order) && TidsFor(order, tids)
              && InStartOrders(StableSort(SortEach(roots), FirstStart))
              && forall pid :: NoPiercing(AllEvents(order), pid) ==>
                   TidsApart(order, tids, pid) && GreedyTids(order, tids, pid)
  {
    hide Run, AllEvents, TidsPerRequest, TidsApart, NoPiercing, StableSort, GreedyTids;
    tids := [];
    var sorted := SortRequests(roots);
    if sorted.Err? {
      r := Err(sorted.error);
    } else {
      var g;
      ghost var order := LayoutOrder(roots, gateway);
      g, tids := LayRequests(sorted.value + [SortSpans(gateway)]);
      r := Ok(g);
      TidsFit(order);
      forall pid | NoPiercing(AllEvents(order), pid)
        ensures TidsApart(order, tids, pid) && GreedyTids(order, tids, pid)
      {
        PassDisjoint(order, pid);
        PassGreedy(order, pid);
      }
    }
  }

  // ----- the gateway layout is optimal, stated of the pass's own input -----

  lemma {:induction false} AliveOfAppend(a: seq<Event>, b: seq<Event>, pid: Pid, t: int)
    ensures AliveOf(a + b, pid, t) == AliveOf(a, pid, t) + AliveOf(b, pid, t)
    decreases |b|
  {
    if b == [] {
      assert a + b == a;
    } else {
      AliveOfAppend(a, b[..|b| - 1], pid, t);
      assert (a + b)[..|a + b| - 1] == a + b[..|b| - 1];
    }
  }

  ghost predicate Untouched(evs: seq<Event>, pid: Pid) {
    forall k :: 0 <= k < |evs| && evs[k].Lay? ==> evs[k].span.pid != pid
  }

  lemma {:induction false} UntouchedAlive(evs: seq<Event>, pid: Pid, t: int)
    requires Untouched(evs, pid)
    ensures AliveOf(evs, pid, t) == 0
  {
    if evs != [] {
      UntouchedAlive(evs[..|evs| - 1], pid, t);
    }
  }

  ghost predicate AllOf(spans: seq<Span>, pid: Pid) {
    forall sp :: sp in spans ==> sp.pid == pid
  }

  lemma {:induction false} RequestAlive(spans: seq<Span>, pid: Pid, t: int)
    requires AllOf(spans, pid)
    ensures AliveOf(RequestEvents(spans), pid, t) == AliveSpans(spans, t)
  {
    var evs := RequestEvents(spans);
    if spans == [] {
      assert evs[..0] == [];
    } else {
      var n := |spans| - 1;
      RequestAlive(spans[..n], pid, t);
      assert evs[..n + 1] == RequestEvents(spans[..n]);
      assert spans[n] in spans;
    }
  }

  lemma {:induction false} InsertAlive(spans: seq<Span>, sp: Span, t: int)
    ensures AliveSpans(StableInsert(spans, sp, StartOf), t) == AliveSpans(spans, t) + AliveIn(sp.start, sp.end, t)
  {
    if spans == [] {
      assert [sp][..0] == [];
    } else if spans[|spans| - 1].start <= sp.start {
      assert (spans + [sp])[..|spans|] == spans;
    } else {
      var n := |spans| - 1;
      InsertAlive(spans[..n], sp, t);
      var r := StableInsert(spans[..n], sp, StartOf);
      assert (r + [spans[n]])[..|r|] == r;
    }
  }

  lemma {:induction false} SortAlive(spans: seq<Span>, t: int)
    ensures AliveSpans(SortSpans(spans), t) == AliveSpans(spans, t)
  {
    if spans != [] {
      var n := |spans| - 1;
      SortAlive(spans[..n], t);
      InsertAlive(SortSpans(spans[..n]), spans[n], t);
    }
  }

  /** Every span of every request satisfies p. */
  ghost predicate Every(reqs: seq<seq<Span>>, p: Span -> bool) {
    forall i, j :: 0 <= i < |reqs| && 0 <= j < |reqs[i]| ==> p(reqs[i][j])
  }

  ghost predicate EveryLaid(evs: seq<Event>, p: Span -> bool) {
    forall k :: 0 <= k < |evs| && evs[k].Lay? ==> p(evs[k].span)
  }

  lemma {:induction false} EveryEvent(reqs: seq<seq<Span>>, p: Span -> bool)
    requires Every(reqs, p)
    ensures EveryLaid(AllEvents(reqs), p)
  {
    if reqs != [] {
      var n := |reqs| - 1;
      EveryEvent(reqs[..n], p);
      var evs := RequestEvents(reqs[n]);
      forall k | 0 <= k < |evs| && evs[k].Lay? ensures p(evs[k].span) {
        assert evs[k].span == reqs[n][k - 1];
      }
    }
  }

  lemma EverySorted(roots: seq<seq<Span>>, p: Span -> bool)
    requires Every(roots, p)
    ensures Every(StableSort(SortEach(roots), FirstStart), p)
  {
    var r: seq<seq<Span>> := StableSort(SortEach(roots), FirstStart);
    forall i, j | 0 <= i < |r| && 0 <= j < |r[i]| ensures p(r[i][j]) {
      assert r[i] in multiset(SortEach(roots));
      var k :| 0 <= k < |roots| && r[i] == SortSpans(roots[k]);
      assert r[i][j] in multiset(roots[k]);
    }
  }

  ghost predicate EngineOnly(reqs: seq<seq<Span>>) {
    Every(reqs, (sp: Span) => sp.pid.Engine?)
  }

  lemma EngineEvents(roots: seq<seq<Span>>)
    requires EngineOnly(roots)
    ensures Untouched(AllEvents(StableSort(SortEach(roots), FirstStart)), Gateway)
  {
    var engine := (sp: Span) => sp.pid.Engine?;
    EverySorted(roots, engine);
    EveryEvent(StableSort(SortEach(roots), FirstStart), engine);
  }

  /** Without instants of a pid in the input no instant of it is laid. */
  lemma PassUnpierced(roots: seq<seq<Span>>, gateway: seq<Span>, pid: Pid)
    requires Every(roots + [gateway], (sp: Span) => sp.pid == pid ==> sp.start != sp.end)
    ensures NoPiercing(AllEvents(LayoutOrder(roots, gateway)), pid)
  {
    hide NoPiercing;
    var p := (sp: Span) => sp.pid == pid ==> sp.start != sp.end;
    var all, order := roots + [gateway], LayoutOrder(roots, gateway);
    assert Every(roots, p) by {
      forall i, j | 0 <= i < |roots| && 0 <= j < |roots[i]| ensures p(roots[i][j]) {
        assert all[i] == roots[i];
      }
    }
    EverySorted(roots, p);
    assert Every(order, p) by {
      forall i, j | 0 <= i < |order| && 0 <= j < |order[i]| ensures p(order[i][j]) {
        if i == |order| - 1 {
          assert order[i][j] in multiset(gateway);
          var k :| 0 <= k < |gateway| && gateway[k] == order[i][j];
          assert all[|roots|][k] == order[i][j];
        } else {
          assert order[i] == StableSort(SortEach(roots), FirstStart)[i];
        }
      }
    }
    EveryEvent(order, p);
    NoInstantsNoPiercing(AllEvents(order), pid);
  }

  /** When no input span of a pid is an instant, the pass leaves every line of that pid separated, gives
      overlapping positive-length spans of that pid different tids, and gives each span the greedy tid. */
  lemma PassSeparated(roots: seq<seq<Span>>, gateway: seq<Span>, pid: Pid)
    requires Every(roots + [gateway], (sp: Span) => sp.pid == pid ==> sp.start != sp.end)
    ensures var order := LayoutOrder(roots, gateway);
            && SeparatedLines(LinesOf(Run(AllEvents(order)).graph, pid))
            && TidsShape(order) && TidsApart(order, TidsPerRequest(order), pid)
            && GreedyTids(order, TidsPerRequest(order), pid)
  {
    hide Run, SeparatedLines, TidsApart, TidsFor, GreedyTids, NoPiercing, TidsPerRequest, LayoutOrder, AllEvents;
    var order := LayoutOrder(roots, gateway);
    PassUnpierced(roots, gateway, pid);
    SeparatedIffNoPiercing(AllEvents(order), pid);
    PassDisjoint(order, pid);
    PassGreedy(order, pid);
  }

  ghost function GatewayLines(roots: seq<seq<Span>>, gateway: seq<Span>): nat {
    |LinesOf(Run(AllEvents(LayoutOrder(roots, gateway))).graph, Gateway)|
  }

  ghost predicate GatewayInput(gateway: seq<Span>) {
    forall sp :: sp in gateway ==> sp.pid == Gateway && sp.start < sp.end
  }

  lemma SortedGateway(gateway: seq<Span>)
    requires GatewayInput(gateway)
    ensures GatewayInput(SortSpans(gateway)) && AllOf(SortSpans(gateway), Gateway)
  {
    var spans := SortSpans(gateway);
    forall sp | sp in spans ensures sp.pid == Gateway && sp.start < sp.end {
      assert sp in multiset(gateway);
    }
  }

  lemma WhereLaid(pre: seq<Event>, spans: seq<Span>, k: nat)
    requires Untouched(pre, Gateway)
    requires k < |pre + RequestEvents(spans)|
    requires var ev := (pre + RequestEvents(spans))[k]; ev.Lay? && ev.span.pid == Gateway
    ensures k > |pre| && (pre + RequestEvents(spans))[k].span == spans[k - |pre| - 1]
  {
    var tail := RequestEvents(spans);
    if k >= |pre| {
      assert (pre + tail)[k] == tail[k - |pre|];
    }
  }

  lemma GatewayEventsOrdered(pre: seq<Event>, spans: seq<Span>)
    requires Untouched(pre, Gateway) && GatewayInput(spans) && SortedBy(spans, StartOf)
    ensures InStartOrder(pre + RequestEvents(spans), Gateway)
    ensures NoInstants(pre + RequestEvents(spans), Gateway)
  {
    var evs := pre + RequestEvents(spans);
    forall k | 0 <= k < |evs| && evs[k].Lay? && evs[k].span.pid == Gateway
      ensures k > |pre| && evs[k].span == spans[k - |pre| - 1]
    {
      WhereLaid(pre, spans, k);
    }
    forall i, j |
      && 0 <= i <= j < |evs| && evs[i].Lay? && evs[j].Lay?
      && evs[i].span.pid == Gateway && evs[j].span.pid == Gateway
      ensures evs[i].span.start <= evs[j].span.start && evs[i].span.start < evs[i].span.end
    {
      var a, b := i - |pre| - 1, j - |pre| - 1;
      assert spans[a] in spans;
      assert a < b ==> StartOf(spans[a]) <= StartOf(spans[b]);
    }
  }

  /** The gateway gets exactly as many lines as its input spans alive at the busiest
      instant, whatever the engine's requests do. */
  lemma GatewayLinesArePeak(roots: seq<seq<Span>>, gateway: seq<Span>) returns (peak: int)
    requires EngineOnly(roots) && GatewayInput(gateway)
    ensures forall t :: AliveSpans(gateway, t) <= GatewayLines(roots, gateway)
    ensures AliveSpans(gateway, peak) == GatewayLines(roots, gateway)
  {
    var order, spans := LayoutOrder(roots, gateway), SortSpans(gateway);
    var n := |order| - 1;
    var pre := AllEvents(order[..n]);
    assert order[..n] == StableSort(SortEach(roots), FirstStart);
    EngineEvents(roots);
    SortedGateway(gateway);
    StableSortSorted(gateway, StartOf);
    GatewayEventsOrdered(pre, spans);
    var evs := pre + RequestEvents(spans);
    assert AllEvents(order) == evs;
    forall t ensures AliveOf(evs, Gateway, t) == AliveSpans(gateway, t) {
      AliveOfAppend(pre, RequestEvents(spans), Gateway, t);
      UntouchedAlive(pre, Gateway, t);
      RequestAlive(spans, Gateway, t);
      SortAlive(gateway, t);
    }
    forall t ensures AliveSpans(gateway, t) <= GatewayLines(roots, gateway) {
      LinesCoverAlive(evs, Gateway, t);
    }
    peak := PeakReached(evs, Gateway);
  }

  /** No assignment of the gateway spans that keeps overlapping spans apart uses fewer lines. */
  lemma GatewayLayoutOptimal(roots: seq<seq<Span>>, gateway: seq<Span>, colour: seq<nat>, m: nat)
    requires EngineOnly(roots) && GatewayInput(gateway) && Proper(gateway, colour, m)
    ensures GatewayLines(roots, gateway) <= m
  {
    var peak := GatewayLinesArePeak(roots, gateway);
    AnyColouringNeedsPeak(gateway, colour, m, peak);
  }
}
