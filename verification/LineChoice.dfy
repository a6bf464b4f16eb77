/** Which line each span gets, stated in spans and tids alone: the line of the request's previous span
    of the same pid while nothing on it is in the way, otherwise the lowest line on which nothing is. */
module LineChoice {
  import opened Prelude
  import opened SpanLayout
  import opened GatewayColouring

  /** The span stands in the way of the later one. */
  predicate InTheWay(earlier: Span, later: Span) {
    earlier.pid == later.pid && Hits(Interval(earlier.start, earlier.end), later.start, later.end)
  }

  /** No span laid before step e with tid m is in its way. */
  ghost predicate ClearAt(evs: seq<Event>, e: nat, m: nat)
    requires e < |evs| && evs[e].Lay?
  {
    forall k :: 0 <= k < e && evs[k].Lay? && TidAt(evs, k) == m ==> !InTheWay(evs[k].span, evs[e].span)
  }

  /** The tid of the latest span of the pid since the request began. */
  ghost function LastTid(evs: seq<Event>, pid: Pid, e: nat): (r: Option<nat>)
    requires e <= |evs|
  {
    if e == 0 then None
    else match evs[e - 1]
      case Begin => None
      case Lay(sp) => if sp.pid == pid then Some(TidAt(evs, e - 1)) else LastTid(evs, pid, e - 1)
  }

  lemma StepSticky(st: State, ev: Event, pid: Pid)
    requires StickyInRange(st)
    ensures var r := Step(st, ev).sticky;
            match ev
            case Begin => pid !in r
            case Lay(sp) =>
              if sp.pid == pid then pid in r && r[pid] == FindLine(st, sp)
              else (pid in r <==> pid in st.sticky) && (pid in r ==> r[pid] == st.sticky[pid])
  {
    hide FindLine, Put;
  }

  /** The current line of a pid is that of the request's latest span of the pid. */
  lemma {:induction false} StickyIsLast(evs: seq<Event>, pid: Pid, e: nat)
    requires e <= |evs|
    ensures var sticky := Run(evs[..e]).sticky;
            LastTid(evs, pid, e) == if pid in sticky then Some(sticky[pid]) else None
  {
    hide Step, FindLine;
    if e > 0 {
      StickyIsLast(evs, pid, e - 1);
      RunPrefix(evs, e);
      StepSticky(Run(evs[..e - 1]), evs[e - 1], pid);
    }
  }

  /** What a step stores anew is its own span, on the line found for it. */
  lemma NewlyStored(st: State, sp: Span, pid: Pid, line: nat, iv: Interval)
    requires StickyInRange(st) && Stored(Place(st, sp).graph, pid, line, iv) && !Stored(st.graph, pid, line, iv)
    ensures pid == sp.pid && line == FindLine(st, sp) && iv == Interval(sp.start, sp.end)
  {
    hide FindLine, Insert, Put;
    if pid == sp.pid {
      var lines, own := LinesOf(st.graph, pid), Interval(sp.start, sp.end);
      PutStores(lines, FindLine(st, sp), own, line - 1, iv);
    }
  }

  /** What is stored on a line was laid there. */
  lemma {:induction false} StoredOnTid(evs: seq<Event>, e: nat, pid: Pid, line: nat, iv: Interval) returns (k: nat)
    requires e <= |evs| && Stored(Run(evs[..e]).graph, pid, line, iv)
    ensures k < e && evs[k] == Lay(Span(pid, iv.start, iv.end)) && TidAt(evs, k) == line
  {
    hide FindLine, Place;
    assert e > 0;
    RunPrefix(evs, e);
    hide Run;
    var st, ev := Run(evs[..e - 1]), evs[e - 1];
    if Stored(st.graph, pid, line, iv) {
      k := StoredOnTid(evs, e - 1, pid, line, iv);
    } else {
      NewlyStored(st, ev.span, pid, line, iv);
      k := e - 1;
    }
  }

  lemma TidStored(evs: seq<Event>, e: nat, k: nat)
    requires k < e <= |evs| && evs[k].Lay?
    ensures Stored(Run(evs[..e]).graph, evs[k].span.pid, TidAt(evs, k), Interval(evs[k].span.start, evs[k].span.end))
  {
    hide Run, FindLine, Stored;
    assert evs[..e][..k] == evs[..k];
    PlacedStays(evs[..e], k);
  }

  /** A line of the state is blocked exactly when an earlier span with its tid is in the way. */
  lemma BlockedIffNotClear(evs: seq<Event>, e: nat, m: nat)
    requires e < |evs| && evs[e].Lay? && 1 <= m
    ensures var lines := LinesOf(Run(evs[..e]).graph, evs[e].span.pid);
            ClearAt(evs, e, m) <==> m > |lines| || !Blocked(lines[m - 1], evs[e].span)
  {
    hide Run, FindLine;
    var sp, graph := evs[e].span, Run(evs[..e]).graph;
    var lines := LinesOf(graph, sp.pid);
    if m <= |lines| && Blocked(lines[m - 1], sp) {
      var iv :| iv in lines[m - 1] && Hits(iv, sp.start, sp.end);
      var k := StoredOnTid(evs, e, sp.pid, m, iv);
      assert InTheWay(evs[k].span, sp);
    }
    if !ClearAt(evs, e, m) {
      var k :| 0 <= k < e && evs[k].Lay? && TidAt(evs, k) == m && InTheWay(evs[k].span, sp);
      TidStored(evs, e, k);
    }
  }

  /** The tid of step e, said without the state: the latest tid of the request if the span is an instant
      or nothing there is in its way, otherwise the least positive number with nothing in its way. */
  ghost predicate Greedy(evs: seq<Event>, e: nat)
    requires e < |evs| && evs[e].Lay?
  {
    var sp, t, last := evs[e].span, TidAt(evs, e), LastTid(evs, evs[e].span.pid, e);
    if last.Some? && (sp.start == sp.end || ClearAt(evs, e, last.value)) then t == last.value
    else t >= 1 && ClearAt(evs, e, t) && forall m: nat :: 1 <= m < t ==> !ClearAt(evs, e, m)
  }

  lemma FirstFreeBlocked(lines: seq<Line>, sp: Span)
    requires AllLexSorted(lines) && SeparatedLines(lines)
    ensures var k := FirstFree(lines, sp.start, sp.end);
            && (k < |lines| ==> !Blocked(lines[k], sp)) && forall i :: 0 <= i < k ==> Blocked(lines[i], sp)
  {
    hide Overlaps, Blocked, Separated, LexSorted;
    BlockedLines(lines, sp);
  }

  lemma FindLineBlocked(st: State, sp: Span)
    requires StickyInRange(st) && GraphSorted(st.graph) && SeparatedLines(LinesOf(st.graph, sp.pid))
    ensures var lines, t := LinesOf(st.graph, sp.pid), FindLine(st, sp);
            if sp.pid in st.sticky && (sp.start == sp.end || !Blocked(lines[st.sticky[sp.pid] - 1], sp))
            then t == st.sticky[sp.pid]
            else (t <= |lines| ==> !Blocked(lines[t - 1], sp)) && forall i :: 0 <= i < t - 1 ==> Blocked(lines[i], sp)
  {
    hide Overlaps, Blocked, Separated, LexSorted;
    var lines := LinesOf(st.graph, sp.pid);
    assert AllLexSorted(lines);
    BlockedLines(lines, sp);
    FirstFreeBlocked(lines, sp);
  }

  lemma StickyRange(st: State, pid: Pid)
    requires StickyInRange(st) && pid in st.sticky
    ensures 1 <= st.sticky[pid] <= |LinesOf(st.graph, pid)|
  {
  }

  /** Every span of a pid that was not pierced is placed greedily. */
  lemma PlacedGreedily(evs: seq<Event>, e: nat)
    requires e < |evs| && evs[e].Lay? && NoPiercing(evs, evs[e].span.pid)
    ensures Greedy(evs, e)
  {
    hide Run, FindLine, NoPiercing, SeparatedLines, ClearAt, Blocked, StickyInRange;
    var st, sp := Run(evs[..e]), evs[e].span;
    NoPiercingPrefix(evs, sp.pid, e);
    SeparatedIffNoPiercing(evs[..e], sp.pid);
    RunSorted(evs[..e]);
    FindLineBlocked(st, sp);
    StickyIsLast(evs, sp.pid, e);
    if sp.pid in st.sticky {
      StickyRange(st, sp.pid);
    }
    forall m: nat | 1 <= m
      ensures ClearAt(evs, e, m) <==>
                m > |LinesOf(st.graph, sp.pid)| || !Blocked(LinesOf(st.graph, sp.pid)[m - 1], sp)
    {
      BlockedIffNotClear(evs, e, m);
    }
  }
}
