/** Optimality of the layout: spans laid in start order use as many lines as
    there are spans alive at one instant, and no colouring can use fewer. */
module GatewayColouring {
  import opened Prelude
  import opened SpanLayout

  function AliveIn(start: int, end: int, t: int): (n: nat) {
    if start <= t < end then 1 else 0
  }

  /** Number of intervals of a line alive at t. */
  function LineAlive(line: Line, t: int): (n: nat) {
    if line == [] then 0
    else LineAlive(line[..|line| - 1], t) + AliveIn(line[|line| - 1].start, line[|line| - 1].end, t)
  }

  function LinesAlive(lines: seq<Line>, t: int): (n: nat) {
    if lines == [] then 0 else LinesAlive(lines[..|lines| - 1], t) + LineAlive(lines[|lines| - 1], t)
  }

  /** Number of spans of `pid` laid in the run that are alive at t. */
  function AliveOf(evs: seq<Event>, pid: Pid, t: int): (n: nat) {
    if evs == [] then 0
    else
      var ev := evs[|evs| - 1];
      AliveOf(evs[..|evs| - 1], pid, t)
      + if ev.Lay? && ev.span.pid == pid then AliveIn(ev.span.start, ev.span.end, t) else 0
  }

  lemma {:induction false} LineAliveAppend(a: Line, b: Line, t: int)
    ensures LineAlive(a + b, t) == LineAlive(a, t) + LineAlive(b, t)
    decreases |b|
  {
    if b == [] {
      assert a + b == a;
    } else {
      LineAliveAppend(a, b[..|b| - 1], t);
      assert (a + b)[..|a + b| - 1] == a + b[..|b| - 1];
    }
  }

  lemma LineAliveInsert(line: Line, iv: Interval, t: int)
    ensures LineAlive(Insert(line, iv), t) == LineAlive(line, t) + AliveIn(iv.start, iv.end, t)
  {
    var k := BisectTuple(line, iv);
    var a, b := line[..k], line[k..];
    assert line == a + b && Insert(line, iv) == a + [iv] + b;
    LineAliveAppend(a, b, t);
    LineAliveAppend(a, [iv], t);
    LineAliveAppend(a + [iv], b, t);
    assert [iv][..0] == [];
  }

  lemma {:induction false} LinesAliveUpdate(lines: seq<Line>, k: nat, line: Line, t: int)
    requires k < |lines|
    ensures LinesAlive(lines[k := line], t) == LinesAlive(lines, t) - LineAlive(lines[k], t) + LineAlive(line, t)
  {
    var n := |lines| - 1;
    if k < n {
      LinesAliveUpdate(lines[..n], k, line, t);
      assert lines[k := line][..n] == lines[..n][k := line];
    } else {
      assert lines[k := line][..n] == lines[..n];
    }
  }

  lemma LinesAlivePut(lines: seq<Line>, line: nat, iv: Interval, t: int)
    requires 1 <= line <= |lines| + 1
    ensures LinesAlive(Put(lines, line, iv), t) == LinesAlive(lines, t) + AliveIn(iv.start, iv.end, t)
  {
    LineAliveInsert(Target(lines, line), iv, t);
    if line <= |lines| {
      LinesAliveUpdate(lines, line - 1, Insert(lines[line - 1], iv), t);
    } else {
      assert Put(lines, line, iv)[..|lines|] == lines;
    }
  }

  /** Every span laid is on exactly one line of its pid, so counting by lines counts spans. */
  lemma {:induction false} AliveByLines(evs: seq<Event>, pid: Pid, t: int)
    ensures LinesAlive(LinesOf(Run(evs).graph, pid), t) == AliveOf(evs, pid, t)
  {
    hide FindLine, Insert, Put;
    if evs != [] {
      var n := |evs| - 1;
      AliveByLines(evs[..n], pid, t);
      if evs[n].Lay? && evs[n].span.pid == pid {
        var st, sp := Run(evs[..n]), evs[n].span;
        LinesAlivePut(LinesOf(st.graph, pid), FindLine(st, sp), Interval(sp.start, sp.end), t);
      }
    }
  }

  lemma {:induction false} NoneAlive(line: Line, t: int)
    requires forall i :: 0 <= i < |line| ==> line[i].end <= t
    ensures LineAlive(line, t) == 0
  {
    if line != [] {
      NoneAlive(line[..|line| - 1], t);
    }
  }

  lemma {:induction false} SeparatedAlive(line: Line, t: int)
    requires Separated(line)
    ensures LineAlive(line, t) <= 1
  {
    if line != [] {
      var n := |line| - 1;
      SeparatedAlive(line[..n], t);
      if line[n].start <= t {
        NoneAlive(line[..n], t);
      }
    }
  }

  lemma {:induction false} LinesAliveAtMost(lines: seq<Line>, t: int)
    requires SeparatedLines(lines)
    ensures LinesAlive(lines, t) <= |lines|
  {
    if lines != [] {
      LinesAliveAtMost(lines[..|lines| - 1], t);
      SeparatedAlive(lines[|lines| - 1], t);
    }
  }

  lemma {:induction false} SomeAlive(line: Line, iv: Interval, t: int)
    requires iv in line && iv.start <= t < iv.end
    ensures LineAlive(line, t) >= 1
  {
    if iv != line[|line| - 1] {
      SomeAlive(line[..|line| - 1], iv, t);
    }
  }

  lemma {:induction false} LinesAliveAtLeast(lines: seq<Line>, t: int)
    requires forall i :: 0 <= i < |lines| ==> LineAlive(lines[i], t) >= 1
    ensures LinesAlive(lines, t) >= |lines|
  {
    if lines != [] {
      LinesAliveAtLeast(lines[..|lines| - 1], t);
    }
  }

  /** No instant has more live spans of a pid than the pid has lines. */
  lemma LinesCoverAlive(evs: seq<Event>, pid: Pid, t: int)
    requires NoInstants(evs, pid)
    ensures AliveOf(evs, pid, t) <= |LinesOf(Run(evs).graph, pid)|
  {
    NoInstantsSeparated(evs, pid);
    LinesAliveAtMost(LinesOf(Run(evs).graph, pid), t);
    AliveByLines(evs, pid, t);
  }

  /** The spans of `pid` have positive length and come in order of start. */
  ghost predicate InStartOrder(evs: seq<Event>, pid: Pid) {
    forall i, j :: 0 <= i <= j < |evs| && evs[i].Lay? && evs[j].Lay? && evs[i].span.pid == pid && evs[j].span.pid == pid
      ==> evs[i].span.start <= evs[j].span.start && evs[i].span.start < evs[i].span.end
  }

  lemma PutStores(lines: seq<Line>, line: nat, laid: Interval, l: nat, iv: Interval)
    requires 1 <= line <= |lines| + 1 && l < |Put(lines, line, laid)| && iv in Put(lines, line, laid)[l]
    ensures iv == laid || (l < |lines| && iv in lines[l])
  {
    if l == line - 1 {
      assert iv in multiset(Insert(Target(lines, line), laid));
    } else {
      assert Put(lines, line, laid)[l] == lines[l];
    }
  }

  lemma {:induction false} StoredWasLaid(evs: seq<Event>, pid: Pid, line: nat, iv: Interval) returns (k: nat)
    requires Stored(Run(evs).graph, pid, line, iv)
    ensures k < |evs| && evs[k] == Lay(Span(pid, iv.start, iv.end))
  {
    hide FindLine, Insert, Put;
    var n := |evs| - 1;
    var st := Run(evs[..n]);
    if evs[n].Lay? && evs[n].span.pid == pid {
      var sp := evs[n].span;
      PutStores(LinesOf(st.graph, pid), FindLine(st, sp), Interval(sp.start, sp.end), line - 1, iv);
    }
    if Stored(st.graph, pid, line, iv) {
      k := StoredWasLaid(evs[..n], pid, line, iv);
    } else {
      k := n;
    }
  }

  /** A conflict met in start order is a live span at the newcomer's start. */
  lemma ConflictIsAlive(evs: seq<Event>, i: nat, sp: Span)
    requires InStartOrder(evs + [Lay(sp)], sp.pid)
    requires i < |LinesOf(Run(evs).graph, sp.pid)| && Overlaps(LinesOf(Run(evs).graph, sp.pid)[i], sp.start, sp.end)
    ensures LineAlive(LinesOf(Run(evs).graph, sp.pid)[i], sp.start) >= 1
  {
    var pid, all := sp.pid, evs + [Lay(sp)];
    assert NoInstants(evs, pid) by {
      forall k | 0 <= k < |evs| && evs[k].Lay? && evs[k].span.pid == pid
        ensures evs[k].span.start != evs[k].span.end
      { assert all[k] == evs[k]; }
    }
    NoInstantsSeparated(evs, pid);
    RunSorted(evs);
    var line := Run(evs).graph[pid][i];
    OverlapIsScan(line, sp.start, sp.end);
    var iv :| iv in line && Hits(iv, sp.start, sp.end);
    var k := StoredWasLaid(evs, pid, i + 1, iv);
    assert all[k] == evs[k] && all[|evs|] == Lay(sp);
    SomeAlive(line, iv, sp.start);
  }

  /** A line is opened only when every line already has a span alive at the newcomer's start. */
  lemma OpeningIsPeak(evs: seq<Event>, sp: Span)
    requires InStartOrder(evs + [Lay(sp)], sp.pid)
    requires FindLine(Run(evs), sp) == |LinesOf(Run(evs).graph, sp.pid)| + 1
    ensures |LinesOf(Run(evs).graph, sp.pid)| <= AliveOf(evs, sp.pid, sp.start)
  {
    hide Insert, Put, Overlaps, InStartOrder, Run;
    var lines := LinesOf(Run(evs).graph, sp.pid);
    forall i | 0 <= i < |lines| ensures LineAlive(lines[i], sp.start) >= 1 {
      ConflictIsAlive(evs, i, sp);
    }
    LinesAliveAtLeast(lines, sp.start);
    AliveByLines(evs, sp.pid, sp.start);
  }

  lemma InStartOrderPrefix(evs: seq<Event>, pid: Pid)
    requires InStartOrder(evs, pid) && evs != []
    ensures InStartOrder(evs[..|evs| - 1], pid)
  {
  }

  lemma PositiveLast(evs: seq<Event>, pid: Pid)
    requires InStartOrder(evs, pid) && evs != [] && evs[|evs| - 1].Lay? && evs[|evs| - 1].span.pid == pid
    ensures evs[|evs| - 1].span.start < evs[|evs| - 1].span.end
  {
    var n := |evs| - 1;
    assert evs[n].span.start <= evs[n].span.start;
  }

  /** Laid in start order, the lines in use are matched by spans alive at one instant. */
  lemma {:induction false} PeakReached(evs: seq<Event>, pid: Pid) returns (t: int)
    requires InStartOrder(evs, pid)
    ensures |LinesOf(Run(evs).graph, pid)| <= AliveOf(evs, pid, t)
  {
    hide Insert, Put, FindLine, InStartOrder;
    t := 0;
    if evs != [] {
      var n := |evs| - 1;
      InStartOrderPrefix(evs, pid);
      t := PeakReached(evs[..n], pid);
      if evs[n].Lay? && evs[n].span.pid == pid {
        var st, sp := Run(evs[..n]), evs[n].span;
        if FindLine(st, sp) == |LinesOf(st.graph, pid)| + 1 {
          t := sp.start;
          assert evs == evs[..n] + [Lay(sp)];
          OpeningIsPeak(evs[..n], sp);
          assert AliveIn(sp.start, sp.end, t) == 1 by { PositiveLast(evs, pid); }
        }
      }
    }
  }

  // ----- no colouring does better -----------------------------------------

  ghost predicate Proper(spans: seq<Span>, colour: seq<nat>, m: nat) {
    && |colour| == |spans|
    && (forall i :: 0 <= i < |colour| ==> colour[i] < m)
    && (forall i, j :: 0 <= i < j < |spans| && !Disjoint(spans[i], spans[j]) ==> colour[i] != colour[j])
  }

  function AliveSpans(spans: seq<Span>, t: int): (n: nat) {
    if spans == [] then 0
    else AliveSpans(spans[..|spans| - 1], t) + AliveIn(spans[|spans| - 1].start, spans[|spans| - 1].end, t)
  }

  lemma {:induction false} AliveColours(spans: seq<Span>, colour: seq<nat>, m: nat, t: int) returns (used: set<nat>)
    requires Proper(spans, colour, m)
    ensures |used| == AliveSpans(spans, t)
    ensures forall c :: c in used ==>
              exists i :: 0 <= i < |spans| && colour[i] == c && spans[i].start <= t < spans[i].end
  {
    used := {};
    if spans != [] {
      var n := |spans| - 1;
      used := AliveColours(spans[..n], colour[..n], m, t);
      if spans[n].start <= t < spans[n].end {
        assert forall i :: 0 <= i < n && spans[i].start <= t < spans[i].end ==> colour[i] != colour[n];
        assert colour[n] !in used;
        used := used + {colour[n]};
      }
    }
  }

  /** Any assignment of lines that keeps overlapping spans apart needs at least the peak. */
  lemma AnyColouringNeedsPeak(spans: seq<Span>, colour: seq<nat>, m: nat, t: int)
    requires Proper(spans, colour, m)
    ensures AliveSpans(spans, t) <= m
  {
    var used := AliveColours(spans, colour, m, t);
    BelowCard(used, m);
  }
}
