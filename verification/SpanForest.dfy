/** The span forest: spans arrive with parent pointers that may dangle, repeat or
    form cycles, and the recursive passes walk the child lists built from them. */
module SpanForest {
  import opened Prelude

  /** One OTEL span. `parent` is "" when the input has none; `pid` is the attribute
      a thread span carries. A dictionary is identified by its position in the input. */
  datatype RawSpan = RawSpan(id: string, parent: string, isRequest: bool, pid: int, start: int, end: int)

  type Spans = seq<RawSpan>

  /** Position of the last span with that id: later entries overwrite earlier ones. */
  function LastWithId(spans: Spans, id: string): (r: Option<nat>)
    ensures r.Some? ==> r.value < |spans| && spans[r.value].id == id
    ensures forall i :: 0 <= i < |spans| && spans[i].id == id ==> r.Some? && i <= r.value
  {
    if spans == [] then None
    else if spans[|spans| - 1].id == id then Some(|spans| - 1)
    else LastWithId(spans[..|spans| - 1], id)
  }

  /** The span whose child list span i is appended to. A request span is a root and has none. */
  function ParentOf(spans: Spans, i: nat): (r: Option<nat>)
    requires i < |spans|
    ensures r.Some? ==> r.value < |spans|
  {
    if spans[i].isRequest then None else LastWithId(spans, spans[i].parent)
  }

  /** Child list of p restricted to the first n spans, in input order. */
  function ChildrenUpTo(spans: Spans, p: nat, n: nat): (r: seq<nat>)
    requires n <= |spans|
    ensures forall c: nat :: c in r <==> c < n && ParentOf(spans, c) == Some(p)
  {
    if n == 0 then []
    else ChildrenUpTo(spans, p, n - 1) + if ParentOf(spans, n - 1) == Some(p) then [n - 1] else []
  }

  function Children(spans: Spans, p: nat): (r: seq<nat>)
    ensures forall c: nat :: c in r <==> c < |spans| && ParentOf(spans, c) == Some(p)
  {
    ChildrenUpTo(spans, p, |spans|)
  }

  function RootsUpTo(spans: Spans, n: nat): (r: seq<nat>)
    requires n <= |spans|
    ensures forall c: nat :: c in r <==> c < n && spans[c].isRequest
  {
    if n == 0 then [] else RootsUpTo(spans, n - 1) + if spans[n - 1].isRequest then [n - 1] else []
  }

  function Roots(spans: Spans): (r: seq<nat>)
    ensures forall c: nat :: c in r <==> c < |spans| && spans[c].isRequest
  {
    RootsUpTo(spans, |spans|)
  }

  // ----- building the child lists -----------------------------------------

  /** `{span["spanId"]: span for span in otel_spans}`. */
  method BuildIdMap(spans: Spans) returns (idMap: map<string, nat>)
    ensures forall id :: LastWithId(spans, id) == if id in idMap then Some(idMap[id]) else None
  {
    idMap := map[];
    for i := 0 to |spans|
      invariant forall id :: LastWithId(spans[..i], id) == if id in idMap then Some(idMap[id]) else None
    {
      assert spans[..i + 1][..i] == spans[..i];
      idMap := idMap[spans[i].id := i];
    }
    assert spans[..|spans|] == spans;
  }

  function ChildTable(spans: Spans, n: nat): (r: seq<seq<nat>>)
    requires n <= |spans|
    ensures |r| == |spans|
  {
    seq(|spans|, p requires 0 <= p < |spans| => ChildrenUpTo(spans, p, n))
  }

  lemma ChildTableStep(spans: Spans, i: nat)
    requires i < |spans|
    ensures var t := ChildTable(spans, i);
            ChildTable(spans, i + 1) == match ParentOf(spans, i) case None => t case Some(p) => t[p := t[p] + [i]]
  {
    hide ParentOf;
    var t, q := ChildTable(spans, i), ParentOf(spans, i);
    forall p: nat | p < |spans| ensures ChildTable(spans, i + 1)[p] == if q == Some(p) then t[p] + [i] else t[p] {
      assert t[p] == ChildrenUpTo(spans, p, i);
      assert t[p] + [] == t[p];
    }
  }

  lemma TableEnds(spans: Spans)
    ensures ChildTable(spans, 0) == seq(|spans|, _ => [])
    ensures forall p :: 0 <= p < |spans| ==> ChildTable(spans, |spans|)[p] == Children(spans, p)
  {
  }

  /** Span p is the last one in the whole input whose id is the parent id of span i, which is no request. */
  ghost predicate ParentInInput(spans: Spans, i: nat, p: nat)
    requires i < |spans| && p < |spans|
  {
    && !spans[i].isRequest && spans[p].id == spans[i].parent
    && forall q :: p < q < |spans| ==> spans[q].id != spans[i].parent
  }

  lemma ParentIff(spans: Spans, i: nat, p: nat)
    requires i < |spans| && p < |spans|
    ensures ParentOf(spans, i) == Some(p) <==> ParentInInput(spans, i, p)
  {
    hide LastWithId;
    var last := LastWithId(spans, spans[i].parent);
    if ParentInInput(spans, i, p) {
      assert last.Some? && p <= last.value && spans[last.value].id == spans[i].parent;
    }
  }

  lemma {:induction false} ChildrenIncreasing(spans: Spans, p: nat, n: nat)
    requires n <= |spans|
    ensures Increasing(ChildrenUpTo(spans, p, n)) && forall c :: c in ChildrenUpTo(spans, p, n) ==> c < n
  {
    hide ParentOf;
    if n > 0 {
      ChildrenIncreasing(spans, p, n - 1);
      var before := ChildrenUpTo(spans, p, n - 1);
      forall a | 0 <= a < |before| ensures before[a] < n - 1 {
        assert before[a] in before;
      }
    }
  }

  lemma {:induction false} RootsIncreasing(spans: Spans, n: nat)
    requires n <= |spans|
    ensures Increasing(RootsUpTo(spans, n)) && forall c :: c in RootsUpTo(spans, n) ==> c < n
  {
    if n > 0 {
      RootsIncreasing(spans, n - 1);
      var before := RootsUpTo(spans, n - 1);
      forall a | 0 <= a < |before| ensures before[a] < n - 1 {
        assert before[a] in before;
      }
    }
  }

  /** The child lists in terms of the input alone. */
  lemma ChildrenOfInput(spans: Spans, p: nat)
    requires p < |spans|
    ensures Increasing(Children(spans, p))
    ensures forall i: nat :: i in Children(spans, p) <==> i < |spans| && ParentInInput(spans, i, p)
  {
    hide ParentOf, ChildrenUpTo, ParentInInput;
    ChildrenIncreasing(spans, p, |spans|);
    forall i: nat | i < |spans| ensures ParentOf(spans, i) == Some(p) <==> ParentInInput(spans, i, p) {
      ParentIff(spans, i, p);
    }
  }

  /** `build_otel_span_tree`: the children of a span are, in input order, the spans that are no request and
      name as their parent an id of which that span is the last bearer in the whole input. */
  method BuildSpanTree(spans: Spans) returns (child: seq<seq<nat>>, roots: seq<nat>)
    ensures |child| == |spans|
    ensures forall p :: 0 <= p < |spans| ==> child[p] == Children(spans, p)
    ensures roots == Roots(spans)
    ensures forall p: nat :: p < |spans| ==> Increasing(child[p])
    ensures forall i: nat, p: nat :: p < |spans| ==> (i in child[p] <==> i < |spans| && ParentInInput(spans, i, p))
    ensures Increasing(roots) && forall i: nat :: i in roots <==> i < |spans| && spans[i].isRequest
  {
    hide LastWithId, ChildTable, ChildrenUpTo;
    var idMap := BuildIdMap(spans);
    TableEnds(spans);
    child := seq(|spans|, _ => []);
    roots := [];
    for i := 0 to |spans|
      invariant child == ChildTable(spans, i)
      invariant roots == RootsUpTo(spans, i)
    {
      ChildTableStep(spans, i);
      if spans[i].isRequest {
        roots := roots + [i];
      } else if spans[i].parent in idMap {
        var p := idMap[spans[i].parent];
        child := child[p := child[p] + [i]];
      }
    }
    RootsIncreasing(spans, |spans|);
    hide Children;
    forall p: nat | p < |spans|
      ensures Increasing(child[p]) && forall i: nat :: i in child[p] <==> i < |spans| && ParentInInput(spans, i, p)
    {
      ChildrenOfInput(spans, p);
    }
  }

  // ----- ancestry, depth and termination -----------------------------------

  /** The d-th ancestor along parent pointers. */
  ghost function Anc(spans: Spans, i: nat, d: nat): (r: Option<nat>)
    requires i < |spans|
    ensures r.Some? ==> r.value < |spans|
    decreases d
  {
    if d == 0 then Some(i)
    else match ParentOf(spans, i) case None => None case Some(p) => Anc(spans, p, d - 1)
  }

  /** i hangs d levels below a request span. */
  ghost predicate AtDepth(spans: Spans, i: nat, d: nat)
    requires i < |spans|
  {
    Anc(spans, i, d).Some? && spans[Anc(spans, i, d).value].isRequest
  }

  ghost predicate Grounded(spans: Spans, i: nat)
    ensures Grounded(spans, i) ==> i < |spans|
  {
    i < |spans| && exists d: nat :: AtDepth(spans, i, d)
  }

  lemma {:induction false} DepthUnique(spans: Spans, i: nat, d: nat, e: nat)
    requires i < |spans| && AtDepth(spans, i, d) && AtDepth(spans, i, e)
    ensures d == e
    decreases d
  {
    if d > 0 && e > 0 {
      DepthUnique(spans, ParentOf(spans, i).value, d - 1, e - 1);
    }
  }

  ghost function Depth(spans: Spans, i: nat): (d: nat)
    requires Grounded(spans, i)
    ensures AtDepth(spans, i, d)
  {
    var d: nat :| AtDepth(spans, i, d);
    d
  }

  lemma DepthIs(spans: Spans, i: nat, d: nat)
    requires i < |spans| && AtDepth(spans, i, d)
    ensures Grounded(spans, i) && Depth(spans, i) == d
  {
    DepthUnique(spans, i, d, Depth(spans, i));
  }

  lemma ChildDepth(spans: Spans, c: nat, p: nat)
    requires c < |spans| && ParentOf(spans, c) == Some(p) && Grounded(spans, p)
    ensures Grounded(spans, c) && Depth(spans, c) == Depth(spans, p) + 1
  {
    assert AtDepth(spans, c, Depth(spans, p) + 1);
    DepthIs(spans, c, Depth(spans, p) + 1);
  }

  lemma ParentDepth(spans: Spans, c: nat)
    requires Grounded(spans, c) && Depth(spans, c) > 0
    ensures ParentOf(spans, c).Some? && Grounded(spans, ParentOf(spans, c).value)
    ensures Depth(spans, ParentOf(spans, c).value) == Depth(spans, c) - 1
  {
    DepthIs(spans, ParentOf(spans, c).value, Depth(spans, c) - 1);
  }

  /** A chain to a root never repeats a span, so no root-reachable span is deeper than the input is long. */
  lemma {:induction false} Chain(spans: Spans, i: nat) returns (line: set<nat>)
    requires Grounded(spans, i)
    ensures |line| == Depth(spans, i) + 1
    ensures forall j :: j in line ==> Grounded(spans, j) && Depth(spans, j) <= Depth(spans, i)
    decreases Depth(spans, i)
  {
    if Depth(spans, i) == 0 {
      line := {i};
    } else {
      ParentDepth(spans, i);
      var up := Chain(spans, ParentOf(spans, i).value);
      assert i !in up;
      line := up + {i};
    }
  }

  lemma DepthBound(spans: Spans, i: nat)
    requires Grounded(spans, i)
    ensures Depth(spans, i) < |spans|
  {
    var line := Chain(spans, i);
    BelowCard(line, |spans|);
  }

  /** Every span of `cs` hangs exactly d levels below a request span. */
  ghost predicate Level(spans: Spans, cs: seq<nat>, d: nat) {
    forall c: nat :: c in cs ==> Grounded(spans, c) && Depth(spans, c) == d
  }

  lemma ChildrenLevel(spans: Spans, p: nat)
    requires Grounded(spans, p)
    ensures Level(spans, Children(spans, p), Depth(spans, p) + 1)
    ensures Depth(spans, p) < |spans|
  {
    forall c | c in Children(spans, p) ensures Grounded(spans, c) && Depth(spans, c) == Depth(spans, p) + 1 {
      ChildDepth(spans, c, p);
    }
    DepthBound(spans, p);
  }

  /** The spans visited from i, parents first: the order of every recursive pass. */
  ghost function Preorder(spans: Spans, i: nat, d: nat): (r: seq<nat>)
    requires Grounded(spans, i) && Depth(spans, i) == d
    decreases |spans| - d, 0
  {
    ChildrenLevel(spans, i);
    [i] + ForestOrder(spans, Children(spans, i), d + 1)
  }

  ghost function ForestOrder(spans: Spans, cs: seq<nat>, d: nat): (r: seq<nat>)
    requires Level(spans, cs, d)
    decreases |spans| - d, 1 + |cs|
  {
    if cs == [] then []
    else
      DepthBound(spans, cs[|cs| - 1]);
      ForestOrder(spans, cs[..|cs| - 1], d) + Preorder(spans, cs[|cs| - 1], d)
  }

  // ----- every span is visited once ----------------------------------------

  lemma {:induction false} ChildrenCount(spans: Spans, p: nat, n: nat, c: nat)
    requires n <= |spans| && c < |spans|
    ensures multiset(ChildrenUpTo(spans, p, n))[c] == if c < n && ParentOf(spans, c) == Some(p) then 1 else 0
  {
    hide ParentOf;
    if n > 0 {
      ChildrenCount(spans, p, n - 1, c);
    }
  }

  lemma {:induction false} RootsCount(spans: Spans, n: nat, c: nat)
    requires n <= |spans| && c < |spans|
    ensures multiset(RootsUpTo(spans, n))[c] == if c < n && spans[c].isRequest then 1 else 0
  {
    if n > 0 {
      RootsCount(spans, n - 1, c);
    }
  }

  /** The child lists of `cs`, one after another. */
  ghost function FlatChildren(spans: Spans, cs: seq<nat>): (r: seq<nat>) {
    if cs == [] then [] else FlatChildren(spans, cs[..|cs| - 1]) + Children(spans, cs[|cs| - 1])
  }

  lemma {:induction false} FlatCount(spans: Spans, cs: seq<nat>, j: nat)
    requires j < |spans|
    ensures multiset(FlatChildren(spans, cs))[j] ==
              match ParentOf(spans, j) case None => 0 case Some(p) => multiset(cs)[p]
  {
    hide ParentOf, ChildrenUpTo;
    if cs != [] {
      var n := |cs| - 1;
      FlatCount(spans, cs[..n], j);
      ChildrenCount(spans, cs[n], |spans|, j);
      assert cs == cs[..n] + [cs[n]];
    }
  }

  lemma {:induction false} FlatLevel(spans: Spans, cs: seq<nat>, d: nat)
    requires Level(spans, cs, d)
    ensures Level(spans, FlatChildren(spans, cs), d + 1)
  {
    hide ParentOf, Grounded;
    if cs != [] {
      var n := |cs| - 1;
      FlatLevel(spans, cs[..n], d);
      ChildrenLevel(spans, cs[n]);
    }
  }

  lemma {:induction false} AncSnoc(spans: Spans, i: nat, d: nat)
    requires i < |spans|
    ensures Anc(spans, i, d + 1) == match Anc(spans, i, d) case None => None case Some(a) => ParentOf(spans, a)
    decreases d
  {
    hide ParentOf;
    if d > 0 && ParentOf(spans, i).Some? {
      AncSnoc(spans, ParentOf(spans, i).value, d - 1);
    }
  }

  lemma {:induction false} AncDepth(spans: Spans, i: nat, k: nat)
    requires Grounded(spans, i) && k <= Depth(spans, i)
    ensures Anc(spans, i, k).Some? && Grounded(spans, Anc(spans, i, k).value)
    ensures Depth(spans, Anc(spans, i, k).value) == Depth(spans, i) - k
    decreases k
  {
    hide ParentOf;
    if k > 0 {
      ParentDepth(spans, i);
      AncDepth(spans, ParentOf(spans, i).value, k - 1);
    }
  }

  /** The ancestor of j on level d. */
  ghost function AncestorAt(spans: Spans, j: nat, d: nat): (r: nat)
    requires Grounded(spans, j) && d <= Depth(spans, j)
    ensures r < |spans| && Anc(spans, j, Depth(spans, j) - d) == Some(r)
    ensures Grounded(spans, r) && Depth(spans, r) == d
  {
    AncDepth(spans, j, Depth(spans, j) - d);
    Anc(spans, j, Depth(spans, j) - d).value
  }

  lemma AncestorStep(spans: Spans, j: nat, d: nat)
    requires Grounded(spans, j) && d < Depth(spans, j)
    ensures ParentOf(spans, AncestorAt(spans, j, d + 1)) == Some(AncestorAt(spans, j, d))
  {
    AncSnoc(spans, j, Depth(spans, j) - (d + 1));
  }

  lemma {:induction false} PreorderCount(spans: Spans, i: nat, d: nat, j: nat)
    requires Grounded(spans, i) && Depth(spans, i) == d && j < |spans|
    ensures multiset(Preorder(spans, i, d))[j] ==
              if Grounded(spans, j) && d <= Depth(spans, j) && AncestorAt(spans, j, d) == i then 1 else 0
    decreases |spans| - d, 0
  {
    hide ParentOf, Grounded, ChildrenUpTo;
    ChildrenLevel(spans, i);
    ForestCount(spans, Children(spans, i), d + 1, j);
    if Grounded(spans, j) && d < Depth(spans, j) {
      AncestorStep(spans, j, d);
      ChildrenCount(spans, i, |spans|, AncestorAt(spans, j, d + 1));
    }
  }

  lemma {:induction false} ForestCount(spans: Spans, cs: seq<nat>, d: nat, j: nat)
    requires Level(spans, cs, d) && j < |spans|
    ensures multiset(ForestOrder(spans, cs, d))[j] ==
              if Grounded(spans, j) && d <= Depth(spans, j) then multiset(cs)[AncestorAt(spans, j, d)] else 0
    decreases |spans| - d, 1 + |cs|
  {
    hide ParentOf, Grounded, AncestorAt;
    if cs != [] {
      var n := |cs| - 1;
      assert cs == cs[..n] + [cs[n]];
      DepthBound(spans, cs[n]);
      ForestCount(spans, cs[..n], d, j);
      PreorderCount(spans, cs[n], d, j);
    }
  }

  /** The request's threads (level 1) and the spans under them that are laid out (level 2). */
  ghost function Threads(spans: Spans): (r: seq<nat>) {
    FlatChildren(spans, Roots(spans))
  }

  ghost function Tops(spans: Spans): (r: seq<nat>) {
    FlatChildren(spans, Threads(spans))
  }

  lemma TopsLevel(spans: Spans)
    ensures Level(spans, Roots(spans), 0) && Level(spans, Threads(spans), 1) && Level(spans, Tops(spans), 2)
  {
    hide ParentOf;
    forall r | r in Roots(spans) ensures Grounded(spans, r) && Depth(spans, r) == 0 {
      assert AtDepth(spans, r, 0);
      DepthIs(spans, r, 0);
    }
    FlatLevel(spans, Roots(spans), 0);
    FlatLevel(spans, Threads(spans), 1);
  }

  /** A span is emitted when it hangs at least two levels below a request. */
  ghost predicate Emitted(spans: Spans, j: nat) {
    Grounded(spans, j) && Depth(spans, j) >= 2
  }

  lemma TopsCount(spans: Spans, t: nat)
    requires t < |spans|
    ensures multiset(Tops(spans))[t] == if Grounded(spans, t) && Depth(spans, t) == 2 then 1 else 0
  {
    hide ParentOf, Grounded;
    TopsLevel(spans);
    if Grounded(spans, t) && Depth(spans, t) == 2 {
      ParentDepth(spans, t);
      var p := ParentOf(spans, t).value;
      ParentDepth(spans, p);
      FlatCount(spans, Threads(spans), t);
      FlatCount(spans, Roots(spans), p);
      RootsCount(spans, |spans|, ParentOf(spans, p).value);
    }
  }

  /** Walking the laid-out spans in any order visits every span two or more levels below a
      request exactly once and nothing else, whatever cycles and duplicate ids the input has. */
  lemma EmittedExactlyOnce(spans: Spans, order: seq<nat>, j: nat)
    requires multiset(order) == multiset(Tops(spans)) && j < |spans|
    ensures Level(spans, order, 2)
    ensures multiset(ForestOrder(spans, order, 2))[j] == if Emitted(spans, j) then 1 else 0
  {
    hide ParentOf, Grounded;
    TopsLevel(spans);
    forall c | c in order ensures Grounded(spans, c) && Depth(spans, c) == 2 {
      assert c in multiset(Tops(spans));
    }
    ForestCount(spans, order, 2, j);
    if Emitted(spans, j) {
      TopsCount(spans, AncestorAt(spans, j, 2));
    }
  }
}
