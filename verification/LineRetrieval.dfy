/** The line-retrieval generator: redirect chains are followed with ring detection while
    `values` is overwritten in place, and lines are grouped by the length of their chain. */
module LineRetrieval {
  import opened Prelude

  type Redirects = seq<Option<nat>>

  ghost predicate InRange(red: Redirects) {
    forall i :: 0 <= i < |red| && red[i].Some? ==> red[i].value < |red|
  }

  /** The line reached from i after k redirects, if there are that many. */
  ghost function Iter(red: Redirects, i: nat, k: nat): (r: Option<nat>)
    requires InRange(red) && i < |red|
    ensures r.Some? ==> r.value < |red|
    decreases k
  {
    if k == 0 then Some(i) else match red[i] case None => None case Some(t) => Iter(red, t, k - 1)
  }

  /** After k redirects a plain line is reached. */
  ghost predicate EndsAfter(red: Redirects, i: nat, k: nat)
    requires InRange(red) && i < |red|
  {
    Iter(red, i, k).Some? && red[Iter(red, i, k).value].None?
  }

  /** Following redirects from i never reaches a plain line. */
  ghost predicate InRing(red: Redirects, i: nat)
    requires InRange(red) && i < |red|
  {
    forall k: nat :: !EndsAfter(red, i, k)
  }

  /** `link` lists every line visited from i up to the plain one, in order. */
  ghost predicate IsPath(red: Redirects, i: nat, link: seq<nat>)
    requires InRange(red) && i < |red|
  {
    EndsAfter(red, i, |link|) && forall k :: 0 <= k < |link| ==> Iter(red, i, k + 1) == Some(link[k])
  }

  lemma {:induction false} IterAdd(red: Redirects, i: nat, a: nat, b: nat)
    requires InRange(red) && i < |red|
    ensures Iter(red, i, a + b) == match Iter(red, i, a) case None => None case Some(x) => Iter(red, x, b)
    decreases a
  {
    if a > 0 && red[i].Some? {
      IterAdd(red, red[i].value, a - 1, b);
    }
  }

  lemma {:induction false} CycleForever(red: Redirects, i: nat, a: nat, b: nat, k: nat)
    requires InRange(red) && i < |red| && a < b
    requires Iter(red, i, b).Some? && Iter(red, i, a) == Iter(red, i, b)
    ensures Iter(red, i, k).Some?
  {
    if k <= b {
      IterAdd(red, i, k, b - k);
    } else {
      IterAdd(red, i, b, k - b);
      IterAdd(red, i, a, k - b);
      CycleForever(red, i, a, b, a + (k - b));
    }
  }

  /** A line met twice on the way means that no plain line is ever reached. */
  lemma RepeatIsRing(red: Redirects, i: nat, a: nat, b: nat)
    requires InRange(red) && i < |red| && a < b
    requires Iter(red, i, b).Some? && Iter(red, i, a) == Iter(red, i, b)
    ensures InRing(red, i)
  {
    forall k: nat ensures !EndsAfter(red, i, k) {
      CycleForever(red, i, a, b, k + 1);
      IterAdd(red, i, k, 1);
      if Iter(red, i, k).Some? {
        assert Iter(red, Iter(red, i, k).value, 1) == Iter(red, i, k + 1);
      }
    }
  }

  lemma EndsOnce(red: Redirects, i: nat, a: nat, b: nat)
    requires InRange(red) && i < |red| && EndsAfter(red, i, a) && EndsAfter(red, i, b)
    ensures a == b
  {
    if a < b {
      IterAdd(red, i, a, b - a);
    } else if b < a {
      IterAdd(red, i, b, a - b);
    }
  }

  lemma PathUnique(red: Redirects, i: nat, p: seq<nat>, q: seq<nat>)
    requires InRange(red) && i < |red| && IsPath(red, i, p) && IsPath(red, i, q)
    ensures p == q
  {
    EndsOnce(red, i, |p|, |q|);
    forall k | 0 <= k < |p| ensures p[k] == q[k] {
      assert Iter(red, i, k + 1) == Some(p[k]);
    }
  }

  /** The plain line at the end of i's chain. */
  ghost function Terminal(red: Redirects, i: nat): (t: nat)
    requires InRange(red) && i < |red| && !InRing(red, i)
    ensures t < |red| && red[t].None?
    ensures exists k: nat :: EndsAfter(red, i, k) && Iter(red, i, k) == Some(t)
  {
    var k: nat :| EndsAfter(red, i, k);
    Iter(red, i, k).value
  }

  lemma TerminalIs(red: Redirects, i: nat, k: nat)
    requires InRange(red) && i < |red| && EndsAfter(red, i, k)
    ensures !InRing(red, i) && Iter(red, i, k) == Some(Terminal(red, i))
  {
    var m: nat :| EndsAfter(red, i, m) && Iter(red, i, m) == Some(Terminal(red, i));
    EndsOnce(red, i, k, m);
  }

  // ----- following one chain ------------------------------------------------------

  lemma IterNext(red: Redirects, i: nat, k: nat)
    requires InRange(red) && i < |red| && Iter(red, i, k).Some?
    ensures Iter(red, i, k + 1) == red[Iter(red, i, k).value]
  {
    IterAdd(red, i, k, 1);
    var x := Iter(red, i, k).value;
    assert red[x].Some? ==> Iter(red, red[x].value, 0) == red[x];
  }

  /** Follow redirects from i until a plain line or a line already visited. */
  method Follow(red: Redirects, i: nat) returns (link: Option<seq<nat>>, cur: nat)
    requires InRange(red) && i < |red|
    ensures cur < |red|
    ensures link.None? <==> InRing(red, i)
    ensures link.Some? ==> IsPath(red, i, link.value) && cur == Terminal(red, i)
  {
    hide Terminal, InRing;
    var tmp: seq<nat> := [];
    var visited: set<nat> := {};
    cur := i;
    while red[cur].Some?
      invariant cur < |red| && Iter(red, i, |tmp|) == Some(cur)
      invariant forall k :: 0 <= k < |tmp| ==> Iter(red, i, k + 1) == Some(tmp[k])
      invariant forall x :: x in visited ==> x < |red| && exists a: nat :: a < |tmp| && Iter(red, i, a) == Some(x)
      invariant |visited| == |tmp| && cur !in visited
      decreases |red| - |tmp|
    {
      hide Iter;
      IterNext(red, i, |tmp|);
      visited := visited + {cur};
      BelowCard(visited, |red|);
      tmp := tmp + [red[cur].value];
      cur := red[cur].value;
      if cur in visited {
        ghost var a: nat :| a < |tmp| && Iter(red, i, a) == Some(cur);
        RepeatIsRing(red, i, a, |tmp|);
        return None, cur;
      }
    }
    TerminalIs(red, i, |tmp|);
    link := Some(tmp);
  }

  // ----- all lines, overwriting values in place ------------------------------------

  /** What the generator stores for line i: no link for a ring, the exact path otherwise. */
  ghost predicate LinkOk(red: Redirects, i: nat, link: Option<seq<nat>>)
    requires InRange(red) && i < |red|
  {
    && (link.None? <==> InRing(red, i))
    && (link.Some? ==> IsPath(red, i, link.value))
  }

  lemma PlainPath(red: Redirects, i: nat)
    requires InRange(red) && i < |red| && red[i].None?
    ensures LinkOk(red, i, Some([])) && Terminal(red, i) == i
  {
    assert EndsAfter(red, i, 0);
    TerminalIs(red, i, 0);
  }

  method BuildLinks(red: Redirects, values: array<string>)
    returns (links: seq<Option<seq<nat>>>, containsRing: set<nat>)
    requires InRange(red) && values.Length == |red|
    modifies values
    ensures |links| == |red|
    ensures forall i :: 0 <= i < |red| ==> LinkOk(red, i, links[i])
    ensures containsRing == set i | 0 <= i < |red| && InRing(red, i)
    ensures forall i :: 0 <= i < |red| && !InRing(red, i) ==> values[i] == old(values[Terminal(red, i)])
  {
    links := seq(|red|, _ => Some([]));
    containsRing := {};
    for i := 0 to |red|
      invariant |links| == |red|
      invariant forall j :: 0 <= j < i ==> LinkOk(red, j, links[j])
      invariant containsRing == set j | 0 <= j < i && InRing(red, j)
      invariant forall j :: 0 <= j < i && !InRing(red, j) ==> values[j] == old(values[Terminal(red, j)])
      invariant forall j :: i <= j < |red| ==> links[j] == Some([]) && values[j] == old(values[j])
      invariant forall j :: 0 <= j < |red| && red[j].None? ==> values[j] == old(values[j])
    {
      hide InRing, IsPath;
      if red[i].None? {
        PlainPath(red, i);
      } else {
        var link, cur := Follow(red, i);
        if link.None? {
          containsRing := containsRing + {i};
        }
        values[i] := values[cur];
        links := links[i := link];
      }
    }
  }

  // ----- grouping by number of hops ------------------------------------------------

  predicate InGroup(links: seq<Option<seq<nat>>>, h: nat, i: nat) {
    i < |links| && links[i].Some? && |links[i].value| + 1 == h
  }

  /** The lines among the first n in group h, in order. */
  function GroupUpTo(links: seq<Option<seq<nat>>>, h: nat, n: nat): (r: seq<nat>) {
    if n == 0 then [] else GroupUpTo(links, h, n - 1) + if InGroup(links, h, n - 1) then [n - 1] else []
  }

  lemma {:induction false} GroupCount(links: seq<Option<seq<nat>>>, h: nat, n: nat, i: nat)
    ensures multiset(GroupUpTo(links, h, n))[i] == One(i < n && InGroup(links, h, i))
  {
    hide InGroup;
    if n > 0 {
      GroupCount(links, h, n - 1, i);
    }
  }

  /** `groups` is the default dictionary after the first n lines. */
  ghost predicate Grouped(links: seq<Option<seq<nat>>>, groups: map<nat, seq<nat>>, n: nat) {
    forall h :: GroupUpTo(links, h, n) == if h in groups then groups[h] else []
  }

  lemma GroupedStep(links: seq<Option<seq<nat>>>, groups: map<nat, seq<nat>>, n: nat)
    requires Grouped(links, groups, n) && n < |links|
    ensures links[n].None? ==> Grouped(links, groups, n + 1)
    ensures links[n].Some? ==>
              var h := |links[n].value| + 1;
              Grouped(links, groups[h := (if h in groups then groups[h] else []) + [n]], n + 1)
  {
    assert forall h :: GroupUpTo(links, h, n) + [] == GroupUpTo(links, h, n);
  }

  lemma NothingGrouped(links: seq<Option<seq<nat>>>)
    ensures Grouped(links, map[], 0)
  {
  }

  method GroupByHops(links: seq<Option<seq<nat>>>, containsRing: set<nat>) returns (groups: map<nat, seq<nat>>)
    requires forall i :: 0 <= i < |links| ==> (i in containsRing <==> links[i].None?)
    ensures Grouped(links, groups, |links|)
    ensures forall h :: h in groups ==> groups[h] != []
  {
    hide Grouped;
    groups := map[];
    assert Grouped(links, groups, 0) by { NothingGrouped(links); }
    for i := 0 to |links|
      invariant Grouped(links, groups, i)
      invariant forall h :: h in groups ==> groups[h] != []
    {
      GroupedStep(links, groups, i);
      if i in containsRing {
        continue;
      }
      var h := |links[i].value| + 1;
      groups := groups[h := (if h in groups then groups[h] else []) + [i]];
    }
  }

  /** The groups partition the lines outside rings by path length: line i is in group h exactly
      once if its path has h - 1 hops, and in no group if it is in a ring. */
  lemma GroupsPartition(red: Redirects, links: seq<Option<seq<nat>>>, h: nat, i: nat)
    requires InRange(red) && |links| == |red| && i < |red|
    requires forall j :: 0 <= j < |red| ==> LinkOk(red, j, links[j])
    ensures multiset(GroupUpTo(links, h, |links|))[i] == One(h > 0 && EndsAfter(red, i, h - 1))
  {
    GroupCount(links, h, |links|, i);
    if h > 0 && EndsAfter(red, i, h - 1) {
      assert !InRing(red, i);
      EndsOnce(red, i, h - 1, |links[i].value|);
    }
  }
}

/** The evaluation: pick a query that the truncated text can answer, and split the text. */
module LineEvaluation {
  import opened Prelude
  import opened LineRetrieval

  datatype Content = Value(value: string) | SameAs(name: string)

  datatype Line = Line(name: string, content: Content)

  ghost predicate Distinct(names: seq<string>) {
    forall i, j :: 0 <= i < j < |names| ==> names[i] != names[j]
  }

  /** The text the model is shown: a value, or a reference to another line by name. */
  function TextOf(names: seq<string>, red: Redirects, values: seq<string>): (lines: seq<Line>)
    requires |names| == |red| == |values| && InRange(red)
    ensures |lines| == |red|
    ensures forall i :: 0 <= i < |red| ==>
      lines[i] == Line(names[i], match red[i] case None => Value(values[i]) case Some(t) => SameAs(names[t]))
  {
    seq(|red|, i requires 0 <= i < |red| =>
      Line(names[i], match red[i] case None => Value(values[i]) case Some(t) => SameAs(names[t])))
  }

  ghost predicate ResolvesAt(body: seq<Line>, i: nat, v: string, k: nat)
    requires i < |body|
    decreases k, 0
  {
    match body[i].content
    case Value(x) => k == 0 && x == v
    case SameAs(name) => k > 0 && exists j :: 0 <= j < |body| && body[j].name == name && ResolvesAt(body, j, v, k - 1)
  }

  /** Reading `body` only, the line called `name` resolves to `v` through k references. */
  ghost predicate Resolves(body: seq<Line>, name: string, v: string, k: nat) {
    exists i :: 0 <= i < |body| && body[i].name == name && ResolvesAt(body, i, v, k)
  }

  /** A reader never gets two answers from a text whose lines have different names. */
  lemma {:induction false} OneAnswer(body: seq<Line>, i: nat, v: string, k: nat, w: string, m: nat)
    requires forall a, b :: 0 <= a < b < |body| ==> body[a].name != body[b].name
    requires i < |body| && ResolvesAt(body, i, v, k) && ResolvesAt(body, i, w, m)
    ensures v == w && k == m
    decreases k
  {
    if body[i].content.SameAs? {
      var name := body[i].content.name;
      var j :| 0 <= j < |body| && body[j].name == name && ResolvesAt(body, j, v, k - 1);
      var l :| 0 <= l < |body| && body[l].name == name && ResolvesAt(body, l, w, m - 1);
      assert j == l;
      OneAnswer(body, j, v, k - 1, w, m - 1);
    }
  }

  /** `lines[:src_index + 1]`. */
  function Truncate(lines: seq<Line>, src: int): (body: seq<Line>)
    requires src >= 0
    ensures |body| <= |lines| && body == lines[..|body|]
    ensures |body| == if src + 1 <= |lines| then src + 1 else |lines|
  {
    if src + 1 <= |lines| then lines[..src + 1] else lines
  }

  lemma {:induction false} PathResolves(names: seq<string>, red: Redirects, values: seq<string>, src: int,
                                        q: nat, k: nat)
    requires |names| == |red| == |values| && InRange(red) && src >= 0
    requires q < |red| && q <= src && EndsAfter(red, q, k)
    requires forall a: nat :: a <= k ==> Iter(red, q, a).Some? && Iter(red, q, a).value <= src
    ensures var body := Truncate(TextOf(names, red, values), src);
            q < |body| && ResolvesAt(body, q, values[Terminal(red, q)], k)
    decreases k
  {
    TerminalIs(red, q, k);
    var body := Truncate(TextOf(names, red, values), src);
    assert body[q] == TextOf(names, red, values)[q];
    if k > 0 {
      var t := red[q].value;
      forall a: nat | a <= k - 1 ensures Iter(red, t, a).Some? && Iter(red, t, a).value <= src {
        assert Iter(red, q, a + 1) == Iter(red, t, a);
      }
      assert Iter(red, t, 0) == Some(t);
      assert EndsAfter(red, t, k - 1);
      PathResolves(names, red, values, src, t, k - 1);
      TerminalIs(red, t, k - 1);
      assert body[t].name == names[t];
    }
  }

  /** The query is answerable by the truncated text: it and its whole path lie in it. */
  predicate Answerable(links: seq<Option<seq<nat>>>, src: int, q: nat) {
    q < |links| && links[q].Some? && (forall l :: l in links[q].value ==> l <= src) && q < src
  }

  lemma BodyDistinct(names: seq<string>, red: Redirects, values: seq<string>, src: int)
    requires |names| == |red| == |values| && InRange(red) && Distinct(names) && src >= 0
    ensures var body := Truncate(TextOf(names, red, values), src);
            forall a, b :: 0 <= a < b < |body| ==> body[a].name != body[b].name
  {
  }

  /** Resolving an answerable query inside the truncated text gives the value at the end of its
      chain, and nothing else can be read there. */
  lemma AnswerableResolves(names: seq<string>, red: Redirects, values: seq<string>,
                           links: seq<Option<seq<nat>>>, src: int, q: nat)
    requires |names| == |red| == |values| == |links| && InRange(red) && Distinct(names)
    requires Answerable(links, src, q) && LinkOk(red, q, links[q])
    ensures var body := Truncate(TextOf(names, red, values), src);
            && Resolves(body, names[q], values[Terminal(red, q)], |links[q].value|)
            && forall w, m :: Resolves(body, names[q], w, m) ==> w == values[Terminal(red, q)]
  {
    var link := links[q].value;
    forall a: nat | a <= |link| ensures Iter(red, q, a).Some? && Iter(red, q, a).value <= src {
      if a > 0 {
        assert Iter(red, q, (a - 1) + 1) == Some(link[a - 1]);
        assert link[a - 1] in link;
      }
    }
    PathResolves(names, red, values, src, q, |link|);
    var body, v := Truncate(TextOf(names, red, values), src), values[Terminal(red, q)];
    assert body[q].name == names[q];
    BodyDistinct(names, red, values, src);
    forall w, m: nat | Resolves(body, names[q], w, m) ensures w == v {
      var i :| 0 <= i < |body| && body[i].name == names[q] && ResolvesAt(body, i, w, m);
      assert i == q;
      OneAnswer(body, q, v, |link|, w, m);
    }
  }

  /** `min(int(len * percent), len - 1)` as an index, negative when there is no query. */
  function PickIndex(n: nat, percent: real): (k: int)
    requires percent >= 0.0
    ensures n > 0 ==> 0 <= k < n && k as real <= n as real * percent
    ensures n > 0 && k < n - 1 ==> n as real * percent < (k + 1) as real
    ensures n == 0 ==> k == -1
  {
    var k := (n as real * percent).Floor;
    if k < n - 1 then k else n - 1
  }

  function Select(links: seq<Option<seq<nat>>>, src: int, group: seq<nat>): (r: seq<nat>) {
    if group == [] then []
    else
      var q := group[|group| - 1];
      Select(links, src, group[..|group| - 1]) + if Answerable(links, src, q) then [q] else []
  }

  lemma {:induction false} SelectIn(links: seq<Option<seq<nat>>>, src: int, group: seq<nat>, q: nat)
    ensures q in Select(links, src, group) <==> q in group && Answerable(links, src, q)
  {
    if group != [] {
      SelectIn(links, src, group[..|group| - 1], q);
      assert group == group[..|group| - 1] + [group[|group| - 1]];
    }
  }

  datatype Question = Question(query: nat, expected: string, parts: seq<seq<Line>>)

  /** The text in four parts, the last one taking the remainder. */
  function FourParts(body: seq<Line>): (parts: seq<seq<Line>>)
    ensures |parts| == 4 && parts[0] + parts[1] + parts[2] + parts[3] == body
    ensures |parts[0]| == |parts[1]| == |parts[2]| == |body| / 4
  {
    var n := |body| / 4;
    assert body[..n] + body[n..2 * n] == body[..2 * n];
    assert body[..2 * n] + body[2 * n..3 * n] == body[..3 * n];
    [body[..n], body[n..2 * n], body[2 * n..3 * n], body[3 * n..]]
  }

  /** A question whose expected answer is what a reader of its parts must find. */
  ghost predicate Fair(names: seq<string>, red: Redirects, original: seq<string>,
                       links: seq<Option<seq<nat>>>, src: int, question: Question)
    requires |names| == |red| == |original| == |links| && InRange(red)
    requires Answerable(links, src, question.query)
  {
    var Question(q, expected, parts) := question;
    var body := Truncate(TextOf(names, red, original), src);
    && Resolves(body, names[q], expected, |links[q].value|)
    && (forall w, m :: Resolves(body, names[q], w, m) ==> w == expected)
    && |parts| == 4 && parts[0] + parts[1] + parts[2] + parts[3] == body
    && |parts[0]| == |parts[1]| == |parts[2]| == |body| / 4
  }

  /** The query filter. */
  method Queries(links: seq<Option<seq<nat>>>, src: int, group: seq<nat>) returns (r: seq<nat>)
    requires forall q :: q in group ==> q < |links| && links[q].Some?
    ensures r == Select(links, src, group)
    ensures forall q :: q in r <==> q in group && Answerable(links, src, q)
    ensures forall q :: q in r <==> q in group && q < src && forall l :: l in links[q].value ==> l <= src
  {
    r := [];
    for i := 0 to |group|
      invariant r == Select(links, src, group[..i])
    {
      assert group[..i + 1][..i] == group[..i] && group[i] in group;
      if (forall l :: l in links[group[i]].value ==> l <= src) && group[i] < src {
        r := r + [group[i]];
      }
    }
    assert group[..|group|] == group;
    forall q ensures q in r <==> q in group && Answerable(links, src, q) {
      SelectIn(links, src, group, q);
    }
  }

  lemma AnswerableSrc(links: seq<Option<seq<nat>>>, src: int, q: nat)
    requires Answerable(links, src, q)
    ensures src > 0
  {
  }

  lemma FairQuestion(names: seq<string>, red: Redirects, original: seq<string>, stored: seq<string>,
                     links: seq<Option<seq<nat>>>, src: int, q: nat)
    requires |names| == |red| == |original| == |stored| == |links| && InRange(red) && Distinct(names)
    requires Answerable(links, src, q) && LinkOk(red, q, links[q])
    requires !InRing(red, q) ==> stored[q] == original[Terminal(red, q)]
    ensures Fair(names, red, original, links, src,
                 Question(q, stored[q], FourParts(Truncate(TextOf(names, red, original), src))))
  {
    hide Resolves, TextOf, InRing, Terminal, IsPath;
    AnswerableResolves(names, red, original, links, src, q);
  }

  /** One round of `eval_model`: the query, its stored label and the text in four parts.
      `stored` is `values` as the generator left it, `group` the chosen hop group. */
  method PickQuestion(names: seq<string>, red: Redirects, original: seq<string>, stored: seq<string>,
                      links: seq<Option<seq<nat>>>, group: seq<nat>, src: int, percent: real)
    returns (r: Option<Question>)
    requires |names| == |red| == |original| == |stored| == |links| && InRange(red) && Distinct(names) && percent >= 0.0
    requires forall i :: 0 <= i < |red| ==> LinkOk(red, i, links[i])
    requires forall i :: 0 <= i < |red| && !InRing(red, i) ==> stored[i] == original[Terminal(red, i)]
    requires forall q :: q in group ==> q < |links| && links[q].Some?
    ensures r.None? <==> forall q :: q in group ==> !Answerable(links, src, q)
    ensures r.Some? ==>
              && r.value.query in group && Answerable(links, src, r.value.query) && r.value.query < src
              && forall l :: l in links[r.value.query].value ==> l <= src
    ensures r.Some? ==>
              var queries := Select(links, src, group);
              queries != [] && r.value.query == queries[PickIndex(|queries|, percent)]
    ensures r.Some? ==> Fair(names, red, original, links, src, r.value)
  {
    hide Answerable, Fair, LinkOk, InRing, TextOf, Truncate;
    var queries := Queries(links, src, group);
    var k := PickIndex(|queries|, percent);
    if k < 0 {
      assert queries == [];
      return None;
    }
    var q := queries[k];
    assert q in queries;
    assert src >= 0 by { AnswerableSrc(links, src, q); }
    var body := Truncate(TextOf(names, red, original), src);
    r := Some(Question(q, stored[q], FourParts(body)));
    assert q in group && q < src && forall l :: l in links[q].value ==> l <= src;
    FairQuestion(names, red, original, stored, links, src, q);
  }
}
