/** The release lookup: commits and pull requests are attributed to the first release of each
    line that reaches them, written in a compact form, and read back by the lookup page. */
module ReleaseIndex {
  import opened Prelude

  datatype LineType = Main | Gateway

  type Entry = map<LineType, nat>

  type Index = map<string, Entry>

  /** Tags in order of creation, with what `git rev-list` gives for each. */
  datatype Tag = Tag(line: LineType, commits: seq<string>)

  /** `extract_pr_num` of a commit's message. */
  type PrOf = string -> Option<string>

  function Lookup(m: Index, key: string, ty: LineType): (r: Option<nat>) {
    if key in m && ty in m[key] then Some(m[key][ty]) else None
  }

  function Put(m: Index, key: string, ty: LineType, idx: nat): (r: Index) {
    m[key := (if key in m then m[key] else map[])[ty := idx]]
  }

  lemma LookupPut(m: Index, key: string, ty: LineType, idx: nat, k: string, t: LineType)
    ensures Lookup(Put(m, key, ty, idx), k, t) == if k == key && t == ty then Some(idx) else Lookup(m, k, t)
  {
  }

  // ----- one release line ------------------------------------------------------------

  /** The commits of `commits` not in `seen`, each once, in order. */
  function NewCommits(commits: seq<string>, seen: set<string>): (r: seq<string>) {
    if commits == [] then []
    else
      var n := |commits| - 1;
      var before := NewCommits(commits[..n], seen);
      if commits[n] in seen || commits[n] in commits[..n] then before else before + [commits[n]]
  }

  lemma {:induction false} NewCommitsIn(commits: seq<string>, seen: set<string>, c: string)
    ensures c in NewCommits(commits, seen) <==> c in commits && c !in seen
  {
    if commits != [] {
      var n := |commits| - 1;
      NewCommitsIn(commits[..n], seen, c);
      assert commits == commits[..n] + [commits[n]];
    }
  }

  datatype Maps = Maps(commits: Index, prs: Index)

  /** Record one commit under a tag; its pull request keeps an earlier index of the same line. */
  function Record(m: Maps, c: string, ty: LineType, idx: nat, prOf: PrOf): (r: Maps) {
    var pr := prOf(c);
    Maps(Put(m.commits, c, ty, idx),
         if pr.Some? && Lookup(m.prs, pr.value, ty).None? then Put(m.prs, pr.value, ty, idx) else m.prs)
  }

  function RecordAll(m: Maps, cs: seq<string>, ty: LineType, idx: nat, prOf: PrOf): (r: Maps) {
    if cs == [] then m else Record(RecordAll(m, cs[..|cs| - 1], ty, idx, prOf), cs[|cs| - 1], ty, idx, prOf)
  }

  function ToSet(cs: seq<string>): (r: set<string>) {
    set c | c in cs
  }

  /** Commits reached by the first n tags of a line. */
  function Reached(tags: seq<Tag>, ty: LineType, n: nat): (r: set<string>)
    requires n <= |tags|
  {
    if n == 0 then {}
    else Reached(tags, ty, n - 1) + if tags[n - 1].line == ty then ToSet(tags[n - 1].commits) else {}
  }

  /** `process_tag_line` up to the first n tags of the whole list. */
  function ProcessLine(m: Maps, tags: seq<Tag>, ty: LineType, n: nat, prOf: PrOf): (r: Maps)
    requires n <= |tags|
  {
    if n == 0 then m
    else
      var before := ProcessLine(m, tags, ty, n - 1, prOf);
      if tags[n - 1].line != ty then before
      else RecordAll(before, NewCommits(tags[n - 1].commits, Reached(tags, ty, n - 1)), ty, n - 1, prOf)
  }

  // ----- what a line's entries mean ----------------------------------------------------

  /** The first tag of the line, among the first n tags, that reaches the commit. */
  function FirstTag(tags: seq<Tag>, ty: LineType, n: nat, c: string): (r: Option<nat>)
    requires n <= |tags|
    ensures r.Some? ==> r.value < n && tags[r.value].line == ty && c in tags[r.value].commits
    ensures forall k :: 0 <= k < n && tags[k].line == ty && c in tags[k].commits ==> r.Some? && r.value <= k
  {
    if n == 0 then None
    else
      var before := FirstTag(tags, ty, n - 1, c);
      if before.Some? then before
      else if tags[n - 1].line == ty && c in tags[n - 1].commits then Some(n - 1)
      else None
  }

  lemma {:induction false} ReachedIff(tags: seq<Tag>, ty: LineType, n: nat, c: string)
    requires n <= |tags|
    ensures c in Reached(tags, ty, n) <==> FirstTag(tags, ty, n, c).Some?
  {
    if n > 0 {
      ReachedIff(tags, ty, n - 1, c);
    }
  }

  lemma {:induction false} RecordAllCommits(m: Maps, cs: seq<string>, ty: LineType, idx: nat, prOf: PrOf,
                                            c: string, t: LineType)
    ensures Lookup(RecordAll(m, cs, ty, idx, prOf).commits, c, t) ==
              if c in cs && t == ty then Some(idx) else Lookup(m.commits, c, t)
  {
    hide Lookup, Put;
    if cs != [] {
      var n := |cs| - 1;
      RecordAllCommits(m, cs[..n], ty, idx, prOf, c, t);
      LookupPut(RecordAll(m, cs[..n], ty, idx, prOf).commits, cs[n], ty, idx, c, t);
      assert cs == cs[..n] + [cs[n]];
    }
  }

  /** A commit's entry is the first tag of the line that reaches it; the other line's entry stays. */
  lemma {:induction false} LineCommits(m: Maps, tags: seq<Tag>, ty: LineType, n: nat, prOf: PrOf,
                                       c: string, t: LineType)
    requires n <= |tags|
    ensures Lookup(ProcessLine(m, tags, ty, n, prOf).commits, c, t) ==
              if t == ty && FirstTag(tags, ty, n, c).Some? then FirstTag(tags, ty, n, c) else Lookup(m.commits, c, t)
  {
    hide Lookup, NewCommits, RecordAll;
    if n > 0 {
      LineCommits(m, tags, ty, n - 1, prOf, c, t);
      if tags[n - 1].line == ty {
        var seen := Reached(tags, ty, n - 1);
        NewCommitsIn(tags[n - 1].commits, seen, c);
        ReachedIff(tags, ty, n - 1, c);
        var before, found := ProcessLine(m, tags, ty, n - 1, prOf), NewCommits(tags[n - 1].commits, seen);
        RecordAllCommits(before, found, ty, n - 1, prOf, c, t);
      }
    }
  }

  ghost predicate Carries(prOf: PrOf, cs: seq<string>, pr: string) {
    exists k :: 0 <= k < |cs| && prOf(cs[k]) == Some(pr)
  }

  lemma {:induction false} RecordAllPrs(m: Maps, cs: seq<string>, ty: LineType, idx: nat, prOf: PrOf,
                                        pr: string, t: LineType)
    ensures Lookup(RecordAll(m, cs, ty, idx, prOf).prs, pr, t) ==
              if t == ty && Lookup(m.prs, pr, t).None? && Carries(prOf, cs, pr) then Some(idx) else Lookup(m.prs, pr, t)
  {
    hide Lookup, Put;
    if cs != [] {
      var n := |cs| - 1;
      var before := RecordAll(m, cs[..n], ty, idx, prOf);
      RecordAllPrs(m, cs[..n], ty, idx, prOf, pr, t);
      if prOf(cs[n]).Some? {
        LookupPut(before.prs, prOf(cs[n]).value, ty, idx, pr, t);
      }
      assert Carries(prOf, cs, pr) <==> Carries(prOf, cs[..n], pr) || prOf(cs[n]) == Some(pr) by {
        if k :| 0 <= k < n && prOf(cs[..n][k]) == Some(pr) {
          assert prOf(cs[k]) == Some(pr);
        }
        if k :| 0 <= k < |cs| && prOf(cs[k]) == Some(pr) {
          assert k < n ==> prOf(cs[..n][k]) == Some(pr);
        }
      }
    }
  }

  /** i is the least index to which any commit of the pull request is attributed. */
  ghost predicate LeastOf(tags: seq<Tag>, ty: LineType, n: nat, prOf: PrOf, pr: string, i: Option<nat>)
    requires n <= |tags|
  {
    && (i.Some? ==> exists c :: prOf(c) == Some(pr) && FirstTag(tags, ty, n, c) == i)
    && forall c :: prOf(c) == Some(pr) && FirstTag(tags, ty, n, c).Some? ==>
         i.Some? && i.value <= FirstTag(tags, ty, n, c).value
  }

  lemma LeastStep(tags: seq<Tag>, ty: LineType, n: nat, prOf: PrOf, pr: string, before: Option<nat>, found: seq<string>)
    requires 0 < n <= |tags| && tags[n - 1].line == ty && LeastOf(tags, ty, n - 1, prOf, pr, before)
    requires forall c :: c in found <==> c in tags[n - 1].commits && FirstTag(tags, ty, n - 1, c).None?
    ensures LeastOf(tags, ty, n, prOf, pr, if before.None? && Carries(prOf, found, pr) then Some(n - 1) else before)
  {
    if before.Some? {
      var c :| prOf(c) == Some(pr) && FirstTag(tags, ty, n - 1, c) == before;
      assert FirstTag(tags, ty, n, c) == before;
    } else {
      if Carries(prOf, found, pr) {
        var k :| 0 <= k < |found| && prOf(found[k]) == Some(pr);
        assert found[k] in found;
        assert FirstTag(tags, ty, n, found[k]) == Some(n - 1);
      } else {
        forall c | prOf(c) == Some(pr) ensures FirstTag(tags, ty, n, c).None? {
          assert c !in found;
        }
      }
    }
  }

  lemma NoneReached(tags: seq<Tag>, ty: LineType, prOf: PrOf, pr: string)
    ensures LeastOf(tags, ty, 0, prOf, pr, None)
  {
  }

  lemma LeastSkip(tags: seq<Tag>, ty: LineType, n: nat, prOf: PrOf, pr: string, i: Option<nat>)
    requires 0 < n <= |tags| && tags[n - 1].line != ty && LeastOf(tags, ty, n - 1, prOf, pr, i)
    ensures LeastOf(tags, ty, n, prOf, pr, i)
  {
    if i.Some? {
      var c :| prOf(c) == Some(pr) && FirstTag(tags, ty, n - 1, c) == i;
      assert FirstTag(tags, ty, n, c) == i;
    }
  }

  /** A pull request's entry is the least tag index among its commits. */
  lemma {:induction false} LinePrs(m: Maps, tags: seq<Tag>, ty: LineType, n: nat, prOf: PrOf, pr: string)
    requires n <= |tags| && Lookup(m.prs, pr, ty).None?
    ensures LeastOf(tags, ty, n, prOf, pr, Lookup(ProcessLine(m, tags, ty, n, prOf).prs, pr, ty))
  {
    hide Lookup, NewCommits, RecordAll, LeastOf;
    if n == 0 {
      assert LeastOf(tags, ty, 0, prOf, pr, None) by { NoneReached(tags, ty, prOf, pr); }
    } else {
      LinePrs(m, tags, ty, n - 1, prOf, pr);
      var before := ProcessLine(m, tags, ty, n - 1, prOf);
      if tags[n - 1].line == ty {
        var seen := Reached(tags, ty, n - 1);
        var cs := NewCommits(tags[n - 1].commits, seen);
        forall c ensures c in cs <==> c in tags[n - 1].commits && FirstTag(tags, ty, n - 1, c).None? {
          NewCommitsIn(tags[n - 1].commits, seen, c);
          ReachedIff(tags, ty, n - 1, c);
        }
        LeastStep(tags, ty, n, prOf, pr, Lookup(before.prs, pr, ty), cs);
        RecordAllPrs(before, cs, ty, n - 1, prOf, pr, ty);
      } else {
        LeastSkip(tags, ty, n, prOf, pr, Lookup(before.prs, pr, ty));
      }
    }
  }

  lemma {:induction false} OtherPrs(m: Maps, tags: seq<Tag>, ty: LineType, n: nat, prOf: PrOf, pr: string, t: LineType)
    requires n <= |tags| && t != ty
    ensures Lookup(ProcessLine(m, tags, ty, n, prOf).prs, pr, t) == Lookup(m.prs, pr, t)
  {
    hide Lookup, NewCommits, RecordAll;
    if n > 0 {
      OtherPrs(m, tags, ty, n - 1, prOf, pr, t);
      if tags[n - 1].line == ty {
        var found := NewCommits(tags[n - 1].commits, Reached(tags, ty, n - 1));
        RecordAllPrs(ProcessLine(m, tags, ty, n - 1, prOf), found, ty, n - 1, prOf, pr, t);
      }
    }
  }

  const NOTHING := Maps(map[], map[])

  /** Both lines, main first, as `main` runs them. */
  function BuildIndex(tags: seq<Tag>, prOf: PrOf): (m: Maps) {
    ProcessLine(ProcessLine(NOTHING, tags, Main, |tags|, prOf), tags, Gateway, |tags|, prOf)
  }

  /** Every commit maps, on each line, to the first tag of that line that reaches it. */
  lemma CommitIndex(tags: seq<Tag>, prOf: PrOf, c: string, t: LineType)
    ensures Lookup(BuildIndex(tags, prOf).commits, c, t) == FirstTag(tags, t, |tags|, c)
  {
    hide ProcessLine, FirstTag;
    var main := ProcessLine(NOTHING, tags, Main, |tags|, prOf);
    LineCommits(NOTHING, tags, Main, |tags|, prOf, c, t);
    LineCommits(main, tags, Gateway, |tags|, prOf, c, t);
  }

  /** Every pull request maps, on each line, to the least tag index among its commits. */
  lemma PrIndex(tags: seq<Tag>, prOf: PrOf, pr: string, t: LineType)
    ensures LeastOf(tags, t, |tags|, prOf, pr, Lookup(BuildIndex(tags, prOf).prs, pr, t))
  {
    hide ProcessLine, LeastOf;
    var main := ProcessLine(NOTHING, tags, Main, |tags|, prOf);
    if t == Main {
      LinePrs(NOTHING, tags, Main, |tags|, prOf, pr);
      OtherPrs(main, tags, Gateway, |tags|, prOf, pr, Main);
    } else {
      OtherPrs(NOTHING, tags, Main, |tags|, prOf, pr, Gateway);
      LinePrs(main, tags, Gateway, |tags|, prOf, pr);
    }
  }

  /** What a tag reaches, every ancestor of it is reached too. */
  ghost predicate AncestryClosed(tags: seq<Tag>, ancestor: (string, string) -> bool) {
    forall k, a, c :: 0 <= k < |tags| && c in tags[k].commits && ancestor(a, c) ==> a in tags[k].commits
  }

  /** An ancestor is released no later than its descendant, on each line. */
  lemma AncestorsNotLater(tags: seq<Tag>, prOf: PrOf, ancestor: (string, string) -> bool,
                          a: string, c: string, t: LineType)
    requires AncestryClosed(tags, ancestor) && ancestor(a, c)
    requires Lookup(BuildIndex(tags, prOf).commits, c, t).Some?
    ensures Lookup(BuildIndex(tags, prOf).commits, a, t).Some?
    ensures Lookup(BuildIndex(tags, prOf).commits, a, t).value <= Lookup(BuildIndex(tags, prOf).commits, c, t).value
  {
    hide BuildIndex, Lookup;
    CommitIndex(tags, prOf, c, t);
    CommitIndex(tags, prOf, a, t);
  }

  // ----- the run, with its sets and dictionaries updated in place -------------------------

  lemma RecordNone(m: Maps, cs: seq<string>, ty: LineType, idx: nat, prOf: PrOf)
    ensures RecordAll(m, cs[..0], ty, idx, prOf) == m
  {
  }

  lemma {:induction false} RecordAppend(m: Maps, a: seq<string>, b: seq<string>, ty: LineType, idx: nat, prOf: PrOf)
    ensures RecordAll(m, a + b, ty, idx, prOf) == RecordAll(RecordAll(m, a, ty, idx, prOf), b, ty, idx, prOf)
    decreases |b|
  {
    hide Record;
    if b == [] {
      assert a + b == a;
    } else {
      RecordAppend(m, a, b[..|b| - 1], ty, idx, prOf);
      assert (a + b)[..|a + b| - 1] == a + b[..|b| - 1];
    }
  }

  class Indexer {
    var commits: Index
    var prs: Index

    ghost function View(): Maps
      reads this
    {
      Maps(commits, prs)
    }

    constructor ()
      ensures View() == NOTHING
    {
      commits, prs := map[], map[];
    }

    /** The inner filter loop over one `rev-list`. */
    static method CollectNew(list: seq<string>, seenBefore: set<string>) returns (found: seq<string>, seen: set<string>)
      ensures found == NewCommits(list, seenBefore)
      ensures seen == seenBefore + ToSet(list)
    {
      found, seen := [], seenBefore;
      for i := 0 to |list|
        invariant found == NewCommits(list[..i], seenBefore)
        invariant seen == seenBefore + ToSet(list[..i])
      {
        var c := list[i];
        assert list[..i + 1][..i] == list[..i] && list[..i + 1] == list[..i] + [c];
        assert ToSet(list[..i + 1]) == ToSet(list[..i]) + {c};
        if c in seen {
          continue;
        }
        found := found + [c];
        seen := seen + {c};
      }
      assert list[..|list|] == list;
    }

    /** One chunk of `git show` output. */
    method RecordChunk(chunk: seq<string>, ty: LineType, idx: nat, prOf: PrOf)
      modifies this
      ensures View() == RecordAll(old(View()), chunk, ty, idx, prOf)
    {
      for i := 0 to |chunk|
        invariant View() == RecordAll(old(View()), chunk[..i], ty, idx, prOf)
      {
        var c := chunk[i];
        assert chunk[..i + 1][..i] == chunk[..i];
        var entry: Entry := if c in commits then commits[c] else map[];
        entry := entry[ty := idx];
        commits := commits[c := entry];
        var pr := prOf(c);
        if pr.Some? {
          if Lookup(prs, pr.value, ty).None? {
            prs := Put(prs, pr.value, ty, idx);
          }
        }
      }
      assert chunk[..|chunk|] == chunk;
    }

    /** All new commits of a tag, `size` at a time: the result does not depend on the chunk size. */
    method RecordTag(cs: seq<string>, ty: LineType, idx: nat, prOf: PrOf, size: nat)
      requires size > 0
      modifies this
      ensures View() == RecordAll(old(View()), cs, ty, idx, prOf)
    {
      hide RecordAll;
      var i := 0;
      assert RecordAll(View(), cs[..0], ty, idx, prOf) == View() by { RecordNone(View(), cs, ty, idx, prOf); }
      while i < |cs|
        invariant i <= |cs|
        invariant View() == RecordAll(old(View()), cs[..i], ty, idx, prOf)
        decreases |cs| - i
      {
        var j := if i + size <= |cs| then i + size else |cs|;
        RecordAppend(old(View()), cs[..i], cs[i..j], ty, idx, prOf);
        assert cs[..i] + cs[i..j] == cs[..j];
        RecordChunk(cs[i..j], ty, idx, prOf);
        i := j;
      }
      assert cs[..|cs|] == cs;
    }

    method ProcessTagLine(tags: seq<Tag>, ty: LineType, prOf: PrOf, size: nat)
      requires size > 0
      modifies this
      ensures View() == ProcessLine(old(View()), tags, ty, |tags|, prOf)
    {
      hide NewCommits, RecordAll, ToSet;
      var seen: set<string> := {};
      for n := 0 to |tags|
        invariant seen == Reached(tags, ty, n)
        invariant View() == ProcessLine(old(View()), tags, ty, n, prOf)
      {
        if tags[n].line == ty {
          var cs;
          cs, seen := CollectNew(tags[n].commits, seen);
          RecordTag(cs, ty, n, prOf, size);
        }
      }
    }
  }

  // ----- short hashes --------------------------------------------------------------------

  const SHORT_HASH_LEN := 8

  function Short(sha: string): (r: string) {
    if |sha| <= SHORT_HASH_LEN then sha else sha[..SHORT_HASH_LEN]
  }

  ghost predicate Collide(keys: seq<string>, n: nat)
    requires n <= |keys|
  {
    exists i, j :: 0 <= i < j < n && keys[i] != keys[j] && Short(keys[i]) == Short(keys[j])
  }

  ghost predicate Shortened(keys: seq<string>, m: Index, n: nat, short: Index)
    requires n <= |keys| && forall k :: 0 <= k < |keys| ==> keys[k] in m
  {
    && (forall k :: 0 <= k < n ==> Short(keys[k]) in short && short[Short(keys[k])] == m[keys[k]])
    && (forall s :: s in short ==> exists k :: 0 <= k < n && Short(keys[k]) == s)
  }

  /** `short_to_full_map` after n keys. */
  ghost predicate FullNames(keys: seq<string>, n: nat, full: map<string, string>)
    requires n <= |keys|
  {
    && (forall k :: 0 <= k < n ==> Short(keys[k]) in full && full[Short(keys[k])] == keys[k])
    && (forall s :: s in full ==> exists k :: 0 <= k < n && Short(keys[k]) == s)
  }

  lemma FullNamesStep(keys: seq<string>, n: nat, full: map<string, string>)
    requires n < |keys| && FullNames(keys, n, full)
    requires Short(keys[n]) in full ==> full[Short(keys[n])] == keys[n]
    ensures FullNames(keys, n + 1, full[Short(keys[n]) := keys[n]])
  {
    hide Short;
    var next := full[Short(keys[n]) := keys[n]];
    forall s | s in next ensures exists k :: 0 <= k < n + 1 && Short(keys[k]) == s {
      if s != Short(keys[n]) {
        var k :| 0 <= k < n && Short(keys[k]) == s;
      }
    }
  }

  lemma ShortenedStep(keys: seq<string>, m: Index, n: nat, short: Index, full: map<string, string>)
    requires n < |keys| && (forall k :: 0 <= k < |keys| ==> keys[k] in m)
    requires Shortened(keys, m, n, short) && FullNames(keys, n, full)
    requires Short(keys[n]) in full ==> full[Short(keys[n])] == keys[n]
    ensures Shortened(keys, m, n + 1, short[Short(keys[n]) := m[keys[n]]])
  {
    hide Short;
    var next := short[Short(keys[n]) := m[keys[n]]];
    forall s | s in next ensures exists k :: 0 <= k < n + 1 && Short(keys[k]) == s {
      if s != Short(keys[n]) {
        var k :| 0 <= k < n && Short(keys[k]) == s;
      }
    }
  }

  lemma CollisionFound(keys: seq<string>, n: nat, full: map<string, string>)
    requires n < |keys| && FullNames(keys, n, full)
    requires Short(keys[n]) in full && full[Short(keys[n])] != keys[n]
    ensures Collide(keys, |keys|)
  {
    hide Short;
    var k :| 0 <= k < n && Short(keys[k]) == Short(keys[n]);
    assert keys[k] != keys[n];
  }

  lemma NoCollision(keys: seq<string>, full: map<string, string>)
    requires FullNames(keys, |keys|, full)
    ensures !Collide(keys, |keys|)
  {
    hide Short;
  }

  /** Short hashes as keys; two commits with the same short hash stop the run. Otherwise every
      commit is found under its short hash with its own entry, and nothing else is there. */
  method ShortenKeys(keys: seq<string>, m: Index) returns (r: Result<Index, string>)
    requires forall k :: 0 <= k < |keys| ==> keys[k] in m
    ensures r.Err? <==> Collide(keys, |keys|)
    ensures r.Ok? ==> Shortened(keys, m, |keys|, r.value)
  {
    var short: Index := map[];
    var full: map<string, string> := map[];
    assert Shortened(keys, m, 0, short) && FullNames(keys, 0, full);
    hide Short, Collide, Shortened, FullNames;
    for n := 0 to |keys|
      invariant Shortened(keys, m, n, short) && FullNames(keys, n, full)
    {
      var s := Short(keys[n]);
      if s in full && full[s] != keys[n] {
        CollisionFound(keys, n, full);
        return Err(s);
      }
      ShortenedStep(keys, m, n, short, full);
      FullNamesStep(keys, n, full);
      short := short[s := m[keys[n]]];
      full := full[s := keys[n]];
    }
    NoCollision(keys, full);
    r := Ok(short);
  }

  // ----- compact entries and the lookup page ------------------------------------------------

  /** An entry as written: "m12" or "g3" when there is one line, an object otherwise. */
  datatype Compact = Text(text: string) | Object(entry: Entry)

  function Digit(d: nat): char
    requires d < 10
  {
    "0123456789"[d]
  }

  function Decimal(n: nat): (s: string)
    ensures s != []
  {
    if n < 10 then [Digit(n)] else Decimal(n / 10) + [Digit(n % 10)]
  }

  function Letter(ty: LineType): char {
    if ty == Main then 'm' else 'g'
  }

  /** `simplify_map` on one entry. */
  function Simplify(e: Entry): (r: Compact) {
    if e.Keys == {Main} then Text([Letter(Main)] + Decimal(e[Main]))
    else if e.Keys == {Gateway} then Text([Letter(Gateway)] + Decimal(e[Gateway]))
    else Object(e)
  }

  function DigitValue(c: char): (d: Option<nat>)
    ensures d.Some? ==> d.value < 10
  {
    if '0' <= c <= '9' then Some((c - '0') as int) else None
  }

  /** `parseInt` of a string of digits. */
  function ParseDecimal(s: string): (r: Option<nat>) {
    if s == [] then None
    else
      var last := DigitValue(s[|s| - 1]);
      if last.None? then None
      else if |s| == 1 then last
      else match ParseDecimal(s[..|s| - 1]) case None => None case Some(n) => Some(10 * n + last.value)
  }

  /** The page's `parseTagRef`. */
  function ParseTagRef(s: string): (r: Option<(LineType, nat)>) {
    if s == [] || (s[0] != 'm' && s[0] != 'g') then None
    else match ParseDecimal(s[1..]) case None => None case Some(n) => Some((if s[0] == 'm' then Main else Gateway, n))
  }

  /** The tag indexes the page shows for an entry: main before gateway. */
  function TagRefs(c: Compact): (r: seq<nat>) {
    match c
    case Text(s) => (match ParseTagRef(s) case None => [] case Some(ref) => [ref.1])
    case Object(e) => (if Main in e then [e[Main]] else []) + (if Gateway in e then [e[Gateway]] else [])
  }

  lemma DigitRoundTrip(d: nat)
    requires d < 10
    ensures DigitValue(Digit(d)) == Some(d)
  {
  }

  lemma {:induction false} DecimalRoundTrip(n: nat)
    ensures ParseDecimal(Decimal(n)) == Some(n)
  {
    DigitRoundTrip(n % 10);
    if n >= 10 {
      DecimalRoundTrip(n / 10);
      var s := Decimal(n / 10);
      assert (s + [Digit(n % 10)])[..|s|] == s;
    }
  }

  /** Compact text reads back as the line and index it was written from. */
  lemma TagRefRoundTrip(ty: LineType, n: nat)
    ensures ParseTagRef([Letter(ty)] + Decimal(n)) == Some((ty, n))
  {
    DecimalRoundTrip(n);
    assert ([Letter(ty)] + Decimal(n))[1..] == Decimal(n);
  }

  /** An entry of one line is written as the letter of the line and its index in decimal, an entry of both
      lines as an object. */
  lemma CompactForm(n: nat, m: nat)
    ensures Simplify(map[Main := n]) == Text("m" + Decimal(n))
    ensures Simplify(map[Gateway := n]) == Text("g" + Decimal(n))
    ensures Simplify(map[Main := n, Gateway := m]) == Object(map[Main := n, Gateway := m])
  {
    var e := map[Main := n, Gateway := m];
    assert Main in e.Keys && Gateway in e.Keys;
    assert Gateway in map[Gateway := n].Keys;
  }

  /** The page shows exactly the entry's indexes, whatever form it was written in. */
  lemma SimplifyRoundTrip(e: Entry)
    ensures TagRefs(Simplify(e)) == (if Main in e then [e[Main]] else []) + (if Gateway in e then [e[Gateway]] else [])
  {
    assert Main in e <==> Main in e.Keys;
    assert Gateway in e <==> Gateway in e.Keys;
    if e.Keys == {Main} {
      TagRefRoundTrip(Main, e[Main]);
    } else if e.Keys == {Gateway} {
      TagRefRoundTrip(Gateway, e[Gateway]);
    }
  }

  /** Looking up a commit by its hash on the page shows the first release of each line that
      contains it: generator, short hash, compact form and page together. */
  lemma LookupShowsFirstReleases(tags: seq<Tag>, prOf: PrOf, keys: seq<string>, short: Index, k: nat)
    requires var m := BuildIndex(tags, prOf).commits;
             && (forall i :: 0 <= i < |keys| ==> keys[i] in m)
             && Shortened(keys, m, |keys|, short)
    requires k < |keys|
    ensures Short(keys[k]) in short
    ensures TagRefs(Simplify(short[Short(keys[k])])) ==
              AsList(FirstTag(tags, Main, |tags|, keys[k])) + AsList(FirstTag(tags, Gateway, |tags|, keys[k]))
  {
    hide BuildIndex, FirstTag, Simplify, TagRefs, Short;
    var m := BuildIndex(tags, prOf).commits;
    CommitIndex(tags, prOf, keys[k], Main);
    CommitIndex(tags, prOf, keys[k], Gateway);
    SimplifyRoundTrip(m[keys[k]]);
  }
}
