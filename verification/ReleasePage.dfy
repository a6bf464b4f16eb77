/** The lookup page: a query is taken for a pull request or a commit hash, and a hash is found in the
    release index by its short form or by a binary search for a prefix. */
module ReleasePage {
  import opened Prelude
  import opened ReleaseIndex
  import TextSplit

  // ----- string order -----------------------------------------------------------------

  /** `a < b` on strings. */
  predicate Less(a: string, b: string) {
    b != [] && (a == [] || a[0] < b[0] || (a[0] == b[0] && Less(a[1..], b[1..])))
  }

  lemma {:induction false} LessTransitive(a: string, b: string, c: string)
    requires Less(a, b) && Less(b, c)
    ensures Less(a, c)
  {
    if a != [] && a[0] == b[0] == c[0] {
      LessTransitive(a[1..], b[1..], c[1..]);
    }
  }

  lemma {:induction false} LessAsymmetric(a: string, b: string)
    requires Less(a, b)
    ensures !Less(b, a)
  {
    if a != [] && a[0] == b[0] {
      LessAsymmetric(a[1..], b[1..]);
    }
  }

  lemma {:induction false} LessTotal(a: string, b: string)
    requires a != b
    ensures Less(a, b) || Less(b, a)
  {
    if a != [] && b != [] && a[0] == b[0] {
      assert a == [a[0]] + a[1..] && b == [b[0]] + b[1..];
      LessTotal(a[1..], b[1..]);
    }
  }

  /** A string never comes before one of its prefixes. */
  lemma {:induction false} PrefixNotAfter(p: string, s: string)
    requires p <= s
    ensures !Less(s, p)
  {
    if p != [] {
      PrefixNotAfter(p[1..], s[1..]);
    }
  }

  /** The strings with prefix p stand together: what is not before p and does not start with p comes
      after all of them. */
  lemma {:induction false} PrefixTogether(p: string, k: string, s: string)
    requires p <= s && !Less(k, p) && !(p <= k)
    ensures Less(s, k)
  {
    if k != [] && p[0] == k[0] {
      assert p == [p[0]] + p[1..] && k == [k[0]] + k[1..];
      PrefixTogether(p[1..], k[1..], s[1..]);
    }
  }

  ghost predicate SortedKeys(keys: seq<string>) {
    forall i, j :: 0 <= i < j < |keys| ==> Less(keys[i], keys[j])
  }

  // ----- prefix search -----------------------------------------------------------------

  /** The first key, in order, that starts with the prefix. */
  function FirstWithPrefix(keys: seq<string>, prefix: string): (r: Option<string>)
    ensures r.Some? ==> r.value in keys && prefix <= r.value
    ensures r.None? ==> forall k :: k in keys ==> !(prefix <= k)
  {
    if keys == [] then None
    else
      assert keys == [keys[0]] + keys[1..];
      if prefix <= keys[0] then Some(keys[0]) else FirstWithPrefix(keys[1..], prefix)
  }

  lemma NoneWithPrefix(keys: seq<string>, prefix: string)
    requires forall i :: 0 <= i < |keys| ==> !(prefix <= keys[i])
    ensures FirstWithPrefix(keys, prefix) == None
  {
  }

  lemma {:induction false} FirstAt(keys: seq<string>, prefix: string, lo: nat)
    requires lo <= |keys| && forall i :: 0 <= i < lo ==> !(prefix <= keys[i])
    requires lo < |keys| && !(prefix <= keys[lo]) ==> forall i :: lo < i < |keys| ==> !(prefix <= keys[i])
    ensures FirstWithPrefix(keys, prefix) == if lo < |keys| && prefix <= keys[lo] then Some(keys[lo]) else None
  {
    if lo > 0 {
      FirstAt(keys[1..], prefix, lo - 1);
    } else if keys != [] && !(prefix <= keys[0]) {
      NoneWithPrefix(keys, prefix);
    }
  }

  /** Behind a key that is past the prefix no key starts with it. */
  lemma PastPrefix(keys: seq<string>, prefix: string, lo: nat, i: nat)
    requires SortedKeys(keys) && lo < i < |keys| && !Less(keys[lo], prefix) && !(prefix <= keys[lo])
    ensures !(prefix <= keys[i])
  {
    if prefix <= keys[i] {
      PrefixTogether(prefix, keys[lo], keys[i]);
      LessAsymmetric(keys[i], keys[lo]);
    }
  }

  /** The binary search of the page finds what a scan of the sorted keys finds. */
  method PrefixSearchCommit(keys: seq<string>, prefix: string) returns (r: Option<string>)
    requires SortedKeys(keys)
    ensures r == FirstWithPrefix(keys, prefix)
  {
    hide Less, FirstWithPrefix;
    var lo, hi := 0, |keys|;
    while lo < hi
      invariant 0 <= lo <= hi <= |keys|
      invariant forall i :: 0 <= i < lo ==> Less(keys[i], prefix)
      invariant forall i :: hi <= i < |keys| ==> !Less(keys[i], prefix)
    {
      var mid := (lo + hi) / 2;
      if Less(keys[mid], prefix) {
        forall i | 0 <= i < mid ensures Less(keys[i], prefix) {
          LessTransitive(keys[i], keys[mid], prefix);
        }
        lo := mid + 1;
      } else {
        forall i | mid < i < |keys| ensures !Less(keys[i], prefix) {
          if Less(keys[i], prefix) {
            LessTransitive(keys[mid], keys[i], prefix);
          }
        }
        hi := mid;
      }
    }
    forall i | 0 <= i < lo ensures !(prefix <= keys[i]) {
      if prefix <= keys[i] {
        PrefixNotAfter(prefix, keys[i]);
      }
    }
    if lo < |keys| && !(prefix <= keys[lo]) {
      forall i | lo < i < |keys| ensures !(prefix <= keys[i]) {
        PastPrefix(keys, prefix, lo, i);
      }
    }
    FirstAt(keys, prefix, lo);
    r := if lo < |keys| && prefix <= keys[lo] then Some(keys[lo]) else None;
  }

  /** Among sorted keys the first with a prefix is the least one with it. */
  lemma {:induction false} FirstIsLeast(keys: seq<string>, prefix: string, k: string)
    requires SortedKeys(keys) && k in keys && prefix <= k
    ensures FirstWithPrefix(keys, prefix) == Some(k) <==> forall j :: j in keys && prefix <= j ==> !Less(j, k)
  {
    hide Less;
    if prefix <= keys[0] {
      var m :| 0 <= m < |keys| && keys[m] == k;
      if m == 0 {
        forall j | j in keys ensures !Less(j, k) {
          var i :| 0 <= i < |keys| && keys[i] == j;
          if Less(j, k) {
            assert i > 0 ==> Less(k, j);
            LessAsymmetric(j, k);
          }
        }
      } else {
        assert Less(keys[0], k);
        if keys[0] == k {
          LessAsymmetric(k, k);
        }
      }
    } else {
      assert k in keys[1..];
      FirstIsLeast(keys[1..], prefix, k);
      assert forall j :: j in keys && prefix <= j ==> j in keys[1..];
    }
  }

  // ----- queries ------------------------------------------------------------------------

  datatype Query = Pr(number: string) | Commit(hash: string) | Unknown

  predicate IsDigit(c: char) { '0' <= c <= '9' }

  predicate IsHex(c: char) { IsDigit(c) || 'a' <= c <= 'f' || 'A' <= c <= 'F' }

  predicate AllDigits(s: string) { forall i :: 0 <= i < |s| ==> IsDigit(s[i]) }

  predicate AllHex(s: string) { forall i :: 0 <= i < |s| ==> IsHex(s[i]) }

  function Lower(s: string): (r: string)
    ensures |r| == |s|
    ensures forall i :: 0 <= i < |s| ==> r[i] == if 'A' <= s[i] <= 'Z' then s[i] + (32 as char) else s[i]
  {
    seq(|s|, i requires 0 <= i < |s| => if 'A' <= s[i] <= 'Z' then s[i] + (32 as char) else s[i])
  }

  /** The digits a string starts with. */
  function LeadingDigits(s: string): (r: string) {
    if s == [] || !IsDigit(s[0]) then [] else [s[0]] + LeadingDigits(s[1..])
  }

  /** The number behind the first `/pull/` that is followed by one. */
  function PullNumber(q: string, i: nat): (r: Option<string>)
    requires i <= |q|
    ensures r.Some? ==> '/' in q
    decreases |q| - i
  {
    if TextSplit.OccursAt(q, "/pull/", i) && LeadingDigits(q[i + 6..]) != [] then
      assert q[i..i + 6][0] == '/';
      Some(LeadingDigits(q[i + 6..]))
    else if i == |q| then None
    else PullNumber(q, i + 1)
  }

  function ParseQuery(q: string): (r: Query) {
    match PullNumber(q, 0)
    case Some(n) => Pr(n)
    case None =>
      var digits := if q != [] && q[0] == '#' then q[1..] else q;
      if digits != [] && AllDigits(digits) then Pr(digits)
      else if 7 <= |q| <= 40 && AllHex(q) then Commit(Lower(q))
      else Unknown
  }

  /** A query is looked up as a commit exactly when it is a hash or a prefix of one, in either case,
      that holds a letter: a hash of digits alone is taken for a pull request. */
  lemma CommitQueryIff(q: string)
    ensures ParseQuery(q).Commit? <==> 7 <= |q| <= 40 && AllHex(q) && !AllDigits(q)
    ensures ParseQuery(q).Commit? <==>
              && 7 <= |q| <= 40
              && (forall i :: 0 <= i < |q| ==> '0' <= q[i] <= '9' || 'a' <= q[i] <= 'f' || 'A' <= q[i] <= 'F')
              && exists i :: 0 <= i < |q| && !('0' <= q[i] <= '9')
    ensures 7 <= |q| <= 40 && AllDigits(q) ==> ParseQuery(q) == Pr(q)
    ensures ParseQuery(q).Commit? ==> ParseQuery(q).hash == Lower(q)
  {
    if AllHex(q) {
      assert '/' !in q;
    }
  }

  /** A number, with or without a hash sign, asks for the pull request of that number. */
  lemma NumberQuery(n: string)
    requires n != [] && forall i :: 0 <= i < |n| ==> '0' <= n[i] <= '9'
    ensures ParseQuery(n) == Pr(n) && ParseQuery("#" + n) == Pr(n)
  {
    assert '/' !in n && '/' !in "#" + n;
    assert ("#" + n)[1..] == n;
  }

  lemma {:induction false} LeadingDigitsAre(n: string, rest: string)
    requires AllDigits(n) && (rest == [] || !IsDigit(rest[0]))
    ensures LeadingDigits(n + rest) == n
  {
    if n != [] {
      LeadingDigitsAre(n[1..], rest);
      assert (n + rest)[1..] == n[1..] + rest;
      assert n == [n[0]] + n[1..];
    } else {
      assert n + rest == rest;
    }
  }

  const PULL: string := "/pull/"

  /** No `/pull/` in the text is followed by a digit there. */
  ghost predicate NoNumberYet(pre: string) {
    forall i: nat :: TextSplit.OccursAt(pre, PULL, i) && i + 6 < |pre| ==> !IsDigit(pre[i + 6])
  }

  lemma NotBefore(pre: string, tail: string, i: nat)
    requires i < |pre| && NoNumberYet(pre) && TextSplit.OccursAt(pre + PULL + tail, PULL, i)
    ensures LeadingDigits((pre + PULL + tail)[i + 6..]) == []
  {
    var s := pre + PULL + tail;
    assert s[i..i + 6] == PULL;
    if i + 6 <= |pre| {
      assert s[i..i + 6] == pre[i..i + 6];
      assert TextSplit.OccursAt(pre, PULL, i);
      assert i + 6 < |pre| ==> s[i + 6] == pre[i + 6];
      assert i + 6 == |pre| ==> s[i + 6] == '/';
    } else {
      assert s[i..i + 6][|pre| - i] == s[|pre|] == '/';
      assert PULL[|pre| - i] == '/';
      assert s[i + 6] == PULL[1];
    }
  }

  lemma {:induction false} PullNumberAt(pre: string, tail: string, i: nat)
    requires i <= |pre| && NoNumberYet(pre) && LeadingDigits(tail) != []
    ensures PullNumber(pre + PULL + tail, i) == Some(LeadingDigits(tail))
    decreases |pre| - i
  {
    var s := pre + PULL + tail;
    if i == |pre| {
      assert s[i..i + 6] == PULL && s[i + 6..] == tail;
    } else {
      if TextSplit.OccursAt(s, PULL, i) {
        NotBefore(pre, tail, i);
      }
      PullNumberAt(pre, tail, i + 1);
    }
  }

  /** A pull request's address asks for the pull request of the number in it, whatever follows. */
  lemma AddressQuery(pre: string, n: string, rest: string)
    requires NoNumberYet(pre) && n != [] && AllDigits(n) && (rest == [] || !IsDigit(rest[0]))
    ensures ParseQuery(pre + PULL + (n + rest)) == Pr(n)
  {
    LeadingDigitsAre(n, rest);
    PullNumberAt(pre, n + rest, 0);
  }

  /** Such a hash, which the page looks up among the pull requests. */
  lemma DigitsTakenForPr()
    ensures ParseQuery("20240131") == Pr("20240131")
  {
    hide ParseQuery, AllHex;
    CommitQueryIff("20240131");
  }

  // ----- looking up -----------------------------------------------------------------------

  datatype Page = Page(commits: map<string, Compact>, prs: map<string, Compact>)

  /** The key under which a hash is found: its short form, else the first key that starts with it. */
  function CommitKey(page: Page, keys: seq<string>, hash: string): (r: Option<string>) {
    if Short(hash) in page.commits then Some(Short(hash)) else FirstWithPrefix(keys, Short(hash))
  }

  /** The tags shown for a query; none means not found. */
  function Shown(page: Page, keys: seq<string>, q: string): (refs: seq<nat>)
    requires forall k :: k in keys ==> k in page.commits
  {
    match ParseQuery(q)
    case Pr(n) => if n in page.prs then TagRefs(page.prs[n]) else []
    case Commit(h) =>
      (match CommitKey(page, keys, h) case None => [] case Some(k) => TagRefs(page.commits[k]))
    case Unknown => []
  }

  /** `performSearch` with the keys sorted when the index was loaded. */
  method PerformSearch(page: Page, keys: seq<string>, q: string) returns (refs: seq<nat>)
    requires SortedKeys(keys) && forall k :: k in keys ==> k in page.commits
    ensures refs == Shown(page, keys, q)
  {
    hide TagRefs, ParseQuery, SortedKeys;
    var query := ParseQuery(q);
    refs := [];
    if query.Pr? {
      if query.number in page.prs {
        refs := TagRefs(page.prs[query.number]);
      }
    } else if query.Commit? {
      var short := Short(query.hash);
      if short in page.commits {
        refs := TagRefs(page.commits[short]);
      } else {
        var found := PrefixSearchCommit(keys, short);
        if found.Some? {
          refs := TagRefs(page.commits[found.value]);
        }
      }
    }
  }

  // ----- generator and page together ---------------------------------------------------------

  function SimplifyMap(m: Index): (r: map<string, Compact>) {
    map k | k in m :: Simplify(m[k])
  }

  /** The page of a release history: the index of both lines under short hashes. */
  ghost predicate PageOf(tags: seq<Tag>, prOf: PrOf, shas: seq<string>, page: Page, keys: seq<string>) {
    var m := BuildIndex(tags, prOf);
    && (forall c :: c in shas <==> c in m.commits)
    && (forall i :: 0 <= i < |shas| ==> |shas[i]| == 40)
    && (exists short :: Shortened(shas, m.commits, |shas|, short) && page.commits == SimplifyMap(short))
    && page.prs == SimplifyMap(m.prs)
    && SortedKeys(keys) && forall k :: k in keys <==> k in page.commits
  }

  /** The first release of each line that reaches the commit, main before gateway. */
  ghost function FirstReleases(tags: seq<Tag>, c: string): (refs: seq<nat>) {
    AsList(FirstTag(tags, Main, |tags|, c)) + AsList(FirstTag(tags, Gateway, |tags|, c))
  }

  lemma KeysOfPage(tags: seq<Tag>, prOf: PrOf, shas: seq<string>, page: Page, keys: seq<string>)
    requires PageOf(tags, prOf, shas, page, keys)
    ensures forall k :: k in keys ==> k in page.commits && |k| == 8
    ensures forall i :: 0 <= i < |shas| ==> |shas[i]| == 40 && Short(shas[i]) in keys
    ensures forall k :: k in keys ==> exists i :: 0 <= i < |shas| && Short(shas[i]) == k
  {
    hide BuildIndex, SortedKeys;
    var m := BuildIndex(tags, prOf).commits;
    var short :| Shortened(shas, m, |shas|, short) && page.commits == SimplifyMap(short);
    forall k | k in keys ensures |k| == 8 && exists i :: 0 <= i < |shas| && Short(shas[i]) == k {
      assert k in short;
    }
  }

  lemma EntryOfPage(tags: seq<Tag>, prOf: PrOf, shas: seq<string>, page: Page, keys: seq<string>, i: nat)
    requires PageOf(tags, prOf, shas, page, keys) && i < |shas|
    ensures Short(shas[i]) in page.commits && TagRefs(page.commits[Short(shas[i])]) == FirstReleases(tags, shas[i])
  {
    hide BuildIndex, SortedKeys, FirstTag, Simplify, TagRefs, Short;
    var m := BuildIndex(tags, prOf).commits;
    var short :| Shortened(shas, m, |shas|, short) && page.commits == SimplifyMap(short);
    assert forall j :: 0 <= j < |shas| ==> shas[j] in m;
    LookupShowsFirstReleases(tags, prOf, shas, short, i);
  }

  lemma NotBeforeItself(k: string)
    ensures !Less(k, k)
  {
    if Less(k, k) {
      LessAsymmetric(k, k);
    }
  }

  /** The hash, or the prefix of at least seven characters, is found under the short hash of commit i
      exactly when no other indexed short hash with that prefix sorts before it. */
  lemma HashFindsCommitIff(tags: seq<Tag>, prOf: PrOf, shas: seq<string>, page: Page, keys: seq<string>,
                           h: string, i: nat)
    requires PageOf(tags, prOf, shas, page, keys) && i < |shas| && h <= shas[i]
    ensures CommitKey(page, keys, h) == Some(Short(shas[i])) <==>
              forall j :: 0 <= j < |shas| && Short(h) <= Short(shas[j]) ==> !Less(Short(shas[j]), Short(shas[i]))
    ensures |h| >= 8 ==> CommitKey(page, keys, h) == Some(Short(shas[i]))
  {
    hide BuildIndex, Less, SimplifyMap;
    KeysOfPage(tags, prOf, shas, page, keys);
    var p, k := Short(h), Short(shas[i]);
    assert p <= k;
    if |h| >= 8 {
      assert p == k;
      forall j | 0 <= j < |shas| && p <= Short(shas[j]) ensures !Less(Short(shas[j]), k) {
        assert Short(shas[j]) == k;
        NotBeforeItself(k);
      }
    } else {
      assert p !in page.commits;
      FirstIsLeast(keys, p, k);
    }
  }

  /** Looking a commit up by its hash or a prefix of it, in either case, shows the first release of each
      line that contains it, provided the prefix holds a letter and, if it has only seven characters, no
      other indexed commit with that prefix sorts before it. */
  lemma HashShowsFirstReleases(tags: seq<Tag>, prOf: PrOf, shas: seq<string>, page: Page, keys: seq<string>,
                               q: string, i: nat)
    requires PageOf(tags, prOf, shas, page, keys) && i < |shas|
    requires 7 <= |q| && AllHex(q) && !AllDigits(q) && Lower(q) <= shas[i]
    requires |q| == 7 ==>
               forall j :: 0 <= j < |shas| && Lower(q) <= Short(shas[j]) ==> !Less(Short(shas[j]), Short(shas[i]))
    ensures (forall k :: k in keys ==> k in page.commits) && Shown(page, keys, q) == FirstReleases(tags, shas[i])
  {
    hide PageOf, Less, TagRefs, FirstReleases, ParseQuery, CommitKey, AllHex, AllDigits;
    KeysOfPage(tags, prOf, shas, page, keys);
    var h := Lower(q);
    assert |h| <= |shas[i]|;
    CommitQueryIff(q);
    HashFindsCommitIff(tags, prOf, shas, page, keys, h, i);
    assert |q| == 7 ==> Short(h) == h;
    assert CommitKey(page, keys, h) == Some(Short(shas[i]));
    EntryOfPage(tags, prOf, shas, page, keys, i);
  }

  /** A hash is not found exactly when no indexed commit starts with its first eight characters. */
  lemma HashNotFoundIff(tags: seq<Tag>, prOf: PrOf, shas: seq<string>, page: Page, keys: seq<string>, h: string)
    requires PageOf(tags, prOf, shas, page, keys)
    ensures CommitKey(page, keys, h) == None <==> forall i :: 0 <= i < |shas| ==> !(Short(h) <= shas[i])
  {
    hide BuildIndex, SimplifyMap, Less;
    KeysOfPage(tags, prOf, shas, page, keys);
    forall i | 0 <= i < |shas| ensures Short(h) <= shas[i] <==> Short(h) <= Short(shas[i]) {
    }
    if CommitKey(page, keys, h) == None {
      forall i | 0 <= i < |shas| ensures !(Short(h) <= Short(shas[i])) {
        assert Short(shas[i]) in keys;
      }
    } else {
      var k := CommitKey(page, keys, h).value;
      assert k in keys && Short(h) <= k;
    }
  }

  /** A pull request's number shows, for each line, the least tag index among its commits. */
  lemma PrShowsFirstReleases(tags: seq<Tag>, prOf: PrOf, shas: seq<string>, page: Page, keys: seq<string>, q: string)
    requires PageOf(tags, prOf, shas, page, keys) && ParseQuery(q).Pr?
    ensures forall k :: k in keys ==> k in page.commits
    ensures var prs, n := BuildIndex(tags, prOf).prs, ParseQuery(q).number;
            && LeastOf(tags, Main, |tags|, prOf, n, Lookup(prs, n, Main))
            && LeastOf(tags, Gateway, |tags|, prOf, n, Lookup(prs, n, Gateway))
            && Shown(page, keys, q) == AsList(Lookup(prs, n, Main)) + AsList(Lookup(prs, n, Gateway))
  {
    hide BuildIndex, Simplify, TagRefs, LeastOf, ParseQuery;
    var prs, n := BuildIndex(tags, prOf).prs, ParseQuery(q).number;
    PrIndex(tags, prOf, n, Main);
    PrIndex(tags, prOf, n, Gateway);
    if n in prs {
      SimplifyRoundTrip(prs[n]);
    }
  }
}
