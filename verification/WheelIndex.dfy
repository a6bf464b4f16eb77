/** The nightly wheel index: every run reads the published page, puts its own links first,
    drops repeated file names and writes the page back. */
module WheelIndex {
  import opened Prelude
  import opened TextSplit

  const NEWLINE: string := "\n"
  const OPEN: string := "<a href="
  const QUOTE: string := "\""

  datatype Wheel = Wheel(filename: string, sha256: string)

  /** One run: where its release is downloaded from (base URL and tag), and the wheels found in
      the build directory, sorted. */
  datatype Build = Build(release: string, wheels: seq<Wheel>)

  // ----- links and their file names ------------------------------------------------

  function LinkText(url: string, filename: string): string {
    OPEN + "\"" + url + "\">" + filename + "</a><br>"
  }

  function UrlOf(release: string, w: Wheel): string {
    release + "/" + w.filename + "#sha256=" + w.sha256
  }

  function LinkOf(release: string, w: Wheel): (link: string) {
    LinkText(UrlOf(release, w), w.filename)
  }

  /** Position of the first '<' at or after i, or the end. */
  function NextTag(s: string, i: nat): (j: nat)
    requires i <= |s|
    ensures i <= j <= |s| && '<' !in s[i..j] && (j < |s| ==> s[j] == '<')
    decreases |s| - i
  {
    if i == |s| then i
    else if s[i] == '<' then i
    else
      var j := NextTag(s, i + 1);
      assert s[i..j] == [s[i]] + s[i + 1..j];
      j
  }

  /** A match of `>([^<]+\.whl)</a>` that begins at i; the group cannot pass a '<'. */
  function MatchAt(s: string, i: nat): (r: Option<string>)
    requires i < |s|
  {
    var j := NextTag(s, i + 1);
    if s[i] == '>' && j - (i + 1) >= 5 && s[j - 4..j] == ".whl" && j + 4 <= |s| && s[j..j + 4] == "</a>"
    then Some(s[i + 1..j]) else None
  }

  /** `re.search`: the leftmost match at or after i. */
  function SearchFrom(s: string, i: nat): (r: Option<string>)
    requires i <= |s|
    decreases |s| - i
  {
    if i == |s| then None else if MatchAt(s, i).Some? then MatchAt(s, i) else SearchFrom(s, i + 1)
  }

  function FilenameOf(link: string): (r: Option<string>) {
    SearchFrom(link, 0)
  }

  /** A wheel file name as PEP 427 has it, seen from this page. */
  ghost predicate GoodName(f: string) {
    |f| >= 5 && f[|f| - 4..] == ".whl" && forall c :: c in f ==> c != '<' && c != '>' && c != '\n'
  }

  ghost predicate GoodPart(s: string) {
    forall c :: c in s ==> c != '>' && c != '\n'
  }

  ghost predicate GoodWheel(w: Wheel) {
    GoodName(w.filename) && GoodPart(w.sha256)
  }

  ghost predicate GoodBuild(b: Build) {
    GoodPart(b.release) && forall k :: 0 <= k < |b.wheels| ==> GoodWheel(b.wheels[k])
  }

  lemma {:induction false} SearchSkips(s: string, i: nat, n: nat)
    requires i <= n <= |s| && forall k :: i <= k < n ==> s[k] != '>'
    ensures SearchFrom(s, i) == SearchFrom(s, n)
    decreases n - i
  {
    if i < n {
      SearchSkips(s, i + 1, n);
    }
  }

  lemma {:induction false} NextTagIs(s: string, i: nat, j: nat)
    requires i <= j < |s| && s[j] == '<' && forall k :: i <= k < j ==> s[k] != '<'
    ensures NextTag(s, i) == j
    decreases j - i
  {
    if i < j {
      NextTagIs(s, i + 1, j);
    }
  }

  lemma MatchName(head: string, f: string, tail: string)
    requires GoodName(f)
    ensures var s := head + ">" + f + "</a>" + tail; MatchAt(s, |head|) == Some(f)
  {
    var s := head + ">" + f + "</a>" + tail;
    var i, j := |head| + 1, |head| + 1 + |f|;
    assert s[i..j] == f;
    assert s[j..j + 4] == "</a>";
    forall k | i <= k < j ensures s[k] != '<' {
      assert s[k] == f[k - i] && f[k - i] in f;
    }
    NextTagIs(s, i, j);
    assert s[j - 4..j] == f[|f| - 4..];
  }

  lemma FixedGood()
    ensures GoodPart("/") && GoodPart("#sha256=") && GoodPart(OPEN + "\"") && GoodPart("\"")
  {
  }

  lemma NameGood(f: string)
    requires GoodName(f)
    ensures GoodPart(f)
  {
  }

  lemma GoodAppend(a: string, b: string)
    requires GoodPart(a) && GoodPart(b)
    ensures GoodPart(a + b)
  {
  }

  lemma HeadGood(release: string, w: Wheel)
    requires GoodPart(release) && GoodWheel(w)
    ensures GoodPart(OPEN + "\"" + UrlOf(release, w) + "\"")
  {
    hide GoodPart, GoodName;
    FixedGood();
    NameGood(w.filename);
    GoodAppend(release, "/");
    GoodAppend(release + "/", w.filename);
    GoodAppend(release + "/" + w.filename, "#sha256=");
    GoodAppend(release + "/" + w.filename + "#sha256=", w.sha256);
    GoodAppend(OPEN + "\"", UrlOf(release, w));
    GoodAppend(OPEN + "\"" + UrlOf(release, w), "\"");
  }

  lemma GoodAt(s: string, k: nat)
    requires k < |s| && GoodPart(s)
    ensures s[k] != '>'
  {
    assert s[k] in s;
  }

  lemma SearchHit(s: string, i: nat)
    requires i < |s| && MatchAt(s, i).Some?
    ensures SearchFrom(s, i) == MatchAt(s, i)
  {
  }

  /** The file name read back from a link is the one it was built for. */
  lemma LinkFilename(release: string, w: Wheel)
    requires GoodPart(release) && GoodWheel(w)
    ensures FilenameOf(LinkOf(release, w)) == Some(w.filename)
  {
    hide NextTag, MatchAt, SearchFrom, GoodPart, GoodName;
    var head := OPEN + "\"" + UrlOf(release, w) + "\"";
    var s := LinkOf(release, w);
    assert s == head + ">" + w.filename + "</a>" + "<br>";
    HeadGood(release, w);
    forall k | 0 <= k < |head| ensures s[k] != '>' {
      GoodAt(head, k);
    }
    SearchSkips(s, 0, |head|);
    MatchName(head, w.filename, "<br>");
    SearchHit(s, |head|);
  }

  lemma NoQuote(s: string)
    requires '"' !in s
    ensures FreeOf(s, QUOTE)
  {
    forall i: nat ensures !OccursAt(s, QUOTE, i) {
      if i + 1 <= |s| {
        assert s[i..i + 1][0] == s[i] && s[i] in s;
      }
    }
  }

  /** Read by its quotation marks, a link carries the address of its wheel: below its own release, under
      the wheel's file name, with the wheel's own digest, and then the file name as its text. */
  lemma LinkParts(release: string, w: Wheel)
    requires '"' !in release && '"' !in w.filename && '"' !in w.sha256
    ensures Split(LinkOf(release, w), QUOTE) ==
              ["<a href=", release + "/" + w.filename + "#sha256=" + w.sha256, ">" + w.filename + "</a><br>"]
  {
    var url, tail := release + "/" + w.filename + "#sha256=" + w.sha256, ">" + w.filename + "</a><br>";
    assert '"' !in url && '"' !in tail && '"' !in OPEN;
    assert LinkOf(release, w) == OPEN + QUOTE + (url + QUOTE + tail);
    hide FreeOf, Split, LinkOf;
    NoQuote(OPEN);
    NoQuote(url);
    NoQuote(tail);
    assert HeadOnce(QUOTE);
    SplitHead(OPEN, QUOTE, url + QUOTE + tail);
    SplitHead(url, QUOTE, tail);
    SplitUnfold(tail, QUOTE);
    assert Split(tail, QUOTE) == [tail] by { FreeSplit(tail, QUOTE); }
  }

  // ----- keeping the first link of each file name ------------------------------------

  /** The dedup loop started with some names already seen. */
  function DedupFrom(seen: set<string>, links: seq<string>): (r: seq<string>)
    decreases |links|
  {
    if links == [] then []
    else
      match FilenameOf(links[0])
      case None => DedupFrom(seen, links[1..])
      case Some(f) =>
        if f in seen then DedupFrom(seen, links[1..]) else [links[0]] + DedupFrom(seen + {f}, links[1..])
  }

  function Dedup(links: seq<string>): (r: seq<string>) {
    DedupFrom({}, links)
  }

  /** File names of the links that have one. */
  function Names(links: seq<string>): (r: set<string>) {
    if links == [] then {}
    else Names(links[1..]) + match FilenameOf(links[0]) case None => {} case Some(f) => {f}
  }

  lemma {:induction false} DedupAppend(seen: set<string>, a: seq<string>, b: seq<string>)
    ensures DedupFrom(seen, a + b) == DedupFrom(seen, a) + DedupFrom(seen + Names(a), b)
    decreases |a|
  {
    hide FilenameOf;
    if a == [] {
      assert a + b == b && seen + {} == seen;
    } else {
      assert (a + b)[1..] == a[1..] + b;
      match FilenameOf(a[0])
      case None =>
        DedupAppend(seen, a[1..], b);
        assert Names(a) == Names(a[1..]);
      case Some(f) =>
        if f in seen {
          DedupAppend(seen, a[1..], b);
          assert seen + Names(a) == seen + Names(a[1..]);
        } else {
          DedupAppend(seen + {f}, a[1..], b);
          assert seen + {f} + Names(a[1..]) == seen + Names(a);
        }
    }
  }

  lemma {:induction false} DedupTwice(seen: set<string>, inner: set<string>, links: seq<string>)
    requires inner <= seen
    ensures DedupFrom(seen, DedupFrom(inner, links)) == DedupFrom(seen, links)
    decreases |links|
  {
    hide FilenameOf;
    if links != [] {
      match FilenameOf(links[0])
      case None => DedupTwice(seen, inner, links[1..]);
      case Some(f) =>
        if f in inner {
          DedupTwice(seen, inner, links[1..]);
        } else {
          var rest := DedupFrom(inner + {f}, links[1..]);
          assert ([links[0]] + rest)[1..] == rest;
          if f in seen {
            DedupTwice(seen, inner + {f}, links[1..]);
          } else {
            DedupTwice(seen + {f}, inner + {f}, links[1..]);
          }
        }
    }
  }

  lemma DedupNothing()
    ensures Dedup([]) == []
  {
  }

  /** Link k is the first one with its file name. */
  ghost predicate FirstOfName(links: seq<string>, k: nat)
    requires k < |links|
  {
    FilenameOf(links[k]).Some? && forall j :: 0 <= j < k ==> FilenameOf(links[j]) != FilenameOf(links[k])
  }

  /** The links among the first n that are the first with their file name, in order. */
  ghost function Firsts(links: seq<string>, n: nat): (r: seq<string>)
    requires n <= |links|
  {
    if n == 0 then [] else Firsts(links, n - 1) + if FirstOfName(links, n - 1) then [links[n - 1]] else []
  }

  lemma {:induction false} NamesUpTo(links: seq<string>, f: string)
    ensures f in Names(links) <==> exists j :: 0 <= j < |links| && FilenameOf(links[j]) == Some(f)
  {
    hide FilenameOf;
    if links != [] {
      NamesUpTo(links[1..], f);
      if j :| 0 <= j < |links| && FilenameOf(links[j]) == Some(f) {
        assert j > 0 ==> FilenameOf(links[1..][j - 1]) == Some(f);
      }
      if j :| 0 <= j < |links[1..]| && FilenameOf(links[1..][j]) == Some(f) {
        assert FilenameOf(links[j + 1]) == Some(f);
      }
    }
  }

  lemma FirstIffUnseen(links: seq<string>, k: nat)
    requires k < |links|
    ensures FirstOfName(links, k) <==>
              FilenameOf(links[k]).Some? && FilenameOf(links[k]).value !in Names(links[..k])
  {
    hide FilenameOf;
    if FilenameOf(links[k]).Some? {
      var f := FilenameOf(links[k]).value;
      NamesUpTo(links[..k], f);
      forall j | 0 <= j < k ensures FilenameOf(links[..k][j]) == FilenameOf(links[j]) {
      }
    }
  }

  lemma DedupOne(seen: set<string>, link: string)
    ensures DedupFrom(seen, [link]) ==
              if FilenameOf(link).Some? && FilenameOf(link).value !in seen then [link] else []
  {
    hide FilenameOf;
    assert [link][1..] == [];
  }

  /** Deduplication keeps, in order, exactly the links that are the first with their file name; a link
      without one is dropped. */
  lemma {:induction false} DedupIsFirsts(links: seq<string>, n: nat)
    requires n <= |links|
    ensures Dedup(links[..n]) == Firsts(links, n)
  {
    hide FilenameOf, DedupFrom, FirstOfName;
    if n == 0 {
      assert Dedup([]) == [] by { DedupNothing(); }
      assert links[..0] == [];
    } else {
      DedupIsFirsts(links, n - 1);
      assert links[..n] == links[..n - 1] + [links[n - 1]];
      DedupAppend({}, links[..n - 1], [links[n - 1]]);
      assert {} + Names(links[..n - 1]) == Names(links[..n - 1]);
      DedupOne(Names(links[..n - 1]), links[n - 1]);
      FirstIffUnseen(links, n - 1);
    }
  }

  /** Deduplicating the old page first makes no difference to the merge. */
  lemma MergeWithPage(built: seq<string>, before: seq<string>)
    ensures Dedup(built + Dedup(before)) == Dedup(built + before)
  {
    hide FilenameOf, DedupFrom;
    DedupAppend({}, built, Dedup(before));
    DedupAppend({}, built, before);
    DedupTwice({} + Names(built), {}, before);
  }

  // ----- the page as text ----------------------------------------------------------------

  ghost predicate GoodLink(link: string) {
    OPEN <= link && '\n' !in link
  }

  function LinesText(links: seq<string>): string {
    if links == [] then "" else Join(links, NEWLINE)
  }

  /** The page as written: header lines, then one link per line. */
  function Page(title: string, links: seq<string>): (content: string) {
    "<!DOCTYPE html>" + NEWLINE + ("<h1>" + title + "</h1>") + NEWLINE + LinesText(links) + NEWLINE
  }

  function OnlyLinks(lines: seq<string>): (r: seq<string>) {
    if lines == [] then []
    else OnlyLinks(lines[..|lines| - 1]) + if OPEN <= lines[|lines| - 1] then [lines[|lines| - 1]] else []
  }

  /** `[line for line in content.split("\n") if line.startswith("<a href=")]`. */
  function ReadLinks(content: string): (links: seq<string>) {
    OnlyLinks(Split(content, NEWLINE))
  }

  lemma {:induction false} OnlyLinksAppend(a: seq<string>, b: seq<string>)
    ensures OnlyLinks(a + b) == OnlyLinks(a) + OnlyLinks(b)
    decreases |b|
  {
    if b == [] {
      assert a + b == a;
    } else {
      OnlyLinksAppend(a, b[..|b| - 1]);
      assert (a + b)[..|a + b| - 1] == a + b[..|b| - 1];
    }
  }

  lemma {:induction false} OnlyLinksAll(links: seq<string>)
    requires forall k :: 0 <= k < |links| ==> OPEN <= links[k]
    ensures OnlyLinks(links) == links
  {
    if links != [] {
      OnlyLinksAll(links[..|links| - 1]);
      assert links == links[..|links| - 1] + [links[|links| - 1]];
    }
  }

  lemma FreeOfNewline(s: string)
    requires '\n' !in s
    ensures FreeOf(s, NEWLINE)
  {
    forall i: nat ensures !OccursAt(s, NEWLINE, i) {
      if i + 1 <= |s| {
        assert s[i..i + 1][0] == s[i] && s[i] in s;
      }
    }
  }

  function PageLines(title: string, links: seq<string>): (lines: seq<string>) {
    ["<!DOCTYPE html>"] + ["<h1>" + title + "</h1>"] + (if links == [] then [""] else links) + [""]
  }

  lemma JoinCons(p: string, rest: seq<string>)
    requires rest != []
    ensures Join([p] + rest, NEWLINE) == p + NEWLINE + Join(rest, NEWLINE)
  {
    assert ([p] + rest)[1..] == rest;
  }

  lemma PageIsJoin(title: string, links: seq<string>)
    ensures Page(title, links) == Join(PageLines(title, links), NEWLINE)
  {
    var d, h, body := "<!DOCTYPE html>", "<h1>" + title + "</h1>", if links == [] then [""] else links;
    assert Join(body, NEWLINE) == LinesText(links);
    JoinSnoc(body, "", NEWLINE);
    JoinCons(h, body + [""]);
    JoinCons(d, [h] + (body + [""]));
    assert PageLines(title, links) == [d] + ([h] + (body + [""]));
    var tail := LinesText(links) + NEWLINE;
    assert tail + "" == tail;
    assert Join(body + [""], NEWLINE) == tail;
    assert Page(title, links) == d + NEWLINE + (h + NEWLINE + tail);
  }

  ghost predicate GoodLinks(links: seq<string>) {
    forall k :: 0 <= k < |links| ==> GoodLink(links[k])
  }

  lemma PageLinesFree(title: string, links: seq<string>)
    requires '\n' !in title && GoodLinks(links)
    ensures AllFree(PageLines(title, links), NEWLINE)
  {
    var lines := PageLines(title, links);
    forall k | 0 <= k < |lines| ensures FreeOf(lines[k], NEWLINE) {
      assert '\n' !in lines[k] by {
        if k >= 2 && k < 2 + |links| {
          assert lines[k] == links[k - 2];
        } else if k == 1 {
          assert lines[1] == "<h1>" + title + "</h1>";
        } else if k == 0 {
          assert lines[0] == "<!DOCTYPE html>";
        } else {
          assert lines[k] == "";
        }
      }
      FreeOfNewline(lines[k]);
    }
  }

  lemma OnlyLinksNone(line: string)
    requires !(OPEN <= line)
    ensures OnlyLinks([line]) == []
  {
    assert [line][..0] == [];
  }

  lemma HeaderLines(title: string)
    ensures OnlyLinks(["<!DOCTYPE html>"] + ["<h1>" + title + "</h1>"]) == [] && OnlyLinks([""]) == []
  {
    hide OnlyLinks;
    var d, h := "<!DOCTYPE html>", "<h1>" + title + "</h1>";
    assert !(OPEN <= d) by { assert d[1] != OPEN[1]; }
    assert !(OPEN <= h) by { assert h[1] == 'h' != OPEN[1]; }
    OnlyLinksNone(d);
    OnlyLinksNone(h);
    OnlyLinksNone("");
    OnlyLinksAppend([d], [h]);
  }

  /** The page line by line: a document type, the title, one link a line, and a final line break. */
  lemma PageIsLines(title: string, links: seq<string>)
    requires '\n' !in title && GoodLinks(links)
    ensures Split(Page(title, links), NEWLINE) ==
              ["<!DOCTYPE html>", "<h1>" + title + "</h1>"] + (if links == [] then [""] else links) + [""]
  {
    hide Page, Join, Split, AllFree;
    PageIsJoin(title, links);
    PageLinesFree(title, links);
    SplitJoin(PageLines(title, links), NEWLINE);
    assert ["<!DOCTYPE html>"] + ["<h1>" + title + "</h1>"] == ["<!DOCTYPE html>", "<h1>" + title + "</h1>"];
  }

  /** Reading the page back gives exactly the links that were written. */
  lemma PageRoundTrip(title: string, links: seq<string>)
    requires '\n' !in title && GoodLinks(links)
    ensures ReadLinks(Page(title, links)) == links
  {
    hide Page, Join, Split, AllFree, OnlyLinks;
    PageIsJoin(title, links);
    PageLinesFree(title, links);
    SplitJoin(PageLines(title, links), NEWLINE);
    var header := ["<!DOCTYPE html>"] + ["<h1>" + title + "</h1>"];
    HeaderLines(title);
    var body := if links == [] then [""] else links;
    OnlyLinksAppend(header + body, [""]);
    OnlyLinksAppend(header, body);
    OnlyLinksAll(links);
  }

  // ----- runs ----------------------------------------------------------------------------

  function NewLinks(b: Build): (r: seq<string>)
    ensures |r| == |b.wheels|
    ensures forall k :: 0 <= k < |r| ==> r[k] == LinkOf(b.release, b.wheels[k])
  {
    seq(|b.wheels|, k requires 0 <= k < |b.wheels| => LinkOf(b.release, b.wheels[k]))
  }

  datatype IndexError = NoWheels

  function PublishedLinks(page: Option<string>): (links: seq<string>) {
    match page case None => [] case Some(content) => ReadLinks(content)
  }

  /** One run: it fails without touching the page when the build directory has no wheel. */
  function Update(title: string, page: Option<string>, b: Build): (r: Result<string, IndexError>) {
    if b.wheels == [] then Err(NoWheels) else Ok(Page(title, Dedup(NewLinks(b) + PublishedLinks(page))))
  }

  function PageAfter(title: string, history: seq<Build>): (page: Option<string>) {
    if history == [] then None
    else
      var page := PageAfter(title, history[..|history| - 1]);
      match Update(title, page, history[|history| - 1]) case Err(_) => page case Ok(content) => Some(content)
  }

  /** All links ever made, latest run first. */
  function AllLinks(history: seq<Build>): (links: seq<string>) {
    if history == [] then [] else NewLinks(history[|history| - 1]) + AllLinks(history[..|history| - 1])
  }

  ghost predicate GoodHistory(history: seq<Build>) {
    forall k :: 0 <= k < |history| ==> GoodBuild(history[k])
  }

  lemma LinkIsGood(release: string, w: Wheel)
    requires GoodPart(release) && GoodWheel(w)
    ensures GoodLink(LinkOf(release, w))
  {
    HeadGood(release, w);
    var head, s := OPEN + "\"" + UrlOf(release, w) + "\"", LinkOf(release, w);
    assert s == head + ">" + w.filename + "</a><br>";
    assert OPEN <= s;
    assert '\n' !in head && '\n' !in ">" && '\n' !in w.filename && '\n' !in "</a><br>";
  }

  lemma {:induction false} AllLinksGood(history: seq<Build>)
    requires GoodHistory(history)
    ensures GoodLinks(AllLinks(history))
  {
    hide GoodLink, LinkOf, GoodPart, GoodWheel;
    if history != [] {
      var b := history[|history| - 1];
      AllLinksGood(history[..|history| - 1]);
      forall k | 0 <= k < |b.wheels| ensures GoodLink(NewLinks(b)[k]) {
        LinkIsGood(b.release, b.wheels[k]);
      }
    }
  }

  lemma {:induction false} DedupGood(seen: set<string>, links: seq<string>)
    requires GoodLinks(links)
    ensures GoodLinks(DedupFrom(seen, links))
    decreases |links|
  {
    hide GoodLink, FilenameOf;
    if links != [] {
      match FilenameOf(links[0])
      case None => DedupGood(seen, links[1..]);
      case Some(f) =>
        DedupGood(seen, links[1..]);
        DedupGood(seen + {f}, links[1..]);
    }
  }

  /** After any history the page holds the deduplicated list of all links ever made, latest first. */
  lemma {:induction false} PageOfHistory(title: string, history: seq<Build>)
    requires '\n' !in title && GoodHistory(history)
    ensures PublishedLinks(PageAfter(title, history)) == Dedup(AllLinks(history))
  {
    hide Page, ReadLinks, GoodBuild, GoodLinks, DedupFrom;
    if history == [] {
      assert Dedup([]) == [] by { DedupNothing(); }
    } else {
      var n := |history| - 1;
      var b, before := history[n], AllLinks(history[..n]);
      PageOfHistory(title, history[..n]);
      if b.wheels == [] {
        assert NewLinks(b) + before == before;
      } else {
        MergeWithPage(NewLinks(b), before);
        AllLinksGood(history);
        DedupGood({}, AllLinks(history));
        PageRoundTrip(title, Dedup(AllLinks(history)));
      }
    }
  }

  // ----- what the page means ---------------------------------------------------------------

  /** The links that carry file name f. */
  function Named(links: seq<string>, f: string): (r: seq<string>) {
    if links == [] then []
    else (if FilenameOf(links[0]) == Some(f) then [links[0]] else []) + Named(links[1..], f)
  }

  /** The first link that carries file name f. */
  function FirstNamed(links: seq<string>, f: string): (r: Option<string>) {
    if links == [] then None
    else if FilenameOf(links[0]) == Some(f) then Some(links[0])
    else FirstNamed(links[1..], f)
  }

  lemma {:induction false} DedupNamed(seen: set<string>, links: seq<string>, f: string)
    ensures Named(DedupFrom(seen, links), f) == if f in seen then [] else AsList(FirstNamed(links, f))
    decreases |links|
  {
    hide FilenameOf;
    if links != [] {
      match FilenameOf(links[0])
      case None => DedupNamed(seen, links[1..], f);
      case Some(g) =>
        if g in seen {
          DedupNamed(seen, links[1..], f);
        } else {
          DedupNamed(seen + {g}, links[1..], f);
          var rest := DedupFrom(seen + {g}, links[1..]);
          assert ([links[0]] + rest)[1..] == rest;
        }
    }
  }

  function WheelNamed(wheels: seq<Wheel>, f: string): (r: Option<Wheel>)
    ensures r.Some? ==> r.value in wheels && r.value.filename == f
    ensures r.None? ==> forall k :: 0 <= k < |wheels| ==> wheels[k].filename != f
  {
    if wheels == [] then None
    else if wheels[0].filename == f then Some(wheels[0])
    else WheelNamed(wheels[1..], f)
  }

  /** The link made for f by the latest run that built it, if any run did. */
  function Latest(history: seq<Build>, f: string): (r: Option<string>) {
    if history == [] then None
    else
      var b := history[|history| - 1];
      match WheelNamed(b.wheels, f)
      case Some(w) => Some(LinkOf(b.release, w))
      case None => Latest(history[..|history| - 1], f)
  }

  lemma {:induction false} FirstNamedAppend(a: seq<string>, b: seq<string>, f: string)
    ensures FirstNamed(a + b, f) == if FirstNamed(a, f).Some? then FirstNamed(a, f) else FirstNamed(b, f)
    decreases |a|
  {
    hide FilenameOf;
    if a == [] {
      assert a + b == b;
    } else {
      assert (a + b)[1..] == a[1..] + b;
      FirstNamedAppend(a[1..], b, f);
    }
  }

  lemma {:induction false} FirstNamedNew(b: Build, f: string)
    requires GoodBuild(b)
    ensures FirstNamed(NewLinks(b), f) ==
              match WheelNamed(b.wheels, f) case None => None case Some(w) => Some(LinkOf(b.release, w))
    decreases |b.wheels|
  {
    hide FilenameOf, LinkOf, GoodPart, GoodName;
    if b.wheels != [] {
      var rest := Build(b.release, b.wheels[1..]);
      assert NewLinks(b)[1..] == NewLinks(rest);
      LinkFilename(b.release, b.wheels[0]);
      FirstNamedNew(rest, f);
    }
  }

  lemma {:induction false} FirstIsLatest(history: seq<Build>, f: string)
    requires GoodHistory(history)
    ensures FirstNamed(AllLinks(history), f) == Latest(history, f)
  {
    hide FilenameOf, GoodBuild, NewLinks;
    if history != [] {
      var n := |history| - 1;
      FirstIsLatest(history[..n], f);
      FirstNamedNew(history[n], f);
      FirstNamedAppend(NewLinks(history[n]), AllLinks(history[..n]), f);
    }
  }

  /** After any history, exactly one link per file name ever built, made by the latest run that
      built it, and none for any other name. */
  lemma OneLinkPerFile(title: string, history: seq<Build>, f: string)
    requires '\n' !in title && GoodHistory(history)
    ensures Named(PublishedLinks(PageAfter(title, history)), f) == AsList(Latest(history, f))
  {
    hide PageAfter, PublishedLinks, Named, AllLinks, Latest, FirstNamed, DedupFrom;
    PageOfHistory(title, history);
    DedupNamed({}, AllLinks(history), f);
    FirstIsLatest(history, f);
  }

  /** The links whose file name is not among `names`, in order. */
  function Without(links: seq<string>, names: set<string>): (r: seq<string>) {
    if links == [] then []
    else
      var f := FilenameOf(links[0]);
      (if f.Some? && f.value !in names then [links[0]] else []) + Without(links[1..], names)
  }

  /** Links deduplicated past f do not carry f, so leaving f out as well changes nothing. */
  lemma {:induction false} WithoutExtra(rest: seq<string>, seen: set<string>, f: string, inner: set<string>,
                                        links: seq<string>)
    requires rest == DedupFrom(inner, links) && f in inner
    ensures Without(rest, seen + {f}) == Without(rest, seen)
    decreases |links|
  {
    hide FilenameOf;
    if links != [] {
      match FilenameOf(links[0])
      case None => WithoutExtra(rest, seen, f, inner, links[1..]);
      case Some(g) =>
        if g in inner {
          WithoutExtra(rest, seen, f, inner, links[1..]);
        } else {
          assert rest[1..] == DedupFrom(inner + {g}, links[1..]);
          WithoutExtra(rest[1..], seen, f, inner + {g}, links[1..]);
        }
    }
  }

  lemma {:induction false} DedupIsWithout(seen: set<string>, inner: set<string>, links: seq<string>)
    requires inner <= seen
    ensures DedupFrom(seen, links) == Without(DedupFrom(inner, links), seen)
    decreases |links|
  {
    hide FilenameOf;
    if links != [] {
      match FilenameOf(links[0])
      case None => DedupIsWithout(seen, inner, links[1..]);
      case Some(f) =>
        if f in inner {
          DedupIsWithout(seen, inner, links[1..]);
        } else {
          var rest := DedupFrom(inner + {f}, links[1..]);
          assert ([links[0]] + rest)[1..] == rest;
          if f in seen {
            DedupIsWithout(seen, inner + {f}, links[1..]);
          } else {
            DedupIsWithout(seen + {f}, inner + {f}, links[1..]);
            WithoutExtra(rest, seen, f, inner + {f}, links[1..]);
          }
        }
    }
  }

  /** A further run puts its own links first and keeps the remaining old ones in their order. */
  lemma LatestRunFirst(title: string, history: seq<Build>, b: Build)
    requires '\n' !in title && GoodHistory(history + [b])
    ensures PublishedLinks(PageAfter(title, history + [b])) ==
              Dedup(NewLinks(b)) + Without(PublishedLinks(PageAfter(title, history)), Names(NewLinks(b)))
  {
    hide PageAfter, PublishedLinks, DedupFrom, Names, GoodBuild, Without, NewLinks;
    var all := history + [b];
    assert all[..|history|] == history && all[|history|] == b;
    assert GoodHistory(history) by {
      forall k | 0 <= k < |history| ensures GoodBuild(history[k]) { assert all[k] == history[k]; }
    }
    PageOfHistory(title, all);
    PageOfHistory(title, history);
    DedupAppend({}, NewLinks(b), AllLinks(history));
    assert {} + Names(NewLinks(b)) == Names(NewLinks(b));
    DedupIsWithout(Names(NewLinks(b)), {}, AllLinks(history));
  }

  lemma AllLinksSnoc(history: seq<Build>, b: Build)
    ensures AllLinks(history + [b]) == NewLinks(b) + AllLinks(history)
  {
    assert (history + [b])[..|history|] == history;
  }

  lemma {:induction false} SeenAllDropped(seen: set<string>, links: seq<string>)
    requires Names(links) <= seen
    ensures DedupFrom(seen, links) == []
    decreases |links|
  {
    hide FilenameOf;
    if links != [] {
      SeenAllDropped(seen, links[1..]);
    }
  }

  lemma DedupRepeat(a: seq<string>, b: seq<string>)
    ensures Dedup(a + (a + b)) == Dedup(a + b)
  {
    hide DedupFrom, Names;
    DedupAppend({}, a, a + b);
    DedupAppend({}, a, b);
    var seen := {} + Names(a);
    DedupAppend(seen, a, b);
    SeenAllDropped(seen, a);
    assert seen + Names(a) == seen;
  }

  /** Repeating a run leaves the page byte for byte as it is. */
  lemma RepeatChangesNothing(title: string, history: seq<Build>, b: Build)
    requires '\n' !in title && GoodHistory(history + [b]) && b.wheels != []
    ensures Update(title, PageAfter(title, history + [b]), b) == Ok(PageAfter(title, history + [b]).value)
  {
    hide PublishedLinks, DedupFrom, Names, GoodBuild, NewLinks, Page, AllLinks;
    var all, built := history + [b], NewLinks(b);
    assert all[..|history|] == history && all[|history|] == b;
    assert GoodHistory(history) by {
      forall k | 0 <= k < |history| ensures GoodBuild(history[k]) { assert all[k] == history[k]; }
    }
    PageOfHistory(title, all);
    PageOfHistory(title, history);
    var before := AllLinks(history);
    assert AllLinks(all) == built + before by { AllLinksSnoc(history, b); }
    MergeWithPage(built, before);
    MergeWithPage(built, built + before);
    DedupRepeat(built, before);
  }

  // ----- the published directory, updated in place -------------------------------------------

  /** The dedup loop. */
  method DropRepeats(links: seq<string>) returns (unique: seq<string>)
    ensures unique == Dedup(links) == Firsts(links, |links|)
  {
    hide FilenameOf;
    assert Dedup(links) == Firsts(links, |links|) by {
      DedupIsFirsts(links, |links|);
      assert links[..|links|] == links;
    }
    var seen: set<string> := {};
    unique := [];
    for k := 0 to |links|
      invariant Dedup(links) == unique + DedupFrom(seen, links[k..])
    {
      assert links[k..][1..] == links[k + 1..];
      var name := FilenameOf(links[k]);
      if name.Some? {
        if name.value !in seen {
          seen := seen + {name.value};
          unique := unique + [links[k]];
        }
      }
    }
  }

  class WheelRepo {
    const title: string
    var page: Option<string>

    constructor (title: string)
      ensures this.title == title && page == None
    {
      this.title, page := title, None;
    }

    method UpdateWheelIndex(b: Build) returns (r: Result<(), IndexError>)
      modifies this
      ensures match Update(title, old(page), b)
              case Err(e) => r == Err(e) && page == old(page)
              case Ok(content) => r == Ok(()) && page == Some(content)
      ensures r.Err? <==> b.wheels == []
    {
      hide ReadLinks, DedupFrom, Page;
      var existing := PublishedLinks(page);
      var built := NewLinks(b);
      if built == [] {
        return Err(NoWheels);
      }
      var unique := DropRepeats(built + existing);
      page := Some(Page(title, unique));
      r := Ok(());
    }
  }
}
