/** Answer clean-up and extraction: bracing bare fractions, and reading `boxed{...}`. */
module AnswerExtraction {
  import opened Prelude
  import opened TextSplit

  const FRAC: string := "\\frac"
  const BOXED: string := "boxed{"

  // ----- braces -----------------------------------------------------------------

  predicate IsBrace(c: char) { c == '{' || c == '}' }

  /** The text with all braces erased. */
  function Erase(s: string): (r: string) {
    if s == [] then [] else Erase(s[..|s| - 1]) + if IsBrace(s[|s| - 1]) then [] else [s[|s| - 1]]
  }

  /** Opening minus closing braces. */
  function Depth(s: string): (n: int) {
    if s == [] then 0
    else Depth(s[..|s| - 1]) + if s[|s| - 1] == '{' then 1 else if s[|s| - 1] == '}' then -1 else 0
  }

  lemma {:induction false} EraseAppend(a: string, b: string)
    ensures Erase(a + b) == Erase(a) + Erase(b)
    decreases |b|
  {
    if b == [] {
      assert a + b == a;
    } else {
      EraseAppend(a, b[..|b| - 1]);
      assert (a + b)[..|a + b| - 1] == a + b[..|b| - 1];
    }
  }

  lemma {:induction false} DepthAppend(a: string, b: string)
    ensures Depth(a + b) == Depth(a) + Depth(b)
    decreases |b|
  {
    if b == [] {
      assert a + b == a;
    } else {
      DepthAppend(a, b[..|b| - 1]);
      assert (a + b)[..|a + b| - 1] == a + b[..|b| - 1];
    }
  }

  /** The two texts read the same without braces and have the same surplus of opening ones. */
  ghost predicate SameText(a: string, b: string) {
    Erase(a) == Erase(b) && Depth(a) == Depth(b)
  }

  lemma SameTextAppend(a: string, b: string, c: string, d: string)
    requires SameText(a, b) && SameText(c, d)
    ensures SameText(a + c, b + d)
  {
    EraseAppend(a, c);
    EraseAppend(b, d);
    DepthAppend(a, c);
    DepthAppend(b, d);
  }

  lemma Char(c: char)
    ensures Erase([c]) == if IsBrace(c) then [] else [c]
    ensures Depth([c]) == if c == '{' then 1 else if c == '}' then -1 else 0
  {
    assert [c][..0] == [];
  }

  // ----- _fix_fracs ---------------------------------------------------------------

  /** What follows one `\frac`: argument braces added where single characters stand bare;
      nothing when there are too few characters. */
  function FixPiece(sub: string): (r: Option<string>) {
    if |sub| > 0 && sub[0] == '{' then Some(sub)
    else if |sub| < 2 then None
    else if sub[1] != '{' then Some("{" + [sub[0]] + "}{" + [sub[1]] + "}" + sub[2..])
    else Some("{" + [sub[0]] + "}" + [sub[1]] + sub[2..])
  }

  function FixPieces(subs: seq<string>): (r: Option<seq<string>>)
    ensures r.Some? ==> |r.value| == |subs|
    ensures r.Some? ==> forall k :: 0 <= k < |subs| ==> FixPiece(subs[k]) == Some(r.value[k])
    ensures r.None? ==> exists k :: 0 <= k < |subs| && FixPiece(subs[k]) == None
  {
    if subs == [] then Some([])
    else
      var n := |subs| - 1;
      match FixPieces(subs[..n])
      case None => None
      case Some(fixed) => match FixPiece(subs[n]) case None => None case Some(f) => Some(fixed + [f])
  }

  /** The string with every bare fraction braced, or the string itself if one is incomplete. */
  function FixFracs(s: string): (r: string) {
    var pieces := Split(s, FRAC);
    match FixPieces(pieces[1..])
    case None => s
    case Some(fixed) => Join([pieces[0]] + fixed, FRAC)
  }

  lemma FracHeadOnce()
    ensures HeadOnce(FRAC) && |FRAC| == 5 && FRAC[0] == '\\'
    ensures forall k :: 0 <= k < |FRAC| ==> !IsBrace(FRAC[k])
  {
  }

  /** No occurrence of `\frac` covers a brace. */
  lemma BraceBlocks(s: string, i: nat, k: nat)
    requires i <= k < |s| && k < i + 5 && IsBrace(s[k])
    ensures !OccursAt(s, FRAC, i)
  {
    FracHeadOnce();
    if i + 5 <= |s| {
      assert s[i..i + 5][k - i] == s[k];
    }
  }

  lemma TailOccurs(s: string, t: string, i: nat, j: nat)
    requires j <= i && |s| >= j && s[j..] == t
    ensures OccursAt(s, FRAC, i) == OccursAt(t, FRAC, i - j)
  {
    FracHeadOnce();
    if i + 5 <= |s| {
      assert s[i..i + 5] == t[i - j..i - j + 5];
    }
  }

  /** Bracing brings no new `\frac` into a piece. */
  lemma FixPieceFree(sub: string)
    requires FreeOf(sub, FRAC) && FixPiece(sub).Some?
    ensures FreeOf(FixPiece(sub).value, FRAC) && FixPiece(sub).value != [] && FixPiece(sub).value[0] == '{'
  {
    var f := FixPiece(sub).value;
    if !(|sub| > 0 && sub[0] == '{') {
      var rest := sub[2..];
      var j := if sub[1] != '{' then 6 else 4;
      assert f[j..] == rest;
      assert f[0] == '{' && f[2] == '}' && f[3] == '{' && (j == 6 ==> f[5] == '}');
      forall i: nat ensures !OccursAt(f, FRAC, i) {
        if i >= j {
          TailOccurs(f, rest, i, j);
          TailOccurs(sub, rest, i - j + 2, 2);
          assert !OccursAt(sub, FRAC, i - j + 2);
        } else {
          BraceBlocks(f, i, if i == 0 then 0 else if i <= 2 then 2 else if i == 3 then 3 else 5);
        }
      }
    }
  }

  lemma {:induction false} FixedStaysFixed(subs: seq<string>)
    requires forall k :: 0 <= k < |subs| ==> subs[k] != [] && subs[k][0] == '{'
    ensures FixPieces(subs) == Some(subs)
  {
    if subs != [] {
      FixedStaysFixed(subs[..|subs| - 1]);
      assert subs == subs[..|subs| - 1] + [subs[|subs| - 1]];
    }
  }

  /** Running the clean-up again changes nothing. */
  lemma FixFracsIdempotent(s: string)
    ensures FixFracs(FixFracs(s)) == FixFracs(s)
  {
    FracHeadOnce();
    var pieces := Split(s, FRAC);
    SplitFree(s, FRAC);
    var subs := pieces[1..];
    if FixPieces(subs).Some? {
      var fixed := FixPieces(subs).value;
      forall k | 0 <= k < |fixed| ensures FreeOf(fixed[k], FRAC) && fixed[k] != [] && fixed[k][0] == '{' {
        assert subs[k] == pieces[k + 1];
        FixPieceFree(subs[k]);
      }
      var all := [pieces[0]] + fixed;
      assert AllFree(all, FRAC);
      SplitJoin(all, FRAC);
      FixedStaysFixed(fixed);
      assert all[1..] == fixed;
    }
  }

  lemma Decompose(sub: string)
    requires |sub| >= 2
    ensures sub == [sub[0]] + [sub[1]] + sub[2..]
  {
  }

  lemma BraceOne(c: char)
    ensures SameText("{" + [c] + "}", [c])
  {
    Char('{');
    Char(c);
    Char('}');
    EraseAppend("{", [c]);
    EraseAppend("{" + [c], "}");
    DepthAppend("{", [c]);
    DepthAppend("{" + [c], "}");
  }

  lemma FixPieceSameText(sub: string)
    requires FixPiece(sub).Some?
    ensures SameText(FixPiece(sub).value, sub)
  {
    if !(|sub| > 0 && sub[0] == '{') {
      var a, b, rest := sub[0], sub[1], sub[2..];
      Decompose(sub);
      BraceOne(a);
      var first := "{" + [a] + "}";
      if b != '{' {
        BraceOne(b);
        var second := "{" + [b] + "}";
        SameTextAppend(first, [a], second, [b]);
        SameTextAppend(first + second, [a] + [b], rest, rest);
        assert FixPiece(sub).value == first + second + rest;
      } else {
        SameTextAppend(first, [a], [b], [b]);
        SameTextAppend(first + [b], [a] + [b], rest, rest);
        assert FixPiece(sub).value == first + [b] + rest;
      }
    }
  }

  lemma SameTextRefl(s: string)
    ensures SameText(s, s)
  {
  }

  lemma {:induction false} JoinSameText(a: seq<string>, b: seq<string>, delim: string)
    requires |a| == |b| > 0 && forall k :: 0 <= k < |a| ==> SameText(a[k], b[k])
    ensures SameText(Join(a, delim), Join(b, delim))
    decreases |a|
  {
    hide SameText;
    assert SameText(a[0], b[0]);
    if |a| > 1 {
      JoinSameText(a[1..], b[1..], delim);
      assert SameText(delim, delim) by { SameTextRefl(delim); }
      SameTextAppend(a[0], b[0], delim, delim);
      SameTextAppend(a[0] + delim, b[0] + delim, Join(a[1..], delim), Join(b[1..], delim));
    }
  }

  /** The clean-up only adds braces, in pairs: erased of braces the text is unchanged, and so is
      the surplus of opening braces. */
  lemma FixFracsSameText(s: string)
    ensures SameText(FixFracs(s), s)
  {
    hide SameText, FixPiece, Join, Split;
    var pieces := Split(s, FRAC);
    JoinSplit(s, FRAC);
    SameTextRefl(s);
    if FixPieces(pieces[1..]).Some? {
      var all := [pieces[0]] + FixPieces(pieces[1..]).value;
      forall k | 0 <= k < |all| ensures SameText(all[k], pieces[k]) {
        if k == 0 {
          SameTextRefl(pieces[0]);
        } else {
          assert pieces[1..][k - 1] == pieces[k];
          FixPieceSameText(pieces[k]);
        }
      }
      JoinSameText(all, pieces, FRAC);
    }
  }

  ghost predicate AllBraced(s: string) {
    forall i: nat :: OccursAt(s, FRAC, i) ==> i + 5 < |s| && s[i + 5] == '{'
  }

  /** Two occurrences of `\frac` do not overlap. */
  lemma InsideFrac(s: string, a: nat, i: nat)
    requires OccursAt(s, FRAC, a) && a < i < a + 5
    ensures !OccursAt(s, FRAC, i)
  {
    FracHeadOnce();
    assert s[a..a + 5][i - a] == s[i];
    assert i + 5 <= |s| ==> s[i..i + 5][0] == s[i];
  }

  lemma {:induction false} JoinBraced(pieces: seq<string>)
    requires pieces != [] && AllFree(pieces, FRAC)
    requires forall k :: 0 < k < |pieces| ==> pieces[k] != [] && pieces[k][0] == '{'
    ensures AllBraced(Join(pieces, FRAC))
    ensures pieces[0] != [] && pieces[0][0] == '{' ==> Join(pieces, FRAC) != [] && Join(pieces, FRAC)[0] == '{'
    decreases |pieces|
  {
    FracHeadOnce();
    assert FreeOf(pieces[0], FRAC);
    if |pieces| > 1 {
      var p, rest := pieces[0], Join(pieces[1..], FRAC);
      assert pieces[1..][0] == pieces[1];
      JoinBraced(pieces[1..]);
      var s := p + FRAC + rest;
      FindAfter(p, FRAC, rest);
      forall i: nat | OccursAt(s, FRAC, i) ensures i + 5 < |s| && s[i + 5] == '{' {
        if i < |p| + 5 {
          if i > |p| {
            InsideFrac(s, |p|, i);
          }
          assert i == |p| && s[i + 5] == rest[0];
        } else {
          assert s[|p| + 5..] == rest;
          TailOccurs(s, rest, i, |p| + 5);
        }
      }
    }
  }

  /** Some fraction has neither a braced argument nor two characters behind it. */
  ghost predicate Incomplete(pieces: seq<string>) {
    exists k :: 0 < k < |pieces| && |pieces[k]| < 2 && (pieces[k] != [] ==> pieces[k][0] != '{')
  }

  /** What stands behind a `\frac` and what must stand there afterwards: a braced argument is left as it
      is; of two bare characters each is put in braces; a bare character before an opening brace alone is. */
  ghost predicate BracedAs(sub: string, out: string) {
    if sub != [] && sub[0] == '{' then out == sub
    else
      && |sub| >= 2
      && if sub[1] == '{' then out == "{" + [sub[0]] + "}{" + sub[2..]
         else out == "{" + [sub[0]] + "}" + "{" + [sub[1]] + "}" + sub[2..]
  }

  lemma FixPieceIs(sub: string, out: string)
    requires BracedAs(sub, out)
    ensures FixPiece(sub) == Some(out)
  {
    if |sub| >= 2 && sub[0] != '{' {
      var a, b, rest := [sub[0]], [sub[1]], sub[2..];
      assert "{" + a + "}{" + b + "}" + rest == "{" + a + "}" + "{" + b + "}" + rest;
      assert sub[1] == '{' ==> "{" + a + "}" + b + rest == "{" + a + "}{" + rest;
    }
  }

  lemma {:induction false} FixPiecesAre(subs: seq<string>, outs: seq<string>)
    requires |subs| == |outs| && forall k :: 0 <= k < |subs| ==> BracedAs(subs[k], outs[k])
    ensures FixPieces(subs) == Some(outs)
  {
    hide FixPiece, BracedAs;
    if subs != [] {
      var n := |subs| - 1;
      FixPiecesAre(subs[..n], outs[..n]);
      FixPieceIs(subs[n], outs[n]);
      assert outs == outs[..n] + [outs[n]];
    }
  }

  /** The result for a text of any number of fractions, piece by piece. */
  lemma FracsBraced(head: string, subs: seq<string>, outs: seq<string>)
    requires AllFree([head] + subs, FRAC) && |subs| == |outs|
    requires forall k :: 0 <= k < |subs| ==> BracedAs(subs[k], outs[k])
    ensures FixFracs(Join([head] + subs, FRAC)) == Join([head] + outs, FRAC)
  {
    hide Split, Join, FixPieces, BracedAs, AllFree;
    FracHeadOnce();
    SplitJoin([head] + subs, FRAC);
    assert ([head] + subs)[1..] == subs;
    FixPiecesAre(subs, outs);
  }

  lemma JoinTwo(a: string, b: string)
    ensures Join([a, b], FRAC) == a + FRAC + b
  {
    assert [a, b][1..] == [b];
  }

  lemma TwoFree(a: string, b: string)
    requires FreeOf(a, FRAC) && FreeOf(b, FRAC)
    ensures AllFree([a] + [b], FRAC)
  {
  }

  /** One fraction in a text: of the two characters behind it each bare one is put in braces of its own. */
  lemma OneFraction(pre: string, a: char, b: char, rest: string)
    requires FreeOf(pre, FRAC) && FreeOf([a, b] + rest, FRAC)
    ensures var s := pre + FRAC + ([a, b] + rest);
            FixFracs(s) ==
              if a == '{' then s
              else if b == '{' then pre + FRAC + ("{" + [a] + "}{" + rest)
              else pre + FRAC + ("{" + [a] + "}{" + [b] + "}" + rest)
  {
    hide FreeOf, Join, FixFracs;
    var sub := [a, b] + rest;
    var out := if a == '{' then sub else if b == '{' then "{" + [a] + "}{" + rest
               else "{" + [a] + "}{" + [b] + "}" + rest;
    assert sub[2..] == rest;
    assert BracedAs(sub, out) by {
      assert "{" + [a] + "}" + "{" + [b] + "}" + rest == "{" + [a] + "}{" + [b] + "}" + rest;
    }
    TwoFree(pre, sub);
    FracsBraced(pre, [sub], [out]);
    JoinTwo(pre, sub);
    JoinTwo(pre, out);
    assert [pre] + [sub] == [pre, sub] && [pre] + [out] == [pre, out];
  }

  lemma {:induction false} FixPiecesPrefix(subs: seq<string>, k: nat)
    requires k <= |subs| && FixPieces(subs[..k]).None?
    ensures FixPieces(subs).None?
    decreases |subs| - k
  {
    if k == |subs| {
      assert subs[..k] == subs;
    } else {
      assert subs[..k + 1][..k] == subs[..k];
      FixPiecesPrefix(subs, k + 1);
    }
  }

  lemma GivesUp(pieces: seq<string>, k: nat)
    requires 0 < k < |pieces| && FixPiece(pieces[k]).None?
    ensures FixPieces(pieces[1..]).None?
  {
    var subs := pieces[1..];
    assert subs[..k][..k - 1] == subs[..k - 1] && subs[..k][k - 1] == pieces[k];
    FixPiecesPrefix(subs, k);
  }

  /** With an incomplete fraction the input comes back as it was; otherwise every `\frac` of the
      result is followed by a braced argument. */
  lemma FixFracsOutcome(s: string)
    ensures if Incomplete(Split(s, FRAC)) then FixFracs(s) == s else AllBraced(FixFracs(s))
  {
    hide Split, FreeOf, OccursAt, AllBraced, Join;
    var pieces := Split(s, FRAC);
    SplitFree(s, FRAC);
    if k :| 0 < k < |pieces| && |pieces[k]| < 2 && (pieces[k] != [] ==> pieces[k][0] != '{') {
      GivesUp(pieces, k);
    } else {
      forall k | 0 < k < |pieces| ensures FixPiece(pieces[k]).Some? {
      }
      var subs := pieces[1..];
      assert forall j :: 0 <= j < |subs| ==> subs[j] == pieces[j + 1];
      var all := [pieces[0]] + FixPieces(subs).value;
      forall k | 0 < k < |all| ensures FreeOf(all[k], FRAC) && all[k] != [] && all[k][0] == '{' {
        assert subs[k - 1] == pieces[k];
        FixPieceFree(pieces[k]);
      }
      JoinBraced(all);
    }
  }

  lemma FixPiecesSnoc(pieces: seq<string>, k: nat)
    requires 0 < k < |pieces| && FixPieces(pieces[1..k]).Some? && FixPiece(pieces[k]).Some?
    ensures FixPieces(pieces[1..k + 1]) == Some(FixPieces(pieces[1..k]).value + [FixPiece(pieces[k]).value])
  {
    hide FixPiece;
    assert pieces[1..k + 1][..k - 1] == pieces[1..k] && pieces[1..k + 1][k - 1] == pieces[k];
  }

  lemma NoPieces(pieces: seq<string>)
    requires pieces != []
    ensures FixPieces(pieces[1..1]) == Some([])
  {
  }

  /** The accumulator of the loop: the head, then a delimiter and a piece for each step. */
  function JoinTo(head: string, tail: seq<string>): (r: string) {
    if tail == [] then head else JoinTo(head, tail[..|tail| - 1]) + FRAC + tail[|tail| - 1]
  }

  lemma JoinToSnoc(head: string, tail: seq<string>, last: string)
    ensures JoinTo(head, tail + [last]) == JoinTo(head, tail) + FRAC + last
  {
    assert (tail + [last])[..|tail|] == tail;
  }

  lemma {:induction false} JoinToIsJoin(head: string, tail: seq<string>)
    ensures JoinTo(head, tail) == Join([head] + tail, FRAC)
  {
    if tail != [] {
      var n := |tail| - 1;
      JoinToIsJoin(head, tail[..n]);
      assert [head] + tail == ([head] + tail[..n]) + [tail[n]];
      JoinSnoc([head] + tail[..n], tail[n], FRAC);
    }
  }

  /** The loop of `_fix_fracs`, which gives up on the first incomplete fraction. */
  method FixFracsLoop(s: string) returns (r: string)
    ensures r == FixFracs(s)
  {
    hide Split, Join, FixPieces;
    var pieces := Split(s, FRAC);
    r := pieces[0];
    assert FixPieces(pieces[1..1]) == Some([]) by { NoPieces(pieces); }
    for k := 1 to |pieces|
      invariant FixPieces(pieces[1..k]).Some?
      invariant r == JoinTo(pieces[0], FixPieces(pieces[1..k]).value)
    {
      hide JoinTo;
      var sub := pieces[k];
      var piece;
      if |sub| > 0 && sub[0] == '{' {
        piece := sub;
      } else {
        if |sub| < 2 {
          GivesUp(pieces, k);
          return s;
        }
        var a, b := sub[0], sub[1];
        if b != '{' {
          piece := "{" + [a] + "}{" + [b] + "}" + sub[2..];
        } else {
          piece := "{" + [a] + "}" + [b] + sub[2..];
        }
      }
      assert FixPiece(sub) == Some(piece);
      FixPiecesSnoc(pieces, k);
      JoinToSnoc(pieces[0], FixPieces(pieces[1..k]).value, piece);
      r := r + FRAC + piece;
    }
    assert pieces[1..|pieces|] == pieces[1..];
    JoinToIsJoin(pieces[0], FixPieces(pieces[1..]).value);
  }

  // ----- extract_boxed_answers --------------------------------------------------------

  /** Every prefix has at least as many opening as closing braces, and the whole has as many. */
  ghost predicate Balanced(w: string) {
    Depth(w) == 0 && forall i :: 0 <= i <= |w| ==> Depth(w[..i]) >= 0
  }

  /** Where, scanning from i at depth n, the depth first falls below zero. */
  function CloseAt(piece: string, i: nat, n: nat): (r: Option<nat>)
    requires i <= |piece|
    ensures r.Some? ==> i <= r.value < |piece|
    decreases |piece| - i
  {
    if i == |piece| then None
    else if piece[i] == '{' then CloseAt(piece, i + 1, n + 1)
    else if piece[i] == '}' then if n == 0 then Some(i) else CloseAt(piece, i + 1, n - 1)
    else CloseAt(piece, i + 1, n)
  }

  /** The answer of one piece; a closing brace followed by a percent sign is kept. */
  function AnswerOf(piece: string): (r: Option<string>) {
    match CloseAt(piece, 0, 0)
    case None => None
    case Some(i) => Some(if i + 1 < |piece| && piece[i + 1] == '%' then piece[..i + 1] else piece[..i])
  }

  function AnswersOf(pieces: seq<string>): (r: seq<string>) {
    if pieces == [] then []
    else
      var last := AnswerOf(pieces[|pieces| - 1]);
      AnswersOf(pieces[..|pieces| - 1]) + if last.Some? then [last.value] else []
  }

  function ExtractBoxed(text: string): (r: seq<string>) {
    AnswersOf(Split(text, BOXED)[1..])
  }

  lemma DepthSnoc(s: string, i: nat)
    requires i < |s|
    ensures Depth(s[..i + 1]) == Depth(s[..i]) + if s[i] == '{' then 1 else if s[i] == '}' then -1 else 0
  {
    assert s[..i + 1][..i] == s[..i];
  }

  lemma {:induction false} CloseIsBalanced(piece: string, i: nat, n: nat)
    requires i <= |piece| && n == Depth(piece[..i]) && forall k :: 0 <= k <= i ==> Depth(piece[..k]) >= 0
    ensures match CloseAt(piece, i, n)
            case None => forall k :: 0 <= k <= |piece| ==> Depth(piece[..k]) >= 0
            case Some(j) =>
              piece[j] == '}' && Depth(piece[..j]) == 0 && forall k :: 0 <= k <= j ==> Depth(piece[..k]) >= 0
    decreases |piece| - i
  {
    if i < |piece| {
      DepthSnoc(piece, i);
      if piece[i] == '{' {
        CloseIsBalanced(piece, i + 1, n + 1);
      } else if piece[i] == '}' {
        if n > 0 {
          CloseIsBalanced(piece, i + 1, n - 1);
        }
      } else {
        CloseIsBalanced(piece, i + 1, n);
      }
    }
  }

  /** Past the first closing brace that nothing opened, no text is balanced. */
  lemma AfterCloser(piece: string, i: nat, j: nat)
    requires i < j <= |piece| && piece[i] == '}' && Depth(piece[..i]) == 0
    ensures !Balanced(piece[..j])
  {
    DepthSnoc(piece, i);
    assert piece[..j][..i + 1] == piece[..i + 1];
  }

  /** The scan stops at j exactly when a closing brace follows a balanced text there. */
  lemma CloseIff(piece: string, j: nat)
    ensures CloseAt(piece, 0, 0) == Some(j) <==> j < |piece| && piece[j] == '}' && Balanced(piece[..j])
  {
    CloseIsBalanced(piece, 0, 0);
    if j < |piece| {
      DepthSnoc(piece, j);
    }
    if CloseAt(piece, 0, 0).Some? {
      var i := CloseAt(piece, 0, 0).value;
      forall k | 0 <= k <= i ensures Depth(piece[..i][..k]) >= 0 {
        assert piece[..i][..k] == piece[..k];
      }
      if i < j <= |piece| {
        AfterCloser(piece, i, j);
      }
    }
  }

  lemma BoxedHeadOnce()
    ensures HeadOnce(BOXED) && |BOXED| == 6 && forall k :: 0 <= k < |BOXED| ==> BOXED[k] != '}'
  {
  }

  /** The piece that starts with `w}` ends no earlier than behind that brace. */
  lemma PieceKeepsAnswer(w: string, rest: string)
    requires FreeOf(w, BOXED)
    ensures var piece := Split(w + "}" + rest, BOXED)[0];
            && |piece| > |w| && piece[..|w|] == w && piece[|w|] == '}'
            && (|piece| > |w| + 1 ==> rest != [] && piece[|w| + 1] == rest[0])
            && (rest != [] && rest[0] == '%' ==> |piece| > |w| + 1)
  {
    BoxedHeadOnce();
    var s := w + "}" + rest;
    forall i: nat | i <= |w| ensures !OccursAt(s, BOXED, i) {
      if i + 6 <= |w| {
        assert s[i..i + 6] == w[i..i + 6];
        assert !OccursAt(w, BOXED, i);
      } else if i + 6 <= |s| {
        assert s[i..i + 6][|w| - i] == s[|w|];
      }
    }
    match Find(s, BOXED, 0)
    case None =>
    case Some(k) => assert k > |w| && s[k..k + 6][0] == s[k];
  }

  lemma {:induction false} FirstAnswer(pieces: seq<string>, w: string)
    requires pieces != [] && AnswerOf(pieces[0]) == Some(w)
    ensures AnswersOf(pieces) != [] && AnswersOf(pieces)[0] == w
  {
    if |pieces| == 1 {
      assert pieces[..0] == [];
    } else {
      FirstAnswer(pieces[..|pieces| - 1], w);
    }
  }

  /** A balanced answer put into the text is the first one read back; its closing brace comes with
      it when a percent sign follows. */
  lemma BoxedRoundTrip(pre: string, w: string, rest: string)
    requires FreeOf(pre, BOXED) && FreeOf(w, BOXED) && Balanced(w)
    ensures var answers := ExtractBoxed(pre + BOXED + (w + "}" + rest));
            answers != [] && answers[0] == if rest != [] && rest[0] == '%' then w + "}" else w
  {
    BoxedHeadOnce();
    var s := w + "}" + rest;
    SplitHead(pre, BOXED, s);
    var pieces := Split(s, BOXED);
    assert ([pre] + pieces)[1..] == pieces;
    PieceKeepsAnswer(w, rest);
    CloseIff(pieces[0], |w|);
    assert pieces[0][..|w| + 1] == w + "}";
    FirstAnswer(pieces, AnswerOf(pieces[0]).value);
  }

  lemma {:induction false} AnswersAppend(a: seq<string>, b: seq<string>)
    ensures AnswersOf(a + b) == AnswersOf(a) + AnswersOf(b)
    decreases |b|
  {
    hide AnswerOf;
    if b == [] {
      assert a + b == a;
    } else {
      AnswersAppend(a, b[..|b| - 1]);
      assert (a + b)[..|a + b| - 1] == a + b[..|b| - 1];
    }
  }

  lemma OneAnswerOf(piece: string)
    ensures AnswersOf([piece]) == AsList(AnswerOf(piece))
  {
    assert [piece][..0] == [];
  }

  /** No delimiter begins in an answer or on its closing brace. */
  lemma AnswerFree(w: string, rest: string)
    requires FreeOf(w, BOXED)
    ensures forall i: nat :: i < |w + "}"| ==> !OccursAt(w + "}" + rest, BOXED, i)
  {
    BoxedHeadOnce();
    var s := w + "}" + rest;
    forall i: nat | i <= |w| ensures !OccursAt(s, BOXED, i) {
      if i + 6 <= |w| {
        assert s[i..i + 6] == w[i..i + 6];
        assert !OccursAt(w, BOXED, i);
      } else if i + 6 <= |s| {
        assert s[i..i + 6][|w| - i] == s[|w|];
      }
    }
  }

  /** The first piece behind `boxed{`, and what it yields. */
  lemma BoxedPiece(w: string, rest: string)
    requires FreeOf(w, BOXED) && Balanced(w)
    ensures var pieces := Split(w + "}" + rest, BOXED);
            && AnswerOf(pieces[0]) == Some(if rest != [] && rest[0] == '%' then w + "}" else w)
            && pieces[1..] == Split(rest, BOXED)[1..]
  {
    hide Split;
    var pieces := Split(w + "}" + rest, BOXED);
    PieceKeepsAnswer(w, rest);
    CloseIff(pieces[0], |w|);
    assert pieces[0][..|w| + 1] == w + "}";
    AnswerFree(w, rest);
    SplitLonger(w + "}", rest, BOXED);
  }

  /** A balanced answer placed anywhere in a text is read back, between the answers of what stands before
      it and the answers of what stands behind it. */
  lemma BoxedAnywhere(pre: string, w: string, rest: string)
    requires FreeOf(w, BOXED) && Balanced(w)
    ensures ExtractBoxed(pre + BOXED + (w + "}" + rest)) ==
              ExtractBoxed(pre) + [if rest != [] && rest[0] == '%' then w + "}" else w] + ExtractBoxed(rest)
  {
    hide Split, AnswersOf, AnswerOf, Balanced, FreeOf;
    BoxedHeadOnce();
    var s := w + "}" + rest;
    SplitAppend(pre, BOXED, s);
    BoxedPiece(w, rest);
    var before, pieces := Split(pre, BOXED), Split(s, BOXED);
    assert (before + pieces)[1..] == before[1..] + pieces;
    assert pieces == [pieces[0]] + pieces[1..];
    AnswersAppend(before[1..], pieces);
    AnswersAppend([pieces[0]], pieces[1..]);
    OneAnswerOf(pieces[0]);
  }

  /** Conversely, what a piece yields is a balanced text standing before a closing brace, with that
      brace kept exactly when a percent sign follows it. */
  lemma AnswerIsBalanced(piece: string)
    ensures match AnswerOf(piece)
            case None => forall j :: 0 <= j < |piece| && piece[j] == '}' ==> !Balanced(piece[..j])
            case Some(a) => exists w ::
              && Balanced(w) && w + "}" <= piece
              && a == if |piece| > |w| + 1 && piece[|w| + 1] == '%' then w + "}" else w
  {
    match CloseAt(piece, 0, 0)
    case None =>
      forall j: nat | j < |piece| && piece[j] == '}' ensures !Balanced(piece[..j]) {
        CloseIff(piece, j);
      }
    case Some(i) =>
      CloseIff(piece, i);
      var w := piece[..i];
      assert w + "}" == piece[..i + 1];
      assert Balanced(w) && w + "}" <= piece;
  }

  lemma {:induction false} AnswersInPieces(pieces: seq<string>, a: string)
    requires a in AnswersOf(pieces)
    ensures exists k :: 0 <= k < |pieces| && AnswerOf(pieces[k]) == Some(a)
  {
    var n := |pieces| - 1;
    if AnswerOf(pieces[n]) != Some(a) {
      AnswersInPieces(pieces[..n], a);
      var k :| 0 <= k < |pieces[..n]| && AnswerOf(pieces[..n][k]) == Some(a);
      assert AnswerOf(pieces[k]) == Some(a);
    }
  }

  lemma ShorterOccurs(text: string, long: string, short: string, i: nat)
    requires OccursAt(text, long, i) && short <= long
    ensures OccursAt(text, short, i)
  {
    assert text[i..i + |short|] == text[i..i + |long|][..|short|];
  }

  /** Every answer read from a text is a balanced `w` that stands in it as `boxed{w}`, or that `w`
      with its closing brace. */
  lemma AnswersComeFromText(text: string, a: string) returns (w: string, i: nat)
    requires a in ExtractBoxed(text)
    ensures Balanced(w) && OccursAt(text, BOXED + (w + "}"), i) && (a == w || a == w + "}")
  {
    hide Split, OccursAt, AnswersOf, Balanced;
    var pieces := Split(text, BOXED);
    AnswersInPieces(pieces[1..], a);
    var k :| 0 <= k < |pieces[1..]| && AnswerOf(pieces[1..][k]) == Some(a);
    var piece := pieces[k + 1];
    var j := CloseAt(piece, 0, 0).value;
    CloseIff(piece, j);
    w := piece[..j];
    assert w + "}" == piece[..j + 1];
    i := PieceInText(text, BOXED, k + 1);
    ShorterOccurs(text, BOXED + piece, BOXED + (w + "}"), i);
  }

  /** The loops of `extract_boxed_answers`. */
  method ExtractBoxedLoop(text: string) returns (answers: seq<string>)
    ensures answers == ExtractBoxed(text)
  {
    var pieces := Split(text, BOXED)[1..];
    answers := [];
    for p := 0 to |pieces|
      invariant answers == AnswersOf(pieces[..p])
    {
      var piece := pieces[p];
      assert pieces[..p + 1][..p] == pieces[..p];
      var n := 0;
      ghost var stop := CloseAt(piece, 0, 0);
      var found := false;
      for i := 0 to |piece|
        invariant !found && n >= 0 && CloseAt(piece, i, n) == stop
        invariant answers == AnswersOf(pieces[..p])
      {
        if piece[i] == '{' {
          n := n + 1;
        } else if piece[i] == '}' {
          n := n - 1;
          if n < 0 {
            if i + 1 < |piece| && piece[i + 1] == '%' {
              answers := answers + [piece[..i + 1]];
            } else {
              answers := answers + [piece[..i]];
            }
            found := true;
            break;
          }
        }
      }
      assert found == stop.Some?;
    }
    assert pieces[..|pieces|] == pieces;
  }
}
