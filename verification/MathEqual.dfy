/** The answer comparison: numbers, tuples, matrices, equations, then a symbolic check. */
module MathEqual {
  import opened Prelude
  import opened TextSplit

  /** A parsed number. Rounding is not modelled; infinities and not-a-number are. */
  datatype Num = Finite(value: real) | PosInf | NegInf | NaN

  /** What the comparison asks of the libraries: `parse_digits`, the character class that `strip`
      removes, and `symbolic_equal`. */
  datatype Oracle = Oracle(parse: string -> Option<Num>, isSpace: char -> bool, symbolic: (string, string) -> bool)

  /** The two options of the comparison. */
  datatype Flags = Flags(includePercentage: bool, isClose: bool)

  // ----- numbers ------------------------------------------------------------------

  predicate NumEq(a: Num, b: Num) {
    a == b && a != NaN
  }

  function Abs(x: real): real { if x < 0.0 then -x else x }

  function Max(x: real, y: real): real { if x < y then y else x }

  /** `isclose(a, b, abs_tol=1e-3)` with its default relative tolerance. */
  predicate Close(a: Num, b: Num) {
    || NumEq(a, b)
    || (a.Finite? && b.Finite? && Abs(a.value - b.value) <= Max(0.000000001 * Max(Abs(a.value), Abs(b.value)), 0.001))
  }

  function Scale(n: Num, factor: real): (r: Num) {
    match n case Finite(x) => Finite(x * factor) case _ => n
  }

  /** The reference and, if asked for, the reference as a percentage either way. */
  function Candidates(reference: Num, f: Flags): (r: seq<Num>) {
    if f.includePercentage then [Scale(reference, 0.01), reference, Scale(reference, 100.0)] else [reference]
  }

  predicate ItemEqual(item: Num, prediction: Num, f: Flags) {
    if f.isClose then Close(item, prediction) else NumEq(item, prediction)
  }

  predicate NumbersEqual(prediction: Num, reference: Num, f: Flags) {
    exists k :: 0 <= k < |Candidates(reference, f)| && ItemEqual(Candidates(reference, f)[k], prediction, f)
  }

  // ----- text -----------------------------------------------------------------------

  function StripLeft(s: string, isSpace: char -> bool): (r: string)
    ensures |r| <= |s|
  {
    if s != [] && isSpace(s[0]) then StripLeft(s[1..], isSpace) else s
  }

  function StripRight(s: string, isSpace: char -> bool): (r: string)
    ensures |r| <= |s|
  {
    if s != [] && isSpace(s[|s| - 1]) then StripRight(s[..|s| - 1], isSpace) else s
  }

  function Strip(s: string, isSpace: char -> bool): (r: string)
    ensures |r| <= |s|
  {
    StripRight(StripLeft(s, isSpace), isSpace)
  }

  /** `regex.match(r"(\(|\[).+(\)|\])", s)`: a bracket, then on the same line at least one
      character and a closing bracket; what follows does not matter. */
  predicate LooksBracketed(s: string)
    ensures LooksBracketed(s) ==> |s| >= 3
  {
    |s| >= 3 && (s[0] == '(' || s[0] == '[') &&
    exists j :: 2 <= j < |s| && (s[j] == ')' || s[j] == ']') && '\n' !in s[1..j]
  }

  ghost predicate BracketPair(a: char, b: char) {
    (a == '(' || a == '[') && (b == ')' || b == ']')
  }

  /** Bracketed text: an opening bracket, some characters of one line, a closing bracket, then anything. */
  lemma Bracketed(a: char, m: string, b: char, rest: string)
    requires BracketPair(a, b) && m != [] && '\n' !in m
    ensures LooksBracketed([a] + m + [b] + rest)
  {
    var s, j := [a] + m + [b] + rest, |m| + 1;
    assert s[1..j] == m && s[j] == b;
  }

  lemma BracketedForm(s: string) returns (m: string, b: char, rest: string)
    requires LooksBracketed(s)
    ensures BracketPair(s[0], b) && m != [] && '\n' !in m && s == [s[0]] + m + [b] + rest
  {
    var j :| 2 <= j < |s| && (s[j] == ')' || s[j] == ']') && '\n' !in s[1..j];
    m, b, rest := s[1..j], s[j], s[j + 1..];
  }

  function Inner(s: string): (r: string)
    requires |s| >= 3
    ensures |r| < |s|
  {
    s[1..|s| - 1]
  }

  predicate StartsWith(s: string, t: string) { t <= s }

  predicate EndsWith(s: string, t: string) { |t| <= |s| && s[|s| - |t|..] == t }

  predicate LooksMatrix(s: string) {
    && (StartsWith(s, "\\begin{pmatrix}") || StartsWith(s, "\\begin{bmatrix}"))
    && (EndsWith(s, "\\end{pmatrix}") || EndsWith(s, "\\end{bmatrix}"))
  }

  /** `s[len("\begin{pmatrix}") : -len("\end{pmatrix}")]`. */
  function MatrixBody(s: string): (r: string)
    ensures r == [] || |r| < |s|
  {
    if |s| < 28 then [] else s[15..|s| - 13]
  }

  function NonBlank(lines: seq<string>, isSpace: char -> bool): (r: seq<string>) {
    if lines == [] then []
    else
      var last := Strip(lines[|lines| - 1], isSpace);
      NonBlank(lines[..|lines| - 1], isSpace) + if last == [] then [] else [last]
  }

  function MatrixLines(s: string, isSpace: char -> bool): (r: seq<string>) {
    NonBlank(Split(MatrixBody(s), "\\\\"), isSpace)
  }

  // ----- lengths, for termination -----------------------------------------------------

  lemma {:induction false} PieceLength(s: string, delim: string, k: nat)
    requires delim != [] && k < |Split(s, delim)|
    ensures |Split(s, delim)[k]| <= |s|
    ensures k > 0 ==> |Split(s, delim)[k]| < |s|
    decreases |s|
  {
    match Find(s, delim, 0)
    case None =>
    case Some(i) =>
      if k > 0 {
        PieceLength(s[i + |delim|..], delim, k - 1);
      }
  }

  lemma {:induction false} NonBlankLength(lines: seq<string>, isSpace: char -> bool, n: nat, k: nat)
    requires forall i :: 0 <= i < |lines| ==> |lines[i]| <= n
    requires k < |NonBlank(lines, isSpace)|
    ensures 0 < |NonBlank(lines, isSpace)[k]| <= n
  {
    var m := |lines| - 1;
    if k < |NonBlank(lines[..m], isSpace)| {
      NonBlankLength(lines[..m], isSpace, n, k);
    }
  }

  /** A cell of a matrix row is shorter than the matrix. */
  lemma CellLength(s: string, isSpace: char -> bool, row: nat, cell: nat)
    requires row < |MatrixLines(s, isSpace)| && cell < |Split(MatrixLines(s, isSpace)[row], "&")|
    ensures |Split(MatrixLines(s, isSpace)[row], "&")[cell]| < |s|
  {
    var lines := Split(MatrixBody(s), "\\\\");
    forall i | 0 <= i < |lines| ensures |lines[i]| <= |MatrixBody(s)| {
      PieceLength(MatrixBody(s), "\\\\", i);
    }
    NonBlankLength(lines, isSpace, |MatrixBody(s)|, row);
    PieceLength(MatrixLines(s, isSpace)[row], "&", cell);
  }

  /** The part behind the only equals sign is shorter than the whole. */
  lemma RightSideLength(s: string)
    requires |Split(s, "=")| == 2
    ensures |Split(s, "=")[1]| < |s|
  {
    PieceLength(s, "=", 1);
  }

  lemma TuplePartLength(s: string, k: nat)
    requires |s| >= 3 && k < |Split(Inner(s), ",")|
    ensures |Split(Inner(s), ",")[k]| < |s|
  {
    PieceLength(Inner(s), ",", k);
  }

  // ----- the comparison -----------------------------------------------------------------

  /** One equation compared with another through their differences. */
  predicate EquationsEqual(o: Oracle, p: seq<string>, r: seq<string>)
    requires |p| == |r| == 2
  {
    var pred := Strip(p[0], o.isSpace) + " - (" + Strip(p[1], o.isSpace) + ")";
    var ref := Strip(r[0], o.isSpace) + " - (" + Strip(r[1], o.isSpace) + ")";
    o.symbolic(pred, ref) || o.symbolic("-(" + pred + ")", ref)
  }

  /** `name = value` with a name of at most two characters. */
  predicate ShortAssignment(o: Oracle, s: string) {
    |Split(s, "=")| == 2 && |Strip(Split(s, "=")[0], o.isSpace)| <= 2
  }

  predicate TuplesEqual(o: Oracle, p: string, r: string, f: Flags, size: nat)
    requires |p| + |r| <= size
    decreases size, 0, 0
  {
    LooksBracketed(p) && LooksBracketed(r) &&
    var ps, rs := Split(Inner(p), ","), Split(Inner(r), ",");
    |ps| == |rs| && forall k :: 0 <= k < |ps| ==> PartEqual(o, p, r, f, size, k)
  }

  predicate CellEqual(o: Oracle, p: string, r: string, f: Flags, size: nat, i: nat, k: nat)
    requires |p| + |r| <= size
    requires i < |MatrixLines(p, o.isSpace)| == |MatrixLines(r, o.isSpace)|
    requires k < |Split(MatrixLines(p, o.isSpace)[i], "&")| == |Split(MatrixLines(r, o.isSpace)[i], "&")|
    decreases size, 0, 0, 0
  {
    CellLength(p, o.isSpace, i, k);
    CellLength(r, o.isSpace, i, k);
    MathEqual(o, Split(MatrixLines(p, o.isSpace)[i], "&")[k], Split(MatrixLines(r, o.isSpace)[i], "&")[k], f)
  }

  predicate RowEqual(o: Oracle, p: string, r: string, f: Flags, size: nat, i: nat)
    requires |p| + |r| <= size
    requires i < |MatrixLines(p, o.isSpace)| == |MatrixLines(r, o.isSpace)|
    decreases size, 0, 0, 1
  {
    var ps, rs := Split(MatrixLines(p, o.isSpace)[i], "&"), Split(MatrixLines(r, o.isSpace)[i], "&");
    |ps| == |rs| && forall k :: 0 <= k < |ps| ==> CellEqual(o, p, r, f, size, i, k)
  }

  predicate MatricesEqual(o: Oracle, p: string, r: string, f: Flags, size: nat)
    requires |p| + |r| <= size
    decreases size, 0, 0
  {
    LooksMatrix(p) && LooksMatrix(r) &&
    var ps, rs := MatrixLines(p, o.isSpace), MatrixLines(r, o.isSpace);
    |ps| == |rs| && forall i :: 0 <= i < |ps| ==> RowEqual(o, p, r, f, size, i)
  }

  /** The textual stages on stripped strings; any one of them may accept. */
  predicate TextEqual(o: Oracle, prediction: string, reference: string, f: Flags)
    decreases |prediction| + |reference|, 0
  {
    var p, r := Strip(prediction, o.isSpace), Strip(reference, o.isSpace);
    var ps, rs := Split(p, "="), Split(r, "=");
    || TuplesEqual(o, p, r, f, |prediction| + |reference|)
    || MatricesEqual(o, p, r, f, |prediction| + |reference|)
    || (if |ps| == 2 && |rs| == 2 then EquationsEqual(o, ps, rs)
        else if ShortAssignment(o, p) && |rs| == 1 then RightSideLength(p); MathEqual(o, ps[1], r, f)
        else if ShortAssignment(o, r) && |ps| == 1 then RightSideLength(r); MathEqual(o, p, rs[1], f)
        else false)
    || o.symbolic(p, r)
  }

  predicate MathEqual(o: Oracle, prediction: string, reference: string, f: Flags)
    decreases |prediction| + |reference|, 1
  {
    || prediction == reference
    || (if o.parse(prediction).Some? && o.parse(reference).Some?
        then NumbersEqual(o.parse(prediction).value, o.parse(reference).value, f)
        else prediction != [] && TextEqual(o, prediction, reference, f))
  }

  predicate PartEqual(o: Oracle, p: string, r: string, f: Flags, size: nat, k: nat)
    requires |p| + |r| <= size && |p| >= 3 && |r| >= 3
    requires k < |Split(Inner(p), ",")| == |Split(Inner(r), ",")|
    decreases size, 0, 0, 0
  {
    TuplePartLength(p, k);
    TuplePartLength(r, k);
    MathEqual(o, Split(Inner(p), ",")[k], Split(Inner(r), ",")[k], f)
  }

  /** The matrix loop with its `matched` flag. */
  method MatrixLoop(o: Oracle, p: string, r: string, f: Flags, size: nat) returns (matched: bool)
    requires LooksMatrix(p) && LooksMatrix(r) && size == |p| + |r|
    ensures matched == MatricesEqual(o, p, r, f, size)
  {
    hide MatrixLines, Split, LooksMatrix;
    var ps, rs := MatrixLines(p, o.isSpace), MatrixLines(r, o.isSpace);
    if |ps| != |rs| {
      return false;
    }
    matched := true;
    for i := 0 to |ps|
      invariant matched && forall j :: 0 <= j < i ==> RowEqual(o, p, r, f, size, j)
    {
      var pParts, rParts := Split(ps[i], "&"), Split(rs[i], "&");
      if |pParts| == |rParts| {
        if !(forall k :: 0 <= k < |pParts| ==> CellEqual(o, p, r, f, size, i, k)) {
          matched := false;
        }
      } else {
        matched := false;
      }
      assert matched == RowEqual(o, p, r, f, size, i);
      if !matched {
        break;
      }
    }
  }

  // ----- looser options accept more ---------------------------------------------------------

  ghost predicate Looser(f: Flags, g: Flags) {
    (f.includePercentage ==> g.includePercentage) && (f.isClose ==> g.isClose)
  }

  lemma NumbersMonotone(p: Num, r: Num, f: Flags, g: Flags)
    requires Looser(f, g) && NumbersEqual(p, r, f)
    ensures NumbersEqual(p, r, g)
  {
    var cs, ds := Candidates(r, f), Candidates(r, g);
    var k :| 0 <= k < |cs| && ItemEqual(cs[k], p, f);
    var m := if |cs| == |ds| then k else 1;
    assert ds[m] == cs[k];
    assert ItemEqual(ds[m], p, g);
  }

  lemma {:induction false} RowMonotone(o: Oracle, p: string, r: string, f: Flags, g: Flags, size: nat, i: nat)
    requires Looser(f, g) && |p| + |r| <= size
    requires i < |MatrixLines(p, o.isSpace)| == |MatrixLines(r, o.isSpace)| && RowEqual(o, p, r, f, size, i)
    ensures RowEqual(o, p, r, g, size, i)
    decreases size, 0, 0, 0
  {
    hide MathEqual, Split, MatrixLines;
    var ps, rs := Split(MatrixLines(p, o.isSpace)[i], "&"), Split(MatrixLines(r, o.isSpace)[i], "&");
    forall k: nat | k < |ps| ensures CellEqual(o, p, r, g, size, i, k) {
      assert CellEqual(o, p, r, f, size, i, k);
      CellLength(p, o.isSpace, i, k);
      CellLength(r, o.isSpace, i, k);
      Monotone(o, ps[k], rs[k], f, g);
    }
  }

  lemma {:induction false} MatricesMonotone(o: Oracle, p: string, r: string, f: Flags, g: Flags, size: nat)
    requires Looser(f, g) && |p| + |r| <= size && MatricesEqual(o, p, r, f, size)
    ensures MatricesEqual(o, p, r, g, size)
    decreases size, 0, 0
  {
    hide MathEqual, Split, MatrixLines, LooksMatrix, RowEqual;
    forall i: nat | i < |MatrixLines(p, o.isSpace)| ensures RowEqual(o, p, r, g, size, i) {
      assert RowEqual(o, p, r, f, size, i);
      RowMonotone(o, p, r, f, g, size, i);
    }
  }

  lemma {:induction false} TextMonotone(o: Oracle, prediction: string, reference: string, f: Flags, g: Flags)
    requires Looser(f, g) && TextEqual(o, prediction, reference, f)
    ensures TextEqual(o, prediction, reference, g)
    decreases |prediction| + |reference|, 0
  {
    hide MathEqual, TuplesEqual, MatricesEqual, Split, Strip, EquationsEqual;
    var p, r := Strip(prediction, o.isSpace), Strip(reference, o.isSpace);
    var ps, rs, size := Split(p, "="), Split(r, "="), |prediction| + |reference|;
    if TuplesEqual(o, p, r, f, size) {
      TuplesMonotone(o, p, r, f, g, size);
    } else if MatricesEqual(o, p, r, f, size) {
      MatricesMonotone(o, p, r, f, g, size);
    } else if !(|ps| == 2 && |rs| == 2) {
      if ShortAssignment(o, p) && |rs| == 1 {
        RightSideLength(p);
        if MathEqual(o, ps[1], r, f) {
          Monotone(o, ps[1], r, f, g);
        }
      } else if ShortAssignment(o, r) && |ps| == 1 {
        RightSideLength(r);
        if MathEqual(o, p, rs[1], f) {
          Monotone(o, p, rs[1], f, g);
        }
      }
    }
  }

  /** For any parser and any symbolic check, whatever is accepted with an option off is accepted
      with it on, through every level of tuples, matrices and assignments. */
  lemma {:induction false} Monotone(o: Oracle, p: string, r: string, f: Flags, g: Flags)
    requires Looser(f, g) && MathEqual(o, p, r, f)
    ensures MathEqual(o, p, r, g)
    decreases |p| + |r|, 1
  {
    hide TextEqual, NumbersEqual;
    if p != r {
      if o.parse(p).Some? && o.parse(r).Some? {
        NumbersMonotone(o.parse(p).value, o.parse(r).value, f, g);
      } else {
        TextMonotone(o, p, r, f, g);
      }
    }
  }

  lemma {:induction false} TuplesMonotone(o: Oracle, p: string, r: string, f: Flags, g: Flags, size: nat)
    requires Looser(f, g) && |p| + |r| <= size && TuplesEqual(o, p, r, f, size)
    ensures TuplesEqual(o, p, r, g, size)
    decreases size, 0, 0
  {
    hide MathEqual, Split, Inner;
    var ps, rs := Split(Inner(p), ","), Split(Inner(r), ",");
    forall k: nat | k < |ps| ensures PartEqual(o, p, r, g, size, k) {
      assert PartEqual(o, p, r, f, size, k);
      TuplePartLength(p, k);
      TuplePartLength(r, k);
      Monotone(o, ps[k], rs[k], f, g);
    }
  }

  // ----- what the stages decide --------------------------------------------------------------

  lemma SameAccepted(o: Oracle, p: string, f: Flags)
    ensures MathEqual(o, p, p, f)
  {
  }

  /** Two numbers are accepted, both options off, exactly when the texts or the numbers are equal. */
  lemma StrictNumbers(o: Oracle, p: string, r: string, f: Flags)
    requires o.parse(p).Some? && o.parse(r).Some? && !f.includePercentage && !f.isClose
    ensures MathEqual(o, p, r, f) <==> p == r || NumEq(o.parse(r).value, o.parse(p).value)
  {
    hide TextEqual;
    assert Candidates(o.parse(r).value, f) == [o.parse(r).value];
    assert Candidates(o.parse(r).value, f)[0] == o.parse(r).value;
  }

  /** Equal, or with `is_close` equal up to 1e-3 or up to 1e-9 of the larger number. */
  ghost predicate Agrees(a: real, b: real, close: bool) {
    if !close then a == b
    else
      var d := if a < b then b - a else a - b;
      || d <= 0.001
      || 1000000000.0 * d <= (if a < 0.0 then -a else a)
      || 1000000000.0 * d <= (if b < 0.0 then -b else b)
  }

  lemma ItemAgrees(a: real, b: real, f: Flags)
    ensures ItemEqual(Finite(b), Finite(a), f) == Agrees(a, b, f.isClose)
  {
  }

  lemma CandidatesAre(b: real, f: Flags)
    ensures Candidates(Finite(b), f) ==
              if f.includePercentage then [Finite(b / 100.0), Finite(b), Finite(100.0 * b)] else [Finite(b)]
  {
  }

  lemma FiniteNumbers(a: real, b: real, f: Flags)
    ensures NumbersEqual(Finite(a), Finite(b), f) <==>
              || Agrees(a, b, f.isClose)
              || (f.includePercentage && (Agrees(a, b / 100.0, f.isClose) || Agrees(a, 100.0 * b, f.isClose)))
  {
    hide ItemEqual, Agrees, Candidates;
    var cs := Candidates(Finite(b), f);
    CandidatesAre(b, f);
    ItemAgrees(a, b, f);
    ItemAgrees(a, b / 100.0, f);
    ItemAgrees(a, 100.0 * b, f);
    if f.includePercentage {
      assert cs[0] == Finite(b / 100.0) && cs[1] == Finite(b) && cs[2] == Finite(100.0 * b);
    } else {
      assert cs[0] == Finite(b);
    }
  }

  /** Two finite numbers, under any options: accepted exactly when the texts are the same or the
      prediction agrees with the reference or, if asked for, with its hundredth or its hundredfold. */
  lemma NumbersExact(o: Oracle, p: string, r: string, f: Flags, a: real, b: real)
    requires o.parse(p) == Some(Finite(a)) && o.parse(r) == Some(Finite(b))
    ensures MathEqual(o, p, r, f) <==>
              || p == r || Agrees(a, b, f.isClose)
              || (f.includePercentage && (Agrees(a, b / 100.0, f.isClose) || Agrees(a, 100.0 * b, f.isClose)))
  {
    hide TextEqual, NumbersEqual, Agrees;
    FiniteNumbers(a, b, f);
  }

  /** An infinite reference is matched by the same infinity only, not-a-number by its own text only. */
  lemma NonFiniteExact(o: Oracle, p: string, r: string, f: Flags)
    requires o.parse(p).Some? && o.parse(r).Some? && !o.parse(r).value.Finite?
    ensures MathEqual(o, p, r, f) <==> p == r || (o.parse(r).value != NaN && o.parse(p) == o.parse(r))
  {
    hide TextEqual;
    var x, y := o.parse(p).value, o.parse(r).value;
    assert forall k :: 0 <= k < |Candidates(y, f)| ==> Candidates(y, f)[k] == y;
    if y != NaN && x == y {
      assert ItemEqual(Candidates(y, f)[0], x, f);
    }
  }

  /** An empty prediction matches nothing else that is not a number. */
  lemma EmptyPrediction(o: Oracle, r: string, f: Flags)
    requires !(o.parse("").Some? && o.parse(r).Some?)
    ensures MathEqual(o, "", r, f) <==> r == ""
  {
    hide TextEqual;
  }

  ghost predicate Trimmed(o: Oracle, s: string) {
    s != [] && !o.isSpace(s[0]) && !o.isSpace(s[|s| - 1])
  }

  lemma TrimmedStrip(o: Oracle, s: string)
    requires Trimmed(o, s)
    ensures Strip(s, o.isSpace) == s
  {
  }

  ghost predicate AllSpace(o: Oracle, s: string) {
    forall i :: 0 <= i < |s| ==> o.isSpace(s[i])
  }

  lemma {:induction false} StripLeftSpace(o: Oracle, x: string, m: string)
    requires AllSpace(o, x) && (m != [] ==> !o.isSpace(m[0]))
    ensures StripLeft(x + m, o.isSpace) == m
  {
    if x != [] {
      StripLeftSpace(o, x[1..], m);
      assert (x + m)[1..] == x[1..] + m;
    } else {
      assert x + m == m;
    }
  }

  lemma {:induction false} StripRightSpace(o: Oracle, m: string, y: string)
    requires AllSpace(o, y) && (m != [] ==> !o.isSpace(m[|m| - 1]))
    ensures StripRight(m + y, o.isSpace) == m
  {
    if y != [] {
      StripRightSpace(o, m, y[..|y| - 1]);
      assert (m + y)[..|m + y| - 1] == m + y[..|y| - 1];
    } else {
      assert m + y == m;
    }
  }

  /** `strip` takes off exactly the white space around a text, and all of a text that is nothing else. */
  lemma StripExact(o: Oracle, x: string, m: string, y: string)
    requires AllSpace(o, x) && AllSpace(o, y)
    ensures Trimmed(o, m) ==> Strip(x + m + y, o.isSpace) == m
    ensures Strip(x, o.isSpace) == []
  {
    hide StripLeft, StripRight;
    if Trimmed(o, m) {
      StripLeftSpace(o, x, m + y);
      StripRightSpace(o, m, y);
      assert x + m + y == x + (m + y);
    }
    StripLeftSpace(o, x, []);
    StripRightSpace(o, [], []);
    assert x + [] == x;
  }

  /** The lines of a matrix, one after another: each without surrounding space, blank ones left out. */
  lemma {:induction false} NonBlankExact(o: Oracle, a: seq<string>, b: seq<string>, line: string)
    ensures NonBlank(a + b, o.isSpace) == NonBlank(a, o.isSpace) + NonBlank(b, o.isSpace)
    ensures NonBlank([line], o.isSpace) ==
              if Strip(line, o.isSpace) == [] then [] else [Strip(line, o.isSpace)]
    decreases |b|
  {
    hide Strip;
    assert [line][..0] == [];
    if b == [] {
      assert a + b == a;
    } else {
      NonBlankExact(o, a, b[..|b| - 1], line);
      assert (a + b)[..|a + b| - 1] == a + b[..|b| - 1];
    }
  }

  lemma NoEquals(s: string)
    requires '=' !in s
    ensures FreeOf(s, "=") && Split(s, "=") == [s]
  {
    forall i: nat ensures !OccursAt(s, "=", i) {
      if i + 1 <= |s| {
        assert s[i..i + 1][0] == s[i] && s[i] in s;
      }
    }
  }

  /** How a tuple or an interval is bracketed. */
  datatype Brackets = Brackets(open: char, close: char)

  ghost predicate IsBracketing(o: Oracle, b: Brackets) {
    && (b.open == '(' || b.open == '[') && (b.close == ')' || b.close == ']')
    && !o.isSpace(b.open) && !o.isSpace(b.close)
  }

  /** A tuple written from its parts. */
  function TupleText(b: Brackets, parts: seq<string>): (s: string)
    requires parts != []
  {
    [b.open] + Join(parts, ",") + [b.close]
  }

  /** Parts that survive being joined: no separators inside, some text, one line, no equation. */
  ghost predicate TupleParts(o: Oracle, b: Brackets, parts: seq<string>) {
    && parts != [] && AllFree(parts, ",")
    && Join(parts, ",") != [] && '\n' !in Join(parts, ",") && '=' !in Join(parts, ",")
    && IsBracketing(o, b)
  }

  lemma TupleShape(o: Oracle, b: Brackets, parts: seq<string>)
    requires TupleParts(o, b, parts)
    ensures var s := TupleText(b, parts);
            && Trimmed(o, s) && '=' !in s && LooksBracketed(s) && !LooksMatrix(s)
            && Split(Inner(s), ",") == parts
  {
    hide Split, Join;
    var s, j := TupleText(b, parts), Join(parts, ",");
    assert s[0] == b.open && s[|s| - 1] == b.close;
    assert Inner(s) == j;
    assert s[1..|s| - 1] == j;
    SplitJoin(parts, ",");
  }

  lemma TuplesByParts(o: Oracle, p: string, r: string, f: Flags, size: nat, ps: seq<string>, rs: seq<string>)
    requires |p| + |r| <= size && LooksBracketed(p) && LooksBracketed(r)
    requires Split(Inner(p), ",") == ps && Split(Inner(r), ",") == rs
    ensures TuplesEqual(o, p, r, f, size) <==>
              |ps| == |rs| && forall k :: 0 <= k < |ps| ==> MathEqual(o, ps[k], rs[k], f)
  {
    hide MathEqual, Split, Inner, LooksBracketed;
    if |ps| == |rs| {
      forall k: nat | k < |ps| ensures PartEqual(o, p, r, f, size, k) == MathEqual(o, ps[k], rs[k], f) {
        TuplePartLength(p, k);
        TuplePartLength(r, k);
      }
    }
  }

  /** Unless the symbolic check accepts the whole texts, tuples and intervals, whichever brackets they
      have, are accepted exactly when they have the same number of parts and each pair is accepted. */
  lemma TupleExact(o: Oracle, b: Brackets, ps: seq<string>, c: Brackets, rs: seq<string>, f: Flags)
    requires TupleParts(o, b, ps) && TupleParts(o, c, rs)
    requires var p, r := TupleText(b, ps), TupleText(c, rs);
             !(o.parse(p).Some? && o.parse(r).Some?) && !o.symbolic(p, r)
    ensures MathEqual(o, TupleText(b, ps), TupleText(c, rs), f) <==>
              |ps| == |rs| && forall k :: 0 <= k < |ps| ==> MathEqual(o, ps[k], rs[k], f)
  {
    hide Split, Join, TupleText, LooksBracketed, LooksMatrix, Inner, Strip;
    var p, r := TupleText(b, ps), TupleText(c, rs);
    var size := |p| + |r|;
    TupleShape(o, b, ps);
    TupleShape(o, c, rs);
    TrimmedStrip(o, p);
    TrimmedStrip(o, r);
    NoEquals(p);
    NoEquals(r);
    assert TextEqual(o, p, r, f) == TuplesEqual(o, p, r, f, size);
    TuplesByParts(o, p, r, f, size, ps, rs);
    if p == r {
      forall k | 0 <= k < |ps| ensures MathEqual(o, ps[k], rs[k], f) {
        SameAccepted(o, ps[k], f);
      }
    }
  }

  /** The texts are not compared as equations: neither has an equals sign, or one has more than one. */
  ghost predicate NoEquation(p: string, r: string) {
    var m, n := |Split(p, "=")|, |Split(r, "=")|;
    m > 2 || n > 2 || (m == 1 && n == 1)
  }

  /** Texts that are neither numbers, tuples, matrices nor equations: accepted exactly when they are the
      same or the symbolic check accepts them. */
  lemma PlainExact(o: Oracle, p: string, r: string, f: Flags)
    requires Trimmed(o, p) && Trimmed(o, r) && NoEquation(p, r)
    requires !(o.parse(p).Some? && o.parse(r).Some?)
    requires !(LooksBracketed(p) && LooksBracketed(r)) && !(LooksMatrix(p) && LooksMatrix(r))
    ensures MathEqual(o, p, r, f) <==> p == r || o.symbolic(p, r)
  {
    hide Split, LooksBracketed, LooksMatrix, Strip;
    TrimmedStrip(o, p);
    TrimmedStrip(o, r);
    var size := |p| + |r|;
    assert !TuplesEqual(o, p, r, f, size) && !MatricesEqual(o, p, r, f, size);
  }

  /** Whatever its shape, a prediction that is no number is accepted if the symbolic check accepts it,
      white space around the texts aside. */
  lemma SymbolicAccepted(o: Oracle, p: string, r: string, f: Flags)
    requires p != [] && !(o.parse(p).Some? && o.parse(r).Some?)
    requires o.symbolic(Strip(p, o.isSpace), Strip(r, o.isSpace))
    ensures MathEqual(o, p, r, f)
  {
    hide Split, Strip, TuplesEqual, MatricesEqual, EquationsEqual;
  }

  /** `name = value` against a text without an equals sign, unless the symbolic check accepts the
      whole: accepted exactly when the value is. */
  lemma AssignmentExact(o: Oracle, name: string, value: string, r: string, f: Flags)
    requires '=' !in name && '=' !in value && '=' !in r && |Strip(name, o.isSpace)| <= 2
    requires var p := name + "=" + value;
             && Trimmed(o, p) && Trimmed(o, r) && !LooksBracketed(p) && !LooksMatrix(p)
             && !(o.parse(p).Some? && o.parse(r).Some?) && !o.symbolic(p, r)
    ensures MathEqual(o, name + "=" + value, r, f) <==> MathEqual(o, value, r, f)
  {
    hide Split, LooksBracketed, LooksMatrix, Strip;
    var p := name + "=" + value;
    NoEquals(name);
    NoEquals(value);
    NoEquals(r);
    SplitHead(name, "=", value);
    TrimmedStrip(o, p);
    TrimmedStrip(o, r);
    assert p[|name|] == '=' && p[|name|] in p;
    assert p != r;
    RightSideLength(p);
    var size := |p| + |r|;
    assert !TuplesEqual(o, p, r, f, size) && !MatricesEqual(o, p, r, f, size);
    assert TextEqual(o, p, r, f) == MathEqual(o, value, r, f);
  }

  /** The same with the assignment on the reference side. */
  lemma ReferenceAssignmentExact(o: Oracle, p: string, name: string, value: string, f: Flags)
    requires '=' !in name && '=' !in value && '=' !in p && |Strip(name, o.isSpace)| <= 2
    requires var r := name + "=" + value;
             && Trimmed(o, p) && Trimmed(o, r) && !LooksBracketed(r) && !LooksMatrix(r)
             && !(o.parse(p).Some? && o.parse(r).Some?) && !o.symbolic(p, r)
    ensures MathEqual(o, p, name + "=" + value, f) <==> MathEqual(o, p, value, f)
  {
    hide Split, LooksBracketed, LooksMatrix, Strip;
    var r := name + "=" + value;
    NoEquals(name);
    NoEquals(value);
    NoEquals(p);
    SplitHead(name, "=", value);
    TrimmedStrip(o, p);
    TrimmedStrip(o, r);
    assert r[|name|] == '=' && r[|name|] in r;
    assert p != r;
    RightSideLength(r);
    var size := |p| + |r|;
    assert !TuplesEqual(o, p, r, f, size) && !MatricesEqual(o, p, r, f, size);
    assert TextEqual(o, p, r, f) == MathEqual(o, p, value, f);
  }

  /** A longer left side is no name: such an equation is not compared with a plain text by its value. */
  lemma LongNameRejected(o: Oracle, name: string, value: string, r: string, f: Flags)
    requires '=' !in name && '=' !in value && '=' !in r && |Strip(name, o.isSpace)| > 2
    requires var p := name + "=" + value;
             && Trimmed(o, p) && Trimmed(o, r) && !LooksBracketed(p) && !LooksMatrix(p)
             && !(o.parse(p).Some? && o.parse(r).Some?) && !o.symbolic(p, r)
    ensures !MathEqual(o, name + "=" + value, r, f)
  {
    hide Split, LooksBracketed, LooksMatrix, Strip;
    var p := name + "=" + value;
    NoEquals(name);
    NoEquals(value);
    NoEquals(r);
    SplitHead(name, "=", value);
    TrimmedStrip(o, p);
    TrimmedStrip(o, r);
    assert p[|name|] == '=' && p[|name|] in p;
    assert p != r;
    var size := |p| + |r|;
    assert !TuplesEqual(o, p, r, f, size) && !MatricesEqual(o, p, r, f, size);
  }

  /** `left - (right)` of an equation, each side without surrounding white space. */
  function Difference(o: Oracle, left: string, right: string): (s: string) {
    Strip(left, o.isSpace) + " - (" + Strip(right, o.isSpace) + ")"
  }

  /** Two equations, unless the symbolic check accepts the whole: accepted exactly when they are the same
      text or the symbolic check accepts their differences, with either sign of the predicted one. */
  lemma EquationExact(o: Oracle, a: string, b: string, c: string, d: string, f: Flags)
    requires '=' !in a && '=' !in b && '=' !in c && '=' !in d
    requires var p, r := a + "=" + b, c + "=" + d;
             && Trimmed(o, p) && Trimmed(o, r) && !(LooksBracketed(p) && LooksBracketed(r))
             && !(LooksMatrix(p) && LooksMatrix(r))
             && !(o.parse(p).Some? && o.parse(r).Some?) && !o.symbolic(p, r)
    ensures MathEqual(o, a + "=" + b, c + "=" + d, f) <==>
              || a + "=" + b == c + "=" + d
              || o.symbolic(Difference(o, a, b), Difference(o, c, d))
              || o.symbolic("-(" + Difference(o, a, b) + ")", Difference(o, c, d))
  {
    hide Split, LooksBracketed, LooksMatrix, Strip;
    var p, r := a + "=" + b, c + "=" + d;
    NoEquals(a);
    NoEquals(b);
    NoEquals(c);
    NoEquals(d);
    SplitHead(a, "=", b);
    SplitHead(c, "=", d);
    TrimmedStrip(o, p);
    TrimmedStrip(o, r);
    var size := |p| + |r|;
    assert !TuplesEqual(o, p, r, f, size) && !MatricesEqual(o, p, r, f, size);
    assert TextEqual(o, p, r, f) == EquationsEqual(o, [a, b], [c, d]);
  }

  // ----- matrices --------------------------------------------------------------------------------

  const ROW_END: string := "\\\\"

  datatype Environment = Pmatrix | Bmatrix

  function Begin(e: Environment): (s: string)
    ensures |s| == 15 && s[0] == '\\' && '=' !in s
  {
    if e.Pmatrix? then "\\begin{pmatrix}" else "\\begin{bmatrix}"
  }

  function End(e: Environment): (s: string)
    ensures |s| == 13 && s[12] == '}' && '=' !in s
  {
    if e.Pmatrix? then "\\end{pmatrix}" else "\\end{bmatrix}"
  }

  function RowText(cells: seq<string>): (s: string)
    requires cells != []
  {
    Join(cells, "&")
  }

  ghost predicate Rows(rows: seq<seq<string>>) {
    rows != [] && forall i :: 0 <= i < |rows| ==> rows[i] != [] && AllFree(rows[i], "&")
  }

  function RowTexts(rows: seq<seq<string>>): (r: seq<string>)
    requires forall i :: 0 <= i < |rows| ==> rows[i] != []
    ensures |r| == |rows| && forall i :: 0 <= i < |rows| ==> r[i] == RowText(rows[i])
  {
    seq(|rows|, i requires 0 <= i < |rows| => RowText(rows[i]))
  }

  /** A matrix written from its rows; the two environment names need not agree. */
  function MatrixText(e: Environment, rows: seq<seq<string>>, e': Environment): (s: string)
    requires rows != [] && forall i :: 0 <= i < |rows| ==> rows[i] != []
  {
    Begin(e) + Join(RowTexts(rows), ROW_END) + End(e')
  }

  /** Rows that survive being joined: no row end begins in one, some text without surrounding space,
      and no equation. */
  ghost predicate MatrixRows(o: Oracle, rows: seq<seq<string>>) {
    && Rows(rows) && !o.isSpace('\\') && !o.isSpace('}') && '=' !in Join(RowTexts(rows), ROW_END)
    && FreeOf(RowText(rows[|rows| - 1]), ROW_END)
    && forall i :: 0 <= i < |rows| ==>
         Trimmed(o, RowText(rows[i])) && (i < |rows| - 1 ==> CleanBefore(RowText(rows[i]), ROW_END))
  }

  lemma {:induction false} NoBlankLines(o: Oracle, lines: seq<string>)
    requires forall i :: 0 <= i < |lines| ==> Trimmed(o, lines[i])
    ensures NonBlank(lines, o.isSpace) == lines
  {
    hide Strip;
    if lines != [] {
      var n := |lines| - 1;
      NoBlankLines(o, lines[..n]);
      TrimmedStrip(o, lines[n]);
      assert lines == lines[..n] + [lines[n]];
    }
  }

  lemma EnvironmentShape(e: Environment, body: string, e': Environment)
    ensures var s := Begin(e) + body + End(e');
            && LooksMatrix(s) && !LooksBracketed(s) && MatrixBody(s) == body
            && |s| >= 28 && s[0] == '\\' && s[|s| - 1] == '}'
            && ('=' !in body ==> '=' !in s)
  {
    var s := Begin(e) + body + End(e');
    assert s[..15] == Begin(e) && s[|s| - 13..] == End(e');
    assert Begin(e) <= s;
    assert s[15..|s| - 13] == body;
    assert s[0] == Begin(e)[0] && s[|s| - 1] == End(e')[12];
  }

  lemma MatrixShape(o: Oracle, e: Environment, rows: seq<seq<string>>, e': Environment)
    requires MatrixRows(o, rows)
    ensures var s := MatrixText(e, rows, e');
            && LooksMatrix(s) && !LooksBracketed(s) && Trimmed(o, s) && '=' !in s
            && MatrixLines(s, o.isSpace) == RowTexts(rows)
  {
    hide Split, Join, LooksMatrix, LooksBracketed, FreeOf, CleanBefore, AllFree, MatrixBody, Strip, RowText;
    var lines := RowTexts(rows);
    EnvironmentShape(e, Join(lines, ROW_END), e');
    SplitJoinClean(lines, ROW_END);
    NoBlankLines(o, lines);
  }

  lemma RowByCells(o: Oracle, p: string, r: string, f: Flags, size: nat, i: nat, ps: seq<string>, rs: seq<string>)
    requires |p| + |r| <= size && i < |MatrixLines(p, o.isSpace)| == |MatrixLines(r, o.isSpace)|
    requires Split(MatrixLines(p, o.isSpace)[i], "&") == ps && Split(MatrixLines(r, o.isSpace)[i], "&") == rs
    ensures RowEqual(o, p, r, f, size, i) <==>
              |ps| == |rs| && forall k :: 0 <= k < |ps| ==> MathEqual(o, ps[k], rs[k], f)
  {
    hide MathEqual, Split, MatrixLines;
    if |ps| == |rs| {
      forall k: nat | k < |ps| ensures CellEqual(o, p, r, f, size, i, k) == MathEqual(o, ps[k], rs[k], f) {
        CellLength(p, o.isSpace, i, k);
        CellLength(r, o.isSpace, i, k);
      }
    }
  }

  /** Cell by cell. */
  ghost predicate SameCells(o: Oracle, ps: seq<seq<string>>, rs: seq<seq<string>>, f: Flags) {
    && |ps| == |rs|
    && forall i :: 0 <= i < |ps| ==>
         |ps[i]| == |rs[i]| && forall k :: 0 <= k < |ps[i]| ==> MathEqual(o, ps[i][k], rs[i][k], f)
  }

  lemma CellsOfRow(cells: seq<string>)
    requires cells != [] && AllFree(cells, "&")
    ensures Split(RowText(cells), "&") == cells
  {
    SplitJoin(cells, "&");
  }

  lemma MatricesByCells(o: Oracle, p: string, r: string, f: Flags, size: nat,
                        ps: seq<seq<string>>, rs: seq<seq<string>>)
    requires |p| + |r| <= size && LooksMatrix(p) && LooksMatrix(r) && Rows(ps) && Rows(rs)
    requires MatrixLines(p, o.isSpace) == RowTexts(ps) && MatrixLines(r, o.isSpace) == RowTexts(rs)
    ensures MatricesEqual(o, p, r, f, size) <==> SameCells(o, ps, rs, f)
  {
    hide MathEqual, Split, MatrixLines, LooksMatrix, RowText, RowEqual, AllFree;
    if |ps| == |rs| {
      forall i: nat | i < |ps|
        ensures RowEqual(o, p, r, f, size, i) <==>
                  |ps[i]| == |rs[i]| && forall k :: 0 <= k < |ps[i]| ==> MathEqual(o, ps[i][k], rs[i][k], f)
      {
        CellsOfRow(ps[i]);
        CellsOfRow(rs[i]);
        RowByCells(o, p, r, f, size, i, ps[i], rs[i]);
      }
    }
  }

  lemma {:induction false} SameLinesSameCells(ps: seq<seq<string>>, rs: seq<seq<string>>)
    requires Rows(ps) && Rows(rs) && RowTexts(ps) == RowTexts(rs)
    ensures ps == rs
  {
    hide Split, RowText, AllFree;
    forall i | 0 <= i < |ps| ensures ps[i] == rs[i] {
      assert RowTexts(ps)[i] == RowTexts(rs)[i];
      CellsOfRow(ps[i]);
      CellsOfRow(rs[i]);
    }
  }

  lemma SameMatrix(o: Oracle, ps: seq<seq<string>>, f: Flags)
    ensures SameCells(o, ps, ps, f)
  {
    hide TextEqual;
  }

  /** Unless the symbolic check accepts the whole, matrices, whichever of the two environments they use,
      are accepted exactly when rows and cells match in number and each pair of cells is accepted. */
  lemma MatrixExact(o: Oracle, e: Environment, ps: seq<seq<string>>, e1: Environment,
                    d: Environment, rs: seq<seq<string>>, d1: Environment, f: Flags)
    requires MatrixRows(o, ps) && MatrixRows(o, rs)
    requires var p, r := MatrixText(e, ps, e1), MatrixText(d, rs, d1);
             !(o.parse(p).Some? && o.parse(r).Some?) && !o.symbolic(p, r)
    ensures MathEqual(o, MatrixText(e, ps, e1), MatrixText(d, rs, d1), f) <==> SameCells(o, ps, rs, f)
  {
    hide Split, Join, MatrixText, LooksBracketed, LooksMatrix, Strip, SameCells, MatrixLines;
    var p, r := MatrixText(e, ps, e1), MatrixText(d, rs, d1);
    var size := |p| + |r|;
    MatrixShape(o, e, ps, e1);
    MatrixShape(o, d, rs, d1);
    TrimmedStrip(o, p);
    TrimmedStrip(o, r);
    NoEquals(p);
    NoEquals(r);
    assert TextEqual(o, p, r, f) == MatricesEqual(o, p, r, f, size);
    MatricesByCells(o, p, r, f, size, ps, rs);
    if p == r {
      SameLinesSameCells(ps, rs);
      SameMatrix(o, ps, f);
    }
  }
}
