/** The chat sampler: conversations are filtered by length and repeated in order until enough
    requests are collected. */
module ChatFilter {
  import opened Prelude

  datatype Pair = Pair(prompt: string, completion: string)

  datatype Turn = Turn(prompt: string, promptLen: int, outputLen: int)

  /** Length limits, the fixed output length, and the tokenizer's length function. */
  datatype Limits = Limits(minPrompt: Option<int>, minOutput: Option<int>, maxPrompt: Option<int>,
                           maxOutput: Option<int>, fixedOutput: Option<int>, tokens: string -> nat)

  function Measure(lim: Limits, p: Pair): Turn {
    Turn(p.prompt, lim.tokens(p.prompt), match lim.fixedOutput case None => lim.tokens(p.completion) case Some(n) => n)
  }

  predicate Pruned(lim: Limits, t: Turn) {
    || (lim.minPrompt.Some? && t.promptLen < lim.minPrompt.value)
    || (lim.minOutput.Some? && t.outputLen < lim.minOutput.value)
    || (lim.maxPrompt.Some? && t.promptLen > lim.maxPrompt.value)
    || (lim.maxOutput.Some? && t.outputLen > lim.maxOutput.value)
  }

  /** The turns of a conversation that are kept. */
  function Kept(lim: Limits, conv: seq<Pair>): (r: seq<Turn>) {
    if conv == [] then []
    else
      var t := Measure(lim, conv[|conv| - 1]);
      Kept(lim, conv[..|conv| - 1]) + if Pruned(lim, t) then [] else [t]
  }

  /** The conversations with a turn left, in order. */
  function Survivors(lim: Limits, data: seq<seq<Pair>>): (r: seq<seq<Turn>>) {
    if data == [] then []
    else
      var last := Kept(lim, data[|data| - 1]);
      Survivors(lim, data[..|data| - 1]) + if last == [] then [] else [last]
  }

  /** The lengths keep within the limits that are given. */
  ghost predicate Within(lim: Limits, prompt: int, output: int) {
    && (lim.minPrompt.Some? ==> lim.minPrompt.value <= prompt)
    && (lim.minOutput.Some? ==> lim.minOutput.value <= output)
    && (lim.maxPrompt.Some? ==> prompt <= lim.maxPrompt.value)
    && (lim.maxOutput.Some? ==> output <= lim.maxOutput.value)
  }

  /** The output length that counts for a pair: the fixed one, or that of its completion. */
  ghost function OutputOf(lim: Limits, p: Pair): int {
    if lim.fixedOutput.Some? then lim.fixedOutput.value else lim.tokens(p.completion)
  }

  ghost predicate Passes(lim: Limits, p: Pair) {
    Within(lim, lim.tokens(p.prompt), OutputOf(lim, p))
  }

  /** `kept` holds exactly the pairs at the positions `src`, measured, and these are all that pass. */
  ghost predicate KeptFrom(lim: Limits, conv: seq<Pair>, kept: seq<Turn>, src: seq<nat>) {
    && |src| == |kept| && Increasing(src)
    && (forall k :: 0 <= k < |src| ==> src[k] < |conv| && Passes(lim, conv[src[k]]))
    && (forall k :: 0 <= k < |src| ==>
          kept[k] == Turn(conv[src[k]].prompt, lim.tokens(conv[src[k]].prompt), OutputOf(lim, conv[src[k]])))
    && forall i: nat :: i < |conv| && Passes(lim, conv[i]) ==> i in src
  }

  lemma PrunedIff(lim: Limits, p: Pair)
    ensures Pruned(lim, Measure(lim, p)) <==> !Passes(lim, p)
    ensures Measure(lim, p) == Turn(p.prompt, lim.tokens(p.prompt), OutputOf(lim, p))
  {
  }

  lemma KeptFromSnoc(lim: Limits, conv: seq<Pair>, kept: seq<Turn>, src: seq<nat>)
    requires conv != [] && KeptFrom(lim, conv[..|conv| - 1], kept, src)
    ensures var n := |conv| - 1;
            if Passes(lim, conv[n]) then KeptFrom(lim, conv, kept + [Measure(lim, conv[n])], src + [n])
            else KeptFrom(lim, conv, kept, src)
  {
    hide Passes, OutputOf, Measure;
    var n := |conv| - 1;
    PrunedIff(lim, conv[n]);
    forall i: nat | i < n && Passes(lim, conv[i]) ensures i in src {
      assert conv[..n][i] == conv[i];
    }
  }

  lemma NoSources(lim: Limits)
    ensures KeptFrom(lim, [], [], [])
  {
  }

  /** Which turns are kept, in order, through the token counts and the limits. */
  lemma {:induction false} KeptSources(lim: Limits, conv: seq<Pair>) returns (src: seq<nat>)
    ensures KeptFrom(lim, conv, Kept(lim, conv), src)
  {
    hide KeptFrom, Measure, Pruned, Passes;
    if conv == [] {
      src := [];
      assert KeptFrom(lim, [], [], []) by { NoSources(lim); }
    } else {
      var n := |conv| - 1;
      src := KeptSources(lim, conv[..n]);
      KeptFromSnoc(lim, conv, Kept(lim, conv[..n]), src);
      PrunedIff(lim, conv[n]);
      if Passes(lim, conv[n]) {
        src := src + [n];
      } else {
        assert Kept(lim, conv) == Kept(lim, conv[..n]);
      }
    }
  }

  ghost predicate SomePasses(lim: Limits, conv: seq<Pair>) {
    exists j :: 0 <= j < |conv| && Passes(lim, conv[j])
  }

  lemma KeptSome(lim: Limits, conv: seq<Pair>)
    ensures Kept(lim, conv) != [] <==> SomePasses(lim, conv)
  {
    hide Passes, Kept, OutputOf;
    var src := KeptSources(lim, conv);
    if Kept(lim, conv) != [] {
      assert Passes(lim, conv[src[0]]);
    }
    if j :| 0 <= j < |conv| && Passes(lim, conv[j]) {
      assert j in src;
    }
  }

  /** `all` holds exactly the conversations at the positions `src`, filtered, and these are all in which
      some turn passes. */
  ghost predicate SurvivorsFrom(lim: Limits, data: seq<seq<Pair>>, all: seq<seq<Turn>>, src: seq<nat>) {
    && |src| == |all| && Increasing(src)
    && (forall k :: 0 <= k < |src| ==>
          src[k] < |data| && SomePasses(lim, data[src[k]]) && all[k] == Kept(lim, data[src[k]]))
    && forall i: nat :: i < |data| && SomePasses(lim, data[i]) ==> i in src
  }

  lemma {:induction false} SurvivorSources(lim: Limits, data: seq<seq<Pair>>) returns (src: seq<nat>)
    ensures SurvivorsFrom(lim, data, Survivors(lim, data), src)
  {
    hide Kept, SomePasses;
    if data == [] {
      src := [];
    } else {
      var n := |data| - 1;
      src := SurvivorSources(lim, data[..n]);
      KeptSome(lim, data[n]);
      forall i: nat | i < n && SomePasses(lim, data[i]) ensures i in src {
        assert data[..n][i] == data[i];
      }
      if SomePasses(lim, data[n]) {
        src := src + [n];
      }
    }
  }

  /** Entry k of the endless repetition of the survivors. */
  ghost predicate Cyclic(all: seq<seq<Turn>>, out: seq<seq<Turn>>) {
    all != [] && forall k :: 0 <= k < |out| ==> out[k] == all[k % |all|]
  }

  function InputTokens(conv: seq<Turn>): int {
    if conv == [] then 0 else InputTokens(conv[..|conv| - 1]) + conv[|conv| - 1].promptLen
  }

  function OutputTokens(conv: seq<Turn>): int {
    if conv == [] then 0 else OutputTokens(conv[..|conv| - 1]) + conv[|conv| - 1].outputLen
  }

  function TotalInput(out: seq<seq<Turn>>): int {
    if out == [] then 0 else TotalInput(out[..|out| - 1]) + InputTokens(out[|out| - 1])
  }

  function TotalOutput(out: seq<seq<Turn>>): int {
    if out == [] then 0 else TotalOutput(out[..|out| - 1]) + OutputTokens(out[|out| - 1])
  }

  lemma KeptStep(lim: Limits, conv: seq<Pair>, j: nat)
    requires j < |conv|
    ensures var t := Measure(lim, conv[j]);
            Kept(lim, conv[..j + 1]) == Kept(lim, conv[..j]) + if Pruned(lim, t) then [] else [t]
  {
    hide Pruned, Measure;
    assert conv[..j + 1][..j] == conv[..j];
  }

  lemma TokensSnoc(conv: seq<Turn>, t: Turn)
    ensures InputTokens(conv + [t]) == InputTokens(conv) + t.promptLen
    ensures OutputTokens(conv + [t]) == OutputTokens(conv) + t.outputLen
  {
    assert (conv + [t])[..|conv|] == conv;
  }

  lemma NothingKept(lim: Limits, conv: seq<Pair>)
    ensures Kept(lim, conv[..0]) == [] && InputTokens([]) == OutputTokens([]) == 0
    ensures conv[..|conv|] == conv
  {
  }

  /** One conversation: the kept turns and their token counts. */
  method Process(lim: Limits, conv: seq<Pair>) returns (processed: seq<Turn>, input: int, output: int)
    ensures processed == Kept(lim, conv) && input == InputTokens(processed) && output == OutputTokens(processed)
    ensures exists src :: KeptFrom(lim, conv, processed, src)
  {
    hide Kept, InputTokens, OutputTokens, Measure, Pruned, KeptFrom;
    ghost var src := KeptSources(lim, conv);
    NothingKept(lim, conv);
    processed, input, output := [], 0, 0;
    for j := 0 to |conv|
      invariant processed == Kept(lim, conv[..j])
      invariant input == InputTokens(processed) && output == OutputTokens(processed)
    {
      KeptStep(lim, conv, j);
      var t := Measure(lim, conv[j]);
      if Pruned(lim, t) {
        continue;
      }
      TokensSnoc(processed, t);
      input := input + t.promptLen;
      output := output + t.outputLen;
      processed := processed + [t];
    }
  }

  lemma {:induction false} SurvivorsPrefix(lim: Limits, data: seq<seq<Pair>>, i: nat)
    requires i <= |data|
    ensures |Survivors(lim, data[..i])| <= |Survivors(lim, data)|
    ensures Survivors(lim, data[..i]) == Survivors(lim, data)[..|Survivors(lim, data[..i])|]
    decreases |data| - i
  {
    hide Kept;
    if i == |data| {
      assert data[..i] == data;
    } else {
      assert data[..i + 1][..i] == data[..i];
      SurvivorsPrefix(lim, data, i + 1);
    }
  }

  lemma MulAtLeast(k: int, m: int)
    requires m >= 0
    ensures k >= 1 ==> k * m >= m
    ensures k <= -1 ==> k * m <= -m
  {
  }

  /** Position q * m + c of the repetition is survivor c, for c below m. */
  lemma Position(m: nat, q: nat, c: nat)
    requires c < m
    ensures (q * m + c) % m == c
  {
    var x := q * m + c;
    var d, r := x / m, x % m;
    assert x == d * m + r;
    assert (q - d) * m == r - c by { assert (q - d) * m == q * m - d * m; }
    MulAtLeast(q - d, m);
  }

  /** Where the loops stand: l entries collected, of which q full passes and c survivors of the
      current pass. */
  ghost predicate Collected(all: seq<seq<Turn>>, out: seq<seq<Turn>>, q: nat, c: nat) {
    Cyclic(all, out) && c <= |all| && |out| == q * |all| + c
  }

  lemma CollectedStep(all: seq<seq<Turn>>, out: seq<seq<Turn>>, q: nat, c: nat)
    requires Collected(all, out, q, c) && c < |all|
    ensures Collected(all, out + [all[c]], q, c + 1)
  {
    Position(|all|, q, c);
  }

  lemma CollectedCyclic(all: seq<seq<Turn>>, out: seq<seq<Turn>>, q: nat, c: nat)
    requires Collected(all, out, q, c)
    ensures Cyclic(all, out)
  {
  }

  lemma SurvivorsStep(lim: Limits, data: seq<seq<Pair>>, i: nat)
    requires i < |data|
    ensures var all, c, kept := Survivors(lim, data), |Survivors(lim, data[..i])|, Kept(lim, data[i]);
            && |Survivors(lim, data[..i + 1])| == c + One(kept != [])
            && (kept != [] ==> c < |all| && all[c] == kept)
  {
    hide Kept;
    assert data[..i + 1][..i] == data[..i];
    SurvivorsPrefix(lim, data, i + 1);
  }

  lemma {:induction false} TokensAreSums(conv: seq<Turn>)
    ensures InputTokens(conv) == Sum(MapSeq(conv, (t: Turn) => t.promptLen))
    ensures OutputTokens(conv) == Sum(MapSeq(conv, (t: Turn) => t.outputLen))
  {
    if conv != [] {
      var n := |conv| - 1;
      var p, q := (t: Turn) => t.promptLen, (t: Turn) => t.outputLen;
      TokensAreSums(conv[..n]);
      assert MapSeq(conv, p)[..n] == MapSeq(conv[..n], p) && MapSeq(conv, q)[..n] == MapSeq(conv[..n], q);
    }
  }

  lemma TotalsStep(out: seq<seq<Turn>>, conv: seq<Turn>)
    ensures TotalInput(out + [conv]) == TotalInput(out) + InputTokens(conv)
    ensures TotalOutput(out + [conv]) == TotalOutput(out) + OutputTokens(conv)
  {
    assert (out + [conv])[..|out|] == out;
  }

  lemma MapAppend(a: seq<Turn>, b: seq<Turn>, f: Turn -> int)
    ensures Sum(MapSeq(a + b, f)) == Sum(MapSeq(a, f)) + Sum(MapSeq(b, f))
  {
    assert MapSeq(a + b, f) == MapSeq(a, f) + MapSeq(b, f);
    SumAppend(MapSeq(a, f), MapSeq(b, f));
  }

  lemma NoTokens()
    ensures InputTokens([]) == 0 && OutputTokens([]) == 0
  {
  }

  /** The totals are the sums over all turns of all entries. */
  lemma {:induction false} TotalsAreSums(out: seq<seq<Turn>>)
    ensures TotalInput(out) == Sum(MapSeq(Flat(out), (t: Turn) => t.promptLen))
    ensures TotalOutput(out) == Sum(MapSeq(Flat(out), (t: Turn) => t.outputLen))
  {
    hide Sum, MapSeq, InputTokens, OutputTokens;
    var p, q := (t: Turn) => t.promptLen, (t: Turn) => t.outputLen;
    if out == [] {
      TokensAreSums([]);
      NoTokens();
    } else {
      var n := |out| - 1;
      TotalsAreSums(out[..n]);
      TokensAreSums(out[n]);
      MapAppend(Flat(out[..n]), out[n], p);
      MapAppend(Flat(out[..n]), out[n], q);
    }
  }

  /** One pass over the data set, stopping when enough is collected. */
  method OnePass(count: int, lim: Limits, data: seq<seq<Pair>>, before: seq<seq<Turn>>, inBefore: int, outBefore: int,
                 ghost q: nat)
    returns (filtered: seq<seq<Turn>>, l: nat, inputTokens: int, outputTokens: int)
    requires |before| < count && Collected(Survivors(lim, data), before, q, 0)
    requires inBefore == TotalInput(before) && outBefore == TotalOutput(before)
    ensures l == |filtered| <= count && Cyclic(Survivors(lim, data), filtered)
    ensures l < count ==> Collected(Survivors(lim, data), filtered, q, |Survivors(lim, data)|)
    ensures inputTokens == TotalInput(filtered) && outputTokens == TotalOutput(filtered)
  {
    filtered, l, inputTokens, outputTokens := before, |before|, inBefore, outBefore;
    ghost var all := Survivors(lim, data);
    assert data[..0] == [];
    for i := 0 to |data|
      invariant l == |filtered| <= count
      invariant Collected(all, filtered, q, |Survivors(lim, data[..i])|)
      invariant inputTokens == TotalInput(filtered) && outputTokens == TotalOutput(filtered)
    {
      hide Kept, InputTokens, OutputTokens, TotalInput, TotalOutput, Collected, Cyclic, Survivors;
      if l == count {
        CollectedCyclic(all, filtered, q, |Survivors(lim, data[..i])|);
        return;
      }
      var processed, input, output := Process(lim, data[i]);
      SurvivorsStep(lim, data, i);
      inputTokens := inputTokens + input;
      outputTokens := outputTokens + output;
      if |processed| != 0 {
        CollectedStep(all, filtered, q, |Survivors(lim, data[..i])|);
        TotalsStep(filtered, processed);
        filtered := filtered + [processed];
        l := l + 1;
      } else {
        assert input == 0 && output == 0 by { NoTokens(); }
      }
    }
    assert data[..|data|] == data;
    CollectedCyclic(all, filtered, q, |all|);
  }

  /** `common_filter_chat`. It needs a survivor to ever collect a request; then it returns exactly
      the number asked for, repeating the survivors in order, with the totals of what it returns. */
  method FilterChat(count: int, lim: Limits, data: seq<seq<Pair>>)
    returns (filtered: seq<seq<Turn>>, inputTokens: int, outputTokens: int)
    requires count <= 0 || exists i :: 0 <= i < |data| && SomePasses(lim, data[i])
    ensures |filtered| == if count > 0 then count else 0
    ensures count > 0 ==> exists src :: SurvivorsFrom(lim, data, Survivors(lim, data), src)
    ensures count > 0 ==> Cyclic(Survivors(lim, data), filtered)
    ensures inputTokens == Sum(MapSeq(Flat(filtered), (t: Turn) => t.promptLen))
    ensures outputTokens == Sum(MapSeq(Flat(filtered), (t: Turn) => t.outputLen))
  {
    hide Kept, Survivors, SomePasses;
    ghost var src := SurvivorSources(lim, data);
    assert count > 0 ==> Survivors(lim, data) != [];
    hide SurvivorsFrom;
    filtered, inputTokens, outputTokens := [], 0, 0;
    var l := 0;
    ghost var all, q := Survivors(lim, data), 0;
    while l < count
      invariant l == |filtered| && (count > 0 ==> l <= count && Collected(all, filtered, q, 0))
      invariant count <= 0 ==> l == 0
      invariant inputTokens == TotalInput(filtered) && outputTokens == TotalOutput(filtered)
      decreases count - l
    {
      ghost var start := l;
      filtered, l, inputTokens, outputTokens := OnePass(count, lim, data, filtered, inputTokens, outputTokens, q);
      if l < count {
        assert (q + 1) * |all| == q * |all| + |all|;
        q := q + 1;
      } else {
        break;
      }
    }
    TotalsAreSums(filtered);
  }
}
