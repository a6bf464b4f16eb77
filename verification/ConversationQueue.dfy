/** The serving benchmark: conversations take turns through one bounded queue. A dispatcher
    takes them out, a task per turn talks to the server and puts the conversation back. */
module ConversationQueue {
  import opened Prelude

  /** One prompt with its input length and its output length: planned, then measured. */
  datatype Turn = Turn(prompt: string, inputLen: int, outputLen: int)

  /** A message together with the tokens it is worth. */
  datatype Message = User(text: string, tokens: int) | Assistant(text: string, tokens: int)

  /** `RequestFuncInput`: prompts, the messages so far and the number of finished prompts. */
  datatype Conversation = Conversation(prompts: seq<Turn>, messages: seq<Message>, finished: nat)

  /** `limit` is the total number of turns; the queue holds as many entries as there are conversations. */
  datatype Config = Config(input: seq<seq<Turn>>, limit: nat, maxConcurrency: Option<nat>)

  datatype State = State(
    convs: seq<Conversation>,
    queue: seq<nat>,
    waiting: set<nat>,      // task created, not past the semaphore
    posted: set<nat>,       // request sent, response outstanding
    finished: set<nat>,     // last turn succeeded
    failed: set<nat>,       // a turn failed
    dispatched: nat)

  datatype Action =
    | Dispatch
    | Post(conv: nat)
    | Succeed(conv: nat, text: string, tokens: int)
    | Fail(conv: nat)

  // ----- queue set-up ----------------------------------------------------------

  function TotalTurns(input: seq<seq<Turn>>): (n: nat) {
    if input == [] then 0 else TotalTurns(input[..|input| - 1]) + |input[|input| - 1]|
  }

  function Singletons(turns: seq<Turn>): (r: seq<seq<Turn>>)
    ensures |r| == |turns|
    ensures forall i :: 0 <= i < |turns| ==> r[i] == [turns[i]]
  {
    seq(|turns|, i requires 0 <= i < |turns| => [turns[i]])
  }

  /** `[[r] for requests in input_requests for r in requests]`. */
  function Flatten(input: seq<seq<Turn>>): (r: seq<seq<Turn>>) {
    if input == [] then [] else Flatten(input[..|input| - 1]) + Singletons(input[|input| - 1])
  }

  /** The dispatch limit is taken before the shared-prefix requests are split up. */
  function SetUp(input: seq<seq<Turn>>, sharedPrefix: bool, maxConcurrency: Option<nat>): (cfg: Config) {
    Config(if sharedPrefix then Flatten(input) else input, TotalTurns(input), maxConcurrency)
  }

  lemma {:induction false} TotalTurnsAppend(a: seq<seq<Turn>>, b: seq<seq<Turn>>)
    ensures TotalTurns(a + b) == TotalTurns(a) + TotalTurns(b)
    decreases |b|
  {
    if b == [] {
      assert a + b == a;
    } else {
      TotalTurnsAppend(a, b[..|b| - 1]);
      assert (a + b)[..|a + b| - 1] == a + b[..|b| - 1];
    }
  }

  lemma {:induction false} SingletonsTotal(turns: seq<Turn>)
    ensures TotalTurns(Singletons(turns)) == |turns|
  {
    if turns != [] {
      var n := |turns| - 1;
      SingletonsTotal(turns[..n]);
      assert Singletons(turns)[..n] == Singletons(turns[..n]);
    }
  }

  lemma {:induction false} FlattenTotal(input: seq<seq<Turn>>)
    ensures TotalTurns(Flatten(input)) == TotalTurns(input)
  {
    if input != [] {
      var n := |input| - 1;
      FlattenTotal(input[..n]);
      SingletonsTotal(input[n]);
      TotalTurnsAppend(Flatten(input[..n]), Singletons(input[n]));
    }
  }

  /** Splitting shared prefixes keeps the number of turns, so the limit is always the exact total. */
  lemma SetUpLimit(input: seq<seq<Turn>>, sharedPrefix: bool, maxConcurrency: Option<nat>)
    ensures var cfg := SetUp(input, sharedPrefix, maxConcurrency); cfg.limit == TotalTurns(cfg.input)
  {
    FlattenTotal(input);
  }

  lemma {:induction false} FlattenLength(input: seq<seq<Turn>>)
    ensures |Flatten(input)| == TotalTurns(input)
  {
    if input != [] {
      FlattenLength(input[..|input| - 1]);
    }
  }

  /** Turn j of request i is a conversation of its own, behind the turns of the requests before it. */
  lemma {:induction false} FlattenAt(input: seq<seq<Turn>>, i: nat, j: nat)
    requires i < |input| && j < |input[i]|
    ensures var at := TotalTurns(input[..i]) + j;
            at < |Flatten(input)| && Flatten(input)[at] == [input[i][j]]
  {
    var n := |input| - 1;
    FlattenLength(input[..n]);
    if i < n {
      FlattenAt(input[..n], i, j);
      assert input[..n][..i] == input[..i];
    }
  }

  /** Turn j of request i is the whole of the conversation behind all turns before it. */
  ghost predicate OwnConversation(input: seq<seq<Turn>>, queued: seq<seq<Turn>>, i: nat, j: nat)
    requires i < |input| && j < |input[i]|
  {
    var at := TotalTurns(input[..i]) + j;
    at < |queued| && queued[at] == [input[i][j]]
  }

  /** What is queued, in terms of the input: the conversations themselves, or with a shared prefix every
      turn on its own, in order. */
  ghost predicate Queues(input: seq<seq<Turn>>, sharedPrefix: bool, queued: seq<seq<Turn>>) {
    if !sharedPrefix then queued == input
    else
      && |queued| == TotalTurns(input)
      && forall i: nat, j: nat :: i < |input| && j < |input[i]| ==> OwnConversation(input, queued, i, j)
  }

  lemma SetUpQueues(input: seq<seq<Turn>>, sharedPrefix: bool, maxConcurrency: Option<nat>)
    ensures Queues(input, sharedPrefix, SetUp(input, sharedPrefix, maxConcurrency).input)
  {
    hide Flatten, TotalTurns;
    FlattenLength(input);
    forall i: nat, j: nat | i < |input| && j < |input[i]| ensures OwnConversation(input, Flatten(input), i, j) {
      FlattenAt(input, i, j);
    }
  }

  function Init(cfg: Config): (s: State) {
    var n := |cfg.input|;
    State(seq(n, i requires 0 <= i < n => Conversation(cfg.input[i], [], 0)), seq(n, i => i), {}, {}, {}, {}, 0)
  }

  // ----- the steps ---------------------------------------------------------------

  predicate Enabled(cfg: Config, s: State, a: Action) {
    match a
    case Dispatch => s.queue != [] && s.dispatched < cfg.limit
    case Post(c) =>
      c in s.waiting && c < |s.convs| && (cfg.maxConcurrency.Some? ==> |s.posted| < cfg.maxConcurrency.value)
    case Succeed(c, _, _) => c in s.posted && c < |s.convs| && s.convs[c].finished < |s.convs[c].prompts|
    case Fail(c) => c in s.posted
  }

  /** The conversation after its current turn succeeded with the given answer. */
  function Answered(conv: Conversation, text: string, tokens: int): (r: Conversation)
    requires conv.finished < |conv.prompts|
  {
    var k := conv.finished;
    Conversation(conv.prompts[k := conv.prompts[k].(outputLen := tokens)],
                 conv.messages + [Assistant(text, tokens)],
                 if k + 1 < |conv.prompts| then k + 1 else k)
  }

  function Apply(cfg: Config, s: State, a: Action): (r: State)
    requires Enabled(cfg, s, a)
  {
    match a
    case Dispatch => s.(queue := s.queue[1..], waiting := s.waiting + {s.queue[0]}, dispatched := s.dispatched + 1)
    case Post(c) =>
      var conv := s.convs[c];
      if conv.finished < |conv.prompts| then
        var turn := conv.prompts[conv.finished];
        s.(waiting := s.waiting - {c}, posted := s.posted + {c},
           convs := s.convs[c := conv.(messages := conv.messages + [User(turn.prompt, turn.inputLen)])])
      else
        s.(waiting := s.waiting - {c}, failed := s.failed + {c})
    case Succeed(c, text, tokens) =>
      var conv := s.convs[c];
      var s1 := s.(posted := s.posted - {c}, convs := s.convs[c := Answered(conv, text, tokens)]);
      if conv.finished + 1 < |conv.prompts| then s1.(queue := s1.queue + [c])
      else s1.(finished := s1.finished + {c})
    case Fail(c) => s.(posted := s.posted - {c}, failed := s.failed + {c})
  }

  ghost predicate Run(cfg: Config, acts: seq<Action>, tr: seq<State>) {
    && |tr| == |acts| + 1
    && tr[0] == Init(cfg)
    && forall k :: 0 <= k < |acts| ==> Enabled(cfg, tr[k], acts[k]) && tr[k + 1] == Apply(cfg, tr[k], acts[k])
  }

  // ----- each conversation is in exactly one place ----------------------------------

  ghost predicate PlacedConv(s: State, c: nat) {
    multiset(s.queue)[c] + One(c in s.waiting) + One(c in s.posted) + One(c in s.finished) + One(c in s.failed)
      == One(c < |s.convs|)
  }

  function PlaceTotal(s: State): nat {
    |s.queue| + |s.waiting| + |s.posted| + |s.finished| + |s.failed|
  }

  ghost predicate Placed(cfg: Config, s: State) {
    && |s.convs| == |cfg.input|
    && PlaceTotal(s) == |cfg.input|
    && forall c: nat :: PlacedConv(s, c)
  }

  lemma PlacedConvStep(cfg: Config, s: State, a: Action, c: nat)
    requires Enabled(cfg, s, a) && PlacedConv(s, c)
    ensures PlacedConv(Apply(cfg, s, a), c)
  {
    hide Answered;
    match a
    case Dispatch => assert s.queue == [s.queue[0]] + s.queue[1..];
    case _ =>
  }

  /** The conversation a step is about. */
  function Subject(s: State, a: Action): nat {
    match a
    case Dispatch => if s.queue == [] then 0 else s.queue[0]
    case Post(c) => c
    case Succeed(c, _, _) => c
    case Fail(c) => c
  }

  lemma MoveSize<T>(from: set<T>, to: set<T>, c: T)
    requires c in from && c !in to
    ensures |from - {c}| == |from| - 1 && |to + {c}| == |to| + 1
  {
  }

  lemma PlaceTotalSucceed(cfg: Config, s: State, c: nat, text: string, tokens: int)
    requires Enabled(cfg, s, Succeed(c, text, tokens)) && PlacedConv(s, c)
    ensures PlaceTotal(Apply(cfg, s, Succeed(c, text, tokens))) == PlaceTotal(s)
  {
    hide Answered;
    MoveSize(s.posted, s.finished, c);
  }

  lemma PlaceTotalPost(cfg: Config, s: State, c: nat)
    requires Enabled(cfg, s, Post(c)) && PlacedConv(s, c)
    ensures PlaceTotal(Apply(cfg, s, Post(c))) == PlaceTotal(s)
  {
    if s.convs[c].finished < |s.convs[c].prompts| {
      MoveSize(s.waiting, s.posted, c);
    } else {
      MoveSize(s.waiting, s.failed, c);
    }
  }

  lemma PlaceTotalStep(cfg: Config, s: State, a: Action)
    requires Enabled(cfg, s, a) && PlacedConv(s, Subject(s, a))
    ensures PlaceTotal(Apply(cfg, s, a)) == PlaceTotal(s) && |Apply(cfg, s, a).convs| == |s.convs|
  {
    hide Answered;
    match a
    case Dispatch => assert s.queue[0] in multiset(s.queue);
    case Post(c) => PlaceTotalPost(cfg, s, c);
    case Succeed(c, text, tokens) => PlaceTotalSucceed(cfg, s, c, text, tokens);
    case Fail(c) => MoveSize(s.posted, s.failed, c);
  }

  lemma PlacedStep(cfg: Config, s: State, a: Action)
    requires Placed(cfg, s) && Enabled(cfg, s, a)
    ensures Placed(cfg, Apply(cfg, s, a))
  {
    hide Apply, PlacedConv, PlaceTotal;
    PlaceTotalStep(cfg, s, a);
    forall c: nat ensures PlacedConv(Apply(cfg, s, a), c) {
      PlacedConvStep(cfg, s, a, c);
    }
  }

  lemma PlacedInit(cfg: Config)
    ensures Placed(cfg, Init(cfg))
  {
    var s := Init(cfg);
    forall c: nat ensures PlacedConv(s, c) {
      RangeCount(|cfg.input|, c);
      assert s.queue == seq(|cfg.input|, i => i);
    }
  }

  // ----- what a conversation has said so far -----------------------------------------

  /** Message i is the prompt of turn i/2 or the answer to it, with its measured length. */
  ghost predicate MessageOk(conv: Conversation, i: nat)
    requires i < |conv.messages|
  {
    && i / 2 < |conv.prompts|
    && if i % 2 == 0 then conv.messages[i] == User(conv.prompts[i / 2].prompt, conv.prompts[i / 2].inputLen)
       else conv.messages[i].Assistant? && conv.messages[i].tokens == conv.prompts[i / 2].outputLen
  }

  ghost predicate Alternating(conv: Conversation) {
    forall i: nat :: i < |conv.messages| ==> MessageOk(conv, i)
  }

  /** Turns not yet answered are as planned; answered ones keep prompt and input length. */
  ghost predicate Planned(input: seq<Turn>, conv: Conversation) {
    && |conv.prompts| == |input|
    && forall j :: 0 <= j < |input| ==>
         conv.prompts[j].prompt == input[j].prompt && conv.prompts[j].inputLen == input[j].inputLen
  }

  ghost function MessageCount(s: State, c: nat): nat
    requires c < |s.convs|
  {
    var k := s.convs[c].finished;
    if c in s.finished then 2 * k + 2
    else if c in s.posted || (c in s.failed && s.convs[c].prompts != []) then 2 * k + 1
    else 2 * k
  }

  ghost predicate Spoken(cfg: Config, s: State, c: nat)
    requires c < |s.convs| == |cfg.input|
  {
    var conv := s.convs[c];
    && Planned(cfg.input[c], conv)
    && (if conv.prompts == [] then conv.finished == 0 else conv.finished < |conv.prompts|)
    && (c in s.finished ==> conv.finished + 1 == |conv.prompts|)
    && (c in s.posted ==> conv.prompts != [])
    && |conv.messages| == MessageCount(s, c)
    && Alternating(conv)
  }

  lemma AnsweredAlternating(conv: Conversation, text: string, tokens: int)
    requires conv.finished < |conv.prompts| && Alternating(conv) && |conv.messages| == 2 * conv.finished + 1
    ensures Alternating(Answered(conv, text, tokens))
  {
    var r, n := Answered(conv, text, tokens), |conv.messages|;
    forall i: nat | i < |r.messages| ensures MessageOk(r, i) {
      if i < n {
        assert MessageOk(conv, i) && r.messages[i] == conv.messages[i];
      }
    }
  }

  lemma AskedAlternating(conv: Conversation)
    requires conv.finished < |conv.prompts| && Alternating(conv) && |conv.messages| == 2 * conv.finished
    ensures var t := conv.prompts[conv.finished];
            Alternating(conv.(messages := conv.messages + [User(t.prompt, t.inputLen)]))
  {
    var t, n := conv.prompts[conv.finished], |conv.messages|;
    var r := conv.(messages := conv.messages + [User(t.prompt, t.inputLen)]);
    forall i: nat | i < |r.messages| ensures MessageOk(r, i) {
      if i < n {
        assert MessageOk(conv, i) && r.messages[i] == conv.messages[i];
      }
    }
  }

  lemma SpokenPost(cfg: Config, s: State, d: nat)
    requires |s.convs| == |cfg.input| && Enabled(cfg, s, Post(d)) && PlacedConv(s, d) && Spoken(cfg, s, d)
    ensures Spoken(cfg, Apply(cfg, s, Post(d)), d)
  {
    hide Alternating;
    var conv := s.convs[d];
    if conv.finished < |conv.prompts| {
      AskedAlternating(conv);
    }
  }

  lemma SpokenSucceed(cfg: Config, s: State, d: nat, text: string, tokens: int)
    requires |s.convs| == |cfg.input| && Enabled(cfg, s, Succeed(d, text, tokens))
    requires PlacedConv(s, d) && Spoken(cfg, s, d)
    ensures Spoken(cfg, Apply(cfg, s, Succeed(d, text, tokens)), d)
  {
    hide Alternating;
    AnsweredAlternating(s.convs[d], text, tokens);
  }

  lemma SpokenStep(cfg: Config, s: State, a: Action, c: nat)
    requires c < |s.convs| == |cfg.input| && Enabled(cfg, s, a) && PlacedConv(s, c) && Spoken(cfg, s, c)
    ensures |Apply(cfg, s, a).convs| == |cfg.input| && Spoken(cfg, Apply(cfg, s, a), c)
  {
    hide Alternating, Planned, Answered;
    if a.Post? && a.conv == c {
      SpokenPost(cfg, s, c);
    } else if a.Succeed? && a.conv == c {
      SpokenSucceed(cfg, s, c, a.text, a.tokens);
    }
  }

  // ----- prompt length -------------------------------------------------------------------

  /** Tokens of the first k turns as the benchmark adds them up. */
  function TurnTokens(prompts: seq<Turn>, k: nat): (n: int)
    requires k <= |prompts|
  {
    if k == 0 then 0 else TurnTokens(prompts, k - 1) + prompts[k - 1].inputLen + prompts[k - 1].outputLen
  }

  /** `prompt_len` of the turn about to be posted. */
  function PromptLen(conv: Conversation): (n: int)
    requires conv.finished < |conv.prompts|
  {
    TurnTokens(conv.prompts, conv.finished) + conv.prompts[conv.finished].inputLen
  }

  function ContextTokens(messages: seq<Message>): (n: int) {
    if messages == [] then 0 else ContextTokens(messages[..|messages| - 1]) + messages[|messages| - 1].tokens
  }

  lemma {:induction false} TranscriptTokens(conv: Conversation, k: nat)
    requires Alternating(conv) && k <= |conv.prompts| && 2 * k <= |conv.messages|
    ensures ContextTokens(conv.messages[..2 * k]) == TurnTokens(conv.prompts, k)
  {
    if k > 0 {
      TranscriptTokens(conv, k - 1);
      var m := conv.messages;
      assert MessageOk(conv, 2 * k - 2) && MessageOk(conv, 2 * k - 1);
      assert m[..2 * k][..2 * k - 1] == m[..2 * k - 1] && m[..2 * k - 1][..2 * k - 2] == m[..2 * k - 2];
    }
  }

  /** The computed `prompt_len` is the token count of everything sent: earlier answers count
      with their measured length, not the planned one. */
  lemma PromptLenIsContext(conv: Conversation)
    requires Alternating(conv) && conv.finished < |conv.prompts| && |conv.messages| == 2 * conv.finished
    ensures var t := conv.prompts[conv.finished];
            PromptLen(conv) == ContextTokens(conv.messages + [User(t.prompt, t.inputLen)])
  {
    TranscriptTokens(conv, conv.finished);
    var t, m := conv.prompts[conv.finished], conv.messages;
    assert (m + [User(t.prompt, t.inputLen)])[..|m|] == m && m[..2 * conv.finished] == m;
  }

  // ----- counting dispatches ---------------------------------------------------------------

  /** Turns of conversation c dispatched so far. */
  function Started(s: State, c: nat): (n: nat)
    requires c < |s.convs|
  {
    s.convs[c].finished + One(c !in s.queue)
  }

  function StartedSeq(s: State): (r: seq<int>)
    ensures |r| == |s.convs|
    ensures forall c :: 0 <= c < |r| ==> r[c] == Started(s, c)
  {
    seq(|s.convs|, c requires 0 <= c < |s.convs| => Started(s, c))
  }

  lemma StartedDispatch(cfg: Config, s: State)
    requires Placed(cfg, s) && Enabled(cfg, s, Dispatch)
    ensures s.queue[0] < |s.convs|
    ensures StartedSeq(Apply(cfg, s, Dispatch)) == StartedSeq(s)[s.queue[0] := StartedSeq(s)[s.queue[0]] + 1]
  {
    var r, d := Apply(cfg, s, Dispatch), s.queue[0];
    assert s.queue == [d] + r.queue;
    assert PlacedConv(s, d) && multiset(s.queue)[d] >= 1;
    assert d !in r.queue by { assert multiset(r.queue)[d] == 0; }
    forall c | 0 <= c < |s.convs| && c != d ensures Started(r, c) == Started(s, c) {
      assert c in s.queue <==> c in r.queue;
    }
  }

  lemma StartedOtherAt(cfg: Config, s: State, a: Action, c: nat)
    requires Enabled(cfg, s, a) && !a.Dispatch? && c < |s.convs| && PlacedConv(s, Subject(s, a))
    ensures |Apply(cfg, s, a).convs| == |s.convs| && Started(Apply(cfg, s, a), c) == Started(s, c)
  {
    var d := Subject(s, a);
    assert d in s.queue ==> d in multiset(s.queue);
    assert c in s.queue + [d] <==> c in s.queue || c == d;
  }

  lemma StartedOther(cfg: Config, s: State, a: Action)
    requires Placed(cfg, s) && Enabled(cfg, s, a) && !a.Dispatch?
    ensures StartedSeq(Apply(cfg, s, a)) == StartedSeq(s)
  {
    hide Apply, Started;
    var r := Apply(cfg, s, a);
    assert PlacedConv(s, Subject(s, a));
    PlacedStep(cfg, s, a);
    forall c | 0 <= c < |s.convs| ensures Started(r, c) == Started(s, c) {
      StartedOtherAt(cfg, s, a, c);
    }
  }

  ghost predicate Inv(cfg: Config, s: State) {
    && Placed(cfg, s)
    && (forall c: nat :: c < |s.convs| ==> Spoken(cfg, s, c))
    && s.dispatched == Sum(StartedSeq(s))
    && (cfg.maxConcurrency.Some? ==> |s.posted| <= cfg.maxConcurrency.value)
  }

  lemma InvInit(cfg: Config)
    ensures Inv(cfg, Init(cfg))
  {
    var s := Init(cfg);
    PlacedInit(cfg);
    forall c: nat | c < |s.convs| ensures Spoken(cfg, s, c) {
    }
    forall c | 0 <= c < |s.convs| ensures StartedSeq(s)[c] == 0 {
      assert s.queue[c] == c;
    }
    SumZero(StartedSeq(s));
  }

  lemma PostedBound(cfg: Config, s: State, a: Action)
    requires Enabled(cfg, s, a) && (cfg.maxConcurrency.Some? ==> |s.posted| <= cfg.maxConcurrency.value)
    ensures cfg.maxConcurrency.Some? ==> |Apply(cfg, s, a).posted| <= cfg.maxConcurrency.value
    ensures Apply(cfg, s, a).dispatched == s.dispatched + One(a.Dispatch?)
  {
    hide Answered;
    match a
    case Succeed(c, _, _) => assert s.posted - {c} <= s.posted; assert |s.posted - {c}| == |s.posted| - 1;
    case Fail(c) => assert |s.posted - {c}| == |s.posted| - 1;
    case _ =>
  }

  lemma InvStep(cfg: Config, s: State, a: Action)
    requires Inv(cfg, s) && Enabled(cfg, s, a)
    ensures Inv(cfg, Apply(cfg, s, a))
  {
    hide Apply, Spoken, PlacedConv, Started, StartedSeq, Sum, PlaceTotal;
    var r := Apply(cfg, s, a);
    PlacedStep(cfg, s, a);
    PostedBound(cfg, s, a);
    forall c: nat | c < |r.convs| ensures Spoken(cfg, r, c) {
      assert PlacedConv(s, c);
      SpokenStep(cfg, s, a, c);
    }
    if a.Dispatch? {
      StartedDispatch(cfg, s);
      SumUpdate(StartedSeq(s), s.queue[0], StartedSeq(s)[s.queue[0]] + 1);
    } else {
      StartedOther(cfg, s, a);
    }
  }

  lemma {:induction false} InvAlways(cfg: Config, acts: seq<Action>, tr: seq<State>, k: nat)
    requires Run(cfg, acts, tr) && k <= |acts|
    ensures Inv(cfg, tr[k])
  {
    hide Inv, Apply, Enabled, Init;
    if k == 0 {
      InvInit(cfg);
    } else {
      InvAlways(cfg, acts, tr, k - 1);
      InvStep(cfg, tr[k - 1], acts[k - 1]);
    }
  }

  // ----- what holds in every run ---------------------------------------------------------------

  /** The bounded queue has room whenever a conversation is put back, so a task never blocks on it. */
  lemma RequeueNeverBlocks(cfg: Config, acts: seq<Action>, tr: seq<State>, k: nat)
    requires Run(cfg, acts, tr) && k < |acts| && acts[k].Succeed?
    ensures |tr[k].queue| < |cfg.input|
  {
    InvAlways(cfg, acts, tr, k);
    assert |tr[k].posted| > 0 by { assert tr[k].posted != {}; }
  }

  /** A queued conversation holds exactly its finished turns, prompt and answer alternating. */
  lemma QueuedTranscript(cfg: Config, acts: seq<Action>, tr: seq<State>, k: nat, c: nat)
    requires Run(cfg, acts, tr) && k <= |acts| && c in tr[k].queue
    ensures c < |tr[k].convs|
    ensures c !in tr[k].waiting && c !in tr[k].posted && c !in tr[k].finished && c !in tr[k].failed
    ensures |tr[k].convs[c].messages| == 2 * tr[k].convs[c].finished && Alternating(tr[k].convs[c])
  {
    InvAlways(cfg, acts, tr, k);
    assert PlacedConv(tr[k], c) && c in multiset(tr[k].queue);
    assert Spoken(cfg, tr[k], c);
  }

  /** Successful turns of c among the first k steps. */
  function Successes(acts: seq<Action>, k: nat, c: nat): (n: nat)
    requires k <= |acts|
  {
    if k == 0 then 0 else Successes(acts, k - 1, c) + One(acts[k - 1].Succeed? && acts[k - 1].conv == c)
  }

  /** Dispatched turns of c among the first k steps. */
  ghost function Dispatches(acts: seq<Action>, tr: seq<State>, k: nat, c: nat): (n: nat)
    requires k <= |acts| == |tr| - 1
  {
    if k == 0 then 0
    else Dispatches(acts, tr, k - 1, c) + One(acts[k - 1].Dispatch? && tr[k - 1].queue != [] && tr[k - 1].queue[0] == c)
  }

  lemma ProgressStep(cfg: Config, s: State, a: Action, c: nat)
    requires Inv(cfg, s) && Enabled(cfg, s, a) && c < |s.convs|
    ensures var r := Apply(cfg, s, a);
            && |r.convs| == |s.convs|
            && r.convs[c].finished + One(c in r.finished)
                 == s.convs[c].finished + One(c in s.finished) + One(a.Succeed? && a.conv == c)
            && Started(r, c) == Started(s, c) + One(a.Dispatch? && s.queue[0] == c)
  {
    hide Sum, Alternating;
    assert PlacedConv(s, c) && Spoken(cfg, s, c);
    if a.Dispatch? {
      StartedDispatch(cfg, s);
      assert StartedSeq(Apply(cfg, s, a))[c] == Started(Apply(cfg, s, a), c);
      assert StartedSeq(s)[c] == Started(s, c);
    } else {
      StartedOther(cfg, s, a);
      assert StartedSeq(Apply(cfg, s, a))[c] == Started(Apply(cfg, s, a), c);
      assert StartedSeq(s)[c] == Started(s, c);
    }
  }

  lemma {:induction false} Progress(cfg: Config, acts: seq<Action>, tr: seq<State>, k: nat, c: nat)
    requires Run(cfg, acts, tr) && k <= |acts| && c < |cfg.input|
    ensures |tr[k].convs| == |cfg.input|
    ensures Successes(acts, k, c) == tr[k].convs[c].finished + One(c in tr[k].finished)
    ensures Dispatches(acts, tr, k, c) == Started(tr[k], c)
  {
    if k == 0 {
      assert tr[0].queue[c] == c;
    } else {
      hide Apply, Started, Inv, Init;
      Progress(cfg, acts, tr, k - 1, c);
      InvAlways(cfg, acts, tr, k - 1);
      ProgressStep(cfg, tr[k - 1], acts[k - 1], c);
    }
  }

  /** Turn j of a conversation (from 0) is dispatched only after its first j turns succeeded,
      and it is then the j+1st dispatch of that conversation. */
  lemma TurnAfterSuccess(cfg: Config, acts: seq<Action>, tr: seq<State>, k: nat)
    requires Run(cfg, acts, tr) && k < |acts| && acts[k] == Dispatch
    ensures var c := tr[k].queue[0];
            && c < |cfg.input| == |tr[k].convs|
            && Successes(acts, k, c) == tr[k].convs[c].finished == Dispatches(acts, tr, k, c)
  {
    var c := tr[k].queue[0];
    QueuedTranscript(cfg, acts, tr, k, c);
    InvAlways(cfg, acts, tr, k);
    Progress(cfg, acts, tr, k, c);
  }

  /** The answers of c among the first k steps, text and tokens, in order. */
  function AnswersTo(acts: seq<Action>, k: nat, c: nat): (r: seq<(string, int)>)
    requires k <= |acts|
    ensures |r| == Successes(acts, k, c)
  {
    if k == 0 then []
    else
      var a := acts[k - 1];
      AnswersTo(acts, k - 1, c) + if a.Succeed? && a.conv == c then [(a.text, a.tokens)] else []
  }

  /** Every answer stands in the messages behind its prompt. */
  ghost predicate HoldsAnswers(messages: seq<Message>, answers: seq<(string, int)>) {
    forall j :: 0 <= j < |answers| ==>
      2 * j + 1 < |messages| && messages[2 * j + 1] == Assistant(answers[j].0, answers[j].1)
  }

  lemma HoldsStep(cfg: Config, s: State, a: Action, c: nat, answers: seq<(string, int)>)
    requires Enabled(cfg, s, a) && c < |s.convs| == |cfg.input| && PlacedConv(s, c) && Spoken(cfg, s, c)
    requires HoldsAnswers(s.convs[c].messages, answers) && |answers| == s.convs[c].finished + One(c in s.finished)
    ensures |Apply(cfg, s, a).convs| == |s.convs|
    ensures HoldsAnswers(Apply(cfg, s, a).convs[c].messages,
                         answers + if a.Succeed? && a.conv == c then [(a.text, a.tokens)] else [])
  {
    hide Alternating, Planned;
  }

  lemma {:induction false} AnswersHeld(cfg: Config, acts: seq<Action>, tr: seq<State>, k: nat, c: nat)
    requires Run(cfg, acts, tr) && k <= |acts| && c < |cfg.input|
    ensures |tr[k].convs| == |cfg.input| && HoldsAnswers(tr[k].convs[c].messages, AnswersTo(acts, k, c))
  {
    Progress(cfg, acts, tr, k, c);
    if k > 0 {
      hide Apply, Enabled, Init, HoldsAnswers, Sum, PlacedConv, Spoken;
      AnswersHeld(cfg, acts, tr, k - 1, c);
      InvAlways(cfg, acts, tr, k - 1);
      Progress(cfg, acts, tr, k - 1, c);
      assert PlacedConv(tr[k - 1], c) && Spoken(cfg, tr[k - 1], c);
      HoldsStep(cfg, tr[k - 1], acts[k - 1], c, AnswersTo(acts, k - 1, c));
    }
  }

  /** The whole transcript of a queued conversation: its prompts as planned, each followed by the answer
      that was received for it. */
  lemma TranscriptIs(cfg: Config, acts: seq<Action>, tr: seq<State>, k: nat, c: nat)
    requires Run(cfg, acts, tr) && k <= |acts| && c in tr[k].queue
    ensures c < |tr[k].convs| == |cfg.input|
    ensures var messages, answers := tr[k].convs[c].messages, AnswersTo(acts, k, c);
            && |messages| == 2 * |answers| && |answers| <= |cfg.input[c]|
            && forall j :: 0 <= j < |answers| ==>
                 && messages[2 * j] == User(cfg.input[c][j].prompt, cfg.input[c][j].inputLen)
                 && messages[2 * j + 1] == Assistant(answers[j].0, answers[j].1)
  {
    hide Apply, Enabled, Init, Sum;
    InvAlways(cfg, acts, tr, k);
    QueuedTranscript(cfg, acts, tr, k, c);
    Progress(cfg, acts, tr, k, c);
    AnswersHeld(cfg, acts, tr, k, c);
    var conv := tr[k].convs[c];
    assert Spoken(cfg, tr[k], c);
    forall j | 0 <= j < |AnswersTo(acts, k, c)|
      ensures conv.messages[2 * j] == User(cfg.input[c][j].prompt, cfg.input[c][j].inputLen)
    {
      assert MessageOk(conv, 2 * j);
    }
  }

  /** What a step takes from the queue, and what it puts back. */
  function TakenBy(s: State, a: Action): (r: seq<nat>) {
    if a.Dispatch? && s.queue != [] then [s.queue[0]] else []
  }

  function PutBackBy(s: State, a: Action): (r: seq<nat>) {
    if a.Succeed? && a.conv < |s.convs| && s.convs[a.conv].finished + 1 < |s.convs[a.conv].prompts| then [a.conv]
    else []
  }

  lemma QueueStep(cfg: Config, s: State, a: Action)
    requires Enabled(cfg, s, a)
    ensures TakenBy(s, a) + Apply(cfg, s, a).queue == s.queue + PutBackBy(s, a)
  {
    hide Answered;
  }

  /** Conversations taken from the queue between steps k and m, in order. */
  ghost function Taken(acts: seq<Action>, tr: seq<State>, k: nat, m: nat): (r: seq<nat>)
    requires k <= m <= |acts| == |tr| - 1
  {
    if k == m then [] else Taken(acts, tr, k, m - 1) + TakenBy(tr[m - 1], acts[m - 1])
  }

  /** Conversations put back between steps k and m, in order. */
  ghost function PutBack(acts: seq<Action>, tr: seq<State>, k: nat, m: nat): (r: seq<nat>)
    requires k <= m <= |acts| == |tr| - 1
  {
    if k == m then [] else PutBack(acts, tr, k, m - 1) + PutBackBy(tr[m - 1], acts[m - 1])
  }

  /** First in, first out: what was taken followed by what is queued is what was queued followed by
      what was put back. A conversation waits for exactly those queued before it. */
  lemma {:induction false} QueueIsFifo(cfg: Config, acts: seq<Action>, tr: seq<State>, k: nat, m: nat)
    requires Run(cfg, acts, tr) && k <= m <= |acts|
    ensures Taken(acts, tr, k, m) + tr[m].queue == tr[k].queue + PutBack(acts, tr, k, m)
    decreases m - k
  {
    hide Init, Apply, Enabled, TakenBy, PutBackBy;
    if k < m {
      QueueIsFifo(cfg, acts, tr, k, m - 1);
      var s, a := tr[m - 1], acts[m - 1];
      QueueStep(cfg, s, a);
      FifoExtend(Taken(acts, tr, k, m - 1), s.queue, tr[k].queue, PutBack(acts, tr, k, m - 1),
                 TakenBy(s, a), tr[m].queue, PutBackBy(s, a));
    }
  }

  ghost predicate NoEmpty(input: seq<seq<Turn>>) {
    forall c :: 0 <= c < |input| ==> input[c] != []
  }

  lemma {:induction false} TotalBound(input: seq<seq<Turn>>, started: seq<int>)
    requires |started| == |input| && forall c :: 0 <= c < |input| ==> started[c] <= |input[c]|
    ensures Sum(started) <= TotalTurns(input)
    ensures Sum(started) == TotalTurns(input) <==> forall c :: 0 <= c < |input| ==> started[c] == |input[c]|
  {
    if input != [] {
      TotalBound(input[..|input| - 1], started[..|started| - 1]);
    }
  }

  lemma StartedBound(cfg: Config, s: State, c: nat)
    requires Inv(cfg, s) && c < |cfg.input| && cfg.input[c] != []
    ensures Started(s, c) <= |cfg.input[c]|
    ensures c in s.finished ==> Started(s, c) == |cfg.input[c]|
    ensures c in s.queue ==> Started(s, c) < |cfg.input[c]|
  {
    hide Sum, StartedSeq, Alternating;
    assert Spoken(cfg, s, c) && PlacedConv(s, c);
    assert c in s.queue ==> c in multiset(s.queue);
  }

  lemma InitDispatched(cfg: Config)
    ensures Init(cfg).dispatched == 0
  {
  }

  lemma DispatchedStep(cfg: Config, s: State, a: Action)
    requires Enabled(cfg, s, a)
    ensures Apply(cfg, s, a).dispatched == s.dispatched + One(a.Dispatch?)
  {
    hide Answered;
  }

  lemma {:induction false} LimitBound(cfg: Config, acts: seq<Action>, tr: seq<State>, k: nat)
    requires Run(cfg, acts, tr) && k <= |acts|
    ensures tr[k].dispatched <= cfg.limit
  {
    hide Init, Apply, Answered;
    if k == 0 {
      assert tr[0].dispatched == 0 by { InitDispatched(cfg); }
    } else {
      LimitBound(cfg, acts, tr, k - 1);
      DispatchedStep(cfg, tr[k - 1], acts[k - 1]);
    }
  }

  /** For every input, also one with empty conversations, and with or without splitting shared
      prefixes, at most as many turns are dispatched as the input holds. */
  lemma TurnsBound(input: seq<seq<Turn>>, sharedPrefix: bool, maxConcurrency: Option<nat>,
                   acts: seq<Action>, tr: seq<State>, k: nat)
    requires Run(SetUp(input, sharedPrefix, maxConcurrency), acts, tr) && k <= |acts|
    ensures tr[k].dispatched <= TotalTurns(input)
  {
    LimitBound(SetUp(input, sharedPrefix, maxConcurrency), acts, tr, k);
  }

  /** Without empty conversations there are never more dispatches than turns, even without the
      dispatcher's own limit. */
  lemma DispatchBound(cfg: Config, acts: seq<Action>, tr: seq<State>, k: nat)
    requires Run(cfg, acts, tr) && k <= |acts| && NoEmpty(cfg.input)
    ensures tr[k].dispatched <= TotalTurns(cfg.input)
  {
    hide Sum, TotalTurns;
    InvAlways(cfg, acts, tr, k);
    forall c | 0 <= c < |cfg.input| ensures StartedSeq(tr[k])[c] <= |cfg.input[c]| {
      StartedBound(cfg, tr[k], c);
    }
    TotalBound(cfg.input, StartedSeq(tr[k]));
  }

  /** Nothing is outstanding and the dispatcher has nothing left to take. */
  ghost predicate Quiescent(cfg: Config, s: State) {
    s.waiting == {} && s.posted == {} && (s.queue == [] || s.dispatched >= cfg.limit)
  }

  lemma QuiescentDrained(cfg: Config, s: State)
    requires Inv(cfg, s) && NoEmpty(cfg.input) && cfg.limit == TotalTurns(cfg.input)
    requires Quiescent(cfg, s) && s.failed == {}
    ensures s.queue == [] && s.dispatched == cfg.limit
  {
    hide Sum, TotalTurns, PlaceTotal, Spoken;
    var started := StartedSeq(s);
    forall c | 0 <= c < |cfg.input| ensures started[c] <= |cfg.input[c]| {
      StartedBound(cfg, s, c);
    }
    TotalBound(cfg.input, started);
    if s.queue != [] {
      var c := s.queue[0];
      assert PlacedConv(s, c) && c in multiset(s.queue);
      StartedBound(cfg, s, c);
      assert false;
    }
    forall c: nat | c < |cfg.input| ensures started[c] == |cfg.input[c]| {
      assert PlacedConv(s, c);
      StartedBound(cfg, s, c);
    }
  }

  /** A run without failures that comes to rest has dispatched every turn and finished every
      conversation with its whole transcript. */
  lemma FailureFreeCompletes(cfg: Config, acts: seq<Action>, tr: seq<State>, k: nat)
    requires Run(cfg, acts, tr) && k <= |acts| && NoEmpty(cfg.input) && cfg.limit == TotalTurns(cfg.input)
    requires Quiescent(cfg, tr[k]) && tr[k].failed == {}
    ensures tr[k].dispatched == cfg.limit && |tr[k].convs| == |cfg.input|
    ensures forall c :: 0 <= c < |cfg.input| ==> c in tr[k].finished && |tr[k].convs[c].messages| == 2 * |cfg.input[c]|
  {
    hide Sum, TotalTurns, PlaceTotal, StartedSeq, Alternating;
    InvAlways(cfg, acts, tr, k);
    QuiescentDrained(cfg, tr[k]);
    forall c: nat | c < |cfg.input| ensures c in tr[k].finished && |tr[k].convs[c].messages| == 2 * |cfg.input[c]| {
      assert PlacedConv(tr[k], c) && Spoken(cfg, tr[k], c);
    }
  }

  // ----- turns of different conversations overlap -------------------------------------------------

  lemma RunSnoc(cfg: Config, acts: seq<Action>, tr: seq<State>, a: Action)
    requires Run(cfg, acts, tr) && Enabled(cfg, tr[|acts|], a)
    ensures Run(cfg, acts + [a], tr + [Apply(cfg, tr[|acts|], a)])
  {
    hide Apply, Enabled, Init;
  }

  /** Nothing but dispatching and posting. */
  predicate Opening(a: Action) {
    a.Dispatch? || a.Post?
  }

  /** The head of the queue is dispatched and its turn posted, whatever is outstanding, as long as the
      limits leave room. */
  lemma OpenOne(cfg: Config, s: State) returns (t: State, r: State)
    requires Inv(cfg, s) && NoEmpty(cfg.input) && s.queue != [] && s.dispatched < cfg.limit
    requires cfg.maxConcurrency.Some? ==> |s.posted| < cfg.maxConcurrency.value
    ensures Enabled(cfg, s, Dispatch) && t == Apply(cfg, s, Dispatch)
    ensures Enabled(cfg, t, Post(s.queue[0])) && r == Apply(cfg, t, Post(s.queue[0]))
    ensures r.queue == s.queue[1..] && r.posted == s.posted + {s.queue[0]} && s.queue[0] !in s.posted
    ensures r.dispatched == s.dispatched + 1 && (s.waiting == {} ==> r.waiting == {})
  {
    hide Sum, StartedSeq, Alternating, PlaceTotal;
    var c := s.queue[0];
    assert PlacedConv(s, c) && c in multiset(s.queue);
    assert Spoken(cfg, s, c);
    t := Apply(cfg, s, Dispatch);
    r := Apply(cfg, t, Post(c));
  }

  /** From the start, before any answer, n turns of different conversations are outstanding at once, for
      every n up to the number of conversations and the concurrency limit. */
  lemma {:induction false} OpensUp(cfg: Config, n: nat) returns (acts: seq<Action>, tr: seq<State>)
    requires NoEmpty(cfg.input) && n <= |cfg.input| <= cfg.limit
    requires cfg.maxConcurrency.Some? ==> n <= cfg.maxConcurrency.value
    ensures Run(cfg, acts, tr) && forall k :: 0 <= k < |acts| ==> Opening(acts[k])
    ensures var s := tr[|acts|];
            |s.posted| == n == s.dispatched && s.waiting == {} && |s.queue| == |cfg.input| - n
  {
    hide Apply, Enabled, Inv;
    if n == 0 {
      acts, tr := [], [Init(cfg)];
    } else {
      hide Init;
      acts, tr := OpensUp(cfg, n - 1);
      var s := tr[|acts|];
      InvAlways(cfg, acts, tr, |acts|);
      var t, r := OpenOne(cfg, s);
      RunSnoc(cfg, acts, tr, Dispatch);
      RunSnoc(cfg, acts + [Dispatch], tr + [t], Post(s.queue[0]));
      acts, tr := acts + [Dispatch] + [Post(s.queue[0])], tr + [t] + [r];
    }
  }

  // ----- every run ends ------------------------------------------------------------------------

  lemma StepsLeft(cfg: Config, s: State, a: Action)
    requires Enabled(cfg, s, a) && PlacedConv(s, Subject(s, a))
    ensures var t := Apply(cfg, s, a);
            3 * t.dispatched - 2 * |t.waiting| - |t.posted| > 3 * s.dispatched - 2 * |s.waiting| - |s.posted|
  {
    hide Answered;
    var c := Subject(s, a);
    match a
    case Dispatch => assert c in multiset(s.queue); assert |s.waiting + {c}| == |s.waiting| + 1;
    case Post(_) =>
      assert |s.waiting - {c}| == |s.waiting| - 1;
      assert |s.posted + {c}| <= |s.posted| + 1;
    case _ => assert |s.posted - {c}| == |s.posted| - 1;
  }

  lemma InitIdle(cfg: Config)
    ensures Init(cfg).waiting == {} && Init(cfg).posted == {}
  {
  }

  lemma InvPlaced(cfg: Config, s: State)
    requires Inv(cfg, s)
    ensures forall c: nat :: PlacedConv(s, c)
  {
  }

  /** Each dispatched turn takes three steps at most, so every run ends after three times the limit. */
  lemma {:induction false} StepsBound(cfg: Config, acts: seq<Action>, tr: seq<State>, k: nat)
    requires Run(cfg, acts, tr) && k <= |acts|
    ensures k <= 3 * tr[k].dispatched - 2 * |tr[k].waiting| - |tr[k].posted|
    ensures k <= 3 * cfg.limit
  {
    hide Init, Apply, Enabled, Inv;
    LimitBound(cfg, acts, tr, k);
    if k == 0 {
      assert tr[0].waiting == {} && tr[0].posted == {} by { InitIdle(cfg); }
    } else {
      StepsBound(cfg, acts, tr, k - 1);
      InvAlways(cfg, acts, tr, k - 1);
      assert PlacedConv(tr[k - 1], Subject(tr[k - 1], acts[k - 1])) by { InvPlaced(cfg, tr[k - 1]); }
      StepsLeft(cfg, tr[k - 1], acts[k - 1]);
    }
  }

  /** A run stops only at rest: while a task or the dispatcher has work left some step other than a
      failure is possible. */
  lemma StepPossible(cfg: Config, s: State) returns (a: Action)
    requires Inv(cfg, s) && !Quiescent(cfg, s) && (cfg.maxConcurrency.Some? ==> cfg.maxConcurrency.value >= 1)
    ensures Enabled(cfg, s, a) && !a.Fail?
  {
    hide Sum, StartedSeq, PlaceTotal, Alternating, Planned;
    if c :| c in s.posted {
      assert PlacedConv(s, c) && Spoken(cfg, s, c);
      a := Succeed(c, "", 0);
    } else if c :| c in s.waiting {
      assert PlacedConv(s, c);
      assert s.posted == {};
      a := Post(c);
    } else {
      assert s.posted == {} && s.waiting == {};
      a := Dispatch;
    }
  }

  // ----- the benchmark object, updated in place ----------------------------------------------

  class Benchmark {
    const cfg: Config
    var convs: seq<Conversation>
    var queue: seq<nat>
    var waiting: set<nat>
    var posted: set<nat>
    var finished: set<nat>
    var failed: set<nat>
    var dispatched: nat

    ghost function View(): State
      reads this
    {
      State(convs, queue, waiting, posted, finished, failed, dispatched)
    }

    ghost predicate Valid()
      reads this
    {
      Inv(cfg, View())
    }

    constructor (input: seq<seq<Turn>>, sharedPrefix: bool, maxConcurrency: Option<nat>)
      ensures Valid() && cfg == SetUp(input, sharedPrefix, maxConcurrency) && View() == Init(cfg)
      ensures Queues(input, sharedPrefix, cfg.input) && |convs| == |cfg.input|
      ensures forall c :: 0 <= c < |convs| ==> convs[c] == Conversation(cfg.input[c], [], 0) && queue[c] == c
      ensures cfg.limit == TotalTurns(input) && dispatched == 0 && |queue| == |convs|
    {
      var c := SetUp(input, sharedPrefix, maxConcurrency);
      var n := |c.input|;
      cfg := c;
      convs := seq(n, i requires 0 <= i < n => Conversation(c.input[i], [], 0));
      queue := seq(n, i => i);
      waiting, posted, finished, failed, dispatched := {}, {}, {}, {}, 0;
      new;
      hide Inv, Queues;
      InvInit(cfg);
      SetUpQueues(input, sharedPrefix, maxConcurrency);
    }

    /** `get_requests`: take the next conversation, at most `limit` times. */
    method GetRequest() returns (c: Option<nat>)
      requires Valid()
      modifies this
      ensures Valid()
      ensures c.Some? <==> Enabled(cfg, old(View()), Dispatch)
      ensures c.Some? <==> old(queue) != [] && old(dispatched) < cfg.limit
      ensures c.Some? ==> c.value == old(queue)[0] && View() == Apply(cfg, old(View()), Dispatch)
      ensures c.None? ==> View() == old(View())
    {
      hide Inv;
      if queue == [] || dispatched >= cfg.limit {
        return None;
      }
      InvStep(cfg, View(), Dispatch);
      c := Some(queue[0]);
      waiting := waiting + {queue[0]};
      queue := queue[1..];
      dispatched := dispatched + 1;
    }

    /** Start of a turn: the prompt joins the messages. An empty conversation raises. */
    method PostTurn(c: nat) returns (promptLen: Option<int>)
      requires Valid() && Enabled(cfg, View(), Post(c))
      modifies this
      ensures Valid() && View() == Apply(cfg, old(View()), Post(c))
      ensures promptLen.Some? <==> old(convs)[c].prompts != []
      ensures promptLen.Some? ==> promptLen.value == ContextTokens(convs[c].messages)
    {
      hide Started, StartedSeq, Sum, Alternating, Planned;
      InvStep(cfg, View(), Post(c));
      assert Spoken(cfg, View(), c) && PlacedConv(View(), c);
      var conv := convs[c];
      waiting := waiting - {c};
      if conv.finished >= |conv.prompts| {
        failed := failed + {c};
        return None;
      }
      PromptLenIsContext(conv);
      promptLen := Some(PromptLen(conv));
      var turn := conv.prompts[conv.finished];
      convs := convs[c := conv.(messages := conv.messages + [User(turn.prompt, turn.inputLen)])];
      posted := posted + {c};
    }

    /** End of a successful turn: measured length, answer, and back into the queue if turns remain. */
    method TurnSucceeded(c: nat, text: string, tokens: int)
      requires Valid() && Enabled(cfg, View(), Succeed(c, text, tokens))
      modifies this
      ensures Valid() && View() == Apply(cfg, old(View()), Succeed(c, text, tokens))
    {
      hide Inv;
      InvStep(cfg, View(), Succeed(c, text, tokens));
      var conv := convs[c];
      var k := conv.finished;
      posted := posted - {c};
      conv := conv.(prompts := conv.prompts[k := conv.prompts[k].(outputLen := tokens)]);
      conv := conv.(messages := conv.messages + [Assistant(text, tokens)]);
      if k + 1 < |conv.prompts| {
        conv := conv.(finished := k + 1);
        queue := queue + [c];
      } else {
        finished := finished + {c};
      }
      convs := convs[c := conv];
    }

    method TurnFailed(c: nat)
      requires Valid() && Enabled(cfg, View(), Fail(c))
      modifies this
      ensures Valid() && View() == Apply(cfg, old(View()), Fail(c))
    {
      hide Inv;
      InvStep(cfg, View(), Fail(c));
      posted := posted - {c};
      failed := failed + {c};
    }
  }
}
