/** The multi-turn load generator: a sender thread and a response handler thread share
    counters, a ready queue and, when enabled, a barrier between rounds. Each action below
    is one step of one thread that the other thread can observe. */
module RoundBarrier {
  import opened Prelude

  /** `total[c]` is client c's round count. `fifo` is the ready-queue policy, otherwise random. */
  datatype Config = Config(total: seq<nat>, maxRounds: nat, maxParallel: int, barrier: bool, fifo: bool)

  /** What the round planning of the constructor establishes. */
  ghost predicate Planned(cfg: Config) {
    forall c :: 0 <= c < |cfg.total| ==> 1 <= cfg.total[c] <= cfg.maxRounds
  }

  /** Where the handler is inside its loop body. */
  datatype Pc = Idle | Took(client: nat) | Releasing(next: nat)

  datatype State = State(
    round: seq<nat>,        // rounds each client has successfully finished
    ready: seq<nat>,        // ready_queue: clients whose next request may be sent
    inFlight: set<nat>,     // sent, response not yet handled
    held: seq<nat>,         // next_round_reqs
    failed: set<nat>,       // clients whose last response was a failure
    sent: nat,
    completed: nat,
    subQuestions: int,      // len(sub_question_inputs)
    barrierRound: nat,
    barrierDone: nat,
    permit: bool,           // the sender has seen room and not yet popped
    pc: Pc)

  datatype Action =
    | CheckRoom
    | PopEmpty
    | PopReady(k: nat)
    | Respond(client: nat, success: bool)
    | Requeue
    | ReleaseOne
    | ReleaseDone

  // ----- round planning ------------------------------------------------------

  datatype PlanError = MinRoundsBelowOne | MinRoundsAboveMax

  /** The per-client round range from the three options, zero meaning not given. */
  function ResolveRounds(numRounds: int, minRounds: int, maxRounds: int): (r: Result<(int, int), PlanError>)
    ensures r.Ok? ==> 1 <= r.value.0 <= r.value.1
    ensures minRounds != 0 && maxRounds != 0 ==>
              if 1 <= minRounds <= maxRounds then r == Ok((minRounds, maxRounds)) else r.Err?
    ensures (minRounds == 0 || maxRounds == 0) ==>
              var rounds := if minRounds != 0 then minRounds else if maxRounds != 0 then maxRounds else numRounds;
              r == if rounds >= 1 then Ok((rounds, rounds)) else Err(MinRoundsBelowOne)
  {
    var lo := if minRounds != 0 then minRounds else if maxRounds != 0 then maxRounds else numRounds;
    var hi := if maxRounds != 0 then maxRounds else lo;
    if lo < 1 then Err(MinRoundsBelowOne) else if lo > hi then Err(MinRoundsAboveMax) else Ok((lo, hi))
  }

  /** Clients taking part in round r. */
  function ClientsAbove(total: seq<nat>, r: nat): (k: nat) {
    if total == [] then 0 else ClientsAbove(total[..|total| - 1], r) + if total[|total| - 1] > r then 1 else 0
  }

  function ClientsPerRound(total: seq<nat>, n: nat): (k: seq<int>)
    ensures |k| == n
    ensures forall r :: 0 <= r < n ==> k[r] == ClientsAbove(total, r)
  {
    if n == 0 then [] else ClientsPerRound(total, n - 1) + [ClientsAbove(total, n - 1)]
  }

  function Ints(s: seq<nat>): (r: seq<int>)
    ensures |r| == |s| && forall i :: 0 <= i < |s| ==> r[i] == s[i]
  {
    seq(|s|, i requires 0 <= i < |s| => s[i])
  }

  /** `sum(max(t - 1, 0) for t in client_total_rounds)`. */
  function SubQuestionsNeeded(total: seq<nat>): (k: nat) {
    if total == [] then 0
    else SubQuestionsNeeded(total[..|total| - 1]) + if total[|total| - 1] > 1 then total[|total| - 1] - 1 else 0
  }

  function Init(cfg: Config): (s: State) {
    var n := |cfg.total|;
    var need := SubQuestionsNeeded(cfg.total);
    State(seq(n, _ => 0), seq(n, i => i), {}, [], {}, 0, 0, if need > 1 then need else 1, 0, 0, false, Idle)
  }

  // ----- the steps -----------------------------------------------------------

  predicate Enabled(cfg: Config, s: State, a: Action) {
    match a
    case CheckRoom => !s.permit && s.sent - s.completed < cfg.maxParallel
    case PopEmpty => s.permit && s.ready == []
    case PopReady(k) => s.permit && k < |s.ready| && (cfg.fifo ==> k == 0)
    case Respond(c, _) => s.pc == Idle && c in s.inFlight && c < |s.round|
    case Requeue => s.pc.Took? && s.pc.client < |s.round| == |cfg.total|
    case ReleaseOne => s.pc.Releasing? && s.pc.next < |s.held|
    case ReleaseDone => s.pc.Releasing? && s.pc.next == |s.held|
  }

  /** Put the client's next question where it waits for its round. */
  function Enqueue(cfg: Config, s: State, c: nat): (r: State)
    requires c < |s.round| == |cfg.total|
  {
    if s.round[c] >= cfg.total[c] then s
    else if cfg.barrier then s.(subQuestions := s.subQuestions - 1, held := s.held + [c])
    else s.(subQuestions := s.subQuestions - 1, ready := s.ready + [c])
  }

  /** Count a success towards the barrier and start a release when the round is complete. */
  function CountSuccess(cfg: Config, s: State): (r: State) {
    if cfg.barrier && s.barrierRound < cfg.maxRounds then
      s.(barrierDone := s.barrierDone + 1,
         pc := if s.barrierDone + 1 == ClientsAbove(cfg.total, s.barrierRound) then Releasing(0) else Idle)
    else s.(pc := Idle)
  }

  function Apply(cfg: Config, s: State, a: Action): (r: State)
    requires Enabled(cfg, s, a)
  {
    match a
    case CheckRoom => s.(permit := true)
    case PopEmpty => s.(permit := false)
    case PopReady(k) =>
      s.(ready := RemoveAt(s.ready, k), inFlight := s.inFlight + {s.ready[k]}, sent := s.sent + 1, permit := false)
    case Respond(c, success) =>
      if success then
        s.(inFlight := s.inFlight - {c}, round := s.round[c := s.round[c] + 1],
           completed := s.completed + 1, pc := Took(c))
      else
        s.(inFlight := s.inFlight - {c}, failed := s.failed + {c}, completed := s.completed + 1)
    case Requeue => CountSuccess(cfg, Enqueue(cfg, s, s.pc.client))
    case ReleaseOne => s.(ready := s.ready + [s.held[s.pc.next]], pc := Releasing(s.pc.next + 1))
    case ReleaseDone => s.(held := [], barrierRound := s.barrierRound + 1, barrierDone := 0, pc := Idle)
  }

  /** `tr` is the sequence of states visited by the actions from the initial state. */
  ghost predicate Run(cfg: Config, acts: seq<Action>, tr: seq<State>) {
    && |tr| == |acts| + 1
    && tr[0] == Init(cfg)
    && forall k :: 0 <= k < |acts| ==> Enabled(cfg, tr[k], acts[k]) && tr[k + 1] == Apply(cfg, tr[k], acts[k])
  }

  // ----- each unfinished client is in exactly one place ------------------------

  ghost predicate Shape(cfg: Config, s: State) {
    && |s.round| == |cfg.total|
    && (s.pc.Took? ==> s.pc.client < |s.round|)
    && (s.pc.Releasing? ==> cfg.barrier && s.pc.next <= |s.held|)
    && (!cfg.barrier ==> s.held == [])
  }

  /** Held requests not yet moved by a release in progress. */
  function Pending(s: State): (r: seq<nat>)
    requires s.pc.Releasing? ==> s.pc.next <= |s.held|
  {
    if s.pc.Releasing? then s.held[s.pc.next..] else s.held
  }

  predicate Unfinished(cfg: Config, s: State, c: nat)
    requires |s.round| == |cfg.total|
  {
    c < |s.round| && s.round[c] < cfg.total[c]
  }

  /** How often a client's next request exists: ready, in flight, held, lost to a failure,
      or about to be queued by the handler. */
  ghost function PlaceCount(cfg: Config, s: State, c: nat): (n: nat)
    requires Shape(cfg, s)
  {
    multiset(s.ready)[c] + multiset(Pending(s))[c] + One(c in s.inFlight) + One(c in s.failed)
    + One(s.pc == Took(c) && Unfinished(cfg, s, c))
  }

  ghost predicate PlacedClient(cfg: Config, s: State, c: nat)
    requires Shape(cfg, s)
  {
    && PlaceCount(cfg, s, c) == One(Unfinished(cfg, s, c))
    && (c < |s.round| ==> s.round[c] <= cfg.total[c])
  }

  ghost predicate Placed(cfg: Config, s: State) {
    Shape(cfg, s) && forall c: nat :: PlacedClient(cfg, s, c)
  }

  lemma PlacedInit(cfg: Config)
    requires Planned(cfg)
    ensures Placed(cfg, Init(cfg))
  {
    hide SubQuestionsNeeded;
    var s := Init(cfg);
    forall c: nat ensures PlacedClient(cfg, s, c) {
      RangeCount(|cfg.total|, c);
      assert s.ready == seq(|cfg.total|, i => i);
    }
  }

  lemma ShapeStep(cfg: Config, s: State, a: Action)
    requires Shape(cfg, s) && Enabled(cfg, s, a)
    ensures Shape(cfg, Apply(cfg, s, a))
  {
    hide ClientsAbove, RemoveAt;
  }

  /** What handling a success does, field by field. */
  lemma RequeueEffect(cfg: Config, s: State)
    requires Shape(cfg, s) && Enabled(cfg, s, Requeue)
    ensures var r, t := Apply(cfg, s, Requeue), s.pc.client;
            var added := Unfinished(cfg, s, t);
            var counts := cfg.barrier && s.barrierRound < cfg.maxRounds;
            && r.ready == (if added && !cfg.barrier then s.ready + [t] else s.ready)
            && r.held == (if added && cfg.barrier then s.held + [t] else s.held)
            && r.inFlight == s.inFlight && r.failed == s.failed && r.round == s.round
            && r.sent == s.sent && r.completed == s.completed && r.permit == s.permit
            && r.subQuestions == s.subQuestions - One(added)
            && r.barrierRound == s.barrierRound && r.barrierDone == s.barrierDone + One(counts)
            && r.pc == if counts && r.barrierDone == ClientsAbove(cfg.total, s.barrierRound) then Releasing(0) else Idle
  {
    hide ClientsAbove;
  }

  lemma PlacedRequeue(cfg: Config, s: State, c: nat)
    requires Shape(cfg, s) && Enabled(cfg, s, Requeue) && PlacedClient(cfg, s, c)
    ensures Shape(cfg, Apply(cfg, s, Requeue)) && PlacedClient(cfg, Apply(cfg, s, Requeue), c)
  {
    hide ClientsAbove, Apply;
    ShapeStep(cfg, s, Requeue);
    RequeueEffect(cfg, s);
    assert Pending(Apply(cfg, s, Requeue)) == Apply(cfg, s, Requeue).held;
  }

  lemma PlacedRelease(cfg: Config, s: State, c: nat)
    requires Shape(cfg, s) && Enabled(cfg, s, ReleaseOne) && PlacedClient(cfg, s, c)
    ensures Shape(cfg, Apply(cfg, s, ReleaseOne)) && PlacedClient(cfg, Apply(cfg, s, ReleaseOne), c)
  {
    ShapeStep(cfg, s, ReleaseOne);
    var r := Apply(cfg, s, ReleaseOne);
    assert Pending(s) == [s.held[s.pc.next]] + Pending(r);
  }

  lemma PlacedPop(cfg: Config, s: State, k: nat, c: nat)
    requires Shape(cfg, s) && Enabled(cfg, s, PopReady(k)) && PlacedClient(cfg, s, c)
    ensures Shape(cfg, Apply(cfg, s, PopReady(k))) && PlacedClient(cfg, Apply(cfg, s, PopReady(k)), c)
  {
    hide RemoveAt;
    ShapeStep(cfg, s, PopReady(k));
    assert s.ready[k] in multiset(s.ready);
    assert Pending(Apply(cfg, s, PopReady(k))) == Pending(s);
  }

  lemma PlacedRespond(cfg: Config, s: State, d: nat, success: bool, c: nat)
    requires Shape(cfg, s) && Enabled(cfg, s, Respond(d, success)) && PlacedClient(cfg, s, c)
    ensures Shape(cfg, Apply(cfg, s, Respond(d, success))) && PlacedClient(cfg, Apply(cfg, s, Respond(d, success)), c)
  {
    ShapeStep(cfg, s, Respond(d, success));
    assert Pending(Apply(cfg, s, Respond(d, success))) == Pending(s);
  }

  lemma PlacedClientStep(cfg: Config, s: State, a: Action, c: nat)
    requires Shape(cfg, s) && Enabled(cfg, s, a) && PlacedClient(cfg, s, c)
    ensures Shape(cfg, Apply(cfg, s, a)) && PlacedClient(cfg, Apply(cfg, s, a), c)
  {
    hide ClientsAbove, RemoveAt, Enqueue, CountSuccess;
    match a
    case Requeue => PlacedRequeue(cfg, s, c);
    case ReleaseOne => PlacedRelease(cfg, s, c);
    case PopReady(k) => PlacedPop(cfg, s, k, c);
    case Respond(d, success) => PlacedRespond(cfg, s, d, success, c);
    case _ => ShapeStep(cfg, s, a);
  }

  lemma PlacedStep(cfg: Config, s: State, a: Action)
    requires Placed(cfg, s) && Enabled(cfg, s, a)
    ensures Placed(cfg, Apply(cfg, s, a))
  {
    hide Apply, PlaceCount, PlacedClient;
    ShapeStep(cfg, s, a);
    forall c: nat ensures PlacedClient(cfg, Apply(cfg, s, a), c) {
      PlacedClientStep(cfg, s, a, c);
    }
  }

  // ----- counters ----------------------------------------------------------------

  ghost predicate Counted(cfg: Config, s: State) {
    && s.sent - s.completed == |s.inFlight|
    && (s.permit ==> s.sent - s.completed < cfg.maxParallel)
    && |s.inFlight| <= (if cfg.maxParallel > 0 then cfg.maxParallel else 0)
    && s.completed == Sum(Ints(s.round)) + |s.failed|
  }

  /** One sub-question for each round of a client but its first. */
  lemma {:induction false} SubQuestionSum(total: seq<nat>)
    requires forall c :: 0 <= c < |total| ==> 1 <= total[c]
    ensures SubQuestionsNeeded(total) == Sum(Ints(total)) - |total|
  {
    if total != [] {
      var n := |total| - 1;
      SubQuestionSum(total[..n]);
      assert Ints(total)[..n] == Ints(total[..n]);
    }
  }

  lemma RoundSum(round: seq<nat>, c: nat)
    requires c < |round|
    ensures Sum(Ints(round[c := round[c] + 1])) == Sum(Ints(round)) + 1
  {
    SumUpdate(Ints(round), c, round[c] + 1);
    assert Ints(round[c := round[c] + 1]) == Ints(round)[c := round[c] + 1];
  }

  lemma CountedRespond(cfg: Config, s: State, c: nat, success: bool)
    requires Shape(cfg, s) && PlacedClient(cfg, s, c) && Counted(cfg, s) && Enabled(cfg, s, Respond(c, success))
    ensures Counted(cfg, Apply(cfg, s, Respond(c, success)))
  {
    hide Sum, Ints;
    RoundSum(s.round, c);
  }

  lemma CountedPop(cfg: Config, s: State, k: nat)
    requires Shape(cfg, s) && Counted(cfg, s) && Enabled(cfg, s, PopReady(k)) && PlacedClient(cfg, s, s.ready[k])
    ensures Counted(cfg, Apply(cfg, s, PopReady(k)))
  {
    hide RemoveAt, Sum, Ints;
    assert s.ready[k] in multiset(s.ready);
  }

  lemma CountedStep(cfg: Config, s: State, a: Action)
    requires Placed(cfg, s) && Counted(cfg, s) && Enabled(cfg, s, a)
    ensures Counted(cfg, Apply(cfg, s, a))
  {
    hide ClientsAbove, RemoveAt, Sum, Ints, PlaceCount;
    match a
    case PopReady(k) => CountedPop(cfg, s, k);
    case Respond(c, success) => CountedRespond(cfg, s, c, success);
    case _ =>
  }

  // ----- sub-questions -------------------------------------------------------------

  /** Sub-questions a client with t rounds has drawn after r successes. */
  function Used(t: nat, r: nat, took: bool): (k: int) {
    if took && r < t then r - 1 else if r < t then r else t - 1
  }

  function UsedSeq(cfg: Config, s: State): (k: seq<int>)
    requires |s.round| == |cfg.total|
    ensures |k| == |cfg.total|
    ensures forall c :: 0 <= c < |k| ==> k[c] == Used(cfg.total[c], s.round[c], s.pc == Took(c))
  {
    seq(|cfg.total|, c requires 0 <= c < |cfg.total| => Used(cfg.total[c], s.round[c], s.pc == Took(c)))
  }

  ghost predicate Drawn(cfg: Config, s: State)
    requires |s.round| == |cfg.total|
  {
    s.subQuestions + Sum(UsedSeq(cfg, s)) == Init(cfg).subQuestions
  }

  lemma InFlightUnfinished(cfg: Config, s: State, c: nat)
    requires Shape(cfg, s) && PlacedClient(cfg, s, c) && c in s.inFlight
    ensures Unfinished(cfg, s, c)
  {
  }

  lemma DrawnStep(cfg: Config, s: State, a: Action)
    requires Placed(cfg, s) && Drawn(cfg, s) && Enabled(cfg, s, a)
    ensures |Apply(cfg, s, a).round| == |cfg.total| && Drawn(cfg, Apply(cfg, s, a))
  {
    hide ClientsAbove, RemoveAt, Enqueue, CountSuccess, Sum, PlaceCount, Init;
    var r := Apply(cfg, s, a);
    match a
    case Requeue =>
      RequeueEffect(cfg, s);
      var t := s.pc.client;
      SumUpdate(UsedSeq(cfg, s), t, UsedSeq(cfg, s)[t] + One(Unfinished(cfg, s, t)));
      assert UsedSeq(cfg, r) == UsedSeq(cfg, s)[t := UsedSeq(cfg, s)[t] + One(Unfinished(cfg, s, t))] by {
        assert PlacedClient(cfg, s, t);
      }
    case Respond(c, success) =>
      assert PlacedClient(cfg, s, c);
      assert Unfinished(cfg, s, c) by { InFlightUnfinished(cfg, s, c); }
      assert UsedSeq(cfg, r) == UsedSeq(cfg, s);
    case _ =>
      assert UsedSeq(cfg, r) == UsedSeq(cfg, s);
  }

  lemma {:induction false} UsedBound(total: seq<nat>, used: seq<int>)
    requires |used| == |total|
    requires forall c :: 0 <= c < |total| ==> 1 <= total[c] && used[c] <= total[c] - 1
    ensures Sum(used) <= SubQuestionsNeeded(total)
  {
    if total != [] {
      UsedBound(total[..|total| - 1], used[..|used| - 1]);
    }
  }

  /** Whenever the handler pops a sub-question there is one. */
  lemma SubQuestionThere(cfg: Config, s: State)
    requires Planned(cfg) && Shape(cfg, s) && Drawn(cfg, s)
    requires s.pc.Took? && Unfinished(cfg, s, s.pc.client)
    ensures s.subQuestions > 0
  {
    hide Sum;
    var t, used := s.pc.client, UsedSeq(cfg, s);
    SumUpdate(used, t, used[t] + 1);
    UsedBound(cfg.total, used[t := used[t] + 1]);
  }

  // ----- the barrier -----------------------------------------------------------------

  /** The round that ready and in-flight requests belong to. */
  function Phase(s: State): (r: nat) {
    if s.pc.Releasing? then s.barrierRound + 1 else s.barrierRound
  }

  /** A client is at the barrier round or one past it, according to where its request is. */
  ghost predicate OnLevel(cfg: Config, s: State, c: nat)
    requires |s.round| == |cfg.total| && c < |s.round|
  {
    var b, t, r := s.barrierRound, cfg.total[c], s.round[c];
    && (t <= b ==> r == t)
    && (t > b ==> b <= r <= b + 1)
    && (s.pc.Releasing? && t > b ==> r == b + 1)
    && (c in s.ready || c in s.inFlight || c in s.failed ==> r == Phase(s))
    && (c in s.held ==> r == b + 1)
    && (s.pc == Took(c) ==> r == b + 1 && t > b)
    && (s.pc.Releasing? ==> multiset(s.held)[c] == One(r < t))
  }

  lemma OnLevelPop(cfg: Config, s: State, k: nat, c: nat)
    requires Shape(cfg, s) && Enabled(cfg, s, PopReady(k)) && c < |s.round| && OnLevel(cfg, s, c)
    ensures OnLevel(cfg, Apply(cfg, s, PopReady(k)), c)
  {
    hide RemoveAt;
    var r := Apply(cfg, s, PopReady(k));
    assert c in r.ready ==> c in multiset(r.ready);
    assert c in multiset(s.ready) ==> c in s.ready;
  }

  lemma OnLevelRequeue(cfg: Config, s: State, c: nat)
    requires cfg.barrier && Shape(cfg, s) && Enabled(cfg, s, Requeue)
    requires c < |s.round| && PlacedClient(cfg, s, c) && OnLevel(cfg, s, c) && OnLevel(cfg, s, s.pc.client)
    requires s.barrierDone + 1 == ClientsAbove(cfg.total, s.barrierRound) && cfg.total[c] > s.barrierRound
             ==> s.round[c] == s.barrierRound + 1
    ensures OnLevel(cfg, Apply(cfg, s, Requeue), c)
  {
    hide ClientsAbove, Apply;
    RequeueEffect(cfg, s);
    assert c in s.ready ==> c in multiset(s.ready);
    assert c !in s.ready ==> multiset(s.ready)[c] == 0;
  }

  lemma OnLevelRespond(cfg: Config, s: State, d: nat, success: bool, c: nat)
    requires Shape(cfg, s) && Enabled(cfg, s, Respond(d, success))
    requires c < |s.round| && PlacedClient(cfg, s, c) && OnLevel(cfg, s, c)
    ensures OnLevel(cfg, Apply(cfg, s, Respond(d, success)), c)
  {
    assert c in s.ready ==> c in multiset(s.ready);
    assert c in s.held ==> c in multiset(Pending(s));
  }

  lemma OnLevelStep(cfg: Config, s: State, a: Action, c: nat)
    requires cfg.barrier && Placed(cfg, s) && Enabled(cfg, s, a)
    requires c < |s.round| && OnLevel(cfg, s, c) && (a.Requeue? ==> OnLevel(cfg, s, s.pc.client))
    requires a.Requeue? && s.barrierDone + 1 == ClientsAbove(cfg.total, s.barrierRound) && cfg.total[c] > s.barrierRound
             ==> s.round[c] == s.barrierRound + 1
    ensures |Apply(cfg, s, a).round| == |cfg.total| && OnLevel(cfg, Apply(cfg, s, a), c)
  {
    hide ClientsAbove, RemoveAt, Enqueue, CountSuccess, PlaceCount;
    ShapeStep(cfg, s, a);
    assert PlacedClient(cfg, s, c);
    match a
    case PopReady(k) => OnLevelPop(cfg, s, k, c);
    case Requeue => OnLevelRequeue(cfg, s, c);
    case Respond(d, success) => OnLevelRespond(cfg, s, d, success, c);
    case _ =>
  }

  /** Clients of round b that have finished it. */
  function DoneCount(total: seq<nat>, round: seq<nat>, b: nat): (k: nat)
    requires |total| == |round|
  {
    if total == [] then 0
    else
      var n := |total| - 1;
      DoneCount(total[..n], round[..n], b) + One(total[n] > b && round[n] == b + 1)
  }

  lemma {:induction false} DoneUpdate(total: seq<nat>, round: seq<nat>, b: nat, c: nat, r: nat)
    requires c < |total| == |round|
    ensures DoneCount(total, round[c := r], b) ==
              DoneCount(total, round, b) - One(total[c] > b && round[c] == b + 1) + One(total[c] > b && r == b + 1)
  {
    var n := |total| - 1;
    if c < n {
      DoneUpdate(total[..n], round[..n], b, c, r);
      assert round[c := r][..n] == round[..n][c := r];
    } else {
      assert round[c := r][..n] == round[..n];
    }
  }

  /** The count reaches the number of participants exactly when all of them are done. */
  lemma {:induction false} DoneAll(total: seq<nat>, round: seq<nat>, b: nat)
    requires |total| == |round|
    ensures DoneCount(total, round, b) <= ClientsAbove(total, b)
    ensures DoneCount(total, round, b) == ClientsAbove(total, b) <==>
              forall c :: 0 <= c < |total| && total[c] > b ==> round[c] == b + 1
  {
    if total != [] {
      DoneAll(total[..|total| - 1], round[..|round| - 1], b);
    }
  }

  lemma {:induction false} DoneNone(total: seq<nat>, round: seq<nat>, b: nat)
    requires |total| == |round| && forall c :: 0 <= c < |round| ==> round[c] <= b
    ensures DoneCount(total, round, b) == 0
  {
    if total != [] {
      DoneNone(total[..|total| - 1], round[..|round| - 1], b);
    }
  }

  ghost predicate BarrierCounted(cfg: Config, s: State)
    requires |s.round| == |cfg.total|
  {
    var expected := ClientsAbove(cfg.total, s.barrierRound);
    && s.barrierDone + One(s.pc.Took?) == DoneCount(cfg.total, s.round, s.barrierRound)
    && (s.pc == Idle ==> s.barrierDone != expected || expected == 0)
    && (s.pc.Releasing? ==> s.barrierDone == expected)
  }

  ghost predicate OnLevels(cfg: Config, s: State)
    requires |s.round| == |cfg.total|
  {
    forall c: nat :: c < |s.round| ==> OnLevel(cfg, s, c)
  }

  lemma BarrierCountedStep(cfg: Config, s: State, a: Action)
    requires Planned(cfg) && cfg.barrier && Enabled(cfg, s, a)
    requires Placed(cfg, s) && OnLevels(cfg, s) && BarrierCounted(cfg, s)
    ensures |Apply(cfg, s, a).round| == |cfg.total| && BarrierCounted(cfg, Apply(cfg, s, a))
  {
    hide ClientsAbove, RemoveAt, Enqueue, CountSuccess, DoneCount, PlaceCount;
    ShapeStep(cfg, s, a);
    match a
    case Requeue =>
      assert OnLevel(cfg, s, s.pc.client);
      RequeueEffect(cfg, s);
    case Respond(c, success) =>
      assert OnLevel(cfg, s, c) && PlacedClient(cfg, s, c);
      InFlightUnfinished(cfg, s, c);
      DoneUpdate(cfg.total, s.round, s.barrierRound, c, s.round[c] + 1);
    case ReleaseDone =>
      forall c | 0 <= c < |s.round| ensures s.round[c] <= s.barrierRound + 1 {
        assert OnLevel(cfg, s, c);
      }
      DoneNone(cfg.total, s.round, s.barrierRound + 1);
    case _ =>
  }

  lemma OnLevelsStep(cfg: Config, s: State, a: Action)
    requires cfg.barrier && Placed(cfg, s) && OnLevels(cfg, s) && BarrierCounted(cfg, s) && Enabled(cfg, s, a)
    ensures |Apply(cfg, s, a).round| == |cfg.total| && OnLevels(cfg, Apply(cfg, s, a))
  {
    hide ClientsAbove, Apply, DoneCount, PlaceCount;
    ShapeStep(cfg, s, a);
    DoneAll(cfg.total, s.round, s.barrierRound);
    forall c: nat | c < |s.round| ensures OnLevel(cfg, Apply(cfg, s, a), c) {
      OnLevelStep(cfg, s, a, c);
    }
  }

  // ----- every reachable state ---------------------------------------------------------

  ghost predicate Inv(cfg: Config, s: State) {
    && Placed(cfg, s) && Counted(cfg, s) && Drawn(cfg, s)
    && (cfg.barrier ==> OnLevels(cfg, s) && BarrierCounted(cfg, s))
  }

  lemma InvInit(cfg: Config)
    requires Planned(cfg)
    ensures Inv(cfg, Init(cfg))
  {
    hide Sum, SubQuestionsNeeded, DoneCount, ClientsAbove;
    var s := Init(cfg);
    PlacedInit(cfg);
    SumZero(Ints(s.round));
    assert s.round == seq(|cfg.total|, _ => 0);
    assert UsedSeq(cfg, s) == Ints(s.round);
    DoneNone(cfg.total, s.round, 0);
  }

  lemma InvStep(cfg: Config, s: State, a: Action)
    requires Planned(cfg) && Inv(cfg, s) && Enabled(cfg, s, a)
    ensures Inv(cfg, Apply(cfg, s, a))
  {
    hide Apply, Placed, Counted, Drawn, OnLevels, BarrierCounted;
    PlacedStep(cfg, s, a);
    CountedStep(cfg, s, a);
    DrawnStep(cfg, s, a);
    if cfg.barrier {
      OnLevelsStep(cfg, s, a);
      BarrierCountedStep(cfg, s, a);
    }
  }

  lemma {:induction false} InvAlways(cfg: Config, acts: seq<Action>, tr: seq<State>, k: nat)
    requires Planned(cfg) && Run(cfg, acts, tr) && k <= |acts|
    ensures Inv(cfg, tr[k])
  {
    hide Inv, Apply, Enabled, Init;
    if k == 0 {
      InvInit(cfg);
    } else {
      InvAlways(cfg, acts, tr, k - 1);
      InvStep(cfg, tr[k - 1], acts[k - 1]);
    }
  }

  /** With the barrier on, a request of round r is ready or in flight only after every client
      that takes part in round r - 1 has successfully finished it. */
  lemma BarrierHolds(cfg: Config, acts: seq<Action>, tr: seq<State>, k: nat, c: nat, d: nat)
    requires Planned(cfg) && cfg.barrier && Run(cfg, acts, tr) && k <= |acts|
    requires c < |tr[k].round| == |cfg.total| && d < |cfg.total|
    requires c in tr[k].ready || c in tr[k].inFlight
    requires cfg.total[d] >= tr[k].round[c]
    ensures tr[k].round[d] >= tr[k].round[c]
  {
    InvAlways(cfg, acts, tr, k);
    assert OnLevel(cfg, tr[k], c) && OnLevel(cfg, tr[k], d);
  }

  /** In flight stays within the limit, counted by the two counters. */
  lemma ParallelBound(cfg: Config, acts: seq<Action>, tr: seq<State>, k: nat)
    requires Planned(cfg) && Run(cfg, acts, tr) && k <= |acts|
    ensures 0 <= tr[k].sent - tr[k].completed <= if cfg.maxParallel > 0 then cfg.maxParallel else 0
  {
    InvAlways(cfg, acts, tr, k);
  }

  /** `sub_question_inputs.pop()` never meets an empty list. */
  lemma SubQuestionsSuffice(cfg: Config, acts: seq<Action>, tr: seq<State>, k: nat)
    requires Planned(cfg) && Run(cfg, acts, tr) && k < |acts| && acts[k] == Requeue
    ensures |tr[k].round| == |cfg.total|
    ensures Unfinished(cfg, tr[k], tr[k].pc.client) ==> tr[k].subQuestions > 0
  {
    InvAlways(cfg, acts, tr, k);
    if Unfinished(cfg, tr[k], tr[k].pc.client) {
      SubQuestionThere(cfg, tr[k]);
    }
  }

  /** What a step takes from the ready queue, and what it adds to it. */
  ghost function PoppedBy(s: State, a: Action): (r: seq<nat>) {
    if a.PopReady? && a.k < |s.ready| then [s.ready[a.k]] else []
  }

  ghost function ReadiedBy(cfg: Config, s: State, a: Action): (r: seq<nat>) {
    if a.ReleaseOne? && s.pc.Releasing? && s.pc.next < |s.held| then [s.held[s.pc.next]]
    else if a.Requeue? && !cfg.barrier && s.pc.Took? && |s.round| == |cfg.total| && Unfinished(cfg, s, s.pc.client)
    then [s.pc.client]
    else []
  }

  lemma ReadyStep(cfg: Config, s: State, a: Action)
    requires cfg.fifo && Shape(cfg, s) && Enabled(cfg, s, a)
    ensures PoppedBy(s, a) + Apply(cfg, s, a).ready == s.ready + ReadiedBy(cfg, s, a)
  {
    hide ClientsAbove, Enqueue, CountSuccess;
    if a.Requeue? {
      RequeueEffect(cfg, s);
    }
  }

  /** Clients popped by the sender between steps k and m, in order. */
  ghost function Popped(acts: seq<Action>, tr: seq<State>, k: nat, m: nat): (r: seq<nat>)
    requires k <= m <= |acts| == |tr| - 1
  {
    if k == m then [] else Popped(acts, tr, k, m - 1) + PoppedBy(tr[m - 1], acts[m - 1])
  }

  /** Clients made ready by the handler between steps k and m, in order. */
  ghost function Readied(cfg: Config, acts: seq<Action>, tr: seq<State>, k: nat, m: nat): (r: seq<nat>)
    requires k <= m <= |acts| == |tr| - 1
  {
    if k == m then [] else Readied(cfg, acts, tr, k, m - 1) + ReadiedBy(cfg, tr[m - 1], acts[m - 1])
  }

  /** Under the fifo policy requests are sent in the order in which they became ready, also when the
      sender pops in the middle of a release. */
  lemma {:induction false} FifoOrder(cfg: Config, acts: seq<Action>, tr: seq<State>, k: nat, m: nat)
    requires Planned(cfg) && cfg.fifo && Run(cfg, acts, tr) && k <= m <= |acts|
    ensures Popped(acts, tr, k, m) + tr[m].ready == tr[k].ready + Readied(cfg, acts, tr, k, m)
    decreases m - k
  {
    hide Init, Apply, Enabled, PoppedBy, ReadiedBy, PlacedClient, Counted, Drawn, OnLevels, BarrierCounted;
    if k < m {
      FifoOrder(cfg, acts, tr, k, m - 1);
      var s, a := tr[m - 1], acts[m - 1];
      InvAlways(cfg, acts, tr, m - 1);
      ReadyStep(cfg, s, a);
      FifoExtend(Popped(acts, tr, k, m - 1), s.ready, tr[k].ready, Readied(cfg, acts, tr, k, m - 1),
                 PoppedBy(s, a), tr[m].ready, ReadiedBy(cfg, s, a));
    }
  }

  /** Elements of a list of clients, counted client by client. */
  function Occurrences(s: seq<nat>, n: nat): (k: nat) {
    if n == 0 then 0 else Occurrences(s, n - 1) + multiset(s)[n - 1]
  }

  lemma {:induction false} OccurrencesSnoc(s: seq<nat>, x: nat, n: nat)
    ensures Occurrences(s + [x], n) == Occurrences(s, n) + One(x < n)
  {
    if n > 0 {
      OccurrencesSnoc(s, x, n - 1);
    }
  }

  lemma {:induction false} OccurrencesNone(n: nat)
    ensures Occurrences([], n) == 0
  {
    if n > 0 {
      OccurrencesNone(n - 1);
    }
  }

  lemma {:induction false} LengthIsOccurrences(s: seq<nat>, n: nat)
    requires forall i :: 0 <= i < |s| ==> s[i] < n
    ensures |s| == Occurrences(s, n)
  {
    if s == [] {
      OccurrencesNone(n);
    } else {
      var m := |s| - 1;
      LengthIsOccurrences(s[..m], n);
      OccurrencesSnoc(s[..m], s[m], n);
      assert s == s[..m] + [s[m]];
    }
  }

  lemma {:induction false} OccurrencesAbove(s: seq<nat>, total: seq<nat>, b: nat, n: nat)
    requires n <= |total|
    requires forall c: nat :: c < |total| ==> multiset(s)[c] == One(total[c] > b)
    ensures Occurrences(s, n) == ClientsAbove(total[..n], b)
  {
    if n > 0 {
      OccurrencesAbove(s, total, b, n - 1);
      assert total[..n][..n - 1] == total[..n - 1];
    }
  }

  /** When a release starts, exactly the requests of the next round are held. */
  lemma ReleaseSize(cfg: Config, acts: seq<Action>, tr: seq<State>, k: nat)
    requires Planned(cfg) && Run(cfg, acts, tr) && k <= |acts| && tr[k].pc == Releasing(0)
    ensures |tr[k].held| == ClientsAbove(cfg.total, tr[k].barrierRound + 1)
  {
    hide ClientsAbove, Occurrences, DoneCount, Sum;
    InvAlways(cfg, acts, tr, k);
    var s, n := tr[k], |cfg.total|;
    assert Pending(s) == s.held;
    forall i | 0 <= i < |s.held| ensures s.held[i] < n {
      assert PlacedClient(cfg, s, s.held[i]) && s.held[i] in multiset(s.held);
    }
    forall c: nat | c < n ensures multiset(s.held)[c] == One(cfg.total[c] > s.barrierRound + 1) {
      assert OnLevel(cfg, s, c);
    }
    LengthIsOccurrences(s.held, n);
    OccurrencesAbove(s.held, cfg.total, s.barrierRound + 1, n);
    assert cfg.total[..n] == cfg.total;
  }

  /** Nothing can happen any more except the sender looking at an empty queue. */
  ghost predicate Quiescent(s: State) {
    s.ready == [] && s.inFlight == {} && s.pc == Idle
  }

  lemma {:induction false} SomeAbove(total: seq<nat>, b: nat, c: nat)
    requires c < |total| && total[c] > b
    ensures ClientsAbove(total, b) > 0
  {
    if c < |total| - 1 {
      SomeAbove(total[..|total| - 1], b, c);
    }
  }

  lemma QuiescentFinished(cfg: Config, s: State, c: nat)
    requires Inv(cfg, s) && Quiescent(s) && s.failed == {} && c < |cfg.total|
    ensures s.round[c] == cfg.total[c]
  {
    hide ClientsAbove, DoneCount, Sum, UsedSeq;
    assert PlacedClient(cfg, s, c);
    if s.round[c] < cfg.total[c] {
      assert c in multiset(s.held);
      forall d: nat | d < |cfg.total| && cfg.total[d] > s.barrierRound ensures s.round[d] == s.barrierRound + 1 {
        assert PlacedClient(cfg, s, d) && OnLevel(cfg, s, d);
        assert s.round[d] < cfg.total[d] ==> d in multiset(s.held);
      }
      DoneAll(cfg.total, s.round, s.barrierRound);
      assert OnLevel(cfg, s, c);
      SomeAbove(cfg.total, s.barrierRound, c);
      assert false;
    }
  }

  /** A run without failures cannot stop early: when nothing is ready or in flight, every client
      has done all its rounds and exactly `total_requests` requests have completed. */
  lemma FailureFreeCompletes(cfg: Config, acts: seq<Action>, tr: seq<State>, k: nat)
    requires Planned(cfg) && Run(cfg, acts, tr) && k <= |acts|
    requires Quiescent(tr[k]) && tr[k].failed == {}
    ensures tr[k].round == cfg.total && tr[k].completed == tr[k].sent == Sum(Ints(cfg.total))
  {
    InvAlways(cfg, acts, tr, k);
    forall c: nat | c < |cfg.total| ensures tr[k].round[c] == cfg.total[c] {
      QuiescentFinished(cfg, tr[k], c);
    }
    assert tr[k].round == cfg.total;
  }

  /** Rounds of each client, with one more for the clients in `open`. */
  ghost function WithOpen(round: seq<nat>, open: set<nat>): (r: seq<int>)
    ensures |r| == |round|
    ensures forall c :: 0 <= c < |r| ==> r[c] == round[c] + One(c in open)
  {
    seq(|round|, c requires 0 <= c < |round| => round[c] + One(c in open))
  }

  lemma DropOne(open: set<nat>, n: nat)
    ensures |open| == |open - {n}| + One(n in open)
  {
    var fewer := open - {n};
    assert n in open ==> open == fewer + {n};
    assert n !in open ==> open == fewer;
  }

  lemma OpenSnoc(round: seq<nat>, open: set<nat>)
    requires round != []
    ensures var n := |round| - 1;
            && Sum(WithOpen(round, open)) == Sum(WithOpen(round[..n], open - {n})) + round[n] + One(n in open)
            && Sum(Ints(round)) == Sum(Ints(round[..n])) + round[n]
  {
    var n := |round| - 1;
    assert WithOpen(round, open)[..n] == WithOpen(round[..n], open - {n});
    assert Ints(round)[..n] == Ints(round[..n]);
  }

  lemma {:induction false} OpenSum(round: seq<nat>, open: set<nat>)
    requires forall c :: c in open ==> c < |round|
    ensures Sum(WithOpen(round, open)) == Sum(Ints(round)) + |open|
    decreases |round|
  {
    if round == [] {
      assert open == {};
    } else {
      hide Sum, Ints, WithOpen;
      var n := |round| - 1;
      DropOne(open, n);
      OpenSum(round[..n], open - {n});
      OpenSnoc(round, open);
    }
  }

  /** Every request planned has been sent: each client is finished, or its last request is out or failed. */
  ghost predicate AllSent(cfg: Config, s: State)
    requires |s.round| == |cfg.total|
  {
    forall c :: 0 <= c < |cfg.total| ==> s.round[c] + One(c in s.failed || c in s.inFlight) == cfg.total[c]
  }

  lemma OpenClients(cfg: Config, s: State, c: nat)
    requires Shape(cfg, s) && PlacedClient(cfg, s, c)
    ensures !(c in s.failed && c in s.inFlight)
    ensures c in s.failed || c in s.inFlight ==> Unfinished(cfg, s, c)
  {
  }

  /** All clients counted with their open request stay within their totals. */
  lemma OpenWithin(cfg: Config, s: State, open: set<nat>)
    requires Placed(cfg, s) && open == s.failed + s.inFlight
    ensures forall c :: 0 <= c < |s.round| ==> s.round[c] + One(c in open) <= cfg.total[c]
  {
    hide PlaceCount;
    forall c: nat | c < |s.round| ensures s.round[c] + One(c in open) <= cfg.total[c] {
      assert PlacedClient(cfg, s, c);
      OpenClients(cfg, s, c);
    }
  }

  lemma AllSentIff(cfg: Config, s: State, open: set<nat>)
    requires |s.round| == |cfg.total| && open == s.failed + s.inFlight
    ensures WithOpen(s.round, open) == Ints(cfg.total) <==> AllSent(cfg, s)
  {
    var counted := WithOpen(s.round, open);
    forall c | 0 <= c < |cfg.total| ensures counted[c] == s.round[c] + One(c in s.failed || c in s.inFlight) {
    }
    hide WithOpen;
    if AllSent(cfg, s) {
      forall c | 0 <= c < |cfg.total| ensures counted[c] == Ints(cfg.total)[c] {
      }
    } else {
      var c :| 0 <= c < |cfg.total| && s.round[c] + One(c in s.failed || c in s.inFlight) != cfg.total[c];
      assert counted[c] != Ints(cfg.total)[c];
    }
  }

  lemma OpenCount(cfg: Config, s: State)
    requires Placed(cfg, s)
    ensures |s.failed + s.inFlight| == |s.failed| + |s.inFlight|
    ensures forall c :: c in s.failed + s.inFlight ==> c < |s.round|
  {
    hide PlaceCount, PlacedClient;
    forall c: nat ensures !(c in s.failed && c in s.inFlight)
      ensures c in s.failed || c in s.inFlight ==> c < |s.round|
    {
      assert PlacedClient(cfg, s, c);
      OpenClients(cfg, s, c);
    }
    assert s.failed !! s.inFlight;
  }

  lemma SentInState(cfg: Config, s: State)
    requires Inv(cfg, s)
    ensures s.completed <= s.sent <= Sum(Ints(cfg.total))
    ensures s.sent == Sum(Ints(cfg.total)) <==> AllSent(cfg, s)
  {
    hide Sum, WithOpen, Drawn, OnLevels, BarrierCounted, PlacedClient, AllSent;
    var open := s.failed + s.inFlight;
    OpenCount(cfg, s);
    OpenSum(s.round, open);
    OpenWithin(cfg, s, open);
    AllSentIff(cfg, s, open);
    SumOrder(WithOpen(s.round, open), Ints(cfg.total));
  }

  /** With any failures and in any interleaving, no more requests are sent than were planned, and all
      of them are sent exactly when each client is finished or has only its last request open. */
  lemma SentBound(cfg: Config, acts: seq<Action>, tr: seq<State>, k: nat)
    requires Planned(cfg) && Run(cfg, acts, tr) && k <= |acts|
    ensures tr[k].sent <= Sum(Ints(cfg.total)) && |tr[k].round| == |cfg.total|
    ensures tr[k].sent == Sum(Ints(cfg.total)) <==> AllSent(cfg, tr[k])
  {
    InvAlways(cfg, acts, tr, k);
    SentInState(cfg, tr[k]);
  }

  // ----- what a failure costs -----------------------------------------------------------

  lemma FailedStep(cfg: Config, s: State, a: Action, c: nat)
    requires Shape(cfg, s) && PlacedClient(cfg, s, c) && Enabled(cfg, s, a) && c in s.failed && c < |s.round|
    ensures var t := Apply(cfg, s, a); c in t.failed && |t.round| == |s.round| && t.round[c] == s.round[c]
  {
    hide ClientsAbove, RemoveAt;
  }

  /** A client that failed stays at its round for the rest of the run. */
  lemma {:induction false} FailedStays(cfg: Config, acts: seq<Action>, tr: seq<State>, k: nat, m: nat, c: nat)
    requires Planned(cfg) && Run(cfg, acts, tr) && k <= m <= |acts| && c in tr[k].failed
    ensures |tr[k].round| == |tr[m].round| == |cfg.total| && c < |cfg.total|
    ensures c in tr[m].failed && tr[m].round[c] == tr[k].round[c] < cfg.total[c]
    decreases m - k
  {
    hide Apply, Enabled, Init, Drawn, Counted, OnLevels, BarrierCounted;
    InvAlways(cfg, acts, tr, k);
    assert PlacedClient(cfg, tr[k], c);
    if k < m {
      FailedStays(cfg, acts, tr, k, m - 1, c);
      InvAlways(cfg, acts, tr, m - 1);
      InvAlways(cfg, acts, tr, m);
      assert PlacedClient(cfg, tr[m - 1], c);
      FailedStep(cfg, tr[m - 1], acts[m - 1], c);
    }
  }

  /** A failure before a client's last round: some planned requests are never sent. */
  lemma FailureLosesRounds(cfg: Config, acts: seq<Action>, tr: seq<State>, k: nat, m: nat, c: nat)
    requires Planned(cfg) && Run(cfg, acts, tr) && k <= m <= |acts|
    requires c in tr[k].failed && c < |tr[k].round| == |cfg.total| && tr[k].round[c] + 1 < cfg.total[c]
    ensures tr[m].sent < Sum(Ints(cfg.total))
  {
    hide Inv, Init, Apply, Enabled;
    FailedStays(cfg, acts, tr, k, m, c);
    SentBound(cfg, acts, tr, m);
    assert tr[m].round[c] + 1 < cfg.total[c];
  }

  lemma StuckBehind(cfg: Config, s: State, c: nat, d: nat)
    requires cfg.barrier && Shape(cfg, s) && OnLevels(cfg, s) && c < |s.round| && d < |s.round|
    requires c in s.failed && cfg.total[d] > s.round[c] + 1
    ensures s.barrierRound <= s.round[c]
    ensures s.round[d] + One(d in s.failed || d in s.inFlight) <= s.round[c] + 1
  {
    assert OnLevel(cfg, s, c) && OnLevel(cfg, s, d);
  }

  /** With the barrier on, one failure holds up everyone: the barrier never passes the round of the
      failure, no client gets beyond the next one, and as long as some client has rounds after it the
      benchmark never sends all its requests, so it never ends. */
  lemma FailureBlocksBarrier(cfg: Config, acts: seq<Action>, tr: seq<State>, k: nat, m: nat, c: nat, d: nat)
    requires Planned(cfg) && cfg.barrier && Run(cfg, acts, tr) && k <= m <= |acts|
    requires c in tr[k].failed && c < |tr[k].round| == |cfg.total|
    requires d < |cfg.total| && cfg.total[d] > tr[k].round[c] + 1
    ensures tr[m].barrierRound <= tr[k].round[c]
    ensures |tr[m].round| == |cfg.total| && tr[m].round[d] <= tr[k].round[c] + 1 < cfg.total[d]
    ensures tr[m].sent < Sum(Ints(cfg.total))
  {
    hide Init, Apply, Enabled, Counted, Drawn, BarrierCounted, PlacedClient, OnLevels;
    FailedStays(cfg, acts, tr, k, m, c);
    InvAlways(cfg, acts, tr, m);
    StuckBehind(cfg, tr[m], c, d);
    SentBound(cfg, acts, tr, m);
  }

  lemma RunLength(cfg: Config, acts: seq<Action>, tr: seq<State>)
    requires Run(cfg, acts, tr)
    ensures |tr| == |acts| + 1
  {
  }

  /** One client with two rounds whose first response fails. */
  const FAILED_FIRST := [CheckRoom, PopReady(0), Respond(0, false)]

  lemma FailedFirst(cfg: Config) returns (tr: seq<State>)
    requires cfg == Config([2], 2, 1, true, true)
    ensures Planned(cfg) && Run(cfg, FAILED_FIRST, tr) && 0 in tr[3].failed && tr[3].round == [0]
  {
    hide ClientsAbove, SubQuestionsNeeded;
    var s0 := Init(cfg);
    assert s0.ready == [0] && s0.round == [0];
    var s1 := Apply(cfg, s0, CheckRoom);
    var s2 := Apply(cfg, s1, PopReady(0));
    tr := [s0, s1, s2, Apply(cfg, s2, Respond(0, false))];
  }

  /** A concrete start that can never be continued to the end of the benchmark. */
  lemma NeverEnds(cfg: Config) returns (tr: seq<State>)
    requires cfg == Config([2], 2, 1, true, true)
    ensures Run(cfg, FAILED_FIRST, tr)
    ensures forall acts: seq<Action>, tr': seq<State>, m: nat ::
              Run(cfg, acts, tr') && tr <= tr' && 3 <= m <= |acts| ==> tr'[m].sent < Sum(Ints(cfg.total))
  {
    tr := FailedFirst(cfg);
    hide Run, Sum, Ints;
    forall acts: seq<Action>, tr': seq<State>, m: nat | Run(cfg, acts, tr') && tr <= tr' && 3 <= m <= |acts|
      ensures |tr'| == |acts| + 1 && tr'[m].sent < Sum(Ints(cfg.total))
    {
      RunLength(cfg, acts, tr');
      assert tr'[3] == tr[3];
      FailureBlocksBarrier(cfg, acts, tr', 3, m, 0, 0);
    }
  }

  /** No failure left anything to do: each hit the last round of its client and, with the barrier, the
      last round of the benchmark. */
  ghost predicate HarmlessFailures(cfg: Config, s: State)
    requires |s.round| == |cfg.total|
  {
    forall c :: c in s.failed && c < |s.round| ==>
      && s.round[c] + 1 == cfg.total[c]
      && (cfg.barrier ==> forall d :: 0 <= d < |cfg.total| ==> cfg.total[d] <= s.round[c] + 1)
  }

  lemma HeldBeyondFailed(cfg: Config, s: State, c: nat, f: nat)
    requires Inv(cfg, s) && Quiescent(s) && Unfinished(cfg, s, c) && c !in s.failed && f in s.failed
    ensures f < |s.round| && cfg.barrier && cfg.total[c] > s.round[f] + 1
  {
    hide ClientsAbove, DoneCount, Sum, UsedSeq;
    assert PlacedClient(cfg, s, c) && PlacedClient(cfg, s, f);
    assert c in multiset(s.held);
    assert OnLevel(cfg, s, c) && OnLevel(cfg, s, f);
  }

  lemma HarmlessFinished(cfg: Config, s: State, c: nat)
    requires Inv(cfg, s) && Quiescent(s) && HarmlessFailures(cfg, s) && c < |cfg.total|
    ensures s.round[c] + One(c in s.failed) == cfg.total[c]
  {
    hide ClientsAbove, DoneCount, Sum, UsedSeq;
    assert PlacedClient(cfg, s, c);
    if c !in s.failed && s.round[c] < cfg.total[c] {
      if f :| f in s.failed {
        HeldBeyondFailed(cfg, s, c, f);
        assert false;
      } else {
        assert s.failed == {};
        QuiescentFinished(cfg, s, c);
      }
    }
  }

  /** A run that has come to rest has sent everything exactly when its failures were harmless. */
  lemma RestSentAllIff(cfg: Config, acts: seq<Action>, tr: seq<State>, k: nat)
    requires Planned(cfg) && Run(cfg, acts, tr) && k <= |acts| && Quiescent(tr[k])
    ensures |tr[k].round| == |cfg.total|
    ensures tr[k].sent == Sum(Ints(cfg.total)) <==> HarmlessFailures(cfg, tr[k])
  {
    hide Init, Apply, Enabled, Sum, Ints, Counted, Drawn, BarrierCounted;
    InvAlways(cfg, acts, tr, k);
    var s := tr[k];
    SentInState(cfg, s);
    if HarmlessFailures(cfg, s) {
      forall c: nat | c < |cfg.total| ensures s.round[c] + One(c in s.failed || c in s.inFlight) == cfg.total[c] {
        HarmlessFinished(cfg, s, c);
      }
    }
    if AllSent(cfg, s) {
      forall c | c in s.failed && c < |s.round| ensures s.round[c] + 1 == cfg.total[c]
        ensures cfg.barrier ==> forall d :: 0 <= d < |cfg.total| ==> cfg.total[d] <= s.round[c] + 1
      {
        if cfg.barrier {
          forall d | 0 <= d < |cfg.total| ensures cfg.total[d] <= s.round[c] + 1 {
            if cfg.total[d] > s.round[c] + 1 {
              StuckBehind(cfg, s, c, d);
            }
          }
        }
      }
    }
  }

  // ----- progress -----------------------------------------------------------------------

  /** Everything but polling: the sender looking at the counters or finding the queue empty. */
  predicate Moves(a: Action) {
    !a.CheckRoom? && !a.PopEmpty?
  }

  /** A step that is a move, or the sender getting leave to make one; no response fails. */
  predicate Productive(s: State, a: Action) {
    (Moves(a) || (a.CheckRoom? && s.ready != [])) && (a.Respond? ==> a.success)
  }

  /** Unless everything is at rest some productive step can be taken. */
  lemma Progress(cfg: Config, s: State) returns (a: Action)
    requires Inv(cfg, s) && cfg.maxParallel >= 1 && !Quiescent(s)
    ensures Enabled(cfg, s, a) && Productive(s, a)
  {
    hide Sum, Ints, Drawn, OnLevels, BarrierCounted;
    match s.pc
    case Took(c) => a := Requeue;
    case Releasing(n) => a := if n < |s.held| then ReleaseOne else ReleaseDone;
    case Idle =>
      if c :| c in s.inFlight {
        assert PlacedClient(cfg, s, c);
        a := Respond(c, true);
      } else {
        assert s.inFlight == {};
        a := if s.permit then PopReady(0) else CheckRoom;
      }
  }

  /** Steps the handler still makes for the response it is at. */
  function HandlerWork(cfg: Config, s: State): (n: int) {
    match s.pc
    case Idle => 0
    case Took(_) => |cfg.total| + 2
    case Releasing(n) => |s.held| - n + 1
  }

  lemma {:induction false} FewOccurrences(s: seq<nat>, n: nat)
    requires forall c: nat :: multiset(s)[c] <= 1
    ensures Occurrences(s, n) <= n
  {
    if n > 0 {
      FewOccurrences(s, n - 1);
    }
  }

  lemma HeldBound(cfg: Config, s: State)
    requires Placed(cfg, s)
    ensures |Pending(s)| <= |cfg.total|
  {
    hide Occurrences;
    var held, n := Pending(s), |cfg.total|;
    forall c: nat ensures multiset(held)[c] <= One(c < n) {
      assert PlacedClient(cfg, s, c);
    }
    forall i | 0 <= i < |held| ensures held[i] < n {
      assert held[i] in multiset(held);
    }
    LengthIsOccurrences(held, n);
    FewOccurrences(held, n);
  }

  lemma HandlerWorkStep(cfg: Config, s: State, a: Action)
    requires Planned(cfg) && Inv(cfg, s) && Enabled(cfg, s, a)
    ensures var t := Apply(cfg, s, a);
            && 0 <= HandlerWork(cfg, s) && 0 <= HandlerWork(cfg, t) <= |cfg.total| + 2
            && (a.Requeue? || a.ReleaseOne? || a.ReleaseDone? ==> HandlerWork(cfg, t) < HandlerWork(cfg, s))
            && (a.CheckRoom? || a.PopEmpty? || a.PopReady? ==> HandlerWork(cfg, t) == HandlerWork(cfg, s))
            && t.sent == s.sent + One(a.PopReady?) && t.completed == s.completed + One(a.Respond?)
  {
    hide ClientsAbove, RemoveAt, Sum, Ints, OnLevels, BarrierCounted, Drawn, PlacedClient;
    InvStep(cfg, s, a);
    HeldBound(cfg, s);
    HeldBound(cfg, Apply(cfg, s, a));
    if a.Requeue? {
      RequeueEffect(cfg, s);
    }
  }

  /** An upper bound on the moves still to be made. */
  function Work(cfg: Config, s: State): (n: int) {
    var t := Sum(Ints(cfg.total));
    (t - s.sent) + (|cfg.total| + 3) * (t - s.completed) + HandlerWork(cfg, s)
  }

  lemma WorkDrops(n: nat, left: int, d: nat)
    requires d <= left && d <= 1   // a response, or another step
    ensures n * (left - d) == n * left - (if d == 1 then n else 0) && n * (left - d) >= 0
  {
  }

  lemma WorkStep(cfg: Config, s: State, a: Action)
    requires Planned(cfg) && Inv(cfg, s) && Enabled(cfg, s, a)
    ensures 0 <= Work(cfg, Apply(cfg, s, a)) <= Work(cfg, s) - One(Moves(a))
  {
    hide Sum, Ints, HandlerWork, Inv, Enabled, Apply;
    HandlerWorkStep(cfg, s, a);
    InvStep(cfg, s, a);
    SentInState(cfg, Apply(cfg, s, a));
    WorkDrops(|cfg.total| + 3, Sum(Ints(cfg.total)) - s.completed, One(a.Respond?));
    assert !Moves(a) || a.PopReady? || a.Respond? || a.Requeue? || a.ReleaseOne? || a.ReleaseDone?;
  }

  /** Moves among the first k steps. */
  function MoveCount(acts: seq<Action>, k: nat): (n: nat)
    requires k <= |acts|
  {
    if k == 0 then 0 else MoveCount(acts, k - 1) + One(Moves(acts[k - 1]))
  }

  lemma InitWork(cfg: Config)
    ensures Work(cfg, Init(cfg)) == (|cfg.total| + 4) * Sum(Ints(cfg.total))
  {
    hide Sum, Ints, SubQuestionsNeeded;
  }

  lemma {:induction false} SumNonNegative(total: seq<nat>)
    ensures Sum(Ints(total)) >= 0
  {
    if total != [] {
      var n := |total| - 1;
      SumNonNegative(total[..n]);
      assert Ints(total)[..n] == Ints(total[..n]);
    }
  }

  /** Every run, with or without failures, makes a bounded number of moves; the rest is polling. */
  lemma {:induction false} WorkBound(cfg: Config, acts: seq<Action>, tr: seq<State>, k: nat)
    requires Planned(cfg) && Run(cfg, acts, tr) && k <= |acts|
    ensures MoveCount(acts, k) + Work(cfg, tr[k]) <= (|cfg.total| + 4) * Sum(Ints(cfg.total))
    ensures MoveCount(acts, k) <= (|cfg.total| + 4) * Sum(Ints(cfg.total))
  {
    hide Sum, Ints, Work, Init, Apply, Enabled, Inv;
    if k == 0 {
      InitWork(cfg);
      SumNonNegative(cfg.total);
    } else {
      WorkBound(cfg, acts, tr, k - 1);
      InvAlways(cfg, acts, tr, k - 1);
      WorkStep(cfg, tr[k - 1], acts[k - 1]);
    }
  }

  lemma RunSnoc(cfg: Config, acts: seq<Action>, tr: seq<State>, a: Action)
    requires Run(cfg, acts, tr) && Enabled(cfg, tr[|acts|], a)
    ensures Run(cfg, acts + [a], tr + [Apply(cfg, tr[|acts|], a)])
  {
    hide Apply, Enabled, Init;
  }

  lemma ProductiveStep(cfg: Config, s: State, a: Action)
    requires Planned(cfg) && Inv(cfg, s) && Enabled(cfg, s, a) && Productive(s, a)
    ensures var t := Apply(cfg, s, a);
            && t.failed == s.failed && 0 <= Work(cfg, t)
            && 2 * Work(cfg, t) + One(!t.permit) < 2 * Work(cfg, s) + One(!s.permit)
  {
    hide Work, Inv, RemoveAt, ClientsAbove;
    WorkStep(cfg, s, a);
  }

  /** From every state of every run, if no further response fails, productive steps lead to rest. */
  lemma {:induction false} CanRest(cfg: Config, acts: seq<Action>, tr: seq<State>)
    returns (acts': seq<Action>, tr': seq<State>)
    requires Planned(cfg) && cfg.maxParallel >= 1 && Run(cfg, acts, tr)
    ensures Run(cfg, acts', tr') && acts <= acts' && tr <= tr'
    ensures Quiescent(tr'[|acts'|]) && tr'[|acts'|].failed == tr[|acts|].failed
    decreases 2 * Work(cfg, tr[|acts|]) + One(!tr[|acts|].permit)
  {
    hide Run, Work, Inv, Enabled, Apply, Productive, Quiescent;
    assert |tr| == |acts| + 1 by { RunLength(cfg, acts, tr); }
    var s := tr[|acts|];
    InvAlways(cfg, acts, tr, |acts|);
    if Quiescent(s) {
      acts', tr' := acts, tr;
    } else {
      var a := Progress(cfg, s);
      RunSnoc(cfg, acts, tr, a);
      ProductiveStep(cfg, s, a);
      acts', tr' := CanRest(cfg, acts + [a], tr + [Apply(cfg, s, a)]);
    }
  }

  /** Every run without a failure so far can be continued to one that completes exactly
      `total_requests` requests. */
  lemma CanComplete(cfg: Config, acts: seq<Action>, tr: seq<State>) returns (acts': seq<Action>, tr': seq<State>)
    requires Planned(cfg) && cfg.maxParallel >= 1 && Run(cfg, acts, tr) && tr[|acts|].failed == {}
    ensures Run(cfg, acts', tr') && acts <= acts' && tr <= tr'
    ensures tr'[|acts'|].round == cfg.total && tr'[|acts'|].completed == Sum(Ints(cfg.total))
  {
    hide Run, Sum, Ints, Quiescent;
    acts', tr' := CanRest(cfg, acts, tr);
    FailureFreeCompletes(cfg, acts', tr', |acts'|);
  }

  // ----- the sender uses all the room it has ---------------------------------------------

  predicate SenderStep(a: Action) {
    a.CheckRoom? || a.PopReady?
  }

  lemma SendStep(cfg: Config, s: State)
    requires s.ready != [] && s.permit
    ensures Enabled(cfg, s, PopReady(0))
    ensures var t := Apply(cfg, s, PopReady(0));
            && t.inFlight == s.inFlight + {s.ready[0]} && t.ready == s.ready[1..] && !t.permit
            && t.sent == s.sent + 1 && t.completed == s.completed && t.round == s.round
  {
  }

  lemma CheckStep(cfg: Config, s: State)
    requires !s.permit && s.sent - s.completed < cfg.maxParallel
    ensures Enabled(cfg, s, CheckRoom) && Apply(cfg, s, CheckRoom) == s.(permit := true)
  {
  }

  /** Whenever fewer requests are out than may be and one is ready, the sender sends the first ready one
      in one or two steps of its own, without waiting for any response. */
  lemma SenderSends(cfg: Config, acts: seq<Action>, tr: seq<State>) returns (steps: seq<Action>, tr': seq<State>)
    requires Planned(cfg) && Run(cfg, acts, tr)
    requires var s := tr[|acts|]; s.ready != [] && s.sent - s.completed < cfg.maxParallel
    ensures Run(cfg, acts + steps, tr') && tr <= tr' && 1 <= |steps| <= 2
    ensures forall k :: 0 <= k < |steps| ==> SenderStep(steps[k])
    ensures var s, t := tr[|acts|], tr'[|acts| + |steps|];
            && t.inFlight == s.inFlight + {s.ready[0]} && t.ready == s.ready[1..] && !t.permit
            && t.sent == s.sent + 1 && t.completed == s.completed && t.round == s.round
  {
    hide Apply, Enabled, Init, Planned;
    var s, acts', trace := tr[|acts|], acts, tr;
    steps := [];
    if !s.permit {
      CheckStep(cfg, s);
      RunSnoc(cfg, acts, tr, CheckRoom);
      steps, acts', trace := [CheckRoom], acts + [CheckRoom], tr + [s.(permit := true)];
    }
    var ready := trace[|acts'|];
    SendStep(cfg, ready);
    RunSnoc(cfg, acts', trace, PopReady(0));
    assert acts' + [PopReady(0)] == acts + (steps + [PopReady(0)]);
    steps, tr' := steps + [PopReady(0)], trace + [Apply(cfg, ready, PopReady(0))];
  }

  lemma ReadyNotOut(cfg: Config, acts: seq<Action>, tr: seq<State>)
    requires Planned(cfg) && Run(cfg, acts, tr) && tr[|acts|].ready != []
    ensures tr[|acts|].ready[0] !in tr[|acts|].inFlight
  {
    hide Apply, Enabled, Init, Planned, Counted, Drawn, OnLevels, BarrierCounted;
    var s := tr[|acts|];
    InvAlways(cfg, acts, tr, |acts|);
    assert PlacedClient(cfg, s, s.ready[0]) && s.ready[0] in multiset(s.ready);
  }

  /** From the start the sender alone, before any response, brings n requests into flight, for every n up
      to the number of clients and the parallel limit. */
  lemma {:induction false} SenderFills(cfg: Config, n: nat) returns (acts: seq<Action>, tr: seq<State>)
    requires Planned(cfg) && n <= |cfg.total| && (n == 0 || n <= cfg.maxParallel)
    ensures Run(cfg, acts, tr) && forall k :: 0 <= k < |acts| ==> SenderStep(acts[k])
    ensures var s := tr[|acts|];
            |s.inFlight| == n == s.sent && s.completed == 0 && |s.ready| == |cfg.total| - n && !s.permit
  {
    hide Apply, Enabled, Planned;
    if n == 0 {
      hide SubQuestionsNeeded;
      acts, tr := [], [Init(cfg)];
    } else {
      hide Init;
      acts, tr := SenderFills(cfg, n - 1);
      var s := tr[|acts|];
      var steps, tr' := SenderSends(cfg, acts, tr);
      assert s.ready[0] !in s.inFlight by { ReadyNotOut(cfg, acts, tr); }
      acts, tr := acts + steps, tr';
    }
  }

  // ----- the two threads, updating the shared object -------------------------------------

  class WorkloadGenerator {
    const cfg: Config
    const clientsPerRound: seq<int>
    var round: seq<nat>
    var ready: seq<nat>
    var inFlight: set<nat>
    var held: seq<nat>
    var failed: set<nat>
    var sent: nat
    var completed: nat
    var subQuestions: int
    var barrierRound: nat
    var barrierDone: nat
    var permit: bool
    var pc: Pc

    ghost function View(): State
      reads this
    {
      State(round, ready, inFlight, held, failed, sent, completed, subQuestions, barrierRound, barrierDone, permit, pc)
    }

    ghost predicate Valid()
      reads this
    {
      Planned(cfg) && clientsPerRound == ClientsPerRound(cfg.total, cfg.maxRounds) && Inv(cfg, View())
    }

    constructor (cfg: Config)
      requires Planned(cfg)
      ensures Valid() && this.cfg == cfg && View() == Init(cfg)
      ensures |ready| == |round| == |cfg.total| && forall c :: 0 <= c < |cfg.total| ==> ready[c] == c && round[c] == 0
      ensures var need := Sum(Ints(cfg.total)) - |cfg.total|; subQuestions == if need > 1 then need else 1
      ensures sent == completed == 0 && inFlight == failed == {} && held == [] && barrierRound == barrierDone == 0
    {
      var n := |cfg.total|;
      SubQuestionSum(cfg.total);
      var need := SubQuestionsNeeded(cfg.total);
      this.cfg := cfg;
      clientsPerRound := ClientsPerRound(cfg.total, cfg.maxRounds);
      round, ready, held := seq(n, _ => 0), seq(n, i => i), [];
      inFlight, failed := {}, {};
      sent, completed, subQuestions := 0, 0, if need > 1 then need else 1;
      barrierRound, barrierDone, permit, pc := 0, 0, false, Idle;
      new;
      InvInit(cfg);
    }

    /** Sender: look at the counters. */
    method SenderCheck()
      requires Valid() && !permit
      modifies this
      ensures Valid()
      ensures View() == if Enabled(cfg, old(View()), CheckRoom) then Apply(cfg, old(View()), CheckRoom) else old(View())
      ensures permit <==> old(sent) - old(completed) < cfg.maxParallel
    {
      hide Inv, Planned;
      if sent - completed < cfg.maxParallel {
        InvStep(cfg, View(), CheckRoom);
        permit := true;
      }
    }

    /** Sender: `ready_queue.pop()`, at any index under the random policy, then send. */
    method SenderPop(index: nat) returns (client: Option<nat>)
      requires Valid() && permit && (ready != [] ==> index < |ready|)
      modifies this
      ensures Valid()
      ensures client.None? <==> old(ready) == []
      ensures client.None? ==> View() == Apply(cfg, old(View()), PopEmpty)
      ensures client.Some? ==> var k := if cfg.fifo then 0 else index;
                               client.value == old(ready)[k] && View() == Apply(cfg, old(View()), PopReady(k))
      ensures !permit && sent == old(sent) + One(client.Some?) && completed == old(completed) && round == old(round)
      ensures client.Some? ==> var k := if cfg.fifo then 0 else index;
                               && inFlight == old(inFlight) + {old(ready)[k]}
                               && ready == old(ready)[..k] + old(ready)[k + 1..]
    {
      hide Inv, Planned;
      if ready == [] {
        InvStep(cfg, View(), PopEmpty);
        permit := false;
        return None;
      }
      var k := if cfg.fifo then 0 else index;
      InvStep(cfg, View(), PopReady(k));
      client := Some(ready[k]);
      inFlight := inFlight + {ready[k]};
      ready := RemoveAt(ready, k);
      sent := sent + 1;
      permit := false;
    }

    /** Handler: take a response off the response queue. */
    method HandlerTake(c: nat, success: bool)
      requires Valid() && pc == Idle && c in inFlight && c < |round|
      modifies this
      ensures Valid() && View() == Apply(cfg, old(View()), Respond(c, success))
      ensures completed == old(completed) + 1 && sent == old(sent) && inFlight == old(inFlight) - {c}
      ensures round == if success then old(round)[c := old(round)[c] + 1] else old(round)
      ensures failed == if success then old(failed) else old(failed) + {c}
      ensures ready == old(ready) && held == old(held) && subQuestions == old(subQuestions)
    {
      hide Inv, Planned;
      InvStep(cfg, View(), Respond(c, success));
      inFlight := inFlight - {c};
      if !success {
        failed := failed + {c};
        completed := completed + 1;
        return;
      }
      round := round[c := round[c] + 1];
      completed := completed + 1;
      pc := Took(c);
    }

    /** Handler: queue the client's next question and count the success towards the barrier. */
    method HandlerRequeue()
      requires Valid() && pc.Took?
      modifies this
      ensures Valid() && View() == Apply(cfg, old(View()), Requeue)
      ensures var c := old(pc).client;
              var next := if old(round)[c] < cfg.total[c] then [c] else [];
              && held == old(held) + (if cfg.barrier then next else [])
              && ready == old(ready) + (if cfg.barrier then [] else next)
              && subQuestions == old(subQuestions) - |next| && round == old(round) && inFlight == old(inFlight)
    {
      hide ClientsAbove, Counted, Drawn, OnLevels, BarrierCounted, PlacedClient;
      InvStep(cfg, View(), Requeue);
      var c := pc.client;
      if round[c] < cfg.total[c] {
        subQuestions := subQuestions - 1;
        if cfg.barrier {
          held := held + [c];
        } else {
          ready := ready + [c];
        }
      }
      pc := Idle;
      if cfg.barrier && barrierRound < cfg.maxRounds {
        barrierDone := barrierDone + 1;
        if barrierDone == clientsPerRound[barrierRound] {
          pc := Releasing(0);
        }
      }
    }

    /** Handler: move one held request to the ready queue, or finish the release. */
    method HandlerRelease()
      requires Valid() && pc.Releasing?
      modifies this
      ensures Valid()
      ensures View() == if old(pc).next < |old(held)| then Apply(cfg, old(View()), ReleaseOne)
                        else Apply(cfg, old(View()), ReleaseDone)
      ensures if old(pc).next < |old(held)| then
                && ready == old(ready) + [old(held)[old(pc).next]] && held == old(held)
                && barrierRound == old(barrierRound) && pc == Releasing(old(pc).next + 1)
              else
                && ready == old(ready) && held == [] && pc == Idle
                && barrierRound == old(barrierRound) + 1 && barrierDone == 0
    {
      hide Counted, Drawn, OnLevels, BarrierCounted, PlacedClient;
      if pc.next < |held| {
        InvStep(cfg, View(), ReleaseOne);
        ready := ready + [held[pc.next]];
        pc := Releasing(pc.next + 1);
      } else {
        InvStep(cfg, View(), ReleaseDone);
        held := [];
        barrierRound := barrierRound + 1;
        barrierDone := 0;
        pc := Idle;
      }
    }
  }

  // ----- planning identity -------------------------------------------------------------

  lemma ClientsAboveSnoc(total: seq<nat>, t: nat, r: nat)
    ensures ClientsAbove(total + [t], r) == ClientsAbove(total, r) + One(t > r)
  {
    assert (total + [t])[..|total|] == total;
  }

  /** Requests of the first n rounds. */
  ghost function RequestsUpTo(total: seq<nat>, n: nat): (k: int) {
    if n == 0 then 0 else RequestsUpTo(total, n - 1) + ClientsAbove(total, n - 1)
  }

  lemma {:induction false} PerRoundSum(total: seq<nat>, n: nat)
    ensures Sum(ClientsPerRound(total, n)) == RequestsUpTo(total, n)
  {
    if n > 0 {
      PerRoundSum(total, n - 1);
      var k := ClientsPerRound(total, n);
      assert k[..n - 1] == ClientsPerRound(total, n - 1);
    }
  }

  lemma {:induction false} RequestsSnoc(total: seq<nat>, t: nat, n: nat)
    ensures RequestsUpTo(total + [t], n) == RequestsUpTo(total, n) + if t < n then t else n
  {
    hide ClientsAbove;
    if n > 0 {
      RequestsSnoc(total, t, n - 1);
      ClientsAboveSnoc(total, t, n - 1);
    }
  }

  lemma {:induction false} NoRequests(n: nat)
    ensures RequestsUpTo([], n) == 0
  {
    if n > 0 {
      NoRequests(n - 1);
    }
  }

  /** Requests counted by round are the rounds of each client, up to n. */
  lemma {:induction false} RequestsByClient(total: seq<nat>, n: nat)
    requires forall c :: 0 <= c < |total| ==> total[c] <= n
    ensures RequestsUpTo(total, n) == Sum(Ints(total))
  {
    hide RequestsUpTo;
    if total == [] {
      NoRequests(n);
    } else {
      var m := |total| - 1;
      RequestsByClient(total[..m], n);
      RequestsSnoc(total[..m], total[m], n);
      assert total == total[..m] + [total[m]];
      assert Ints(total)[..m] == Ints(total[..m]);
    }
  }

  /** Counting requests by round or by client gives the same total. */
  lemma PlanTotals(total: seq<nat>, maxRounds: nat)
    requires forall c :: 0 <= c < |total| ==> total[c] <= maxRounds
    ensures Sum(ClientsPerRound(total, maxRounds)) == Sum(Ints(total))
  {
    hide Sum, Ints, ClientsPerRound, RequestsUpTo;
    PerRoundSum(total, maxRounds);
    RequestsByClient(total, maxRounds);
  }
}
