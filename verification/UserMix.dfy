/** The mixed multi-turn workload: a generator under a lock hands out users, takes answered ones
    back and keeps per-round statistics, while a sender and a response handler run. */
module UserMix {
  import opened Prelude

  /** `UserData`, as far as scheduling goes: current round, total rounds, earliest next start. */
  datatype User = User(round: nat, total: nat, start: int)

  /** `cumulative[i]` is the sum of the first i + 1 round ratios. */
  datatype Config = Config(cumulative: seq<int>, numRounds: nat, maxParallel: int)

  ghost predicate Usable(cfg: Config) {
    1 <= |cfg.cumulative| <= cfg.numRounds
  }

  datatype State = State(
    users: seq<User>,       // by user id
    queue: seq<nat>,        // multiturn_queue
    inFlight: set<nat>,
    dropped: set<nat>,      // response reported a failure
    crashed: set<nat>,      // the request task itself raised
    userStats: seq<int>,
    inputCount: seq<int>,   // input_stats[r][1]
    outputCount: seq<int>,  // output_stats[r][1]
    sent: nat,
    completed: nat,
    pushed: bool,           // handler between push and counting the completion
    done: bool)

  datatype Action =
    | Send(now: int, rand: int, expired: bool)
    | Push(user: nat, start: int)
    | Complete
    | Drop(user: nat)
    | Crash(user: nat)

  // ----- generator -----------------------------------------------------------------

  /** Total rounds drawn for a new user: the first bucket whose cumulative ratio exceeds the draw. */
  function RoundsFor(cumulative: seq<int>, rand: int, i: nat): (total: nat)
    requires i <= |cumulative| && 0 < |cumulative|
    ensures 1 <= total <= |cumulative|
    ensures rand < cumulative[total - 1] || total == |cumulative|
    ensures forall k :: i <= k < total - 1 ==> rand >= cumulative[k]
    decreases |cumulative| - i
  {
    if i == |cumulative| then |cumulative|
    else if rand >= cumulative[i] then RoundsFor(cumulative, rand, i + 1)
    else i + 1
  }

  function FirstLater(starts: seq<int>, x: int, i: nat): (k: nat)
    requires i <= |starts| && exists j :: i <= j < |starts| && x < starts[j]
    ensures i <= k < |starts| && x < starts[k]
    ensures forall j :: i <= j < k ==> starts[j] <= x
    decreases |starts| - i
  {
    if x < starts[i] then i else FirstLater(starts, x, i + 1)
  }

  /** Where `push` inserts: before the first user that starts later; when there is none the loop
      variable is left at the last position. */
  function InsertIndex(starts: seq<int>, x: int): (k: nat)
    ensures k <= |starts|
    ensures k < |starts| && x < starts[k] ==> forall j :: 0 <= j < k ==> starts[j] <= x
    ensures starts != [] ==> k < |starts|
    ensures starts != [] && starts[k] <= x ==> k == |starts| - 1 && forall j :: 0 <= j < |starts| ==> starts[j] <= x
  {
    if starts == [] then 0
    else if exists i :: 0 <= i < |starts| && x < starts[i] then FirstLater(starts, x, 0)
    else |starts| - 1
  }

  ghost predicate Ascending(s: seq<int>) {
    forall i, j :: 0 <= i < j < |s| ==> s[i] <= s[j]
  }

  /** The queue stays ordered by start exactly when the new user does not start after the last one:
      a later start is put before the last user instead of behind it. */
  lemma InsertKeepsOrderIff(starts: seq<int>, x: int)
    requires Ascending(starts)
    ensures Ascending(InsertAt(starts, InsertIndex(starts, x), x)) <==> starts == [] || x <= starts[|starts| - 1]
  {
    var k := InsertIndex(starts, x);
    var r := InsertAt(starts, k, x);
    if starts != [] {
      var n := |starts| - 1;
      if x > starts[n] {
        assert k == n;
        assert r[n] == x && r[n + 1] == starts[n];
      } else {
        forall i, j | 0 <= i < j < |r| ensures r[i] <= r[j] {
          assert r[i] == if i < k then starts[i] else if i == k then x else starts[i - 1];
          assert r[j] == if j < k then starts[j] else if j == k then x else starts[j - 1];
        }
      }
    }
  }

  // ----- the steps -------------------------------------------------------------------

  function Init(cfg: Config): (s: State) {
    var zeros := seq(cfg.numRounds, _ => 0);
    State([], [], {}, {}, {}, zeros, zeros, zeros, 0, 0, false, false)
  }

  ghost predicate Shape(cfg: Config, s: State) {
    && |s.userStats| == |s.inputCount| == |s.outputCount| == cfg.numRounds
    && (forall k :: 0 <= k < |s.queue| ==> s.queue[k] < |s.users|)
    && (forall u :: u in s.inFlight ==> u < |s.users|)
    && (forall u :: 0 <= u < |s.users| ==>
          s.users[u].round <= s.users[u].total <= cfg.numRounds && 1 <= s.users[u].total)
    && (forall u :: u in s.inFlight ==> s.users[u].round < s.users[u].total)
  }

  ghost predicate Enabled(cfg: Config, s: State, a: Action) {
    match a
    case Send(_, _, _) => !s.done && s.sent - s.completed < cfg.maxParallel
    case Push(u, _) => u in s.inFlight && !s.pushed
    case Complete => s.pushed
    case Drop(u) => u in s.inFlight && !s.pushed
    case Crash(u) => u in s.inFlight
  }

  function Starts(s: State): (r: seq<int>)
    requires forall k :: 0 <= k < |s.queue| ==> s.queue[k] < |s.users|
    ensures |r| == |s.queue|
  {
    seq(|s.queue|, k requires 0 <= k < |s.queue| => s.users[s.queue[k]].start)
  }

  /** `gen`: a new user with its statistics. */
  function Gen(cfg: Config, s: State, rand: int): (r: State)
    requires Usable(cfg) && Shape(cfg, s)
  {
    var total := RoundsFor(cfg.cumulative, rand, 0);
    s.(users := s.users + [User(0, total, 0)],
       userStats := s.userStats[total - 1 := s.userStats[total - 1] + 1],
       inputCount := s.inputCount[0 := s.inputCount[0] + 1],
       inFlight := s.inFlight + {|s.users|})
  }

  /** `pop`: the head of the queue if its time has come, else a new user. */
  function Pop(cfg: Config, s: State, now: int, rand: int): (r: State)
    requires Usable(cfg) && Shape(cfg, s)
  {
    if s.queue != [] && now > s.users[s.queue[0]].start
    then s.(queue := s.queue[1..], inFlight := s.inFlight + {s.queue[0]})
    else Gen(cfg, s, rand)
  }

  /** `push`: the answered user's round is over; it goes back to the queue if rounds remain. */
  function PushBack(cfg: Config, s: State, u: nat, start: int): (r: State)
    requires Shape(cfg, s) && u in s.inFlight
  {
    var user := s.users[u];
    var next := user.round + 1;
    var s1 := s.(inFlight := s.inFlight - {u},
                 outputCount := s.outputCount[user.round := s.outputCount[user.round] + 1]);
    if next >= user.total then s1.(users := s.users[u := user.(round := next)])
    else
      s1.(users := s.users[u := user.(round := next, start := start)],
          inputCount := s.inputCount[next := s.inputCount[next] + 1],
          queue := InsertAt(s.queue, InsertIndex(Starts(s), start), u))
  }

  ghost function Apply(cfg: Config, s: State, a: Action): (r: State)
    requires Usable(cfg) && Shape(cfg, s) && Enabled(cfg, s, a)
  {
    match a
    case Send(now, rand, expired) => Pop(cfg, s, now, rand).(sent := s.sent + 1, done := expired)
    case Push(u, start) => PushBack(cfg, s, u, start).(pushed := true)
    case Complete => s.(completed := s.completed + 1, pushed := false)
    case Drop(u) => s.(inFlight := s.inFlight - {u}, dropped := s.dropped + {u})
    case Crash(u) => s.(inFlight := s.inFlight - {u}, crashed := s.crashed + {u}, completed := s.completed + 1)
  }

  // ----- counting users ------------------------------------------------------------------

  ghost function Count(users: seq<User>, p: User -> bool): (n: nat) {
    if users == [] then 0 else Count(users[..|users| - 1], p) + One(p(users[|users| - 1]))
  }

  lemma CountSnoc(users: seq<User>, u: User, p: User -> bool)
    ensures Count(users + [u], p) == Count(users, p) + One(p(u))
  {
    assert (users + [u])[..|users|] == users;
  }

  lemma {:induction false} CountUpdate(users: seq<User>, i: nat, u: User, p: User -> bool)
    requires i < |users|
    ensures Count(users[i := u], p) == Count(users, p) - One(p(users[i])) + One(p(u))
  {
    var n := |users| - 1;
    if i < n {
      CountUpdate(users[..n], i, u, p);
      assert users[i := u][..n] == users[..n][i := u];
    } else {
      assert users[i := u][..n] == users[..n];
    }
  }

  /** Users that have been given a question of round r. */
  function Asked(r: nat): User -> bool { (u: User) => u.total > r && u.round >= r }

  /** Users that have answered round r. */
  function Answered(r: nat): User -> bool { (u: User) => u.round > r }

  /** Users waiting in round r: queued, in flight, dropped or crashed. */
  function AtRound(r: nat): User -> bool { (u: User) => u.total > r && u.round == r }

  function WithTotal(t: nat): User -> bool { (u: User) => u.total == t }

  /** The statistics in closed form. */
  ghost predicate Tallied(cfg: Config, s: State, r: nat)
    requires r < cfg.numRounds == |s.userStats| && |s.inputCount| == |s.outputCount| == cfg.numRounds
  {
    && s.inputCount[r] == Count(s.users, Asked(r))
    && s.outputCount[r] == Count(s.users, Answered(r))
    && s.userStats[r] == Count(s.users, WithTotal(r + 1))
  }

  lemma TalliedGen(cfg: Config, s: State, rand: int, r: nat)
    requires Usable(cfg) && Shape(cfg, s) && r < cfg.numRounds && Tallied(cfg, s, r)
    ensures Tallied(cfg, Gen(cfg, s, rand), r)
  {
    hide Count, RoundsFor;
    var u := User(0, RoundsFor(cfg.cumulative, rand, 0), 0);
    CountSnoc(s.users, u, Asked(r));
    CountSnoc(s.users, u, Answered(r));
    CountSnoc(s.users, u, WithTotal(r + 1));
  }

  lemma TalliedPush(cfg: Config, s: State, u: nat, start: int, r: nat)
    requires Shape(cfg, s) && u in s.inFlight && r < cfg.numRounds && Tallied(cfg, s, r)
    ensures Tallied(cfg, PushBack(cfg, s, u, start), r)
  {
    hide Count, InsertIndex, InsertAt, Starts;
    var user := s.users[u];
    var user' := PushBack(cfg, s, u, start).users[u];
    CountUpdate(s.users, u, user', Asked(r));
    CountUpdate(s.users, u, user', Answered(r));
    CountUpdate(s.users, u, user', WithTotal(r + 1));
  }

  // ----- where each user is ----------------------------------------------------------------

  ghost predicate PlacedUser(s: State, u: nat) {
    multiset(s.queue)[u] + One(u in s.inFlight) + One(u in s.dropped) + One(u in s.crashed)
      == One(u < |s.users| && s.users[u].round < s.users[u].total)
  }

  /** A queued user is between two of its rounds. */
  ghost predicate Queued(s: State, u: nat) {
    u in s.queue ==> u < |s.users| && 0 < s.users[u].round < s.users[u].total
  }

  ghost predicate InRounds(cfg: Config, s: State, u: nat)
    requires u < |s.users|
  {
    s.users[u].round <= s.users[u].total <= cfg.numRounds && 1 <= s.users[u].total
  }

  lemma GenPlaced(cfg: Config, s: State, rand: int, u: nat)
    requires Usable(cfg) && Shape(cfg, s) && PlacedUser(s, u) && Queued(s, u)
    ensures PlacedUser(Gen(cfg, s, rand), u) && Queued(Gen(cfg, s, rand), u)
    ensures u < |Gen(cfg, s, rand).users| ==> InRounds(cfg, Gen(cfg, s, rand), u)
  {
    hide RoundsFor;
    assert u in s.queue ==> u in multiset(s.queue);
  }

  lemma PopPlaced(cfg: Config, s: State, now: int, rand: int, u: nat)
    requires Usable(cfg) && Shape(cfg, s) && PlacedUser(s, u) && Queued(s, u)
    ensures PlacedUser(Pop(cfg, s, now, rand), u) && Queued(Pop(cfg, s, now, rand), u)
    ensures u < |Pop(cfg, s, now, rand).users| ==> InRounds(cfg, Pop(cfg, s, now, rand), u)
  {
    hide Gen;
    GenPlaced(cfg, s, rand, u);
    assert u in s.queue ==> u in multiset(s.queue);
    if s.queue != [] {
      assert s.queue == [s.queue[0]] + s.queue[1..];
    }
  }

  lemma PushPlaced(cfg: Config, s: State, v: nat, start: int, u: nat)
    requires Shape(cfg, s) && v in s.inFlight && PlacedUser(s, u) && Queued(s, u) && PlacedUser(s, v)
    ensures PlacedUser(PushBack(cfg, s, v, start), u) && Queued(PushBack(cfg, s, v, start), u)
    ensures u < |s.users| ==> InRounds(cfg, PushBack(cfg, s, v, start), u)
  {
    hide InsertIndex, InsertAt, Starts;
    var r := PushBack(cfg, s, v, start);
    assert u in s.queue <==> u in multiset(s.queue);
    assert u in r.queue <==> u in multiset(r.queue);
    assert multiset(r.queue)[u] == multiset(s.queue)[u] + One(u == v && s.users[v].round + 1 < s.users[v].total);
  }

  ghost predicate Placed(s: State) {
    forall u: nat :: PlacedUser(s, u) && Queued(s, u)
  }

  /** Shape follows once every user is placed and within its rounds. */
  lemma ShapeFrom(cfg: Config, s: State)
    requires |s.userStats| == |s.inputCount| == |s.outputCount| == cfg.numRounds
    requires Placed(s) && forall u: nat :: u < |s.users| ==> InRounds(cfg, s, u)
    ensures Shape(cfg, s)
  {
    forall k | 0 <= k < |s.queue| ensures s.queue[k] < |s.users| {
      assert Queued(s, s.queue[k]) && s.queue[k] in s.queue;
    }
    forall u | u in s.inFlight ensures u < |s.users| && s.users[u].round < s.users[u].total {
      assert PlacedUser(s, u);
    }
    forall u: nat | u < |s.users|
      ensures s.users[u].round <= s.users[u].total <= cfg.numRounds && 1 <= s.users[u].total
    {
      assert InRounds(cfg, s, u);
    }
  }

  lemma PushKeepsUsers(cfg: Config, s: State, v: nat, start: int)
    requires Shape(cfg, s) && v in s.inFlight
    ensures |PushBack(cfg, s, v, start).users| == |s.users|
  {
  }

  lemma PlacedStepAt(cfg: Config, s: State, a: Action, u: nat)
    requires Usable(cfg) && Shape(cfg, s) && Placed(s) && Enabled(cfg, s, a)
    ensures PlacedUser(Apply(cfg, s, a), u) && Queued(Apply(cfg, s, a), u)
    ensures u < |Apply(cfg, s, a).users| ==> InRounds(cfg, Apply(cfg, s, a), u)
  {
    hide Pop, PushBack;
    assert PlacedUser(s, u) && Queued(s, u);
    match a
    case Send(now, rand, _) =>
      PopPlaced(cfg, s, now, rand, u);
      var p := Pop(cfg, s, now, rand);
      assert Apply(cfg, s, a).users == p.users && Apply(cfg, s, a).queue == p.queue;
    case Push(v, start) =>
      assert PlacedUser(s, v);
      PushPlaced(cfg, s, v, start, u);
      assert |PushBack(cfg, s, v, start).users| == |s.users| by { PushKeepsUsers(cfg, s, v, start); }
    case _ =>
  }

  lemma ShapeStep(cfg: Config, s: State, a: Action)
    requires Usable(cfg) && Shape(cfg, s) && Placed(s) && Enabled(cfg, s, a)
    ensures Shape(cfg, Apply(cfg, s, a)) && Placed(Apply(cfg, s, a))
  {
    var r := Apply(cfg, s, a);
    assert |r.userStats| == |r.inputCount| == |r.outputCount| == cfg.numRounds;
    forall u: nat ensures PlacedUser(r, u) && Queued(r, u) && (u < |r.users| ==> InRounds(cfg, r, u)) {
      PlacedStepAt(cfg, s, a, u);
    }
    ShapeFrom(cfg, r);
  }

  /** Requests counted as outstanding: in flight, dropped without being counted, or just pushed. */
  ghost predicate Outstanding(s: State) {
    s.sent - s.completed == |s.inFlight| + |s.dropped| + One(s.pushed)
  }

  lemma PopSize(cfg: Config, s: State, now: int, rand: int)
    requires Usable(cfg) && Shape(cfg, s) && (s.queue != [] ==> PlacedUser(s, s.queue[0]))
    ensures var t := Pop(cfg, s, now, rand);
            && |t.inFlight| == |s.inFlight| + 1 && t.dropped == s.dropped
            && t.completed == s.completed && t.pushed == s.pushed
  {
    hide RoundsFor;
    if s.queue != [] {
      assert s.queue[0] in multiset(s.queue);
    }
    assert |s.users| !in s.inFlight;
  }

  lemma PushSize(cfg: Config, s: State, u: nat, start: int)
    requires Shape(cfg, s) && u in s.inFlight
    ensures var t := PushBack(cfg, s, u, start);
            |t.inFlight| == |s.inFlight| - 1 && t.dropped == s.dropped && t.completed == s.completed && t.sent == s.sent
  {
    hide InsertIndex, InsertAt, Starts;
  }

  lemma OutstandingStep(cfg: Config, s: State, a: Action)
    requires Usable(cfg) && Shape(cfg, s) && Placed(s) && Outstanding(s) && Enabled(cfg, s, a)
    ensures Outstanding(Apply(cfg, s, a))
  {
    hide Pop, PushBack, Shape;
    match a
    case Send(now, rand, _) => PopSize(cfg, s, now, rand);
    case Push(u, start) => PushSize(cfg, s, u, start);
    case Drop(u) => assert PlacedUser(s, u);
    case _ =>
  }

  ghost predicate AllTallied(cfg: Config, s: State)
    requires |s.userStats| == |s.inputCount| == |s.outputCount| == cfg.numRounds
  {
    forall r: nat :: r < cfg.numRounds ==> Tallied(cfg, s, r)
  }

  lemma GenSizes(cfg: Config, s: State, rand: int)
    requires Usable(cfg) && Shape(cfg, s)
    ensures var t := Gen(cfg, s, rand); |t.userStats| == |t.inputCount| == |t.outputCount| == cfg.numRounds
  {
  }

  lemma TalliedStep(cfg: Config, s: State, a: Action, r: nat)
    requires Usable(cfg) && Shape(cfg, s) && Enabled(cfg, s, a) && r < cfg.numRounds && Tallied(cfg, s, r)
    ensures var t := Apply(cfg, s, a);
            && |t.userStats| == |t.inputCount| == |t.outputCount| == cfg.numRounds
            && Tallied(cfg, t, r)
  {
    hide Count, Gen, InsertIndex, InsertAt, Starts;
    match a
    case Send(now, rand, _) =>
      TalliedGen(cfg, s, rand, r);
      GenSizes(cfg, s, rand);
    case Push(u, start) => TalliedPush(cfg, s, u, start, r);
    case _ =>
  }

  ghost predicate Inv(cfg: Config, s: State) {
    Shape(cfg, s) && Placed(s) && Outstanding(s) && AllTallied(cfg, s)
  }

  lemma InvInit(cfg: Config)
    ensures Inv(cfg, Init(cfg))
  {
  }

  lemma SizesStep(cfg: Config, s: State, a: Action)
    requires Usable(cfg) && Shape(cfg, s) && Placed(s) && Enabled(cfg, s, a)
    ensures var t := Apply(cfg, s, a); |t.userStats| == |t.inputCount| == |t.outputCount| == cfg.numRounds
  {
    hide Apply, Placed;
    ShapeStep(cfg, s, a);
  }

  lemma InvStep(cfg: Config, s: State, a: Action)
    requires Usable(cfg) && Inv(cfg, s) && Enabled(cfg, s, a)
    ensures Inv(cfg, Apply(cfg, s, a))
  {
    hide Apply, Shape, Placed, Tallied, Outstanding;
    ShapeStep(cfg, s, a);
    OutstandingStep(cfg, s, a);
    SizesStep(cfg, s, a);
    forall r: nat | r < cfg.numRounds ensures Tallied(cfg, Apply(cfg, s, a), r) {
      TalliedStep(cfg, s, a, r);
    }
  }

  /** Actions and the states they lead through from `from`. */
  ghost predicate RunFrom(cfg: Config, from: State, acts: seq<Action>, tr: seq<State>)
    requires Usable(cfg)
  {
    && |tr| == |acts| + 1
    && tr[0] == from
    && forall k :: 0 <= k < |acts| ==>
         Shape(cfg, tr[k]) && Enabled(cfg, tr[k], acts[k]) && tr[k + 1] == Apply(cfg, tr[k], acts[k])
  }

  lemma {:induction false} InvAlways(cfg: Config, from: State, acts: seq<Action>, tr: seq<State>, k: nat)
    requires Usable(cfg) && Inv(cfg, from) && RunFrom(cfg, from, acts, tr) && k <= |acts|
    ensures Inv(cfg, tr[k])
  {
    hide Inv, Apply, Shape;
    if k > 0 {
      InvAlways(cfg, from, acts, tr, k - 1);
      InvStep(cfg, tr[k - 1], acts[k - 1]);
    }
  }

  // ----- conservation over every run -----------------------------------------------------------

  lemma {:induction false} CountSplit(users: seq<User>, r: nat)
    requires forall u :: 0 <= u < |users| ==> users[u].round <= users[u].total
    ensures Count(users, Asked(r)) == Count(users, Answered(r)) + Count(users, AtRound(r))
  {
    if users != [] {
      CountSplit(users[..|users| - 1], r);
    }
  }

  lemma {:induction false} CountAll(users: seq<User>, p: User -> bool)
    requires forall u :: 0 <= u < |users| ==> p(users[u])
    ensures Count(users, p) == |users|
  {
    if users != [] {
      CountAll(users[..|users| - 1], p);
    }
  }

  /** In every run, each round's questions are its answers plus the users still in that round:
      queued, in flight, dropped or crashed. */
  lemma RoundsConserved(cfg: Config, acts: seq<Action>, tr: seq<State>, k: nat, r: nat)
    requires Usable(cfg) && RunFrom(cfg, Init(cfg), acts, tr) && k <= |acts| && r < cfg.numRounds
    ensures |tr[k].inputCount| == |tr[k].outputCount| == cfg.numRounds
    ensures tr[k].inputCount[r] == tr[k].outputCount[r] + Count(tr[k].users, AtRound(r))
  {
    hide Count;
    InvInit(cfg);
    InvAlways(cfg, Init(cfg), acts, tr, k);
    assert Tallied(cfg, tr[k], r);
    CountSplit(tr[k].users, r);
  }

  /** Users still in a round are exactly those queued, in flight, dropped or crashed, once each,
      and a queued user is strictly between its first and last round. */
  lemma UsersPlaced(cfg: Config, acts: seq<Action>, tr: seq<State>, k: nat, u: nat)
    requires Usable(cfg) && RunFrom(cfg, Init(cfg), acts, tr) && k <= |acts| && u < |tr[k].users|
    ensures var s := tr[k];
            && (s.users[u].round < s.users[u].total <==>
                  u in s.queue || u in s.inFlight || u in s.dropped || u in s.crashed)
            && multiset(s.queue)[u] + One(u in s.inFlight) + One(u in s.dropped) + One(u in s.crashed) <= 1
            && (u in s.queue ==> 0 < s.users[u].round < s.users[u].total <= cfg.numRounds)
  {
    hide Count;
    InvInit(cfg);
    InvAlways(cfg, Init(cfg), acts, tr, k);
    assert PlacedUser(tr[k], u) && Queued(tr[k], u);
    assert u in tr[k].queue <==> u in multiset(tr[k].queue);
  }

  /** Users by total rounds, for totals 1 to n. */
  ghost function ByTotal(users: seq<User>, n: nat): (r: seq<int>)
    ensures |r| == n
    ensures forall t :: 0 <= t < n ==> r[t] == Count(users, WithTotal(t + 1))
  {
    if n == 0 then [] else ByTotal(users, n - 1) + [Count(users, WithTotal(n))]
  }

  lemma {:induction false} ByTotalSnoc(users: seq<User>, u: User, n: nat)
    requires u.total >= 1
    ensures Sum(ByTotal(users + [u], n)) == Sum(ByTotal(users, n)) + One(u.total <= n)
  {
    hide Count;
    if n > 0 {
      ByTotalSnoc(users, u, n - 1);
      CountSnoc(users, u, WithTotal(n));
      assert ByTotal(users + [u], n)[..n - 1] == ByTotal(users + [u], n - 1);
      assert ByTotal(users, n)[..n - 1] == ByTotal(users, n - 1);
    }
  }

  lemma {:induction false} ByTotalNone(n: nat)
    ensures Sum(ByTotal([], n)) == 0
  {
    if n > 0 {
      ByTotalNone(n - 1);
      assert ByTotal([], n)[..n - 1] == ByTotal([], n - 1);
    }
  }

  lemma {:induction false} ByTotalSum(users: seq<User>, n: nat)
    requires forall u :: 0 <= u < |users| ==> 1 <= users[u].total <= n
    ensures Sum(ByTotal(users, n)) == |users|
  {
    hide ByTotal, Sum;
    if users == [] {
      ByTotalNone(n);
    } else {
      var m := |users| - 1;
      ByTotalSum(users[..m], n);
      ByTotalSnoc(users[..m], users[m], n);
      assert users == users[..m] + [users[m]];
    }
  }

  /** Both the first-round questions and the user statistics count every user generated. */
  lemma UsersGenerated(cfg: Config, acts: seq<Action>, tr: seq<State>, k: nat)
    requires Usable(cfg) && RunFrom(cfg, Init(cfg), acts, tr) && k <= |acts|
    ensures |tr[k].inputCount| == cfg.numRounds && tr[k].inputCount[0] == |tr[k].users|
    ensures Sum(tr[k].userStats) == |tr[k].users|
  {
    hide Count, Sum;
    InvInit(cfg);
    InvAlways(cfg, Init(cfg), acts, tr, k);
    var s := tr[k];
    assert Tallied(cfg, s, 0);
    CountAll(s.users, Asked(0));
    ByTotalSum(s.users, cfg.numRounds);
    forall r: nat | r < cfg.numRounds ensures s.userStats[r] == ByTotal(s.users, cfg.numRounds)[r] {
      assert Tallied(cfg, s, r);
    }
    assert s.userStats == ByTotal(s.users, cfg.numRounds);
  }

  // ----- dropped requests use up the parallel slots ----------------------------------------------

  /** Who is sent: the head of the queue if its start has passed, and only then a new user is not made. */
  lemma SentUser(cfg: Config, s: State, now: int, rand: int, expired: bool)
    requires Usable(cfg) && Shape(cfg, s) && Placed(s) && Enabled(cfg, s, Send(now, rand, expired))
    ensures var t := Apply(cfg, s, Send(now, rand, expired));
            if s.queue != [] && s.users[s.queue[0]].start < now
            then t.inFlight == s.inFlight + {s.queue[0]} && t.queue == s.queue[1..] && t.users == s.users
            else
              && t.inFlight == s.inFlight + {|s.users|} && t.queue == s.queue
              && |t.users| == |s.users| + 1 && t.users[..|s.users|] == s.users && t.users[|s.users|].round == 0
    ensures var t := Apply(cfg, s, Send(now, rand, expired)); t.sent == s.sent + 1 && t.done == expired
  {
    hide RoundsFor;
  }

  /** A user put back is sent again only when the time it was given has passed. */
  lemma NotBeforeStart(cfg: Config, s: State, a: Action, u: nat)
    requires Usable(cfg) && Inv(cfg, s) && Enabled(cfg, s, a)
    requires u in s.queue && u in Apply(cfg, s, a).inFlight
    ensures a.Send? && u == s.queue[0] && s.users[u].start < a.now
  {
    hide Tallied, Gen, InsertAt, InsertIndex;
    assert PlacedUser(s, u) && u in multiset(s.queue);
    if a.Send? {
      SentUser(cfg, s, a.now, a.rand, a.expired);
    }
  }

  lemma DroppedGrows(cfg: Config, s: State, a: Action)
    requires Usable(cfg) && Shape(cfg, s) && Placed(s) && Enabled(cfg, s, a)
    ensures |s.dropped| <= |Apply(cfg, s, a).dropped|
    ensures !a.Send? ==> Apply(cfg, s, a).done == s.done && Apply(cfg, s, a).sent == s.sent
  {
    hide RoundsFor, InsertIndex, InsertAt, Starts;
    match a
    case Drop(u) => assert PlacedUser(s, u);
    case _ =>
  }

  /** Once the sender has seen its time run out nothing is sent any more. */
  lemma {:induction false} StopsWhenExpired(cfg: Config, from: State, acts: seq<Action>, tr: seq<State>, k: nat)
    requires Usable(cfg) && Inv(cfg, from) && RunFrom(cfg, from, acts, tr) && 0 < k <= |acts|
    requires acts[0].Send? && acts[0].expired
    ensures tr[k].done && tr[k].sent == from.sent + 1
  {
    hide Apply, Tallied, Shape;
    InvAlways(cfg, from, acts, tr, k - 1);
    if k == 1 {
      SentUser(cfg, from, acts[0].now, acts[0].rand, true);
    } else {
      StopsWhenExpired(cfg, from, acts, tr, k - 1);
      DroppedGrows(cfg, tr[k - 1], acts[k - 1]);
      assert !acts[k - 1].Send?;
    }
  }

  /** A failed response is never counted as completed. Once as many have failed as may run in
      parallel, no request is ever sent again and the sender never reaches its time check. */
  lemma {:induction false} StalledForever(cfg: Config, from: State, acts: seq<Action>, tr: seq<State>, k: nat)
    requires Usable(cfg) && Inv(cfg, from) && RunFrom(cfg, from, acts, tr) && k <= |acts|
    requires |from.dropped| >= cfg.maxParallel && !from.done
    ensures tr[k].sent == from.sent && !tr[k].done && |tr[k].dropped| >= cfg.maxParallel
  {
    hide Apply, Tallied;
    if k > 0 {
      StalledForever(cfg, from, acts, tr, k - 1);
      InvAlways(cfg, from, acts, tr, k - 1);
      DroppedGrows(cfg, tr[k - 1], acts[k - 1]);
      assert !acts[k - 1].Send?;
    }
  }

  lemma RunSnoc(cfg: Config, from: State, acts: seq<Action>, tr: seq<State>, a: Action)
    requires Usable(cfg) && RunFrom(cfg, from, acts, tr)
    requires Shape(cfg, tr[|acts|]) && Enabled(cfg, tr[|acts|], a)
    ensures RunFrom(cfg, from, acts + [a], tr + [Apply(cfg, tr[|acts|], a)])
  {
    hide Apply, Shape, Enabled;
  }

  lemma RunCons(cfg: Config, s: State, a: Action, acts: seq<Action>, tr: seq<State>)
    requires Usable(cfg) && Shape(cfg, s) && Enabled(cfg, s, a) && RunFrom(cfg, Apply(cfg, s, a), acts, tr)
    ensures RunFrom(cfg, s, [a] + acts, [s] + tr)
  {
    hide Apply, Shape, Enabled;
    var acts', tr' := [a] + acts, [s] + tr;
    forall k | 0 <= k < |acts'|
      ensures Shape(cfg, tr'[k]) && Enabled(cfg, tr'[k], acts'[k]) && tr'[k + 1] == Apply(cfg, tr'[k], acts'[k])
    {
      if k > 0 {
        assert acts'[k] == acts[k - 1] && tr'[k] == tr[k - 1] && tr'[k + 1] == tr[k];
      }
    }
  }

  /** Nothing in flight or queued; every user so far was dropped. */
  ghost predicate OnlyDropped(s: State, n: nat) {
    s.inFlight == {} && s.queue == [] && !s.pushed && !s.done && |s.dropped| == n
  }

  /** A new user whose first response fails. */
  lemma DropOneMore(cfg: Config, s: State, n: nat) returns (t: State, r: State)
    requires Usable(cfg) && Inv(cfg, s) && OnlyDropped(s, n) && n < cfg.maxParallel
    ensures Enabled(cfg, s, Send(0, 0, false)) && t == Apply(cfg, s, Send(0, 0, false)) && Inv(cfg, t)
    ensures Enabled(cfg, t, Drop(|s.users|)) && r == Apply(cfg, t, Drop(|s.users|)) && Inv(cfg, r)
    ensures OnlyDropped(r, n + 1)
  {
    var u := |s.users|;
    assert PlacedUser(s, u);
    InvStep(cfg, s, Send(0, 0, false));
    t := Apply(cfg, s, Send(0, 0, false));
    InvStep(cfg, t, Drop(u));
    r := Apply(cfg, t, Drop(u));
    assert t.inFlight == {u} && r.inFlight == {} && r.dropped == s.dropped + {u};
  }

  lemma NothingDropped(cfg: Config)
    ensures OnlyDropped(Init(cfg), 0)
  {
  }

  lemma InvHasShape(cfg: Config, s: State)
    requires Inv(cfg, s)
    ensures Shape(cfg, s)
  {
  }

  /** The stall is reached from the start: the first `n` users are sent and each response fails. */
  lemma {:induction false} StallReached(cfg: Config, n: nat) returns (acts: seq<Action>, tr: seq<State>)
    requires Usable(cfg) && (n == 0 || n <= cfg.maxParallel)
    ensures RunFrom(cfg, Init(cfg), acts, tr) && Inv(cfg, tr[|acts|]) && OnlyDropped(tr[|acts|], n)
  {
    hide Apply, Enabled, Tallied, Inv, OnlyDropped;
    if n == 0 {
      acts, tr := [], [Init(cfg)];
      InvInit(cfg);
      assert OnlyDropped(Init(cfg), 0) by { NothingDropped(cfg); }
    } else {
      acts, tr := StallReached(cfg, n - 1);
      var s := tr[|acts|];
      var t, r := DropOneMore(cfg, s, n - 1);
      InvHasShape(cfg, s);
      InvHasShape(cfg, t);
      RunSnoc(cfg, Init(cfg), acts, tr, Send(0, 0, false));
      acts, tr := acts + [Send(0, 0, false)], tr + [t];
      RunSnoc(cfg, Init(cfg), acts, tr, Drop(|s.users|));
      acts, tr := acts + [Drop(|s.users|)], tr + [r];
    }
  }

  /** Some finite run of every workload cannot be continued to its end: whatever happens after it,
      nothing is sent again and the sender never looks at the clock. */
  lemma NeverStops(cfg: Config) returns (acts: seq<Action>, tr: seq<State>)
    requires Usable(cfg)
    ensures RunFrom(cfg, Init(cfg), acts, tr)
    ensures forall more: seq<Action>, tr': seq<State>, k: nat ::
              RunFrom(cfg, tr[|acts|], more, tr') && k <= |more| ==> tr'[k].sent == tr[|acts|].sent && !tr'[k].done
  {
    hide Inv;
    var n := if cfg.maxParallel > 0 then cfg.maxParallel else 0;
    acts, tr := StallReached(cfg, n);
    var s := tr[|acts|];
    forall more: seq<Action>, tr': seq<State>, k: nat | RunFrom(cfg, s, more, tr') && k <= |more|
      ensures tr'[k].sent == s.sent && !tr'[k].done
    {
      StalledForever(cfg, s, more, tr', k);
    }
  }

  /** The sender has room and has not stopped. */
  predicate CanSend(cfg: Config, s: State) {
    !s.done && s.sent - s.completed < cfg.maxParallel
  }

  /** Answers only: a response arrives and its completion is counted. */
  ghost predicate Answers(acts: seq<Action>) {
    forall k :: 0 <= k < |acts| ==> acts[k].Push? || acts[k].Complete?
  }

  lemma PushKeepsDone(cfg: Config, s: State, u: nat, start: int)
    requires Shape(cfg, s) && u in s.inFlight
    ensures PushBack(cfg, s, u, start).done == s.done
  {
  }

  lemma AnswerStep(cfg: Config, s: State, a: Action)
    requires Usable(cfg) && Inv(cfg, s) && Enabled(cfg, s, a) && (a.Push? || a.Complete?)
    ensures var t := Apply(cfg, s, a);
            && Inv(cfg, t) && t.done == s.done && t.dropped == s.dropped
            && 2 * |t.inFlight| + One(t.pushed) < 2 * |s.inFlight| + One(s.pushed)
  {
    hide Tallied, Placed, PushBack;
    InvStep(cfg, s, a);
    if a.Push? {
      PushSize(cfg, s, a.user, a.start);
      PushKeepsDone(cfg, s, a.user, a.start);
    }
  }

  /** If the server answers everything in flight, the sender may go on as long as fewer responses
      failed than may run in parallel. */
  lemma {:induction false} CanSendAgain(cfg: Config, s: State, start: int) returns (acts: seq<Action>, tr: seq<State>)
    requires Usable(cfg) && Inv(cfg, s) && !s.done && |s.dropped| < cfg.maxParallel
    ensures RunFrom(cfg, s, acts, tr) && Answers(acts) && CanSend(cfg, tr[|acts|])
    decreases 2 * |s.inFlight| + One(s.pushed)
  {
    hide Tallied, Apply, Shape, PlacedUser, Queued;
    if !s.pushed && s.inFlight == {} {
      acts, tr := [], [s];
    } else {
      var a;
      if s.pushed {
        a := Complete;
      } else {
        var u :| u in s.inFlight;
        a := Push(u, start);
      }
      AnswerStep(cfg, s, a);
      var rest, tr' := CanSendAgain(cfg, Apply(cfg, s, a), start);
      RunCons(cfg, s, a, rest, tr');
      acts, tr := [a] + rest, [s] + tr';
    }
  }

  lemma RunLength(cfg: Config, from: State, acts: seq<Action>, tr: seq<State>)
    requires Usable(cfg) && RunFrom(cfg, from, acts, tr)
    ensures |tr| == |acts| + 1
  {
  }

  /** The exact condition: the sender can go on some way or other if and only if fewer responses
      failed than may run in parallel. */
  lemma SenderGoesOnIff(cfg: Config, s: State)
    requires Usable(cfg) && Inv(cfg, s) && !s.done
    ensures (exists acts, tr :: RunFrom(cfg, s, acts, tr) && CanSend(cfg, tr[|acts|])) <==>
              |s.dropped| < cfg.maxParallel
  {
    hide RunFrom, Tallied, Shape, Placed;
    if |s.dropped| < cfg.maxParallel {
      var acts, tr := CanSendAgain(cfg, s, 0);
    } else {
      forall acts, tr | RunFrom(cfg, s, acts, tr) ensures |tr| == |acts| + 1 && !CanSend(cfg, tr[|acts|]) {
        RunLength(cfg, s, acts, tr);
        StalledForever(cfg, s, acts, tr, |acts|);
        InvAlways(cfg, s, acts, tr, |acts|);
      }
    }
  }

  // ----- the queue leaves its order ----------------------------------------------------------------

  /** Two users of two rounds each; the second to be answered starts later. */
  const TWO_USERS := [Send(0, 5, false), Send(0, 5, false), Push(0, 1), Complete, Push(1, 2)]

  lemma TwoUsersSent(cfg: Config) returns (tr: seq<State>)
    requires cfg == Config([0, 10], 2, 2)
    ensures RunFrom(cfg, Init(cfg), TWO_USERS[..2], tr) && Inv(cfg, tr[2])
    ensures var s := tr[2];
            s.users == [User(0, 2, 0), User(0, 2, 0)] && s.queue == [] && s.inFlight == {0, 1} && !s.pushed
  {
    hide Tallied, Placed;
    var s0 := Init(cfg);
    assert RoundsFor(cfg.cumulative, 5, 0) == 2;
    InvInit(cfg);
    InvStep(cfg, s0, TWO_USERS[0]);
    var s1 := Apply(cfg, s0, TWO_USERS[0]);
    InvStep(cfg, s1, TWO_USERS[1]);
    tr := [s0, s1, Apply(cfg, s1, TWO_USERS[1])];
  }

  lemma TwoUsersAnswered(cfg: Config, s: State) returns (t: State, v: State, w: State)
    requires cfg == Config([0, 10], 2, 2) && Inv(cfg, s)
    requires s.users == [User(0, 2, 0), User(0, 2, 0)] && s.queue == [] && s.inFlight == {0, 1} && !s.pushed
    ensures Enabled(cfg, s, TWO_USERS[2]) && t == Apply(cfg, s, TWO_USERS[2]) && Inv(cfg, t)
    ensures Enabled(cfg, t, TWO_USERS[3]) && v == Apply(cfg, t, TWO_USERS[3]) && Inv(cfg, v)
    ensures Enabled(cfg, v, TWO_USERS[4]) && w == Apply(cfg, v, TWO_USERS[4])
    ensures w.users == [User(1, 2, 1), User(1, 2, 2)] && w.queue == [1, 0]
  {
    hide Tallied, Placed;
    InvStep(cfg, s, TWO_USERS[2]);
    t := Apply(cfg, s, TWO_USERS[2]);
    assert t.queue == [0] && t.users == [User(1, 2, 1), User(0, 2, 0)];
    InvStep(cfg, t, TWO_USERS[3]);
    v := Apply(cfg, t, TWO_USERS[3]);
    assert Starts(v) == [1];
    assert InsertIndex([1], 2) == 0;
    w := Apply(cfg, v, TWO_USERS[4]);
  }

  /** A run from the start after which the queue is not ordered by start time. */
  lemma QueueLeavesOrder(cfg: Config) returns (tr: seq<State>)
    requires cfg == Config([0, 10], 2, 2)
    ensures RunFrom(cfg, Init(cfg), TWO_USERS, tr)
    ensures Shape(cfg, tr[5]) && Starts(tr[5]) == [2, 1] && !Ascending(Starts(tr[5]))
  {
    hide Apply, Enabled, Tallied, Placed;
    tr := TwoUsersSent(cfg);
    var t, v, w := TwoUsersAnswered(cfg, tr[2]);
    InvStep(cfg, v, TWO_USERS[4]);
    RunSnoc(cfg, Init(cfg), TWO_USERS[..2], tr, TWO_USERS[2]);
    assert TWO_USERS[..2] + [TWO_USERS[2]] == TWO_USERS[..3];
    RunSnoc(cfg, Init(cfg), TWO_USERS[..3], tr + [t], TWO_USERS[3]);
    assert TWO_USERS[..3] + [TWO_USERS[3]] == TWO_USERS[..4];
    RunSnoc(cfg, Init(cfg), TWO_USERS[..4], tr + [t] + [v], TWO_USERS[4]);
    assert TWO_USERS[..4] + [TWO_USERS[4]] == TWO_USERS;
    tr := tr + [t] + [v] + [w];
    assert tr[5] == w && Starts(w) == [2, 1];
    assert Starts(w)[0] > Starts(w)[1];
  }

  // ----- the generator and the two threads, updating shared state ----------------------------------

  lemma InsertIndexIs(starts: seq<int>, x: int, k: nat, found: bool)
    requires k < |starts| && forall j :: 0 <= j < k ==> starts[j] <= x
    requires if found then x < starts[k] else k == |starts| - 1 && starts[k] <= x
    ensures InsertIndex(starts, x) == k
  {
  }

  class Workload {
    const cfg: Config
    var users: seq<User>
    var queue: seq<nat>
    var inFlight: set<nat>
    var dropped: set<nat>
    var crashed: set<nat>
    var userStats: seq<int>
    var inputCount: seq<int>
    var outputCount: seq<int>
    var sent: nat
    var completed: nat
    var pushed: bool
    var done: bool

    ghost function View(): State
      reads this
    {
      State(users, queue, inFlight, dropped, crashed, userStats, inputCount, outputCount, sent, completed, pushed, done)
    }

    ghost predicate Valid()
      reads this
    {
      Usable(cfg) && Inv(cfg, View())
    }

    constructor (cfg: Config)
      requires Usable(cfg)
      ensures Valid() && this.cfg == cfg && View() == Init(cfg)
    {
      this.cfg := cfg;
      users, queue, inFlight, dropped, crashed := [], [], {}, {}, {};
      userStats := seq(cfg.numRounds, _ => 0);
      inputCount := seq(cfg.numRounds, _ => 0);
      outputCount := seq(cfg.numRounds, _ => 0);
      sent, completed, pushed, done := 0, 0, false, false;
      new;
      InvInit(cfg);
    }

    /** `gen`: draw the total, then count the user and its first question. */
    method NewUser(rand: int)
      requires Usable(cfg) && Shape(cfg, View())
      modifies this
      ensures View() == Gen(cfg, old(View()), rand)
      ensures sent == old(sent) && done == old(done)
    {
      var total := |cfg.cumulative|;
      for i := 0 to |cfg.cumulative|
        invariant total == |cfg.cumulative| && RoundsFor(cfg.cumulative, rand, i) == RoundsFor(cfg.cumulative, rand, 0)
        invariant View() == old(View())
      {
        if rand < cfg.cumulative[i] {
          total := i + 1;
          break;
        }
      }
      inFlight := inFlight + {|users|};
      users := users + [User(0, total, 0)];
      inputCount := inputCount[0 := inputCount[0] + 1];
      userStats := userStats[total - 1 := userStats[total - 1] + 1];
    }

    /** The sender's step when it has room: `pop`, send, look at the clock. */
    method SendNext(now: int, rand: int, expired: bool)
      requires Valid() && Enabled(cfg, View(), Send(now, rand, expired))
      modifies this
      ensures Valid() && View() == Apply(cfg, old(View()), Send(now, rand, expired))
    {
      hide AllTallied, Placed, Outstanding, Gen;
      InvStep(cfg, View(), Send(now, rand, expired));
      if queue != [] && now > users[queue[0]].start {
        inFlight := inFlight + {queue[0]};
        queue := queue[1..];
      } else {
        NewUser(rand);
      }
      sent := sent + 1;
      done := expired;
    }

    /** The insertion loop of `push`. */
    method InsertUser(u: nat, start: int)
      requires forall k :: 0 <= k < |queue| ==> queue[k] < |users|
      modifies this`queue
      ensures queue == InsertAt(old(queue), InsertIndex(old(Starts(View())), start), u)
    {
      ghost var starts := Starts(View());
      if |queue| == 0 {
        queue := queue + [u];
        return;
      }
      var idx := 0;
      ghost var found := false;
      for i := 0 to |queue|
        invariant queue == old(queue) && idx == if i == 0 then 0 else i - 1
        invariant !found && forall j :: 0 <= j < i ==> starts[j] <= start
      {
        idx := i;
        if start < users[queue[i]].start {
          found := true;
          break;
        }
      }
      InsertIndexIs(starts, start, idx, found);
      queue := InsertAt(queue, idx, u);
    }

    method FinishRound(u: nat, start: int)
      requires Shape(cfg, View()) && u in inFlight
      modifies this
      ensures View() == PushBack(cfg, old(View()), u, start).(pushed := true)
    {
      hide InsertIndex, InsertAt;
      var user := users[u];
      inFlight := inFlight - {u};
      outputCount := outputCount[user.round := outputCount[user.round] + 1];
      pushed := true;
      user := user.(round := user.round + 1);
      if user.round >= user.total {
        users := users[u := user];
        return;
      }
      inputCount := inputCount[user.round := inputCount[user.round] + 1];
      InsertUser(u, start);
      users := users[u := user.(start := start)];
    }

    /** `push` of an answered user. */
    method PushUser(u: nat, start: int)
      requires Valid() && Enabled(cfg, View(), Push(u, start))
      modifies this
      ensures Valid() && View() == Apply(cfg, old(View()), Push(u, start))
    {
      hide PushBack, Shape, AllTallied, Placed, Outstanding;
      InvStep(cfg, View(), Push(u, start));
      FinishRound(u, start);
    }
  }
}
