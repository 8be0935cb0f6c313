/**
 Time in the Multus validation test: the timer reset never blocks, a stage that has run is timed out
 only after its full resource timeout, every run returns, and the network is called flaky exactly
 when clients took too long to become ready.
 */
module MultusTiming {
  import opened Wrappers
  import opened MultusConfig
  import opened MultusStages
  import opened MultusRuns

  // What a turn of the loop that does not return does to the stage and the timer.
  ghost predicate Turned(cfg: Config, m: Machine, tick: Tick, m': Machine)
  {
    && !Expired(m.timer, tick.selectAt)
    && m'.timer == (if m.changed then Timer(tick.resetAt + cfg.resourceTimeout, false) else m.timer)
    && if m'.changed then Rank(m.state) < Rank(m'.state) else Rank(m'.state) == Rank(m.state)
  }

  lemma {:induction false} StepTurns(cfg: Config, m: Machine, tick: Tick)
    requires forall t :: t in tick.order ==> t in cfg.nodeTypes
    requires !m.timer.received
    ensures var o := Step(cfg, m, tick);
            !o.Blocked? && (o.Running? ==> Turned(cfg, m, tick, o.m))
  {
    hide RunStage;
    StageOrder(cfg, m.state, tick);
  }

  // ----- The timer -----

  ghost predicate InStage(cfg: Config, start: Start, env: nat -> Tick, i: nat, rank: nat)
    requires ValidEnv(cfg, start, env)
  {
    var o := RunFor(cfg, start, env, i);
    o.Running? && Rank(o.m.state) == rank
  }

  // Turns k to n - 1 ran one and the same stage, and turn k reset the timer before running it.
  ghost predicate RanSince(cfg: Config, start: Start, env: nat -> Tick, k: nat, n: nat, rank: nat)
    requires ValidEnv(cfg, start, env)
  {
    && k < n
    && InStage(cfg, start, env, k, rank)
    && (forall i :: k <= i < n ==> InStage(cfg, start, env, i, rank))
    && RunFor(cfg, start, env, k).m.changed
  }

  ghost predicate TimerInv(cfg: Config, start: Start, env: nat -> Tick, n: nat, m: Machine)
    requires ValidEnv(cfg, start, env)
  {
    && !m.timer.received
    && (!m.changed ==> exists k: nat ::
          RanSince(cfg, start, env, k, n, Rank(m.state)) && m.timer.deadline == env(k).resetAt + cfg.resourceTimeout)
  }

  lemma LaunchTimer(cfg: Config, start: Start)
    ensures var o := Launch(cfg, start);
            && !o.Blocked?
            && (o.Running? ==> !o.m.timer.received && o.m.changed && Rank(o.m.state) == 0 && ValidConfig(cfg))
  {
  }

  lemma {:induction false} RunTimer(cfg: Config, start: Start, env: nat -> Tick, n: nat)
    requires ValidEnv(cfg, start, env)
    ensures var o := RunFor(cfg, start, env, n);
            !o.Blocked? && (o.Running? ==> TimerInv(cfg, start, env, n, o.m))
  {
    hide Step, Launch, ValidConfig, IsOrderOf, WellTimed, Rank;
    LaunchTimer(cfg, start);
    if n > 0 {
      RunTimer(cfg, start, env, n - 1);
      var before, o := RunFor(cfg, start, env, n - 1), RunFor(cfg, start, env, n);
      RunNext(cfg, start, env, n - 1);
      hide RunFor;
      if before.Running? {
        StepTurns(cfg, before.m, env(n - 1));
        if o.Running? && !o.m.changed {
          SameStage(cfg, start, env, n - 1);
        }
      }
    }
  }

  // A turn that does not change the stage extends the turns of that stage.
  lemma SameStage(cfg: Config, start: Start, env: nat -> Tick, n: nat)
    requires ValidEnv(cfg, start, env)
    requires RunFor(cfg, start, env, n).Running? && RunFor(cfg, start, env, n + 1).Running?
    requires var m, m' := RunFor(cfg, start, env, n).m, RunFor(cfg, start, env, n + 1).m;
             TimerInv(cfg, start, env, n, m) && Turned(cfg, m, env(n), m') && !m'.changed
    ensures TimerInv(cfg, start, env, n + 1, RunFor(cfg, start, env, n + 1).m)
  {
    hide RunFor, Rank;
    var m, m' := RunFor(cfg, start, env, n).m, RunFor(cfg, start, env, n + 1).m;
    var rank := Rank(m'.state);
    var k: nat := n;
    if !m.changed {
      k :| RanSince(cfg, start, env, k, n, rank) && m.timer.deadline == env(k).resetAt + cfg.resourceTimeout;
    }
    assert InStage(cfg, start, env, n, rank);
    assert RanSince(cfg, start, env, k, n + 1, rank);
  }

  // On no run does the drain in the timer reset wait forever.
  lemma ResetNeverBlocks(cfg: Config, start: Start, env: nat -> Tick, n: nat)
    requires ValidEnv(cfg, start, env)
    ensures !RunFor(cfg, start, env, n).Blocked?
  {
    hide RunFor, TimerInv;
    RunTimer(cfg, start, env, n);
  }

  // The current stage ran, and a resource timeout went by since the reset before it first ran.
  ghost predicate HadFullTimeout(cfg: Config, start: Start, env: nat -> Tick, n: nat, rank: nat)
    requires ValidEnv(cfg, start, env)
  {
    exists k: nat :: RanSince(cfg, start, env, k, n, rank) && env(n).selectAt - env(k).resetAt >= cfg.resourceTimeout
  }

  lemma NewStageHasNotRun(cfg: Config, start: Start, env: nat -> Tick, n: nat)
    requires ValidEnv(cfg, start, env)
    requires RunFor(cfg, start, env, n).Running? && RunFor(cfg, start, env, n).m.changed
    ensures forall k: nat :: !RanSince(cfg, start, env, k, n, Rank(RunFor(cfg, start, env, n).m.state))
  {
    hide RunFor, Rank;
    if n > 0 {
      RunForward(cfg, start, env, n - 1);
      assert !InStage(cfg, start, env, n - 1, Rank(RunFor(cfg, start, env, n).m.state));
    }
  }

  // When a run times out, its current stage had its full resource timeout exactly when it has run.
  lemma {:induction false} FullTimeoutGiven(cfg: Config, start: Start, env: nat -> Tick, n: nat)
    requires ValidEnv(cfg, start, env)
    requires RunFor(cfg, start, env, n).Running?
    requires var o := RunFor(cfg, start, env, n + 1); o.Returned? && o.result.TimedOut?
    ensures var m := RunFor(cfg, start, env, n).m;
            HadFullTimeout(cfg, start, env, n, Rank(m.state)) <==> !m.changed
  {
    hide Launch, RunStage;
    var m := RunFor(cfg, start, env, n).m;
    assert Expired(m.timer, env(n).selectAt);
    if m.changed {
      NewStageHasNotRun(cfg, start, env, n);
    } else {
      RunTimer(cfg, start, env, n);
      var k: nat :| RanSince(cfg, start, env, k, n, Rank(m.state))
                    && m.timer.deadline == env(k).resetAt + cfg.resourceTimeout;
    }
  }

  // ----- Every run returns -----

  // Turns a single stage can take.
  function TurnsPerStage(cfg: Config): int
  {
    cfg.resourceTimeout / POLL_SLEEP + 2
  }

  function TurnBound(cfg: Config): int
  {
    12 * TurnsPerStage(cfg)
  }

  // Turns left for the current stage, when the next select happens at `now`.
  function TurnsLeft(cfg: Config, m: Machine, now: int): int
  {
    if m.changed then TurnsPerStage(cfg)
    else if now >= m.timer.deadline then 0
    else (m.timer.deadline - now - 1) / POLL_SLEEP + 1
  }

  function Measure(cfg: Config, m: Machine, now: int): int
  {
    (11 - Rank(m.state)) * TurnsPerStage(cfg) + TurnsLeft(cfg, m, now)
  }

  lemma LaterStage(p: int, r: int, r': int)
    requires p >= 0 && r < r'
    ensures (11 - r') * p + p <= (11 - r) * p
  {
    var d := r' - r - 1;
    assert (11 - r) * p == (11 - r') * p + p + d * p;
    assert d * p >= 0;
  }

  lemma TurnTakesTime(cfg: Config, m: Machine, tick: Tick, m': Machine, next: int)
    requires cfg.resourceTimeout >= 0 && !m.timer.received && Turned(cfg, m, tick, m')
    requires tick.selectAt <= tick.resetAt && tick.resetAt + POLL_SLEEP <= next
    ensures 0 <= Measure(cfg, m', next) - (11 - Rank(m'.state)) * TurnsPerStage(cfg)
    ensures Measure(cfg, m', next) < Measure(cfg, m, tick.selectAt)
  {
    var p := TurnsPerStage(cfg);
    if m'.changed {
      LaterStage(p, Rank(m.state), Rank(m'.state));
    }
  }

  lemma {:induction false} RunMeasure(cfg: Config, start: Start, env: nat -> Tick, n: nat)
    requires ValidEnv(cfg, start, env)
    requires RunFor(cfg, start, env, n).Running?
    ensures cfg.resourceTimeout >= MINUTE
    ensures 0 <= n + Measure(cfg, RunFor(cfg, start, env, n).m, env(n).selectAt) <= TurnBound(cfg)
    ensures n <= TurnBound(cfg)
  {
    hide Step, Launch, Measure, IsOrderOf;
    LaunchTimer(cfg, start);
    if n == 0 {
      FirstMeasure(cfg, RunFor(cfg, start, env, 0).m, env(0).selectAt);
    } else {
      RunMeasure(cfg, start, env, n - 1);
      var before, o := RunFor(cfg, start, env, n - 1), RunFor(cfg, start, env, n);
      RunTimer(cfg, start, env, n - 1);
      RunNext(cfg, start, env, n - 1);
      StepTurns(cfg, before.m, env(n - 1));
      assert WellTimed(env, n - 1);
      TurnTakesTime(cfg, before.m, env(n - 1), o.m, env(n).selectAt);
      MeasureNonNegative(cfg, o.m, env(n).selectAt);
    }
  }

  lemma FirstMeasure(cfg: Config, m: Machine, now: int)
    requires Rank(m.state) == 0 && m.changed && cfg.resourceTimeout >= 0
    ensures 0 <= Measure(cfg, m, now) <= TurnBound(cfg)
  {
  }

  lemma MeasureNonNegative(cfg: Config, m: Machine, now: int)
    requires cfg.resourceTimeout >= 0
    ensures Measure(cfg, m, now) >= 0
  {
    assert Rank(m.state) <= 11;
    assert (11 - Rank(m.state)) * TurnsPerStage(cfg) >= 0;
  }

  // Whatever the cluster does, the loop returns after a number of turns fixed by the config.
  lemma EveryRunReturns(cfg: Config, start: Start, env: nat -> Tick, n: nat)
    requires ValidEnv(cfg, start, env) && n > TurnBound(cfg)
    ensures RunFor(cfg, start, env, n).Returned?
  {
    hide RunFor, TimerInv, Measure;
    RunTimer(cfg, start, env, n);
    if RunFor(cfg, start, env, n).Running? {
      RunMeasure(cfg, start, env, n);
    }
  }

  // The guarantee stops there: a stage that was set but has not run yet can be ended by the timer of
  // the stage before it. The first stage observes stable counts until just before its deadline, sets
  // the second stage, and the next select finds the timer expired.
  const ONE_TYPE := "a"

  function SmallConfig(): Config
  {
    Config("ns", "pub", "", MINUTE, 5 * SECOND, false, "image",
           map[ONE_TYPE := NodeConfig(1, 0, PlacementConfig(map[], []))])
  }

  function TickAt(first: int, last: int): Tick
  {
    Tick(first, false, false, first, first, true, first, last,
         Listed([SetStatus(ONE_TYPE, 1)]), ListFailed, ListFailed, ListFailed,
         true, {}, true, None, [ONE_TYPE], {}, false, false)
  }

  function SlowEnv(i: nat): Tick
  {
    if i == 0 then TickAt(0, 0)
    else if i == 1 then TickAt(2 * SECOND, 59 * SECOND)
    else TickAt(MINUTE + (2 * i - 3) * SECOND, MINUTE + (2 * i - 3) * SECOND)
  }

  const SMALL_START := Start(false, false, false, [ONE_TYPE], {}, false, 0)

  const SMALL_COUNTS: Counts := map[ONE_TYPE := 1]

  lemma FreshStageCanBeCutShort()
    ensures var cfg, start := SmallConfig(), SMALL_START;
            && ValidEnv(cfg, start, SlowEnv)
            && RunFor(cfg, start, SlowEnv, 2).Running?
            && RunFor(cfg, start, SlowEnv, 2).m.state.EnsureNoOverlap?
            && RunFor(cfg, start, SlowEnv, 2).m.changed
            && RunFor(cfg, start, SlowEnv, 3).Returned?
            && RunFor(cfg, start, SlowEnv, 3).result.TimedOut?
  {
    hide Step, Launch;
    var cfg, start := SmallConfig(), SMALL_START;
    SlowEnvValid();
    var effects := SmallLaunch();
    SlowTurns(effects);
    assert RunFor(cfg, start, SlowEnv, 0) == Launch(cfg, start);
    assert RunFor(cfg, start, SlowEnv, 1) == Running(Machine1(effects));
    assert RunFor(cfg, start, SlowEnv, 2) == Running(Machine2(effects));
    assert RunFor(cfg, start, SlowEnv, 3) == Step(cfg, Machine2(effects), SlowEnv(2));
  }

  function Machine1(effects: seq<Effect>): Machine
  {
    Machine(GetExpected(SMALL_COUNTS, Some(0)), false, Timer(MINUTE, false), None, effects)
  }

  function Machine2(effects: seq<Effect>): Machine
  {
    Machine(EnsureNoOverlap(SMALL_COUNTS), true, Timer(MINUTE, false), None, effects)
  }

  lemma SlowEnvValid()
    ensures ValidEnv(SmallConfig(), SMALL_START, SlowEnv)
  {
    forall i: nat ensures WellTimed(SlowEnv, i) {
    }
    assert IsOrderOf([ONE_TYPE], SmallConfig().nodeTypes);
  }

  lemma SmallLaunch() returns (effects: seq<Effect>)
    ensures Launch(SmallConfig(), SMALL_START) == Running(FirstMachine(SmallConfig(), SMALL_START, effects))
  {
    var cfg := SmallConfig();
    SmallConfigValid();
    assert HasOSDs(cfg.nodeTypes) by { assert cfg.nodeTypes[ONE_TYPE].osdsPerNode > 0; }
    assert FirstFailure(1, {}) == 1;
    effects := First(3) + Creates(PullerPlan([ONE_TYPE])[..1]);
  }

  lemma SmallPullCounts()
    ensures PullCounts(SmallConfig(), Listed([SetStatus(ONE_TYPE, 1)])) == Some(SMALL_COUNTS)
  {
    var sets := [SetStatus(ONE_TYPE, 1)];
    assert sets[..0] == [];
    assert CountsOf(sets) == SMALL_COUNTS;
    assert |SmallConfig().nodeTypes| == 1;
  }

  lemma SlowTurns(effects: seq<Effect>)
    ensures var cfg := SmallConfig();
            && Step(cfg, FirstMachine(cfg, SMALL_START, effects), SlowEnv(0)) == Running(Machine1(effects))
            && Step(cfg, Machine1(effects), SlowEnv(1)) == Running(Machine2(effects))
            && Step(cfg, Machine2(effects), SlowEnv(2))
               == Returned(TimedOut, Machine2(effects).(timer := Timer(MINUTE, true)))
  {
    SmallPullCounts();
    hide PullCounts;
    assert effects + [] == effects;
    assert ONE_TYPE in SMALL_COUNTS && SMALL_COUNTS != map[];
  }

  lemma SmallConfigValid()
    ensures ValidConfig(SmallConfig())
  {
    var counts := OSDCounts(SmallConfig().nodeTypes);
    assert counts == map[ONE_TYPE := 1];
    SumOfRemove(counts, ONE_TYPE);
    assert counts - {ONE_TYPE} == map[];
  }

  // ----- Flaky networks -----

  ghost predicate SawClients(env: nat -> Tick, i: nat)
  {
    && env(i).clientPods.Listed?
    && exists k :: 0 <= k < |env(i).clientPods.items| && env(i).clientPods.items[k].ready
  }

  // Turn i is the first since turn e to see a ready client.
  ghost predicate FirstReady(env: nat -> Tick, e: nat, i: nat)
  {
    e <= i && SawClients(env, i) && forall k :: e <= k < i ==> !SawClients(env, k)
  }

  // Some listing in turns e to n - 1 came later than the flaky threshold after the first ready client.
  ghost predicate TookTooLong(cfg: Config, env: nat -> Tick, e: nat, n: nat)
  {
    exists i: nat, j: nat :: FirstReady(env, e, i) && i < j < n && Late(cfg, env, i, j)
  }

  ghost predicate Late(cfg: Config, env: nat -> Tick, i: nat, j: nat)
  {
    env(j).clientPods.Listed? && env(j).clock2 - env(i).clock1 > cfg.flakyThreshold
  }

  ghost predicate FlakyInv(cfg: Config, env: nat -> Tick, e: nat, n: nat, s: Stage)
    requires s.VerifyClientsReady?
  {
    && e <= n && s.prevNumReady == 0
    && (s.suggestFlaky <==> TookTooLong(cfg, env, e, n))
    && match s.firstReadyAt
       case None => forall k :: e <= k < n ==> !SawClients(env, k)
       case Some(at) => exists i: nat :: i < n && FirstReady(env, e, i) && at == env(i).clock1
  }

  lemma FlakyStep(cfg: Config, env: nat -> Tick, e: nat, n: nat, s: Stage)
    requires s.VerifyClientsReady? && FlakyInv(cfg, env, e, n, s)
    ensures FlakyInv(cfg, env, e, n + 1, RunVerifyClientsReady(cfg, s, env(n)).state)
  {
    if env(n).clientPods.Listed? {
      var s' := RunVerifyClientsReady(cfg, s, env(n)).state;
      CountReadyIs(env(n).clientPods.items);
      hide CountReady;
      if s.firstReadyAt.Some? {
        var i: nat :| i < n && FirstReady(env, e, i) && s.firstReadyAt.value == env(i).clock1;
        assert forall k: nat :: FirstReady(env, e, k) ==> k == i;
        assert Late(cfg, env, i, n) <==> env(n).clock2 - s.firstReadyAt.value > cfg.flakyThreshold;
      } else if s'.firstReadyAt.Some? {
        assert FirstReady(env, e, n);
        assert forall k: nat :: FirstReady(env, e, k) ==> k == n;
      }
    }
  }

  // A variant of the check that stores the number of ready clients, as the field's name suggests.
  function CheckStoring(cfg: Config, s: Stage, tick: Tick, numReady: nat): Stage
    requires s.VerifyClientsReady?
  {
    var checked := CheckIfFlaky(cfg, s, tick, numReady);
    VerifyClientsReady(checked.expected, numReady, checked.firstReadyAt, checked.suggestFlaky)
  }

  datatype Observation = Observation(tick: Tick, numReady: nat)

  function Checks(cfg: Config, s: Stage, seen: seq<Observation>, storing: bool): (r: Stage)
    requires s.VerifyClientsReady?
    ensures r.VerifyClientsReady?
  {
    if seen == [] then s
    else
      var before, last := Checks(cfg, s, seen[..|seen| - 1], storing), seen[|seen| - 1];
      if storing then CheckStoring(cfg, before, last.tick, last.numReady)
      else CheckIfFlaky(cfg, before, last.tick, last.numReady)
  }

  // That the code never stores the number makes no difference: until the first ready client is seen
  // every number was 0.
  lemma {:induction false} StoringChangesNothing(cfg: Config, expected: int, seen: seq<Observation>)
    ensures var s := VerifyClientsReady(expected, 0, None, false);
            var stored := Checks(cfg, s, seen, true);
            && Checks(cfg, s, seen, false) == stored.(prevNumReady := 0)
            && (stored.firstReadyAt.None? ==> stored.prevNumReady == 0 && !stored.suggestFlaky)
  {
    if seen != [] {
      StoringChangesNothing(cfg, expected, seen[..|seen| - 1]);
    }
  }

  // Turn e is the first of the last stage.
  ghost predicate EntersLast(cfg: Config, start: Start, env: nat -> Tick, e: nat)
    requires ValidEnv(cfg, start, env)
  {
    InStage(cfg, start, env, e, 11) && RunFor(cfg, start, env, e).m.changed
  }

  ghost predicate FlakyKnown(cfg: Config, start: Start, env: nat -> Tick, n: nat, s: Stage)
    requires ValidEnv(cfg, start, env)
  {
    s.VerifyClientsReady? ==> exists e: nat :: EntersLast(cfg, start, env, e) && FlakyInv(cfg, env, e, n, s)
  }

  lemma LastStageOf(cfg: Config, s: Stage, tick: Tick, r: StageResult)
    requires forall t :: t in tick.order ==> t in cfg.nodeTypes
    requires r == RunStage(cfg, s, tick)
    ensures s.VerifyClientsReady? ==> r == RunVerifyClientsReady(cfg, s, tick)
    ensures !s.VerifyClientsReady? && r.state.VerifyClientsReady? ==>
              r.changed && r.state == VerifyClientsReady(r.state.expected, 0, None, false)
  {
  }

  lemma EnteringIsNotFlaky(cfg: Config, env: nat -> Tick, e: nat, expected: int)
    ensures FlakyInv(cfg, env, e, e, VerifyClientsReady(expected, 0, None, false))
  {
  }

  lemma {:induction false} RunFlaky(cfg: Config, start: Start, env: nat -> Tick, n: nat)
    requires ValidEnv(cfg, start, env)
    requires RunFor(cfg, start, env, n).Running?
    ensures FlakyKnown(cfg, start, env, n, RunFor(cfg, start, env, n).m.state)
  {
    hide Step, Launch, RunStage, FlakyInv, RunVerifyClientsReady, CheckIfFlaky, WellTimed;
    LaunchTimer(cfg, start);
    if n > 0 {
      var before, o := RunFor(cfg, start, env, n - 1), RunFor(cfg, start, env, n);
      RunFlaky(cfg, start, env, n - 1);
      var s, r := before.m.state, RunStage(cfg, before.m.state, env(n - 1));
      StepLeaves(cfg, before.m, env(n - 1));
      LastStageOf(cfg, s, env(n - 1), r);
      if s.VerifyClientsReady? {
        var e: nat :| EntersLast(cfg, start, env, e) && FlakyInv(cfg, env, e, n - 1, s);
        FlakyStep(cfg, env, e, n - 1, s);
      } else if o.m.state.VerifyClientsReady? {
        assert EntersLast(cfg, start, env, n);
        EnteringIsNotFlaky(cfg, env, n, o.m.state.expected);
      }
    }
  }

  // A successful run warns about a flaky network exactly when, in its last stage, some listing came
  // later than the flaky threshold after the first ready client was seen.
  lemma FlakyReport(cfg: Config, start: Start, env: nat -> Tick, n: nat)
    requires ValidEnv(cfg, start, env)
    requires RunFor(cfg, start, env, n).Running? && RunFor(cfg, start, env, n).m.state.VerifyClientsReady?
    requires var o := RunFor(cfg, start, env, n + 1); o.Returned? && o.result.Success?
    ensures exists e: nat ::
              && EntersLast(cfg, start, env, e)
              && (RunFor(cfg, start, env, n + 1).result.flaky <==> TookTooLong(cfg, env, e, n + 1))
  {
    hide Step, RunStage, Launch, TookTooLong;
    RunFlaky(cfg, start, env, n);
    var m := RunFor(cfg, start, env, n).m;
    StepLeaves(cfg, m, env(n));
    LastStageOf(cfg, m.state, env(n), RunStage(cfg, m.state, env(n)));
    var e: nat :| EntersLast(cfg, start, env, e) && FlakyInv(cfg, env, e, n, m.state);
    FlakyStep(cfg, env, e, n, m.state);
  }
}
