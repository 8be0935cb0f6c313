/**
 The Multus validation test succeeds when nothing is wrong: if each stage is shown what it waits for within
 the resource timeout, and the run is not canceled, it reports success. On a cluster whose observations are
 as expected at every turn it does so within 27 turns.
 */
module MultusLiveness {
  import opened Wrappers
  import opened MultusConfig
  import opened MultusStages
  import opened MultusRuns
  import opened MultusTiming
  import opened MultusTurns

  // ----- A cluster in order -----

  // Every listing shows what the stage that reads it waits for, and every call succeeds.
  ghost predicate GoodTick(cfg: Config, tick: Tick, counts: Counts, web: WebInfo)
  {
    && !tick.doneAtSelect && !tick.doneAfterRun
    && PullCounts(cfg, tick.pullSets) == Some(counts)
    && tick.pullPods.Listed? && OnePodPerNode(tick.pullPods.items) && AllRunning(tick.pullPods, SumOf(counts))
    && AllRunning(tick.checkerPods, SumOf(counts)) && AllReady(tick.checkerPods, SumOf(counts))
    && AllRunning(tick.clientPods, ExpectedClients(cfg, counts, web))
    && AllReady(tick.clientPods, ExpectedClients(cfg, counts, web))
    && !tick.deleteFails && tick.networkNamesParse && tick.webServer == Some(web) && tick.failingCreates == {}
  }

  // A turn takes at most `turn` from one select to the next.
  ghost predicate Prompt(env: nat -> Tick, turn: int, i: nat)
  {
    env(i + 1).selectAt - env(i).selectAt <= turn
  }

  ghost predicate GoodRun(cfg: Config, start: Start, env: nat -> Tick, counts: Counts, web: WebInfo, turn: int)
  {
    && ValidEnv(cfg, start, env) && ValidConfig(cfg) && HasOSDs(cfg.nodeTypes)
    && !start.ownerFails && !start.webConfigFails && !start.webPodFails && start.failingCreates == {}
    && (forall i: nat :: GoodTick(cfg, env(i), counts, web))
    && (forall i: nat :: Prompt(env, turn, i))
    && env(0).selectAt - start.timerAt < cfg.resourceTimeout && DEBOUNCE + 3 * turn <= cfg.resourceTimeout
  }

  // ----- The stages after the first -----

  // The stage holds the counts and the web server that the cluster shows.
  ghost predicate OnTrack(cfg: Config, s: Stage, counts: Counts, web: WebInfo)
  {
    && FieldsInv(cfg, s) && (cfg.hostCheckOnly ==> cfg.publicNetwork != "" && Rank(s) <= 8)
    && match s
       case GetExpected(_, _) => false
       case EnsureNoOverlap(c) => c == counts
       case VerifyRunning(app, c, _, webInfo) => c == counts && (webInfo.Some? ==> webInfo.value == web)
       case DeleteImagePullers(c) => c == counts
       case GetWebServerInfo(c) => c == counts
       case StartHostCheckers(w, c) => w == web && c == counts
       case VerifyHostCheckersReady(w, c) => w == web && c == counts
       case DeleteHostCheckers(w, c) => w == web && c == counts
       case StartClients(w, c) => w == web && c == counts
       case VerifyClientsReady(expected, _, _, _) => expected == ExpectedClients(cfg, counts, web)
  }

  // Each of these stages needs one good turn.
  lemma GoodStage(cfg: Config, s: Stage, tick: Tick, counts: Counts, web: WebInfo)
    requires forall t :: t in tick.order ==> t in cfg.nodeTypes
    requires OnTrack(cfg, s, counts, web) && GoodTick(cfg, tick, counts, web)
    ensures var r := RunStage(cfg, s, tick);
            if r.done then r.err.None?
            else r.changed && OnTrack(cfg, r.state, counts, web) && Rank(s) < Rank(r.state)
  {
    hide PullCounts, OnePodPerNode, CountRunning, CountReady, SumOf, ClientPlan, Creates, ClientCounts;
    hide AllRunning, AllReady;
    AllRunningIs(tick.pullPods, SumOf(counts));
    AllRunningIs(tick.checkerPods, SumOf(counts));
    AllReadyIs(tick.checkerPods, SumOf(counts));
    AllRunningIs(tick.clientPods, ExpectedClients(cfg, counts, web));
    AllReadyIs(tick.clientPods, ExpectedClients(cfg, counts, web));
    match s
    case EnsureNoOverlap(_) =>
    case VerifyRunning(_, _, _, _) =>
    case DeleteImagePullers(_) =>
    case GetWebServerInfo(_) =>
    case StartHostCheckers(_, _) =>
    case VerifyHostCheckersReady(_, _) =>
    case DeleteHostCheckers(_, _) =>
    case StartClients(_, _) =>
    case VerifyClientsReady(_, _, _, _) =>
  }

  ghost predicate Succeeded(o: Outcome)
  {
    o.Returned? && o.result.Success?
  }

  // A fresh stage on track whose next select comes in time.
  ghost predicate Ready(cfg: Config, env: nat -> Tick, n: nat, m: Machine, counts: Counts, web: WebInfo)
  {
    && m.changed && !m.timer.received && env(n).selectAt < m.timer.deadline
    && OnTrack(cfg, m.state, counts, web)
  }

  lemma GoodTurn(
    cfg: Config, start: Start, env: nat -> Tick, counts: Counts, web: WebInfo, turn: int, n: nat, m: Machine)
    requires GoodRun(cfg, start, env, counts, web, turn) && Ready(cfg, env, n, m, counts, web)
    requires forall t :: t in env(n).order ==> t in cfg.nodeTypes
    ensures var o := Step(cfg, m, env(n));
            || Succeeded(o)
            || (o.Running? && Ready(cfg, env, n + 1, o.m, counts, web) && Rank(m.state) < Rank(o.m.state))
  {
    hide RunStage, OnTrack, ValidConfig, HasOSDs;
    assert Prompt(env, turn, n) && WellTimed(env, n) && GoodTick(cfg, env(n), counts, web);
    GoodStage(cfg, m.state, env(n), counts, web);
  }

  lemma {:induction false} StaysReturned(cfg: Config, start: Start, env: nat -> Tick, i: nat, n: nat)
    requires ValidEnv(cfg, start, env) && i <= n && RunFor(cfg, start, env, i).Returned?
    ensures RunFor(cfg, start, env, n) == RunFor(cfg, start, env, i)
    decreases n - i
  {
    hide RunFor;
    if i < n {
      RunNext(cfg, start, env, i);
      StaysReturned(cfg, start, env, i + 1, n);
    }
  }

  lemma {:induction false} Finishes(
    cfg: Config, start: Start, env: nat -> Tick, counts: Counts, web: WebInfo, turn: int, n: nat, end: nat)
    requires GoodRun(cfg, start, env, counts, web, turn)
    requires var o := RunFor(cfg, start, env, n);
             o.Running? && Ready(cfg, env, n, o.m, counts, web) && n + 12 - Rank(o.m.state) <= end
    ensures Succeeded(RunFor(cfg, start, env, end))
    decreases 12 - Rank(RunFor(cfg, start, env, n).m.state)
  {
    hide *;
    GoodNext(cfg, start, env, counts, web, turn, n);
    var m := RunFor(cfg, start, env, n).m;
    RankBound(m.state);
    GoodTurn(cfg, start, env, counts, web, turn, n, m);
    if RunFor(cfg, start, env, n + 1).Running? {
      NotSucceeded(RunFor(cfg, start, env, n + 1));
      RankBound(RunFor(cfg, start, env, n + 1).m.state);
      Finishes(cfg, start, env, counts, web, turn, n + 1, end);
    } else {
      StaysSucceeded(cfg, start, env, n + 1, end);
    }
  }

  lemma RankBound(s: Stage)
    ensures Rank(s) <= 11
  {
  }

  lemma NotSucceeded(o: Outcome)
    requires o.Running?
    ensures !Succeeded(o)
  {
  }

  lemma StaysSucceeded(cfg: Config, start: Start, env: nat -> Tick, i: nat, n: nat)
    requires ValidEnv(cfg, start, env) && i <= n && Succeeded(RunFor(cfg, start, env, i))
    ensures Succeeded(RunFor(cfg, start, env, n))
  {
    hide RunFor;
    StaysReturned(cfg, start, env, i, n);
  }

  // ----- The first stage -----

  ghost predicate Debounced(env: nat -> Tick, i: nat)
  {
    env(i).clock2 - env(0).clock1 >= DEBOUNCE
  }

  // Turn i ends no sooner than i sleeps after the first observation.
  lemma {:induction false} TimePasses(cfg: Config, start: Start, env: nat -> Tick, i: nat)
    requires ValidEnv(cfg, start, env)
    ensures env(i).clock2 - env(0).clock1 >= i * POLL_SLEEP
  {
    assert WellTimed(env, i);
    if i > 0 {
      TimePasses(cfg, start, env, i - 1);
      assert WellTimed(env, i - 1);
    }
  }

  // The first stage after i turns that did not yet complete the debounce time.
  function Waiting(cfg: Config, env: nat -> Tick, counts: Counts, effects: seq<Effect>): Machine
  {
    Machine(GetExpected(counts, Some(env(0).clock1)), false, Timer(env(0).resetAt + cfg.resourceTimeout, false), None,
            effects)
  }

  // While the debounce time is not over, the next select is in time.
  lemma StillInTime(
    cfg: Config, start: Start, env: nat -> Tick, counts: Counts, web: WebInfo, turn: int, i: nat)
    requires GoodRun(cfg, start, env, counts, web, turn) && (i == 0 || !Debounced(env, i - 1))
    ensures i > 0 ==> env(i).selectAt < env(0).resetAt + cfg.resourceTimeout
    ensures env(i + 1).selectAt < env(0).resetAt + cfg.resourceTimeout
  {
    hide GoodTick, ValidConfig, HasOSDs, IsOrderOf;
    assert WellTimed(env, 0) && Prompt(env, turn, 0) && Prompt(env, turn, i) && WellTimed(env, i);
    assert i > 0 ==> WellTimed(env, i - 1) && Prompt(env, turn, i - 1);
  }

  lemma FirstTurn(
    cfg: Config, start: Start, env: nat -> Tick, counts: Counts, web: WebInfo, turn: int, m: Machine)
    requires GoodRun(cfg, start, env, counts, web, turn) && counts != map[]
    requires forall t :: t in env(0).order ==> t in cfg.nodeTypes
    requires m == FirstMachine(cfg, start, m.effects)
    requires cfg.hostCheckOnly ==> cfg.publicNetwork != ""
    ensures var o := Step(cfg, m, env(0));
            o.Running? && if Debounced(env, 0) then Ready(cfg, env, 1, o.m, counts, web) && Rank(o.m.state) == 1
                          else o.m == Waiting(cfg, env, counts, m.effects) && o.m.effects == m.effects
  {
    hide PullCounts, ValidConfig, HasOSDs, IsOrderOf, SumOf, OnePodPerNode, AllRunning, AllReady, ExpectedClients;
    assert GoodTick(cfg, env(0), counts, web) && WellTimed(env, 0);
    StillInTime(cfg, start, env, counts, web, turn, 0);
    assert m.effects + [] == m.effects;
  }

  lemma NextTurn(
    cfg: Config, start: Start, env: nat -> Tick, counts: Counts, web: WebInfo, turn: int, i: nat, m: Machine)
    requires GoodRun(cfg, start, env, counts, web, turn) && counts != map[] && i > 0 && !Debounced(env, i - 1)
    requires forall t :: t in env(i).order ==> t in cfg.nodeTypes
    requires m == Waiting(cfg, env, counts, m.effects)
    requires cfg.hostCheckOnly ==> cfg.publicNetwork != ""
    ensures var o := Step(cfg, m, env(i));
            o.Running? && if Debounced(env, i) then Ready(cfg, env, i + 1, o.m, counts, web) && Rank(o.m.state) == 1
                          else o.m == m
  {
    hide PullCounts, ValidConfig, HasOSDs, IsOrderOf, SumOf, OnePodPerNode, AllRunning, AllReady, ExpectedClients;
    assert GoodTick(cfg, env(i), counts, web);
    StillInTime(cfg, start, env, counts, web, turn, i);
    assert m.effects + [] == m.effects;
  }

  lemma GoodLaunch(cfg: Config, start: Start, env: nat -> Tick, counts: Counts, web: WebInfo, turn: int)
    requires GoodRun(cfg, start, env, counts, web, turn) && (cfg.hostCheckOnly ==> cfg.publicNetwork != "")
    ensures var o := Launch(cfg, start); o.Running? && o.m == FirstMachine(cfg, start, o.m.effects)
    ensures counts != map[]
  {
    hide ValidConfig, HasOSDs;
    ValidConfigIsPlaceable(cfg);
    assert GoodTick(cfg, env(0), counts, web);
    PullCountsNonEmpty(cfg, env(0).pullSets);
  }

  const FIRST_STAGE_TURNS: nat := DEBOUNCE / POLL_SLEEP + 1

  const GOOD_TURNS: nat := FIRST_STAGE_TURNS + 11

  lemma {:induction false} FirstStageEnds(
    cfg: Config, start: Start, env: nat -> Tick, counts: Counts, web: WebInfo, turn: int, i: nat, n: nat)
    requires GoodRun(cfg, start, env, counts, web, turn) && (cfg.hostCheckOnly ==> cfg.publicNetwork != "")
    requires 0 < i && !Debounced(env, i - 1) && counts != map[] && n >= GOOD_TURNS
    requires var o := RunFor(cfg, start, env, i); o.Running? && o.m == Waiting(cfg, env, counts, o.m.effects)
    ensures Succeeded(RunFor(cfg, start, env, n))
    decreases FIRST_STAGE_TURNS - i
  {
    hide *;
    NotYetBound(cfg, start, env, counts, web, turn, i);
    GoodNext(cfg, start, env, counts, web, turn, i);
    var m := RunFor(cfg, start, env, i).m;
    NextTurn(cfg, start, env, counts, web, turn, i, m);
    if Debounced(env, i) {
      Finishes(cfg, start, env, counts, web, turn, i + 1, n);
    } else {
      FirstStageEnds(cfg, start, env, counts, web, turn, i + 1, n);
    }
  }

  lemma NotYetBound(cfg: Config, start: Start, env: nat -> Tick, counts: Counts, web: WebInfo, turn: int, i: nat)
    requires GoodRun(cfg, start, env, counts, web, turn) && i > 0 && !Debounced(env, i - 1)
    ensures i < FIRST_STAGE_TURNS && GOOD_TURNS == FIRST_STAGE_TURNS + 11
  {
    hide PullCounts, SumOf, HasOSDs, ValidConfig;
    TimePasses(cfg, start, env, i - 1);
  }

  lemma GoodNext(cfg: Config, start: Start, env: nat -> Tick, counts: Counts, web: WebInfo, turn: int, i: nat)
    requires GoodRun(cfg, start, env, counts, web, turn)
    ensures ValidEnv(cfg, start, env) && forall t :: t in env(i).order ==> t in cfg.nodeTypes
    ensures var o := RunFor(cfg, start, env, i);
            RunFor(cfg, start, env, i + 1) == if o.Running? then Step(cfg, o.m, env(i)) else o
  {
    RunNext(cfg, start, env, i);
  }

  lemma GoodStart(cfg: Config, start: Start, env: nat -> Tick, counts: Counts, web: WebInfo, turn: int)
    requires GoodRun(cfg, start, env, counts, web, turn)
    ensures cfg.hostCheckOnly && cfg.publicNetwork == "" ==> Succeeded(RunFor(cfg, start, env, 0))
    ensures !(cfg.hostCheckOnly && cfg.publicNetwork == "") ==>
              var o := RunFor(cfg, start, env, 0);
              o.Running? && o.m == FirstMachine(cfg, start, o.m.effects) && counts != map[]
    ensures GOOD_TURNS >= 12
  {
    hide PullCounts, SumOf, HasOSDs;
    if !(cfg.hostCheckOnly && cfg.publicNetwork == "") {
      GoodLaunch(cfg, start, env, counts, web, turn);
    }
  }

  // On a cluster in order, with quick turns and no cancellation, the test succeeds within a fixed number
  // of turns, whatever the config checks.
  lemma GoodRunSucceeds(cfg: Config, start: Start, env: nat -> Tick, counts: Counts, web: WebInfo, turn: int, n: nat)
    requires GoodRun(cfg, start, env, counts, web, turn) && n >= GOOD_TURNS
    ensures Succeeded(RunFor(cfg, start, env, n))
  {
    hide *;
    GoodStart(cfg, start, env, counts, web, turn);
    GoodNext(cfg, start, env, counts, web, turn, 0);
    if cfg.hostCheckOnly && cfg.publicNetwork == "" {
      StaysSucceeded(cfg, start, env, 0, n);
    } else {
      FirstTurn(cfg, start, env, counts, web, turn, RunFor(cfg, start, env, 0).m);
      if Debounced(env, 0) {
        Finishes(cfg, start, env, counts, web, turn, 1, n);
      } else {
        FirstStageEnds(cfg, start, env, counts, web, turn, 1, n);
      }
    }
  }

  // ----- Stages that have to wait -----

  // The test starts, and nothing cancels it.
  ghost predicate Undisturbed(cfg: Config, start: Start, env: nat -> Tick)
  {
    && ValidEnv(cfg, start, env) && ValidConfig(cfg) && HasOSDs(cfg.nodeTypes)
    && !start.ownerFails && !start.webConfigFails && !start.webPodFails
    && (forall i: nat :: i < |start.order| ==> i !in start.failingCreates)
    && (forall i: nat :: Uncanceled(env(i)))
    && env(0).selectAt - start.timerAt < cfg.resourceTimeout
  }

  predicate Uncanceled(tick: Tick)
  {
    !tick.doneAtSelect && !tick.doneAfterRun
  }

  // Turn k shows the stage that was entered at turn n what it waits for, and the next turn begins within the
  // resource timeout. The first stage is shown stable counts, since some turn a.
  ghost predicate AnsweredAt(cfg: Config, start: Start, env: nat -> Tick, n: nat, k: nat)
    requires ValidEnv(cfg, start, env) && RunFor(cfg, start, env, n).Running?
  {
    var s := RunFor(cfg, start, env, n).m.state;
    && n <= k && env(k + 1).selectAt - env(n).resetAt < cfg.resourceTimeout
    && if s.GetExpected? then exists a: nat, counts :: n <= a && StableWindow(cfg, env, a, k, counts)
       else Orders(cfg, env, k) && Has(cfg, s, env(k))
  }

  // Every stage is answered at some turn, whatever it is shown before, and no turn ends the run.
  ghost predicate Responsive(cfg: Config, start: Start, env: nat -> Tick)
    requires ValidEnv(cfg, start, env)
  {
    && (forall n: nat :: Answered(cfg, start, env, n))
    && (forall n: nat :: !FatalAt(cfg, start, env, n))
  }

  ghost predicate Answered(cfg: Config, start: Start, env: nat -> Tick, n: nat)
    requires ValidEnv(cfg, start, env)
  {
    var o := RunFor(cfg, start, env, n);
    o.Running? && o.m.changed ==> exists k: nat :: AnsweredAt(cfg, start, env, n, k)
  }

  lemma {:induction false} SelectsGrow(cfg: Config, start: Start, env: nat -> Tick, i: nat, j: nat)
    requires ValidEnv(cfg, start, env) && i <= j
    ensures env(i).selectAt <= env(j).selectAt && env(i).clock1 <= env(j).clock1
    decreases j - i
  {
    if i < j {
      SelectsGrow(cfg, start, env, i, j - 1);
      assert WellTimed(env, j - 1) && WellTimed(env, j);
    }
  }

  // A turn that stays in its stage keeps what the stage waits for, and did not observe it.
  lemma StayedWaiting(cfg: Config, start: Start, env: nat -> Tick, i: nat)
    requires ValidEnv(cfg, start, env) && RunFor(cfg, start, env, i + 1).Running? && !FatalAt(cfg, start, env, i)
    requires RunFor(cfg, start, env, i).Running?
    requires Rank(RunFor(cfg, start, env, i).m.state) == Rank(RunFor(cfg, start, env, i + 1).m.state)
    ensures Orders(cfg, env, i) && !HasAt(cfg, start, env, i)
    ensures SameWait(RunFor(cfg, start, env, i).m.state, RunFor(cfg, start, env, i + 1).m.state)
  {
    hide RunFor, Has, Step, FieldsInv, ValidConfig, ValidEnv, Rank;
    RunNext(cfg, start, env, i);
    RunNoted(cfg, start, env, i);
    ResultExplained(cfg, start, env, i);
    TurnOutcome(cfg, RunFor(cfg, start, env, i).m, env(i));
  }

  // Through all turns of a stage it waits for the same thing.
  lemma {:induction false} SameThroughout(cfg: Config, start: Start, env: nat -> Tick, e: nat, i: nat, rank: nat)
    requires ValidEnv(cfg, start, env) && e <= i && (forall n: nat :: !FatalAt(cfg, start, env, n))
    requires forall j :: e <= j <= i ==> InStage(cfg, start, env, j, rank)
    ensures InStage(cfg, start, env, e, rank) && InStage(cfg, start, env, i, rank)
    ensures SameWait(RunFor(cfg, start, env, e).m.state, RunFor(cfg, start, env, i).m.state)
    decreases i - e
  {
    hide RunFor, FatalAt, Rank, ValidEnv;
    assert InStage(cfg, start, env, e, rank) && InStage(cfg, start, env, i, rank);
    if e < i {
      assert InStage(cfg, start, env, i - 1, rank);
      SameThroughout(cfg, start, env, e, i - 1, rank);
      StayedWaiting(cfg, start, env, i - 1);
    }
  }

  lemma HasSame(cfg: Config, s: Stage, s': Stage, tick: Tick)
    requires forall t :: t in tick.order ==> t in cfg.nodeTypes
    requires SameWait(s, s') && !s.GetExpected?
    ensures Has(cfg, s, tick) <==> Has(cfg, s', tick)
  {
  }

  // From the turn that showed the counts on, while it sees no others, the first stage keeps them and since
  // when it has seen them.
  lemma {:induction false} FirstStageKeeps(
    cfg: Config, start: Start, env: nat -> Tick, counts: Counts, a: nat, i: nat)
    requires ValidEnv(cfg, start, env) && a < i && InStage(cfg, start, env, i, 0)
    requires PullCounts(cfg, env(a).pullSets) == Some(counts) && SawOnly(cfg, env, a, i, counts)
    ensures var s := RunFor(cfg, start, env, i).m.state;
            s.GetExpected? && s.counts == counts && s.changedAt.Some? && s.changedAt.value <= env(a).clock1
    decreases i - a
  {
    hide RunFor, PullCounts, ValidEnv;
    FirstStageBefore(cfg, start, env, i - 1);
    if a < i - 1 {
      assert SawOnly(cfg, env, a, i - 1, counts);
      FirstStageKeeps(cfg, start, env, counts, a, i - 1);
      assert PullCounts(cfg, env(i - 1).pullSets) in {None, Some(counts)};
    }
  }

  // A turn that stays in the first stage: what it notes, and that it noted nothing later than now.
  lemma FirstStageBefore(cfg: Config, start: Start, env: nat -> Tick, i: nat)
    requires ValidEnv(cfg, start, env) && InStage(cfg, start, env, i + 1, 0)
    ensures InStage(cfg, start, env, i, 0)
    ensures var s, s' := RunFor(cfg, start, env, i).m.state, RunFor(cfg, start, env, i + 1).m.state;
            && s.GetExpected? && s'.GetExpected?
            && (s.changedAt.Some? ==> s.changedAt.value <= env(i).clock1)
            && (s.changedAt.None? ==> s.counts == map[])
            && match PullCounts(cfg, env(i).pullSets)
               case None => s' == s
               case Some(seen) =>
                 seen != map[] && s' == if s.counts == seen then s else GetExpected(seen, Some(env(i).clock1))
  {
    RunForward(cfg, start, env, i);
    RunNext(cfg, start, env, i);
    var m := RunFor(cfg, start, env, i).m;
    RunNoted(cfg, start, env, i);
    NotedEarlier(cfg, start, env, i);
    FirstStepIs(cfg, m, env(i));
    if PullCounts(cfg, env(i).pullSets).Some? {
      PullCountsNonEmpty(cfg, env(i).pullSets);
    }
    hide RunFor, PullCounts, ValidEnv, Step;
  }

  lemma NotedEarlier(cfg: Config, start: Start, env: nat -> Tick, i: nat)
    requires ValidEnv(cfg, start, env) && InStage(cfg, start, env, i, 0)
    ensures var s := RunFor(cfg, start, env, i).m.state;
            s.GetExpected? && (s.changedAt.Some? ==> s.changedAt.value <= env(i).clock1)
  {
    hide RunFor, PullCounts, ValidEnv, SawOnly, ValidConfig;
    RunInv(cfg, start, env, i);
    var s := RunFor(cfg, start, env, i).m.state;
    if s.changedAt.Some? {
      var a :| 0 <= a < i && s.changedAt.value == env(a).clock1;
      SelectsGrow(cfg, start, env, a, i);
    }
  }

  lemma FirstStepIs(cfg: Config, m: Machine, tick: Tick)
    requires forall t :: t in tick.order ==> t in cfg.nodeTypes
    requires m.state.GetExpected? && (m.state.changedAt.None? ==> m.state.counts == map[])
    requires Step(cfg, m, tick).Running? && Rank(Step(cfg, m, tick).m.state) == 0
    ensures var s, s' := m.state, Step(cfg, m, tick).m.state;
            match PullCounts(cfg, tick.pullSets)
            case None => s' == s
            case Some(seen) => s' == if s.counts == seen then s else GetExpected(seen, Some(tick.clock1))
  {
    hide PullCounts;
  }

  // At the end of a stable window the first stage has what it waits for.
  lemma WindowIsEnough(cfg: Config, start: Start, env: nat -> Tick, counts: Counts, a: nat, k: nat)
    requires ValidEnv(cfg, start, env) && InStage(cfg, start, env, k, 0) && StableWindow(cfg, env, a, k, counts)
    ensures HasAt(cfg, start, env, k)
  {
    hide *;
    WindowMeans(cfg, env, counts, a, k);
    InStageMeans(cfg, start, env, k, 0);
    NotedEarlier(cfg, start, env, k);
    var s := RunFor(cfg, start, env, k).m.state;
    if a < k {
      FirstStageKeeps(cfg, start, env, counts, a, k);
    }
    StableFrom(cfg, s, env(k), counts, env(a).clock1);
    HasAtMeans(cfg, start, env, k);
  }

  lemma InStageMeans(cfg: Config, start: Start, env: nat -> Tick, i: nat, rank: nat)
    requires ValidEnv(cfg, start, env) && InStage(cfg, start, env, i, rank)
    ensures RunFor(cfg, start, env, i).Running? && Rank(RunFor(cfg, start, env, i).m.state) == rank
  {
  }

  lemma WindowMeans(cfg: Config, env: nat -> Tick, counts: Counts, a: nat, k: nat)
    requires StableWindow(cfg, env, a, k, counts)
    ensures a <= k && SawOnly(cfg, env, a, k, counts) && PullCounts(cfg, env(a).pullSets) == Some(counts)
    ensures ShowsCounts(cfg, env(k).pullSets, counts) && env(k).clock2 - env(a).clock1 >= DEBOUNCE
  {
    hide PullCounts, ShowsCounts;
    PullCountsMeans(cfg, env(k).pullSets, counts);
  }

  lemma StableFrom(cfg: Config, s: Stage, tick: Tick, counts: Counts, since: int)
    requires s.GetExpected? && ShowsCounts(cfg, tick.pullSets, counts)
    requires since == tick.clock1 || (s.counts == counts && s.changedAt.Some? && s.changedAt.value <= since)
    requires s.changedAt.Some? ==> s.changedAt.value <= tick.clock1
    requires tick.clock2 - since >= DEBOUNCE
    ensures ShowsStableCounts(cfg, s, tick)
  {
    hide ShowsCounts;
    assert SeenSince(s, counts, tick) <= since;
  }

  lemma HasAtMeans(cfg: Config, start: Start, env: nat -> Tick, k: nat)
    requires ValidEnv(cfg, start, env) && InStage(cfg, start, env, k, 0)
    ensures var s := RunFor(cfg, start, env, k).m.state;
            s.GetExpected? && (ShowsStableCounts(cfg, s, env(k)) ==> HasAt(cfg, start, env, k))
  {
    RunNext(cfg, start, env, k);
    hide RunFor, ValidEnv, ShowsStableCounts;
  }

  // The stage of turns e to n - 1 was answered no sooner than in its last turn, so turn n begins in time.
  lemma BeginsInTime(cfg: Config, start: Start, env: nat -> Tick, e: nat, n: nat, rank: nat)
    requires ValidEnv(cfg, start, env) && Responsive(cfg, start, env) && RanSince(cfg, start, env, e, n, rank)
    ensures env(n).selectAt - env(e).resetAt < cfg.resourceTimeout
  {
    assert Answered(cfg, start, env, e);
    var k: nat :| AnsweredAt(cfg, start, env, e, k);
    if k + 1 < n {
      AnsweredIsLeft(cfg, start, env, e, n, k, rank);
    } else {
      SelectsGrow(cfg, start, env, n, k + 1);
    }
  }

  lemma AnsweredIsLeft(cfg: Config, start: Start, env: nat -> Tick, e: nat, n: nat, k: nat, rank: nat)
    requires ValidEnv(cfg, start, env) && Responsive(cfg, start, env) && RanSince(cfg, start, env, e, n, rank)
    requires AnsweredAt(cfg, start, env, e, k)
    ensures n <= k + 1
  {
    hide RunFor, Has, ValidEnv, FatalAt, Rank, StableWindow;
    if k + 1 < n {
      assert InStage(cfg, start, env, k, rank) && InStage(cfg, start, env, k + 1, rank);
      assert !FatalAt(cfg, start, env, k);
      StayedWaiting(cfg, start, env, k);
      AnswerIsSeen(cfg, start, env, e, k, rank);
    }
  }

  lemma AnswerIsSeen(cfg: Config, start: Start, env: nat -> Tick, e: nat, k: nat, rank: nat)
    requires ValidEnv(cfg, start, env) && Responsive(cfg, start, env) && e <= k
    requires forall j :: e <= j <= k ==> InStage(cfg, start, env, j, rank)
    requires InStage(cfg, start, env, e, rank) && AnsweredAt(cfg, start, env, e, k)
    ensures HasAt(cfg, start, env, k)
  {
    assert InStage(cfg, start, env, k, rank);
    var s := RunFor(cfg, start, env, e).m.state;
    if s.GetExpected? {
      var a: nat, counts :| e <= a && StableWindow(cfg, env, a, k, counts);
      WindowIsEnough(cfg, start, env, counts, a, k);
    } else {
      SameThroughout(cfg, start, env, e, k, rank);
      HasSame(cfg, s, RunFor(cfg, start, env, k).m.state, env(k));
    }
  }

  // No turn of a responsive run finds its timer expired.
  lemma NeverExpires(cfg: Config, start: Start, env: nat -> Tick, n: nat)
    requires Undisturbed(cfg, start, env) && Responsive(cfg, start, env)
    ensures !ExpiredAt(cfg, start, env, n)
  {
    hide *;
    FirstDeadline(cfg, start, env);
    if ExpiredAt(cfg, start, env, n) {
      TimerMeans(cfg, start, env, n);
      var m := RunFor(cfg, start, env, n).m;
      if !m.changed {
        var e: nat :| RanSince(cfg, start, env, e, n, Rank(m.state))
                      && m.timer.deadline == env(e).resetAt + cfg.resourceTimeout;
        BeginsInTime(cfg, start, env, e, n, Rank(m.state));
      } else if n > 0 {
        var e, rank := EnteredLast(cfg, start, env, n - 1);
        BeginsInTime(cfg, start, env, e, n, rank);
      }
    }
  }

  lemma FirstDeadline(cfg: Config, start: Start, env: nat -> Tick)
    requires Undisturbed(cfg, start, env)
    ensures ValidEnv(cfg, start, env)
    ensures var o := RunFor(cfg, start, env, 0); o.Running? ==> env(0).selectAt < o.m.timer.deadline
  {
  }

  lemma TimerMeans(cfg: Config, start: Start, env: nat -> Tick, n: nat)
    requires ValidEnv(cfg, start, env)
    ensures ExpiredAt(cfg, start, env, n) ==> RunFor(cfg, start, env, n).Running?
    ensures var o := RunFor(cfg, start, env, n);
            o.Running? ==>
              && (!o.m.changed ==> exists k: nat :: RanSince(cfg, start, env, k, n, Rank(o.m.state))
                                                    && o.m.timer.deadline == env(k).resetAt + cfg.resourceTimeout)
              && (ExpiredAt(cfg, start, env, n) <==> o.m.timer.deadline <= env(n).selectAt)
  {
    hide RunFor, RanSince, Rank, ValidEnv;
    RunTimer(cfg, start, env, n);
  }

  // The stage that turn n ran was entered at turn e, and the timer still runs since then.
  lemma EnteredLast(cfg: Config, start: Start, env: nat -> Tick, n: nat) returns (e: nat, rank: nat)
    requires ValidEnv(cfg, start, env) && RunFor(cfg, start, env, n + 1).Running?
    ensures RanSince(cfg, start, env, e, n + 1, rank)
    ensures RunFor(cfg, start, env, n + 1).m.timer.deadline == env(e).resetAt + cfg.resourceTimeout
  {
    hide *;
    StepBetween(cfg, start, env, n);
    TimerMeans(cfg, start, env, n);
    var m := RunFor(cfg, start, env, n).m;
    rank := Rank(m.state);
    e := n;
    if !m.changed {
      e :| RanSince(cfg, start, env, e, n, rank) && m.timer.deadline == env(e).resetAt + cfg.resourceTimeout;
    }
    RanOneMore(cfg, start, env, e, n, rank);
  }

  lemma StepBetween(cfg: Config, start: Start, env: nat -> Tick, n: nat)
    requires ValidEnv(cfg, start, env) && RunFor(cfg, start, env, n + 1).Running?
    ensures RunFor(cfg, start, env, n).Running?
    ensures var m := RunFor(cfg, start, env, n).m;
            RunFor(cfg, start, env, n + 1).m.timer.deadline
            == if m.changed then env(n).resetAt + cfg.resourceTimeout else m.timer.deadline
  {
    hide RunFor, Step, Rank, ValidEnv;
    RunForward(cfg, start, env, n);
    RunNext(cfg, start, env, n);
    RunTimer(cfg, start, env, n);
    StepTurns(cfg, RunFor(cfg, start, env, n).m, env(n));
  }

  lemma RanOneMore(cfg: Config, start: Start, env: nat -> Tick, e: nat, n: nat, rank: nat)
    requires ValidEnv(cfg, start, env) && RunFor(cfg, start, env, n).Running?
    requires rank == Rank(RunFor(cfg, start, env, n).m.state)
    requires if RunFor(cfg, start, env, n).m.changed then e == n else RanSince(cfg, start, env, e, n, rank)
    ensures RanSince(cfg, start, env, e, n + 1, rank)
  {
    hide RunFor, Rank, ValidEnv;
    assert InStage(cfg, start, env, n, rank);
  }

  // If every stage is shown what it waits for at some turn within the resource timeout, whatever it is shown
  // before, the test succeeds.
  lemma EventuallySucceeds(cfg: Config, start: Start, env: nat -> Tick, n: nat)
    requires Undisturbed(cfg, start, env) && Responsive(cfg, start, env) && n > TurnBound(cfg)
    ensures Succeeded(RunFor(cfg, start, env, n))
  {
    hide RunFor, Responsive, FatalAt, ExpiredAt, HasAt, EndedAt;
    EveryRunReturns(cfg, start, env, n);
    ResultExplained(cfg, start, env, n);
    var result := RunFor(cfg, start, env, n).result;
    if result.TimedOut? {
      var k: nat :| k < n && EndedAt(cfg, start, env, k) && ExpiredAt(cfg, start, env, k);
      NeverExpires(cfg, start, env, k);
    } else if result.Failed? {
      var k: nat :| k < n && EndedAt(cfg, start, env, k) && FatalAt(cfg, start, env, k);
      NoTurnIsFatal(cfg, start, env, k);
    } else if result.Canceled? {
      var k: nat :| k < n && (env(k).doneAtSelect || env(k).doneAfterRun);
      NoTurnIsCanceled(cfg, start, env, k);
    }
  }

  lemma NoTurnIsCanceled(cfg: Config, start: Start, env: nat -> Tick, k: nat)
    requires Undisturbed(cfg, start, env)
    ensures !env(k).doneAtSelect && !env(k).doneAfterRun
  {
    assert Uncanceled(env(k));
  }

  lemma NoTurnIsFatal(cfg: Config, start: Start, env: nat -> Tick, k: nat)
    requires ValidEnv(cfg, start, env) && Responsive(cfg, start, env)
    ensures !FatalAt(cfg, start, env, k)
  {
  }

  // ----- A cluster in order is one that answers -----

  ghost predicate Track(cfg: Config, start: Start, env: nat -> Tick, counts: Counts, web: WebInfo, n: nat)
    requires ValidEnv(cfg, start, env)
  {
    var o := RunFor(cfg, start, env, n);
    o.Running? ==>
      || (n == 0 && o.m == FirstMachine(cfg, start, o.m.effects))
      || (n > 0 && o.m == Waiting(cfg, env, counts, o.m.effects) && !Debounced(env, n - 1))
      || Ready(cfg, env, n, o.m, counts, web)
  }

  lemma {:induction false} GoodTrack(
    cfg: Config, start: Start, env: nat -> Tick, counts: Counts, web: WebInfo, turn: int, n: nat)
    requires GoodRun(cfg, start, env, counts, web, turn)
    ensures ValidEnv(cfg, start, env) && Track(cfg, start, env, counts, web, n)
  {
    hide RunFor, Step, Ready, Waiting, FirstMachine, GoodRun, ValidEnv, Debounced;
    GoodStart(cfg, start, env, counts, web, turn);
    GoodNext(cfg, start, env, counts, web, turn, 0);
    if n > 0 && !(cfg.hostCheckOnly && cfg.publicNetwork == "") {
      GoodTrack(cfg, start, env, counts, web, turn, n - 1);
      GoodNext(cfg, start, env, counts, web, turn, n - 1);
      var before := RunFor(cfg, start, env, n - 1);
      if before.Running? {
        if Ready(cfg, env, n - 1, before.m, counts, web) {
          GoodTurn(cfg, start, env, counts, web, turn, n - 1, before.m);
        } else if n == 1 {
          FirstTurn(cfg, start, env, counts, web, turn, before.m);
        } else {
          NextTurn(cfg, start, env, counts, web, turn, n - 1, before.m);
        }
      }
    } else if n > 0 {
      StaysReturned(cfg, start, env, 0, n);
    }
  }

  // A good turn has what a stage on track waits for.
  lemma GoodHas(cfg: Config, s: Stage, tick: Tick, counts: Counts, web: WebInfo)
    requires forall t :: t in tick.order ==> t in cfg.nodeTypes
    requires OnTrack(cfg, s, counts, web) && GoodTick(cfg, tick, counts, web) && ValidConfig(cfg)
    ensures Has(cfg, s, tick) && !s.GetExpected?
  {
    hide RunStage, Has, GoodTick, ValidConfig;
    ValidConfigIsPlaceable(cfg);
    StageOutcome(cfg, s, tick);
    GoodStage(cfg, s, tick, counts, web);
  }

  lemma GoodPrompt(cfg: Config, start: Start, env: nat -> Tick, counts: Counts, web: WebInfo, turn: int, n: nat)
    requires GoodRun(cfg, start, env, counts, web, turn)
    ensures env(n + 1).selectAt - env(n).resetAt < cfg.resourceTimeout && Orders(cfg, env, n)
    ensures GoodTick(cfg, env(n), counts, web) && ValidConfig(cfg)
  {
    hide GoodTick, ValidConfig, HasOSDs;
    assert Prompt(env, turn, n) && WellTimed(env, n) && WellTimed(env, n + 1);
    GoodNext(cfg, start, env, counts, web, turn, n);
  }

  lemma {:induction false} FirstDebounced(cfg: Config, start: Start, env: nat -> Tick, n: nat) returns (k: nat)
    requires ValidEnv(cfg, start, env) && Debounced(env, n)
    ensures Debounced(env, k) && (k == 0 || !Debounced(env, k - 1))
  {
    k := n;
    if n > 0 && Debounced(env, n - 1) {
      k := FirstDebounced(cfg, start, env, n - 1);
    }
  }

  lemma GoodWindow(cfg: Config, start: Start, env: nat -> Tick, counts: Counts, web: WebInfo, turn: int)
    returns (k: nat)
    requires GoodRun(cfg, start, env, counts, web, turn)
    ensures StableWindow(cfg, env, 0, k, counts) && env(k + 1).selectAt < env(0).resetAt + cfg.resourceTimeout
  {
    hide PullCounts, ValidConfig, HasOSDs, IsOrderOf, SumOf, OnePodPerNode, AllRunning, AllReady, ExpectedClients;
    TimePasses(cfg, start, env, FIRST_STAGE_TURNS);
    k := FirstDebounced(cfg, start, env, FIRST_STAGE_TURNS);
    StillInTime(cfg, start, env, counts, web, turn, k);
    forall i: nat ensures PullCounts(cfg, env(i).pullSets) == Some(counts) {
      assert GoodTick(cfg, env(i), counts, web);
    }
  }

  lemma GoodAnswered(cfg: Config, start: Start, env: nat -> Tick, counts: Counts, web: WebInfo, turn: int, n: nat)
    requires GoodRun(cfg, start, env, counts, web, turn) && ValidEnv(cfg, start, env)
    ensures Answered(cfg, start, env, n) && !FatalAt(cfg, start, env, n)
  {
    hide RunFor, Has, OnTrack, StableWindow, GoodRun, GoodTick, ValidConfig, ValidEnv;
    GoodTrack(cfg, start, env, counts, web, turn, n);
    GoodPrompt(cfg, start, env, counts, web, turn, n);
    var o := RunFor(cfg, start, env, n);
    if o.Running? {
      if Ready(cfg, env, n, o.m, counts, web) {
        GoodHas(cfg, o.m.state, env(n), counts, web);
        assert AnsweredAt(cfg, start, env, n, n);
      } else {
        var k := GoodWindow(cfg, start, env, counts, web, turn);
        assert n == 0 ==> AnsweredAt(cfg, start, env, n, k);
      }
    }
  }

  // A run of good turns only is a responsive one.
  lemma GoodIsResponsive(cfg: Config, start: Start, env: nat -> Tick, counts: Counts, web: WebInfo, turn: int)
    requires GoodRun(cfg, start, env, counts, web, turn)
    ensures Undisturbed(cfg, start, env) && Responsive(cfg, start, env)
  {
    hide RunFor, ValidConfig, HasOSDs, Answered, FatalAt, Rank, IsOrderOf;
    forall i: nat ensures Uncanceled(env(i)) {
      assert GoodTick(cfg, env(i), counts, web);
    }
    forall n: nat ensures Answered(cfg, start, env, n) && !FatalAt(cfg, start, env, n) {
      GoodAnswered(cfg, start, env, counts, web, turn, n);
    }
  }

  // ----- Such a cluster -----

  const ONE_POD: Listed<Pod> := Listed([Pod("node", ONE_TYPE, true, true)])

  const SOME_WEB := WebInfo("node", "10.0.0.1", "10.0.1.1")

  function GoodEnv(i: nat): Tick
  {
    var t := i * POLL_SLEEP;
    Tick(t, false, false, t, t, true, t, t, Listed([SetStatus(ONE_TYPE, 1)]), ONE_POD, ONE_POD, ONE_POD,
         false, {}, true, Some(SOME_WEB), [ONE_TYPE], {}, false, false)
  }

  lemma OneOfEach()
    ensures SumOf(SMALL_COUNTS) == 1 && ExpectedClients(SmallConfig(), SMALL_COUNTS, SOME_WEB) == 1
    ensures AllRunning(ONE_POD, 1) && AllReady(ONE_POD, 1)
  {
    var clients := ClientCounts(SmallConfig(), SMALL_COUNTS, SOME_WEB.publicAddr);
    assert clients == SMALL_COUNTS;
    SumOfRemove(SMALL_COUNTS, ONE_TYPE);
    assert SMALL_COUNTS - {ONE_TYPE} == map[];
    assert ONE_POD.items[..0] == [];
    AllRunningIs(ONE_POD, 1);
    AllReadyIs(ONE_POD, 1);
  }

  // The premises can be met: a test of one node with one OSD goes through all twelve stages.
  lemma GoodRunExists()
    ensures GoodRun(SmallConfig(), SMALL_START, GoodEnv, SMALL_COUNTS, SOME_WEB, POLL_SLEEP)
  {
    var cfg := SmallConfig();
    SmallConfigValid();
    SmallPullCounts();
    OneOfEach();
    hide PullCounts, ValidConfig, SumOf, ExpectedClients, AllRunning, AllReady;
    assert HasOSDs(cfg.nodeTypes) by { assert cfg.nodeTypes[ONE_TYPE].osdsPerNode > 0; }
    assert IsOrderOf([ONE_TYPE], cfg.nodeTypes);
    forall i: nat ensures WellTimed(GoodEnv, i) && Prompt(GoodEnv, POLL_SLEEP, i) {
    }
    forall i: nat ensures GoodTick(cfg, GoodEnv(i), SMALL_COUNTS, SOME_WEB) {
    }
  }
}
