/**
 What every run of the Multus validation test guarantees, whatever the cluster answers and whenever
 the context is canceled.
 */
module MultusRuns {
  import opened Wrappers
  import opened MultusConfig
  import opened MultusStages

  // ----- Evidence: what was observed before turn n, in the order it was observed -----

  // The image pull counts agreed over the debounce time: turns a and b both saw `counts`, no turn
  // between them saw anything else, and at least the debounce time went by.
  ghost predicate StableWindow(cfg: Config, env: nat -> Tick, a: nat, b: nat, counts: Counts)
  {
    && a <= b
    && SawOnly(cfg, env, a, b + 1, counts)
    && PullCounts(cfg, env(a).pullSets) == PullCounts(cfg, env(b).pullSets) == Some(counts)
    && env(b).clock2 - env(a).clock1 >= DEBOUNCE
  }

  ghost predicate SawOnly(cfg: Config, env: nat -> Tick, a: nat, n: nat, counts: Counts)
  {
    forall k :: a <= k < n ==> PullCounts(cfg, env(k).pullSets) in {None, Some(counts)}
  }

  ghost predicate Stable(cfg: Config, env: nat -> Tick, n: nat, counts: Counts)
  {
    exists a: nat, b: nat :: b < n && StableWindow(cfg, env, a, b, counts)
  }

  ghost predicate AllRunning(pods: Listed<Pod>, n: int)
  {
    pods.Listed? && |set i | 0 <= i < |pods.items| && pods.items[i].running| == n
  }

  ghost predicate AllReady(pods: Listed<Pod>, n: int)
  {
    pods.Listed? && |set i | 0 <= i < |pods.items| && pods.items[i].ready| == n
  }

  lemma AllRunningIs(pods: Listed<Pod>, n: int)
    ensures AllRunning(pods, n) <==> pods.Listed? && CountRunning(pods.items) == n
  {
    if pods.Listed? {
      CountRunningIs(pods.items);
    }
  }

  lemma AllReadyIs(pods: Listed<Pod>, n: int)
    ensures AllReady(pods, n) <==> pods.Listed? && CountReady(pods.items) == n
  {
    if pods.Listed? {
      CountReadyIs(pods.items);
    }
  }

  // The number of clients the test waits for: for each node type, the agreed number of nodes times
  // the OSDs per node, plus the other daemons per node if the web server has a public address.
  ghost function ExpectedClients(cfg: Config, counts: Counts, web: WebInfo): int
  {
    SumOf(ClientCounts(cfg, counts, web.publicAddr))
  }

  datatype Milestone =
    | CountsStable
    | NoOverlap
    | ImagesPulled
    | PullersDeleted
    | WebServerFound
    | CheckersRunning
    | CheckersReady
    | CheckersDeleted
    | ClientsRunning
    | ClientsReady

  function Level(ms: Milestone): nat
  {
    match ms
    case CountsStable => 0
    case NoOverlap => 1
    case ImagesPulled => 2
    case PullersDeleted => 3
    case WebServerFound => 4
    case CheckersRunning => 5
    case CheckersReady => 6
    case CheckersDeleted => 7
    case ClientsRunning => 8
    case ClientsReady => 9
  }

  // The milestone that comes before; hosts are checked only if there is a public network.
  function Before(cfg: Config, ms: Milestone): (before: Milestone)
    requires ms != CountsStable
    ensures Level(before) < Level(ms)
  {
    match ms
    case NoOverlap => CountsStable
    case ImagesPulled => NoOverlap
    case PullersDeleted => ImagesPulled
    case WebServerFound => PullersDeleted
    case CheckersRunning => WebServerFound
    case CheckersReady => CheckersRunning
    case CheckersDeleted => CheckersReady
    case ClientsRunning => if cfg.publicNetwork == "" then WebServerFound else CheckersDeleted
    case ClientsReady => ClientsRunning
  }

  // What a turn must have observed to count as the milestone.
  ghost predicate Shows(cfg: Config, tick: Tick, ms: Milestone, counts: Counts, web: WebInfo)
    requires ms != CountsStable
  {
    match ms
    case NoOverlap => tick.pullPods.Listed? && OnePodPerNode(tick.pullPods.items)
    case ImagesPulled => AllRunning(tick.pullPods, SumOf(counts))
    case PullersDeleted => !tick.deleteFails
    case WebServerFound => tick.webServer == Some(web)
    case CheckersRunning => AllRunning(tick.checkerPods, SumOf(counts))
    case CheckersReady => AllReady(tick.checkerPods, SumOf(counts))
    case CheckersDeleted => !tick.deleteFails
    case ClientsRunning => AllRunning(tick.clientPods, ExpectedClients(cfg, counts, web))
    case ClientsReady => AllReady(tick.clientPods, ExpectedClients(cfg, counts, web))
  }

  // Every milestone up to `ms` was observed before turn n, each strictly after the one before it.
  ghost predicate Seen(cfg: Config, env: nat -> Tick, n: nat, ms: Milestone, counts: Counts, web: WebInfo)
    decreases Level(ms)
  {
    if ms == CountsStable then Stable(cfg, env, n, counts)
    else exists i: nat ::
      i < n && Seen(cfg, env, i, Before(cfg, ms), counts, web) && Shows(cfg, env(i), ms, counts, web)
  }

  lemma ShowsIrrelevant(cfg: Config, tick: Tick, ms: Milestone, counts: Counts, web: WebInfo, web': WebInfo)
    requires 1 <= Level(ms) <= 3
    ensures Shows(cfg, tick, ms, counts, web) == Shows(cfg, tick, ms, counts, web')
  {
  }

  lemma {:induction false} WebIrrelevant(
    cfg: Config, env: nat -> Tick, n: nat, ms: Milestone, counts: Counts, web: WebInfo, web': WebInfo)
    requires Level(ms) <= 3 && Seen(cfg, env, n, ms, counts, web)
    ensures Seen(cfg, env, n, ms, counts, web')
    decreases Level(ms)
  {
    hide Shows, Stable;
    if ms != CountsStable {
      var i: nat :| i < n && Seen(cfg, env, i, Before(cfg, ms), counts, web) && Shows(cfg, env(i), ms, counts, web);
      ShowsIrrelevant(cfg, env(i), ms, counts, web, web');
      WebIrrelevant(cfg, env, i, Before(cfg, ms), counts, web, web');
    }
  }

  // ----- What each stage can rely on -----

  const NO_WEB := WebInfo("", "", "")

  // The milestone that has been seen when a stage is entered.
  function NeededBy(cfg: Config, s: Stage): Milestone
    requires !s.GetExpected?
  {
    match s
    case EnsureNoOverlap(_) => CountsStable
    case VerifyRunning(app, _, _, _) =>
      if app.ImagePull? then NoOverlap else if app.HostChecker? then WebServerFound else Before(cfg, ClientsRunning)
    case DeleteImagePullers(_) => ImagesPulled
    case GetWebServerInfo(_) => PullersDeleted
    case StartHostCheckers(_, _) => WebServerFound
    case VerifyHostCheckersReady(_, _) => CheckersRunning
    case DeleteHostCheckers(_, _) => CheckersReady
    case StartClients(_, _) => Before(cfg, ClientsRunning)
    case VerifyClientsReady(_, _, _, _) => ClientsRunning
  }

  function WebOf(s: Stage): WebInfo
  {
    match s
    case StartHostCheckers(web, _) => web
    case VerifyHostCheckersReady(web, _) => web
    case DeleteHostCheckers(web, _) => web
    case StartClients(web, _) => web
    case VerifyRunning(_, _, _, Some(web)) => web
    case _ => NO_WEB
  }

  // The first stage remembers what it saw last and when it first saw it.
  ghost predicate FirstStageInv(cfg: Config, env: nat -> Tick, n: nat, s: Stage)
    requires s.GetExpected?
  {
    if s.changedAt.None? then
      s.counts == map[] && forall k :: 0 <= k < n ==> PullCounts(cfg, env(k).pullSets).None?
    else
      exists a :: 0 <= a < n && SawOnly(cfg, env, a, n, s.counts)
                  && PullCounts(cfg, env(a).pullSets) == Some(s.counts) && s.changedAt.value == env(a).clock1
  }

  // What the fields of a stage are bound to hold.
  ghost predicate FieldsInv(cfg: Config, s: Stage)
  {
    match s
    case VerifyRunning(app, counts, expected, webInfo) =>
      (match app
       case ImagePull => expected == SumOf(counts) && webInfo.None?
       case HostChecker => expected == SumOf(counts) && webInfo.Some? && cfg.publicNetwork != ""
       case Client => webInfo.Some? && expected == ExpectedClients(cfg, counts, webInfo.value)
       case OtherApp(_) => false)
    case VerifyHostCheckersReady(_, _) => cfg.publicNetwork != ""
    case DeleteHostCheckers(_, _) => cfg.publicNetwork != ""
    case VerifyClientsReady(_, prev, _, _) => prev == 0
    case _ => true
  }

  // The number of clients waited for is the one that follows from the counts seen.
  ghost predicate ExpectationSeen(cfg: Config, env: nat -> Tick, n: nat, ms: Milestone, expected: int)
  {
    exists counts, web :: expected == ExpectedClients(cfg, counts, web) && Seen(cfg, env, n, ms, counts, web)
  }

  ghost predicate StageInv(cfg: Config, env: nat -> Tick, n: nat, s: Stage)
  {
    && FieldsInv(cfg, s)
    && if s.GetExpected? then FirstStageInv(cfg, env, n, s)
       else if s.VerifyClientsReady? then
         ExpectationSeen(cfg, env, n, NeededBy(cfg, s), s.expected)
       else Seen(cfg, env, n, NeededBy(cfg, s), s.counts, WebOf(s))
  }

  lemma {:induction false} CountsOfNonEmpty(sets: seq<SetStatus>)
    requires sets != []
    ensures CountsOf(sets) != map[]
  {
    assert sets[|sets| - 1].nodeType in CountsOf(sets);
  }

  // The debounce never starts out satisfied: with at least one node type, the first usable listing
  // differs from the initial nil map.
  lemma PullCountsNonEmpty(cfg: Config, sets: Listed<SetStatus>)
    requires cfg.nodeTypes != map[] && PullCounts(cfg, sets).Some?
    ensures PullCounts(cfg, sets).value != map[]
  {
    assert |cfg.nodeTypes| > 0;
    CountsOfNonEmpty(sets.items);
  }

  lemma GetExpectedStep(cfg: Config, env: nat -> Tick, n: nat, s: Stage)
    requires cfg.nodeTypes != map[]
    requires s.GetExpected? && StageInv(cfg, env, n, s)
    ensures StageInv(cfg, env, n + 1, RunGetExpected(cfg, s, env(n)).state)
  {
    hide PullCounts;
    var seen := PullCounts(cfg, env(n).pullSets);
    if seen.Some? {
      PullCountsNonEmpty(cfg, env(n).pullSets);
      var s' := if s.counts == seen.value then s else GetExpected(seen.value, Some(env(n).clock1));
      var a := n;
      if s.counts == seen.value {
        a :| 0 <= a < n && SawOnly(cfg, env, a, n, s.counts)
             && PullCounts(cfg, env(a).pullSets) == Some(s.counts) && s.changedAt.value == env(a).clock1;
      }
      assert SawOnly(cfg, env, a, n + 1, s'.counts);
      assert StageInv(cfg, env, n + 1, s');
      if env(n).clock2 - s'.changedAt.value >= DEBOUNCE {
        assert StableWindow(cfg, env, a, n, s'.counts);
      }
    } else if s.changedAt.Some? {
      var a :| 0 <= a < n && SawOnly(cfg, env, a, n, s.counts)
               && PullCounts(cfg, env(a).pullSets) == Some(s.counts) && s.changedAt.value == env(a).clock1;
      assert SawOnly(cfg, env, a, n + 1, s.counts);
    }
  }

  lemma SeenKept(cfg: Config, env: nat -> Tick, n: nat, ms: Milestone, counts: Counts, web: WebInfo)
    requires Seen(cfg, env, n, ms, counts, web)
    ensures Seen(cfg, env, n + 1, ms, counts, web)
  {
  }

  lemma SeenNext(cfg: Config, env: nat -> Tick, n: nat, ms: Milestone, counts: Counts, web: WebInfo)
    requires ms != CountsStable
    requires Seen(cfg, env, n, Before(cfg, ms), counts, web) && Shows(cfg, env(n), ms, counts, web)
    ensures Seen(cfg, env, n + 1, ms, counts, web)
  {
  }

  // What a result in state r.state after stage s passes on to the successor.
  ghost predicate HandsOver(cfg: Config, s: Stage, tick: Tick, r: StageResult)
    requires !s.GetExpected? && !s.VerifyClientsReady?
  {
    && FieldsInv(cfg, r.state) && !r.state.GetExpected?
    && if !r.changed then r.state == s
       else if s.StartHostCheckers? || s.StartClients? then
         && !r.state.VerifyClientsReady?
         && NeededBy(cfg, r.state) == NeededBy(cfg, s) && r.state.counts == s.counts && WebOf(r.state) == WebOf(s)
       else
         && NeededBy(cfg, r.state) != CountsStable
         && NeededBy(cfg, s) == Before(cfg, NeededBy(cfg, r.state))
         && (s.GetWebServerInfo? || r.state.VerifyClientsReady? || WebOf(r.state) == WebOf(s))
         && (r.state.VerifyClientsReady? ==> r.state.expected == ExpectedClients(cfg, s.counts, WebOf(s)))
         && (!r.state.VerifyClientsReady? ==> r.state.counts == s.counts)
         && Shows(cfg, tick, NeededBy(cfg, r.state), s.counts,
                  if s.GetWebServerInfo? then WebOf(r.state) else WebOf(s))
  }

  lemma RunningShows(cfg: Config, s: Stage, tick: Tick)
    requires s.VerifyRunning? && FieldsInv(cfg, s)
    ensures HandsOver(cfg, s, tick, RunVerifyRunning(s, tick))
  {
    hide CountRunning, SumOf, ClientCounts, AllRunning;
    AllRunningIs(PodsOf(tick, s.app), s.expected);
  }

  lemma StartingShows(cfg: Config, s: Stage, tick: Tick)
    requires forall t :: t in tick.order ==> t in cfg.nodeTypes
    requires (s.StartHostCheckers? || s.StartClients?) && FieldsInv(cfg, s)
    ensures HandsOver(cfg, s, tick, RunStage(cfg, s, tick))
  {
    hide SumOf, ClientPlan, FirstFailure, Creates, ClientCounts, Shows;
  }

  // Leaving a stage shows the milestone its successor needs.
  lemma LeavingShows(cfg: Config, s: Stage, tick: Tick)
    requires forall t :: t in tick.order ==> t in cfg.nodeTypes
    requires !s.GetExpected? && !s.VerifyClientsReady? && FieldsInv(cfg, s)
    ensures HandsOver(cfg, s, tick, RunStage(cfg, s, tick))
  {
    if s.VerifyRunning? {
      RunningShows(cfg, s, tick);
    } else if s.StartHostCheckers? || s.StartClients? {
      StartingShows(cfg, s, tick);
    } else {
      hide OnePodPerNode, CountReady, CountRunning, SumOf, ClientCounts, AllReady;
      if s.VerifyHostCheckersReady? {
        AllReadyIs(tick.checkerPods, SumOf(s.counts));
      }
    }
  }

  lemma MiddleStageStep(cfg: Config, env: nat -> Tick, n: nat, s: Stage, r: StageResult)
    requires forall t :: t in env(n).order ==> t in cfg.nodeTypes
    requires !s.GetExpected? && !s.VerifyClientsReady?
    requires StageInv(cfg, env, n, s) && r == RunStage(cfg, s, env(n))
    ensures StageInv(cfg, env, n + 1, r.state)
  {
    LeavingShows(cfg, s, env(n));
    SeenKept(cfg, env, n, NeededBy(cfg, s), s.counts, WebOf(s));
    if r.changed && !s.StartHostCheckers? && !s.StartClients? {
      var web := if s.GetWebServerInfo? then WebOf(r.state) else WebOf(s);
      if s.GetWebServerInfo? {
        WebIrrelevant(cfg, env, n, NeededBy(cfg, s), s.counts, WebOf(s), web);
      }
      SeenNext(cfg, env, n, NeededBy(cfg, r.state), s.counts, web);
    }
  }

  lemma ExpectationKept(cfg: Config, env: nat -> Tick, n: nat, ms: Milestone, expected: int)
    requires ExpectationSeen(cfg, env, n, ms, expected)
    ensures ExpectationSeen(cfg, env, n + 1, ms, expected)
  {
    var counts, web :| expected == ExpectedClients(cfg, counts, web) && Seen(cfg, env, n, ms, counts, web);
    SeenKept(cfg, env, n, ms, counts, web);
  }

  lemma LastStageStep(cfg: Config, env: nat -> Tick, n: nat, s: Stage)
    requires s.VerifyClientsReady? && StageInv(cfg, env, n, s)
    ensures StageInv(cfg, env, n + 1, RunVerifyClientsReady(cfg, s, env(n)).state)
  {
    hide ExpectationSeen, CheckIfFlaky;
    ExpectationKept(cfg, env, n, NeededBy(cfg, s), s.expected);
    FlakyKeepsExpectation(cfg, s, env(n));
  }

  lemma FlakyKeepsExpectation(cfg: Config, s: Stage, tick: Tick)
    requires s.VerifyClientsReady?
    ensures forall n :: var s' := CheckIfFlaky(cfg, s, tick, n);
                        s'.VerifyClientsReady? && s'.expected == s.expected && s'.prevNumReady == s.prevNumReady
  {
  }

  // Running a stage hands its successor everything the successor relies on.
  lemma StageStep(cfg: Config, env: nat -> Tick, n: nat, s: Stage)
    requires cfg.nodeTypes != map[]
    requires forall t :: t in env(n).order ==> t in cfg.nodeTypes
    requires StageInv(cfg, env, n, s)
    ensures StageInv(cfg, env, n + 1, RunStage(cfg, s, env(n)).state)
  {
    hide StageInv, RunGetExpected, RunVerifyClientsReady;
    if s.GetExpected? {
      GetExpectedStep(cfg, env, n, s);
    } else if s.VerifyClientsReady? {
      LastStageStep(cfg, env, n, s);
    } else {
      MiddleStageStep(cfg, env, n, s, RunStage(cfg, s, env(n)));
    }
  }

  // ----- Every run -----

  // A stage only ever hands over to a later one.
  lemma StageOrder(cfg: Config, s: Stage, tick: Tick)
    requires forall t :: t in tick.order ==> t in cfg.nodeTypes
    ensures var r := RunStage(cfg, s, tick);
            if r.changed then Rank(s) < Rank(r.state) && !r.done else Rank(r.state) == Rank(s)
  {
    hide PullCounts, OnePodPerNode, CountRunning, CountReady, SumOf, ClientPlan, FirstFailure, Creates, ClientCounts;
  }

  ghost predicate MachineInv(cfg: Config, env: nat -> Tick, n: nat, m: Machine)
  {
    && ValidConfig(cfg)
    && StageInv(cfg, env, n, m.state)
    && (cfg.hostCheckOnly ==> cfg.publicNetwork != "" && Rank(m.state) <= 8)
  }

  ghost predicate OutcomeInv(cfg: Config, env: nat -> Tick, n: nat, o: Outcome)
  {
    o.Running? ==> MachineInv(cfg, env, n, o.m)
  }

  lemma StepInv(cfg: Config, env: nat -> Tick, n: nat, m: Machine)
    requires forall t :: t in env(n).order ==> t in cfg.nodeTypes
    requires MachineInv(cfg, env, n, m)
    ensures OutcomeInv(cfg, env, n + 1, Step(cfg, m, env(n)))
  {
    hide RunStage, StageInv, ValidConfig;
    ValidConfigIsPlaceable(cfg);
    StageStep(cfg, env, n, m.state);
    HostCheckOnlyStays(cfg, m.state, env(n));
  }

  lemma HostCheckOnlyStays(cfg: Config, s: Stage, tick: Tick)
    requires forall t :: t in tick.order ==> t in cfg.nodeTypes
    requires cfg.hostCheckOnly ==> cfg.publicNetwork != "" && Rank(s) <= 8
    ensures cfg.hostCheckOnly ==> Rank(RunStage(cfg, s, tick).state) <= 8
  {
  }

  lemma LaunchInv(cfg: Config, start: Start, env: nat -> Tick)
    ensures OutcomeInv(cfg, env, 0, Launch(cfg, start))
  {
  }

  lemma {:induction false} RunInv(cfg: Config, start: Start, env: nat -> Tick, n: nat)
    requires ValidEnv(cfg, start, env)
    ensures OutcomeInv(cfg, env, n, RunFor(cfg, start, env, n))
  {
    hide Step, Launch, MachineInv;
    if n == 0 {
      LaunchInv(cfg, start, env);
    } else {
      RunInv(cfg, start, env, n - 1);
      var before := RunFor(cfg, start, env, n - 1);
      if before.Running? {
        StepInv(cfg, env, n - 1, before.m);
      }
    }
  }

  // The next turn of a run.
  lemma RunNext(cfg: Config, start: Start, env: nat -> Tick, n: nat)
    requires ValidEnv(cfg, start, env)
    ensures forall t :: t in env(n).order ==> t in cfg.nodeTypes
    ensures var o := RunFor(cfg, start, env, n);
            RunFor(cfg, start, env, n + 1) == if o.Running? then Step(cfg, o.m, env(n)) else o
  {
    hide Step, Launch;
    assert IsOrderOf(env(n).order, cfg.nodeTypes);
  }

  // A turn that goes on, or ends in success, leaves what its stage left.
  lemma StepLeaves(cfg: Config, m: Machine, tick: Tick)
    requires forall t :: t in tick.order ==> t in cfg.nodeTypes
    ensures var o, r := Step(cfg, m, tick), RunStage(cfg, m.state, tick);
            && (o.Running? ==>
                  o.m.state == r.state && o.m.changed == r.changed && o.m.effects == m.effects + r.effects)
            && (o.Returned? && o.result.Success? ==>
                  && o.final.state == r.state && o.final.effects == m.effects + r.effects
                  && r.done && r.err.None? && o.result.flaky == r.flaky)
  {
    hide RunStage;
  }

  // What a successful run must have seen last.
  function LastMilestone(cfg: Config): Milestone
  {
    if cfg.hostCheckOnly then CheckersDeleted else ClientsReady
  }

  ghost predicate Proven(cfg: Config, env: nat -> Tick, n: nat, ms: Milestone)
  {
    exists counts, web :: Seen(cfg, env, n, ms, counts, web)
  }

  // The two ways in which a turn reports success.
  lemma SuccessFrom(cfg: Config, m: Machine, tick: Tick)
    requires forall t :: t in tick.order ==> t in cfg.nodeTypes
    requires var o := Step(cfg, m, tick); o.Returned? && o.result.Success?
    ensures || (m.state.VerifyClientsReady? && AllReady(tick.clientPods, m.state.expected))
            || (m.state.DeleteHostCheckers? && cfg.hostCheckOnly && !tick.deleteFails)
  {
    hide PullCounts, OnePodPerNode, CountReady, CountRunning, SumOf, ClientPlan, AllReady;
    if m.state.VerifyClientsReady? {
      AllReadyIs(tick.clientPods, m.state.expected);
    }
  }

  lemma ClientsProve(cfg: Config, env: nat -> Tick, n: nat, expected: int)
    requires ExpectationSeen(cfg, env, n, Before(cfg, ClientsReady), expected) && AllReady(env(n).clientPods, expected)
    ensures Proven(cfg, env, n + 1, ClientsReady)
  {
    hide Seen;
    var counts, web :| expected == ExpectedClients(cfg, counts, web)
                       && Seen(cfg, env, n, Before(cfg, ClientsReady), counts, web);
    SeenNext(cfg, env, n, ClientsReady, counts, web);
  }

  lemma CheckersProve(cfg: Config, env: nat -> Tick, n: nat, s: Stage)
    requires s.DeleteHostCheckers? && Seen(cfg, env, n, NeededBy(cfg, s), s.counts, WebOf(s)) && !env(n).deleteFails
    ensures Proven(cfg, env, n + 1, CheckersDeleted)
  {
    hide Seen;
    SeenNext(cfg, env, n, CheckersDeleted, s.counts, s.web);
  }

  lemma LastStageProves(cfg: Config, env: nat -> Tick, n: nat, m: Machine)
    requires forall t :: t in env(n).order ==> t in cfg.nodeTypes
    requires MachineInv(cfg, env, n, m)
    requires var o := Step(cfg, m, env(n)); o.Returned? && o.result.Success?
    ensures Proven(cfg, env, n + 1, LastMilestone(cfg))
  {
    hide Step, Seen, ExpectationSeen, Proven, FirstStageInv, ValidConfig;
    SuccessFrom(cfg, m, env(n));
    if m.state.VerifyClientsReady? {
      ClientsProve(cfg, env, n, m.state.expected);
    } else {
      CheckersProve(cfg, env, n, m.state);
    }
  }

  lemma LaunchResult(cfg: Config, start: Start)
    ensures var o := Launch(cfg, start);
            && !o.Blocked?
            && (o.Returned? && o.result.Success? ==>
                  cfg.publicNetwork == "" && cfg.hostCheckOnly && o.final.effects == [])
            && (o.Returned? ==> !o.result.Failed?)
            && (o.Running? ==> o.m.lastErr.None? && !(cfg.publicNetwork == "" && cfg.hostCheckOnly))
  {
  }

  // A run that reports success either had nothing to check, and touched nothing, or saw, in this
  // order and in this run: counts stable over the debounce time, no node with two image pullers, all
  // image pullers running, their deletion, the web server's addresses, with a public network all
  // host checkers running, then ready, then deleted, and unless only hosts are checked the expected
  // number of clients running, then ready.
  lemma {:induction false} SuccessMeans(cfg: Config, start: Start, env: nat -> Tick, n: nat)
    requires ValidEnv(cfg, start, env)
    requires var o := RunFor(cfg, start, env, n); o.Returned? && o.result.Success?
    ensures if cfg.publicNetwork == "" && cfg.hostCheckOnly
            then RunFor(cfg, start, env, n).final.effects == []
            else Proven(cfg, env, n, LastMilestone(cfg))
  {
    hide Step, MachineInv, Seen, Launch;
    LaunchResult(cfg, start);
    if n > 0 {
      var before := RunFor(cfg, start, env, n - 1);
      if before.Running? {
        RunInv(cfg, start, env, n - 1);
        LastStageProves(cfg, env, n - 1, before.m);
        assert cfg.publicNetwork != "" || !cfg.hostCheckOnly by { HostCheckNeedsNetwork(cfg, env, n - 1, before.m); }
      } else {
        SuccessMeans(cfg, start, env, n - 1);
        if !(cfg.publicNetwork == "" && cfg.hostCheckOnly) {
          var counts, web :| Seen(cfg, env, n - 1, LastMilestone(cfg), counts, web);
          SeenKept(cfg, env, n - 1, LastMilestone(cfg), counts, web);
        }
      }
    }
  }

  lemma HostCheckNeedsNetwork(cfg: Config, env: nat -> Tick, n: nat, m: Machine)
    requires MachineInv(cfg, env, n, m)
    ensures cfg.publicNetwork != "" || !cfg.hostCheckOnly
    ensures FieldsInv(cfg, m.state)
  {
  }

  // The two internal errors of the code are never reported, neither as the last error of a run in
  // progress nor as its result.
  predicate Internal(e: StageError)
  {
    e.InternalNoWebInfo? || e.InternalUnknownApp?
  }

  ghost predicate NoInternalIn(o: Outcome)
  {
    && (o.Running? && o.m.lastErr.Some? ==> !Internal(o.m.lastErr.value))
    && (o.Returned? && o.result.Failed? ==> !Internal(o.result.err))
  }

  lemma NoInternalStep(cfg: Config, m: Machine, tick: Tick)
    requires forall t :: t in tick.order ==> t in cfg.nodeTypes
    requires FieldsInv(cfg, m.state)
    ensures NoInternalIn(Step(cfg, m, tick))
  {
    hide RunStage;
    NoInternalStageError(cfg, m.state, tick);
  }

  lemma {:induction false} NoInternalError(cfg: Config, start: Start, env: nat -> Tick, n: nat)
    requires ValidEnv(cfg, start, env)
    ensures NoInternalIn(RunFor(cfg, start, env, n))
  {
    hide Step, MachineInv, Launch;
    LaunchResult(cfg, start);
    if n > 0 {
      NoInternalError(cfg, start, env, n - 1);
      RunInv(cfg, start, env, n - 1);
      var before := RunFor(cfg, start, env, n - 1);
      if before.Running? {
        HostCheckNeedsNetwork(cfg, env, n - 1, before.m);
        NoInternalStep(cfg, before.m, env(n - 1));
      }
    }
  }

  lemma NoInternalStageError(cfg: Config, s: Stage, tick: Tick)
    requires forall t :: t in tick.order ==> t in cfg.nodeTypes
    requires FieldsInv(cfg, s)
    ensures var r := RunStage(cfg, s, tick); r.err.Some? ==> !Internal(r.err.value)
  {
  }

  lemma StepForward(cfg: Config, m: Machine, tick: Tick)
    requires forall t :: t in tick.order ==> t in cfg.nodeTypes
    ensures var o := Step(cfg, m, tick);
            o.Running? ==> if o.m.changed then Rank(m.state) < Rank(o.m.state) else Rank(o.m.state) == Rank(m.state)
  {
    hide RunStage;
    StageOrder(cfg, m.state, tick);
  }

  lemma RunForward(cfg: Config, start: Start, env: nat -> Tick, j: nat)
    requires ValidEnv(cfg, start, env) && RunFor(cfg, start, env, j + 1).Running?
    ensures RunFor(cfg, start, env, j).Running?
    ensures var a, b := RunFor(cfg, start, env, j).m, RunFor(cfg, start, env, j + 1).m;
            if b.changed then Rank(a.state) < Rank(b.state) else Rank(b.state) == Rank(a.state)
  {
    hide Step, Launch, WellTimed;
    StepForward(cfg, RunFor(cfg, start, env, j).m, env(j));
  }

  // Along a run the stages only move forward.
  lemma {:induction false} StagesMoveForward(cfg: Config, start: Start, env: nat -> Tick, i: nat, j: nat)
    requires ValidEnv(cfg, start, env) && i <= j
    requires RunFor(cfg, start, env, j).Running?
    ensures RunFor(cfg, start, env, i).Running?
    ensures var a, b := RunFor(cfg, start, env, i).m, RunFor(cfg, start, env, j).m;
            Rank(a.state) <= Rank(b.state) && (i < j && b.changed ==> Rank(a.state) < Rank(b.state))
    decreases j - i
  {
    hide RunFor, ValidEnv, Rank;
    if i < j {
      RunForward(cfg, start, env, j - 1);
      StagesMoveForward(cfg, start, env, i, j - 1);
    }
  }
}
