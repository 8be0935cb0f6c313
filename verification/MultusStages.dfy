/**
 What the Multus validation test does, as a specification: one function per stage and one for a turn
 of the polling loop. The cluster, the clock and the order in which Go visits a map are inputs: each
 turn of the loop is handed a `Tick`, which says everything that turn observes.
 */
module MultusStages {
  import opened Wrappers
  import opened MultusConfig

  type Counts = map<string, int>

  const DEBOUNCE: int := 30 * SECOND   // podSchedulerDebounceTime
  const POLL_SLEEP: int := 2 * SECOND

  datatype AppType = ImagePull | HostChecker | Client | OtherApp(name: string)

  datatype WebInfo = WebInfo(nodeName: string, publicAddr: string, clusterAddr: string)

  // The twelve stages; `VerifyRunning` is three of them, told apart by its app type.
  datatype Stage =
    | GetExpected(counts: Counts, changedAt: Option<int>)
    | EnsureNoOverlap(counts: Counts)
    | VerifyRunning(app: AppType, counts: Counts, expected: int, webInfo: Option<WebInfo>)
    | DeleteImagePullers(counts: Counts)
    | GetWebServerInfo(counts: Counts)
    | StartHostCheckers(web: WebInfo, counts: Counts)
    | VerifyHostCheckersReady(web: WebInfo, counts: Counts)
    | DeleteHostCheckers(web: WebInfo, counts: Counts)
    | StartClients(web: WebInfo, counts: Counts)
    | VerifyClientsReady(expected: int, prevNumReady: int, firstReadyAt: Option<int>, suggestFlaky: bool)

  function Rank(s: Stage): nat
  {
    match s
    case GetExpected(_, _) => 0
    case EnsureNoOverlap(_) => 1
    case VerifyRunning(app, _, _, _) => if app.ImagePull? then 2 else if app.HostChecker? then 6 else 10
    case DeleteImagePullers(_) => 3
    case GetWebServerInfo(_) => 4
    case StartHostCheckers(_, _) => 5
    case VerifyHostCheckersReady(_, _) => 7
    case DeleteHostCheckers(_, _) => 8
    case StartClients(_, _) => 9
    case VerifyClientsReady(_, _, _, _) => 11
  }

  // ----- What the test changes in the cluster -----

  datatype DaemonSet =
    | ImagePullerFor(nodeType: string)
    | HostCheckerFor(nodeType: string)
    | ClientFor(nodeType: string, osd: bool, id: nat)

  function KindOf(d: DaemonSet): AppType
  {
    match d
    case ImagePullerFor(_) => ImagePull
    case HostCheckerFor(_) => HostChecker
    case ClientFor(_, _, _) => Client
  }

  // DeletePart: a failed deletion that removed some daemonsets of the kind all the same.
  datatype Effect =
    | CreateOwner | CreateWebConfig | CreateWebPod
    | Create(ds: DaemonSet)
    | DeleteAll(app: AppType)
    | DeletePart(app: AppType, gone: set<DaemonSet>)

  function Creates(plan: seq<DaemonSet>): (r: seq<Effect>)
    ensures |r| == |plan|
    ensures forall i :: 0 <= i < |plan| ==> r[i] == Create(plan[i])
  {
    seq(|plan|, i requires 0 <= i < |plan| => Create(plan[i]))
  }

  // ----- What one turn of the loop observes -----

  datatype Listed<+T> = Listed(items: seq<T>) | ListFailed

  datatype Pod = Pod(nodeName: string, nodeType: string, running: bool, ready: bool)

  datatype SetStatus = SetStatus(nodeType: string, numScheduled: int)

  datatype Tick = Tick(
    // the select: when it happens, whether the context is done, and what is picked if both are ready
    selectAt: int,
    doneAtSelect: bool,
    timerFirst: bool,
    // the timer reset: when Stop and Reset happen, and whether Stop reports an expired, unread timer
    // as stopped (synchronous timer channels) or not (buffered ones)
    stopAt: int,
    resetAt: int,
    bufferedTimer: bool,
    // the stage: its two clock readings and its answers from the API server. What a failed deletion removed
    // all the same, and whether a failed creation took effect, its answer being lost, is not seen.
    clock1: int,
    clock2: int,
    pullSets: Listed<SetStatus>,
    pullPods: Listed<Pod>,
    checkerPods: Listed<Pod>,
    clientPods: Listed<Pod>,
    deleteFails: bool,
    partlyDeleted: set<DaemonSet>,
    networkNamesParse: bool,
    webServer: Option<WebInfo>,
    order: seq<string>,
    failingCreates: set<nat>,
    lostCreate: bool,
    // whether the context is done when the stage returns
    doneAfterRun: bool)

  function PodsOf(tick: Tick, app: AppType): Listed<Pod>
  {
    match app
    case ImagePull => tick.pullPods
    case HostChecker => tick.checkerPods
    case Client => tick.clientPods
    case OtherApp(_) => ListFailed
  }

  function CountRunning(pods: seq<Pod>): nat
  {
    if pods == [] then 0
    else CountRunning(pods[..|pods| - 1]) + if pods[|pods| - 1].running then 1 else 0
  }

  function CountReady(pods: seq<Pod>): nat
  {
    if pods == [] then 0
    else CountReady(pods[..|pods| - 1]) + if pods[|pods| - 1].ready then 1 else 0
  }

  // The counts are numbers of listed pods, by the flag that each pod shows.
  lemma {:induction false} CountRunningIs(pods: seq<Pod>)
    ensures CountRunning(pods) == |set i | 0 <= i < |pods| && pods[i].running|
  {
    if pods != [] {
      var init, last := pods[..|pods| - 1], |pods| - 1;
      CountRunningIs(init);
      var before, all := set i | 0 <= i < |init| && init[i].running, set i | 0 <= i < |pods| && pods[i].running;
      assert all == if pods[last].running then before + {last} else before;
    }
  }

  lemma {:induction false} CountReadyIs(pods: seq<Pod>)
    ensures CountReady(pods) == |set i | 0 <= i < |pods| && pods[i].ready|
    ensures CountReady(pods) > 0 <==> exists i :: 0 <= i < |pods| && pods[i].ready
  {
    if pods != [] {
      var init, last := pods[..|pods| - 1], |pods| - 1;
      CountReadyIs(init);
      var before, all := set i | 0 <= i < |init| && init[i].ready, set i | 0 <= i < |pods| && pods[i].ready;
      assert all == if pods[last].ready then before + {last} else before;
      assert forall i :: 0 <= i < |init| ==> init[i] == pods[i];
    }
  }

  ghost predicate OnePodPerNode(pods: seq<Pod>)
  {
    forall i, j :: 0 <= i < j < |pods| ==> pods[i].nodeName != pods[j].nodeName
  }

  // Later daemonsets with the same node type label overwrite earlier ones.
  function CountsOf(sets: seq<SetStatus>): Counts
  {
    if sets == [] then map[]
    else
      var last := sets[|sets| - 1];
      CountsOf(sets[..|sets| - 1])[last.nodeType := last.numScheduled]
  }

  // The image pull counts a listing yields, if it is usable.
  ghost function PullCounts(cfg: Config, sets: Listed<SetStatus>): Option<Counts>
  {
    if sets.ListFailed? || |sets.items| != |cfg.nodeTypes| then None
    else if exists i :: 0 <= i < |sets.items| && sets.items[i].numScheduled == 0 then None
    else Some(CountsOf(sets.items))
  }

  function Lookup(counts: Counts, nodeType: string): int
  {
    if nodeType in counts then counts[nodeType] else 0
  }

  function AtLeastZero(n: int): nat
  {
    if n < 0 then 0 else n
  }

  // ----- Daemonsets to create -----

  ghost predicate IsOrderOf(order: seq<string>, nodeTypes: map<string, NodeConfig>)
  {
    && (forall i, j :: 0 <= i < j < |order| ==> order[i] != order[j])
    && (forall t :: t in order <==> t in nodeTypes)
  }

  // The part of a plan that gets created when the calls numbered in `failing` fail.
  function FirstFailure(n: nat, failing: set<nat>): (k: nat)
    ensures k <= n
    ensures k < n ==> k in failing
    ensures forall i: nat :: i < k ==> i !in failing
  {
    if n == 0 then 0
    else
      var k := FirstFailure(n - 1, failing);
      if k < n - 1 || n - 1 in failing then k else n
  }

  // How many of n daemonsets exist after the calls: those before the first failing one, and that one too if
  // only its answer was lost.
  function Reached(n: nat, failing: set<nat>, lost: bool): (m: nat)
    ensures m <= n
  {
    var k := FirstFailure(n, failing);
    if k < n && lost then k + 1 else k
  }

  function Clients(nodeType: string, osd: bool, n: nat): (r: seq<DaemonSet>)
    ensures |r| == n
    ensures forall i :: 0 <= i < n ==> r[i] == ClientFor(nodeType, osd, i)
  {
    seq(n, i requires 0 <= i < n => ClientFor(nodeType, osd, i))
  }

  function ClientsFor(node: NodeConfig, nodeType: string, publicAddr: string): seq<DaemonSet>
  {
    Clients(nodeType, true, AtLeastZero(node.osdsPerNode))
    + if publicAddr == "" then [] else Clients(nodeType, false, AtLeastZero(node.otherDaemonsPerNode))
  }

  function ClientPlan(cfg: Config, order: seq<string>, publicAddr: string): seq<DaemonSet>
    requires forall t :: t in order ==> t in cfg.nodeTypes
  {
    if order == [] then []
    else
      var last := order[|order| - 1];
      ClientPlan(cfg, order[..|order| - 1], publicAddr) + ClientsFor(cfg.nodeTypes[last], last, publicAddr)
  }

  // Clients that run on each node of a type.
  function ClientsPerNode(node: NodeConfig, publicAddr: string): nat
  {
    AtLeastZero(node.osdsPerNode) + if publicAddr == "" then 0 else AtLeastZero(node.otherDaemonsPerNode)
  }

  function ClientCounts(cfg: Config, counts: Counts, publicAddr: string): Counts
  {
    map t | t in cfg.nodeTypes :: ClientsPerNode(cfg.nodeTypes[t], publicAddr) * Lookup(counts, t)
  }

  // ----- One stage -----

  datatype StageError =
    | CountsNotReady | NodeTypesOverlap | NotAllRunning | NotAllReady
    | DeleteFailed | BadNetworkName | NoWebServerInfo | CreateFailed
    | InternalNoWebInfo | InternalUnknownApp

  datatype StageResult = StageResult(
    state: Stage, changed: bool, done: bool, err: Option<StageError>, effects: seq<Effect>, flaky: bool)

  function StayWith(s: Stage, err: Option<StageError>, effects: seq<Effect>): StageResult
  {
    StageResult(s, false, false, err, effects, false)
  }

  function Stay(s: Stage, err: Option<StageError>): StageResult
  {
    StayWith(s, err, [])
  }

  function Go(s: Stage, effects: seq<Effect>): StageResult
  {
    StageResult(s, true, false, None, effects, false)
  }

  function Quit(s: Stage, err: Option<StageError>, effects: seq<Effect>, flaky: bool): StageResult
  {
    StageResult(s, false, true, err, effects, flaky)
  }

  ghost function RunGetExpected(cfg: Config, s: Stage, tick: Tick): StageResult
    requires s.GetExpected?
  {
    match PullCounts(cfg, tick.pullSets)
    case None => Stay(s, Some(CountsNotReady))
    case Some(seen) =>
      var s' := if s.counts == seen then s else GetExpected(seen, Some(tick.clock1));
      if s'.changedAt.Some? && tick.clock2 - s'.changedAt.value < DEBOUNCE then Stay(s', None)
      else Go(EnsureNoOverlap(s'.counts), [])
  }

  ghost function RunVerifyRunning(s: Stage, tick: Tick): StageResult
    requires s.VerifyRunning?
  {
    if s.app.OtherApp? then Stay(s, Some(InternalUnknownApp))
    else if s.app.HostChecker? && s.webInfo.None? then Stay(s, Some(InternalNoWebInfo))
    else
      var pods := PodsOf(tick, s.app);
      if pods.ListFailed? || CountRunning(pods.items) != s.expected then Stay(s, Some(NotAllRunning))
      else
        match s.app
        case ImagePull => Go(DeleteImagePullers(s.counts), [])
        case HostChecker => Go(VerifyHostCheckersReady(s.webInfo.value, s.counts), [])
        case _ => Go(VerifyClientsReady(s.expected, 0, None, false), [])
  }

  ghost function RunStartHostCheckers(cfg: Config, s: Stage, tick: Tick): StageResult
    requires s.StartHostCheckers?
  {
    if cfg.publicNetwork == "" then Go(StartClients(s.web, s.counts), [])
    else
      var plan := seq(|tick.order|, i requires 0 <= i < |tick.order| => HostCheckerFor(tick.order[i]));
      if FirstFailure(|plan|, tick.failingCreates) < |plan| then
        Quit(s, Some(CreateFailed), Creates(plan[..Reached(|plan|, tick.failingCreates, tick.lostCreate)]), false)
      else Go(VerifyRunning(HostChecker, s.counts, SumOf(s.counts), Some(s.web)), Creates(plan))
  }

  ghost function RunStartClients(cfg: Config, s: Stage, tick: Tick): StageResult
    requires s.StartClients?
    requires forall t :: t in tick.order ==> t in cfg.nodeTypes
  {
    var plan := ClientPlan(cfg, tick.order, s.web.publicAddr);
    if FirstFailure(|plan|, tick.failingCreates) < |plan| then
      Quit(s, Some(CreateFailed), Creates(plan[..Reached(|plan|, tick.failingCreates, tick.lostCreate)]), false)
    else
      var expected := SumOf(ClientCounts(cfg, s.counts, s.web.publicAddr));
      Go(VerifyRunning(Client, s.counts, expected, Some(s.web)), Creates(plan))
  }

  // checkIfFlaky: `prevNumReady` is compared but never updated by the code.
  function CheckIfFlaky(cfg: Config, s: Stage, tick: Tick, numReady: int): (r: Stage)
    requires s.VerifyClientsReady?
    ensures r.VerifyClientsReady? && r.expected == s.expected && r.prevNumReady == s.prevNumReady
  {
    if s.suggestFlaky then s
    else if numReady > s.prevNumReady && s.firstReadyAt.None? then s.(firstReadyAt := Some(tick.clock1))
    else if s.firstReadyAt.Some? && tick.clock2 - s.firstReadyAt.value > cfg.flakyThreshold then
      s.(suggestFlaky := true)
    else s
  }

  ghost function RunVerifyClientsReady(cfg: Config, s: Stage, tick: Tick): StageResult
    requires s.VerifyClientsReady?
  {
    if tick.clientPods.ListFailed? then Stay(s, Some(NotAllReady))
    else
      var numReady := CountReady(tick.clientPods.items);
      var s' := CheckIfFlaky(cfg, s, tick, numReady);
      if numReady != s.expected then Stay(s', Some(NotAllReady)) else Quit(s', None, [], s'.suggestFlaky)
  }

  ghost function RunEnsureNoOverlap(s: Stage, tick: Tick): StageResult
    requires s.EnsureNoOverlap?
  {
    if tick.pullPods.ListFailed? || !OnePodPerNode(tick.pullPods.items)
    then Quit(s, Some(NodeTypesOverlap), [], false)
    else Go(VerifyRunning(ImagePull, s.counts, SumOf(s.counts), None), [])
  }

  function RunDeleteImagePullers(s: Stage, tick: Tick): StageResult
    requires s.DeleteImagePullers?
  {
    if tick.deleteFails then StayWith(s, Some(DeleteFailed), [DeletePart(ImagePull, tick.partlyDeleted)])
    else Go(GetWebServerInfo(s.counts), [DeleteAll(ImagePull)])
  }

  function RunGetWebServerInfo(s: Stage, tick: Tick): StageResult
    requires s.GetWebServerInfo?
  {
    if !tick.networkNamesParse then Stay(s, Some(BadNetworkName))
    else if tick.webServer.None? then Stay(s, Some(NoWebServerInfo))
    else Go(StartHostCheckers(tick.webServer.value, s.counts), [])
  }

  ghost function RunVerifyHostCheckersReady(s: Stage, tick: Tick): StageResult
    requires s.VerifyHostCheckersReady?
  {
    if tick.checkerPods.ListFailed? || CountReady(tick.checkerPods.items) != SumOf(s.counts)
    then Stay(s, Some(NotAllReady))
    else Go(DeleteHostCheckers(s.web, s.counts), [])
  }

  function RunDeleteHostCheckers(cfg: Config, s: Stage, tick: Tick): StageResult
    requires s.DeleteHostCheckers?
  {
    if tick.deleteFails then StayWith(s, Some(DeleteFailed), [DeletePart(HostChecker, tick.partlyDeleted)])
    else if cfg.hostCheckOnly then Quit(s, None, [DeleteAll(HostChecker)], false)
    else Go(StartClients(s.web, s.counts), [DeleteAll(HostChecker)])
  }

  ghost function RunStage(cfg: Config, s: Stage, tick: Tick): StageResult
    requires forall t :: t in tick.order ==> t in cfg.nodeTypes
  {
    match s
    case GetExpected(_, _) => RunGetExpected(cfg, s, tick)
    case EnsureNoOverlap(_) => RunEnsureNoOverlap(s, tick)
    case VerifyRunning(_, _, _, _) => RunVerifyRunning(s, tick)
    case DeleteImagePullers(_) => RunDeleteImagePullers(s, tick)
    case GetWebServerInfo(_) => RunGetWebServerInfo(s, tick)
    case StartHostCheckers(_, _) => RunStartHostCheckers(cfg, s, tick)
    case VerifyHostCheckersReady(_, _) => RunVerifyHostCheckersReady(s, tick)
    case DeleteHostCheckers(_, _) => RunDeleteHostCheckers(cfg, s, tick)
    case StartClients(_, _) => RunStartClients(cfg, s, tick)
    case VerifyClientsReady(_, _, _, _) => RunVerifyClientsReady(cfg, s, tick)
  }

  // ----- One turn of the loop -----

  // A Go timer: when it expires, and whether its one value has been received from its channel.
  datatype Timer = Timer(deadline: int, received: bool)

  predicate Expired(timer: Timer, now: int)
  {
    !timer.received && now >= timer.deadline
  }

  // What Stop reports. An expired timer counts as stopped only with synchronous timer channels.
  predicate StopReports(timer: Timer, now: int, buffered: bool)
  {
    !timer.received && !(buffered && now >= timer.deadline)
  }

  datatype Machine = Machine(
    state: Stage, changed: bool, timer: Timer, lastErr: Option<StageError>, effects: seq<Effect>)

  datatype Result =
    | Success(flaky: bool)
    | Failed(err: StageError)
    | TimedOut
    | Canceled
    | Rejected      // the config is invalid
    | StartFailed   // the owner config map, the web server or the image pullers could not be created

  // Blocked: the drain of the timer channel would wait forever.
  datatype Outcome = Running(m: Machine) | Returned(result: Result, final: Machine) | Blocked

  // A reset stops the timer, drains its channel if Stop reports false, and starts it again.
  function ResetTimer(cfg: Config, timer: Timer, tick: Tick): Option<Timer>
  {
    if !StopReports(timer, tick.stopAt, tick.bufferedTimer) && !Expired(timer, tick.stopAt) then None
    else Some(Timer(tick.resetAt + cfg.resourceTimeout, false))
  }

  ghost function AfterReset(cfg: Config, m: Machine, tick: Tick): Outcome
    requires forall t :: t in tick.order ==> t in cfg.nodeTypes
  {
    var r := RunStage(cfg, m.state, tick);
    var m' := Machine(r.state, r.changed, m.timer, m.lastErr, m.effects + r.effects);
    if tick.doneAfterRun then Returned(Canceled, m')
    else
      var m'' := m'.(lastErr := r.err);
      if !r.done then Running(m'')
      else if r.err.Some? then Returned(Failed(r.err.value), m'')
      else Returned(Success(r.flaky), m'')
  }

  ghost function Step(cfg: Config, m: Machine, tick: Tick): Outcome
    requires forall t :: t in tick.order ==> t in cfg.nodeTypes
  {
    var expired := Expired(m.timer, tick.selectAt);
    if tick.doneAtSelect && !(expired && tick.timerFirst) then Returned(Canceled, m)
    else if expired then Returned(TimedOut, m.(timer := m.timer.(received := true)))
    else if m.changed then
      match ResetTimer(cfg, m.timer, tick)
      case None => Blocked
      case Some(timer) => AfterReset(cfg, m.(timer := timer, changed := false), tick)
    else AfterReset(cfg, m, tick)
  }

  // ----- The whole test -----

  datatype Start = Start(
    ownerFails: bool, webConfigFails: bool, webPodFails: bool,
    order: seq<string>, failingCreates: set<nat>, lostCall: bool, timerAt: int)

  function PullerPlan(order: seq<string>): (r: seq<DaemonSet>)
    ensures |r| == |order|
    ensures forall i :: 0 <= i < |order| ==> r[i] == ImagePullerFor(order[i])
  {
    seq(|order|, i requires 0 <= i < |order| => ImagePullerFor(order[i]))
  }

  function FirstMachine(cfg: Config, start: Start, effects: seq<Effect>): Machine
  {
    Machine(GetExpected(map[], None), true, Timer(start.timerAt + cfg.resourceTimeout, false), None, effects)
  }

  // The first n things that the test creates.
  function First(n: nat): seq<Effect>
    requires n <= 3
  {
    [CreateOwner, CreateWebConfig, CreateWebPod][..n]
  }

  ghost function Launch(cfg: Config, start: Start): Outcome
  {
    var idle := FirstMachine(cfg, start, []);
    if !ValidConfig(cfg) then Returned(Rejected, idle)
    else if cfg.publicNetwork == "" && cfg.hostCheckOnly then Returned(Success(false), idle)
    else if start.ownerFails then Returned(StartFailed, idle.(effects := First(if start.lostCall then 1 else 0)))
    else if !HasOSDs(cfg.nodeTypes) then Returned(StartFailed, idle.(effects := First(1)))
    else if start.webConfigFails then
      Returned(StartFailed, idle.(effects := First(if start.lostCall then 2 else 1)))
    else if start.webPodFails then Returned(StartFailed, idle.(effects := First(if start.lostCall then 3 else 2)))
    else
      var plan := PullerPlan(start.order);
      var m := FirstMachine(
                 cfg, start, First(3) + Creates(plan[..Reached(|plan|, start.failingCreates, start.lostCall)]));
      if FirstFailure(|plan|, start.failingCreates) < |plan| then Returned(StartFailed, m) else Running(m)
  }

  // An environment: the tick of every turn the loop might take. Clock readings never go back, a turn
  // ends with a two second sleep, and each tick visits the node types in some order of its own.
  ghost predicate ValidEnv(cfg: Config, start: Start, env: nat -> Tick)
  {
    && IsOrderOf(start.order, cfg.nodeTypes)
    && (forall i :: IsOrderOf(env(i).order, cfg.nodeTypes))
    && (forall i :: WellTimed(env, i))
  }

  ghost predicate WellTimed(env: nat -> Tick, i: nat)
  {
    var t := env(i);
    t.selectAt <= t.stopAt <= t.resetAt <= t.clock1 <= t.clock2 && t.clock2 + POLL_SLEEP <= env(i + 1).selectAt
  }

  // The outcome after at most n turns of the loop.
  ghost function RunFor(cfg: Config, start: Start, env: nat -> Tick, n: nat): Outcome
    requires ValidEnv(cfg, start, env)
  {
    if n == 0 then Launch(cfg, start)
    else
      var before := RunFor(cfg, start, env, n - 1);
      if before.Running? then Step(cfg, before.m, env(n - 1)) else before
  }
}
