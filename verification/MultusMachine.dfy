/**
 The Multus validation test as the code runs it: loops over listings and maps, a machine whose fields
 the stages update, and a polling loop around a timer. Each method is proved to do what `MultusStages`
 says, so the results about runs hold of this code.
 */
module MultusMachine {
  import opened Wrappers
  import opened MultusConfig
  import opened MultusStages
  import opened MultusRuns
  import opened MultusEffects
  import opened MultusTiming

  // ----- Counting -----

  method Total(counts: Counts) returns (total: int)
    ensures total == SumOf(counts)
  {
    total := 0;
    var rest := counts;
    while rest != map[]
      invariant total + SumOf(rest) == SumOf(counts)
      decreases |rest|
    {
      var k :| k in rest;
      SumOfRemove(rest, k);
      total := total + rest[k];
      rest := rest - {k};
    }
  }

  method Equal(a: Counts, b: Counts) returns (equal: bool)
    ensures equal <==> a == b
  {
    if |a| != |b| {
      return false;
    }
    var rest := a.Keys;
    while rest != {}
      invariant rest <= a.Keys
      invariant forall k :: k in a && k !in rest ==> k in b && a[k] == b[k]
      decreases rest
    {
      var k :| k in rest;
      if k !in b || a[k] != b[k] {
        return false;
      }
      rest := rest - {k};
    }
    SubsetOfSameSize(a.Keys, b.Keys);
    return true;
  }

  lemma SubsetOfSameSize(a: set<string>, b: set<string>)
    requires a <= b && |a| == |b|
    ensures a == b
  {
    assert |b - a| == |b| - |a|;
  }

  method ImagePullCounts(cfg: Config, sets: Listed<SetStatus>) returns (counts: Option<Counts>)
    ensures counts == PullCounts(cfg, sets)
  {
    if sets.ListFailed? || |sets.items| != |cfg.nodeTypes| {
      return None;
    }
    var scheduled: Counts := map[];
    for i := 0 to |sets.items|
      invariant scheduled == CountsOf(sets.items[..i])
      invariant forall j :: 0 <= j < i ==> sets.items[j].numScheduled != 0
    {
      assert sets.items[..i + 1][..i] == sets.items[..i];
      var d := sets.items[i];
      if d.numScheduled == 0 {
        return None;
      }
      scheduled := scheduled[d.nodeType := d.numScheduled];
    }
    assert sets.items[..|sets.items|] == sets.items;
    return Some(scheduled);
  }

  method EnsureOneImagePullPodPerNode(pods: Listed<Pod>) returns (ok: bool)
    ensures ok <==> pods.Listed? && OnePodPerNode(pods.items)
  {
    if pods.ListFailed? {
      return false;
    }
    var nodesFound: map<string, string> := map[];
    for i := 0 to |pods.items|
      invariant OnePodPerNode(pods.items[..i])
      invariant forall n :: n in nodesFound <==> exists j :: 0 <= j < i && pods.items[j].nodeName == n
    {
      var p := pods.items[i];
      if p.nodeName in nodesFound {
        return false;
      }
      nodesFound := nodesFound[p.nodeName := p.nodeType];
    }
    assert pods.items[..|pods.items|] == pods.items;
    return true;
  }

  method NumRunning(pods: seq<Pod>) returns (n: nat)
    ensures n == CountRunning(pods) && n == |set i | 0 <= i < |pods| && pods[i].running|
  {
    n := 0;
    for i := 0 to |pods|
      invariant n == CountRunning(pods[..i])
    {
      assert pods[..i + 1][..i] == pods[..i];
      if pods[i].running {
        n := n + 1;
      }
    }
    assert pods[..|pods|] == pods;
    CountRunningIs(pods);
  }

  method NumReady(pods: seq<Pod>) returns (n: nat)
    ensures n == CountReady(pods) && n == |set i | 0 <= i < |pods| && pods[i].ready|
  {
    n := 0;
    for i := 0 to |pods|
      invariant n == CountReady(pods[..i])
    {
      assert pods[..i + 1][..i] == pods[..i];
      if pods[i].ready {
        n := n + 1;
      }
    }
    assert pods[..|pods|] == pods;
    CountReadyIs(pods);
  }

  // ----- Creating daemonsets -----

  // The API server's side of a batch of create calls: call number i fails if i is in `failing`, and takes
  // effect all the same if `lost`.
  class Creator {
    const failing: set<nat>
    const lost: bool
    var created: seq<DaemonSet>

    constructor (failing: set<nat>, lost: bool)
      ensures this.failing == failing && this.lost == lost && created == []
    {
      this.failing, this.lost := failing, lost;
      created := [];
    }

    ghost predicate AllGood()
      reads this
    {
      forall i: nat :: i < |created| ==> i !in failing
    }

    // Everything in the plan was created, or everything up to the first failing call.
    ghost predicate Outcome(plan: seq<DaemonSet>, ok: bool)
      reads this
    {
      && created <= plan
      && if ok then AllGood() && created == plan
         else
           var k := if lost then |created| - 1 else |created|;
           0 <= k < |plan| && k in failing && forall i: nat :: i < k ==> i !in failing
    }

    method CreateDaemonSet(ds: DaemonSet) returns (ok: bool)
      requires AllGood()
      modifies this
      ensures Outcome(old(created) + [ds], ok) && old(created) <= created
    {
      ok := |created| !in failing;
      if ok || lost {
        created := created + [ds];
      }
    }

    // Starts `count` clients of one kind on a node type, counting the daemonsets created.
    method StartClientsOfKind(nodeType: string, osd: bool, count: int) returns (n: nat, ok: bool)
      requires AllGood()
      modifies this
      ensures Outcome(old(created) + Clients(nodeType, osd, AtLeastZero(count)), ok) && old(created) <= created
      ensures ok ==> n == |created| - |old(created)|
    {
      var before := created;
      ghost var plan := Clients(nodeType, osd, AtLeastZero(count));
      n := 0;
      while n < count
        invariant n <= |plan| && AllGood() && created == before + plan[..n]
      {
        ghost var all := before + plan;
        assert created + [plan[n]] == before + plan[..n + 1] == all[..|before| + n + 1];
        ok := CreateDaemonSet(ClientFor(nodeType, osd, n));
        if !ok {
          return;
        }
        n := n + 1;
      }
      ok := true;
    }

    // Starts the clients of one node type.
    method StartClients(node: NodeConfig, nodeType: string, publicAddr: string) returns (n: nat, ok: bool)
      requires AllGood()
      modifies this
      ensures Outcome(old(created) + ClientsFor(node, nodeType, publicAddr), ok) && old(created) <= created
      ensures ok ==> n == ClientsPerNode(node, publicAddr)
    {
      ghost var before := created;
      ghost var osds := Clients(nodeType, true, AtLeastZero(node.osdsPerNode));
      ghost var others :=
        if publicAddr == "" then [] else Clients(nodeType, false, AtLeastZero(node.otherDaemonsPerNode));
      assert before + ClientsFor(node, nodeType, publicAddr) == before + osds + others;
      n, ok := StartClientsOfKind(nodeType, true, node.osdsPerNode);
      if !ok || publicAddr == "" {
        assert before + osds <= before + osds + others;
        return;
      }
      var m: nat;
      m, ok := StartClientsOfKind(nodeType, false, node.otherDaemonsPerNode);
      n := n + m;
    }

    // Starts the clients of all node types and works out how many pods each type should run.
    method StartAllClients(cfg: Config, order: seq<string>, publicAddr: string, counts: Counts)
      returns (podsPerNodeType: Counts, ok: bool)
      requires created == [] && IsOrderOf(order, cfg.nodeTypes)
      modifies this
      ensures Outcome(ClientPlan(cfg, order, publicAddr), ok)
      ensures ok ==> podsPerNodeType == ClientCounts(cfg, counts, publicAddr)
    {
      hide ClientPlan, ClientsFor;
      podsPerNodeType := map[];
      assert ClientPlan(cfg, order[..0], publicAddr) == [] by { NoClients(cfg, publicAddr); assert order[..0] == []; }
      for i := 0 to |order|
        invariant AllGood() && created == ClientPlan(cfg, order[..i], publicAddr)
        invariant podsPerNodeType.Keys == set t | t in order[..i]
        invariant forall t :: t in podsPerNodeType ==> podsPerNodeType[t] == ClientCounts(cfg, counts, publicAddr)[t]
      {
        var nodeType := order[i];
        ClientPlanNext(cfg, order, publicAddr, i);
        var started;
        started, ok := StartClients(cfg.nodeTypes[nodeType], nodeType, publicAddr);
        if !ok {
          return;
        }
        podsPerNodeType := podsPerNodeType[nodeType := started * Lookup(counts, nodeType)];
      }
      assert order[..|order|] == order;
      ok := true;
    }

    // Starts a host checker on each node type.
    method StartHostCheckers(order: seq<string>) returns (ok: bool)
      requires created == []
      modifies this
      ensures Outcome(seq(|order|, i requires 0 <= i < |order| => HostCheckerFor(order[i])), ok)
    {
      ghost var plan := seq(|order|, i requires 0 <= i < |order| => HostCheckerFor(order[i]));
      for i := 0 to |order|
        invariant AllGood() && created == plan[..i]
      {
        assert created + [plan[i]] == plan[..i + 1];
        ok := CreateDaemonSet(HostCheckerFor(order[i]));
        if !ok {
          return;
        }
      }
      ok := true;
    }

    // Starts an image puller on each node type.
    method StartImagePullers(order: seq<string>) returns (ok: bool)
      requires created == []
      modifies this
      ensures Outcome(PullerPlan(order), ok)
    {
      ghost var plan := PullerPlan(order);
      for i := 0 to |order|
        invariant AllGood() && created == plan[..i]
      {
        assert created + [plan[i]] == plan[..i + 1];
        ok := CreateDaemonSet(ImagePullerFor(order[i]));
        if !ok {
          return;
        }
      }
      ok := true;
    }
  }

  lemma {:induction false} ClientPlanPrefix(cfg: Config, order: seq<string>, publicAddr: string, i: nat)
    requires i <= |order| && forall t :: t in order ==> t in cfg.nodeTypes
    ensures ClientPlan(cfg, order[..i], publicAddr) <= ClientPlan(cfg, order, publicAddr)
    decreases |order|
  {
    if i == |order| {
      assert order[..i] == order;
    } else {
      ClientPlanPrefix(cfg, order[..|order| - 1], publicAddr, i);
      assert order[..|order| - 1][..i] == order[..i];
    }
  }

  lemma NoClients(cfg: Config, publicAddr: string)
    ensures ClientPlan(cfg, [], publicAddr) == []
  {
  }

  lemma ClientPlanNext(cfg: Config, order: seq<string>, publicAddr: string, i: nat)
    requires i < |order| && forall t :: t in order ==> t in cfg.nodeTypes
    ensures var more := ClientsFor(cfg.nodeTypes[order[i]], order[i], publicAddr);
            var next := ClientPlan(cfg, order[..i], publicAddr) + more;
            next == ClientPlan(cfg, order[..i + 1], publicAddr) && next <= ClientPlan(cfg, order, publicAddr)
  {
    assert order[..i + 1][..i] == order[..i];
    ClientPlanPrefix(cfg, order, publicAddr, i + 1);
  }

  lemma ReachedIs(plan: seq<DaemonSet>, created: seq<DaemonSet>, failing: set<nat>, lost: bool, ok: bool)
    requires created <= plan
    requires if ok then created == plan && forall i: nat :: i < |created| ==> i !in failing
             else
               var k := if lost then |created| - 1 else |created|;
               0 <= k < |plan| && k in failing && forall i: nat :: i < k ==> i !in failing
    ensures created == plan[..Reached(|plan|, failing, lost)]
    ensures ok <==> FirstFailure(|plan|, failing) == |plan|
  {
    var k := FirstFailure(|plan|, failing);
    assert k == if ok then |plan| else if lost then |created| - 1 else |created|;
  }

  // ----- The timer -----

  class GoTimer {
    var deadline: int
    var received: bool

    constructor (now: int, timeout: int)
      ensures Value() == Timer(now + timeout, false)
    {
      deadline, received := now + timeout, false;
    }

    ghost function Value(): Timer
      reads this
    {
      Timer(deadline, received)
    }

    method Stop(now: int, buffered: bool) returns (stopped: bool)
      ensures stopped <==> StopReports(Value(), now, buffered)
    {
      stopped := !received && !(buffered && now >= deadline);
    }

    // Receiving from the channel; without a value in it this would block forever.
    method Receive(now: int)
      requires Expired(Value(), now)
      modifies this
      ensures Value() == old(Value()).(received := true)
    {
      received := true;
    }

    method Reset(now: int, timeout: int)
      modifies this
      ensures Value() == Timer(now + timeout, false)
    {
      deadline, received := now + timeout, false;
    }
  }

  // ----- The state machine -----

  class ValidationStateMachine {
    const cfg: Config
    const timer: GoTimer
    var state: Stage
    var stateWasChanged: bool
    var lastErr: Option<StageError>
    var done: bool
    var effects: seq<Effect>   // what has been done to the cluster so far

    constructor (cfg: Config, timer: GoTimer, effects: seq<Effect>)
      ensures this.cfg == cfg && this.timer == timer && !done
      ensures Abs() == Machine(GetExpected(map[], None), true, timer.Value(), None, effects)
    {
      this.cfg, this.timer, this.effects := cfg, timer, effects;
      lastErr, done := None, false;
      // SetNextState(starting state)
      stateWasChanged, state := true, GetExpected(map[], None);
    }

    ghost function Abs(): Machine
      reads this, timer
    {
      Machine(state, stateWasChanged, timer.Value(), lastErr, effects)
    }

    method SetNextState(next: Stage)
      modifies this`state, this`stateWasChanged
      ensures state == next && stateWasChanged
    {
      stateWasChanged := true;
      state := next;
    }

    method Exit()
      modifies this`done
      ensures done
    {
      done := true;
    }

    // The fields and the error after a stage ran are those of the result `r`.
    ghost predicate Ran(was: Machine, r: StageResult, err: Option<StageError>)
      reads this
    {
      && state == r.state && stateWasChanged == r.changed && done == r.done && err == r.err
      && effects == was.effects + r.effects && lastErr == was.lastErr
    }

    method GetExpectedNumberOfImagePullPods(tick: Tick) returns (err: Option<StageError>)
      requires state.GetExpected? && !stateWasChanged && !done
      modifies this
      ensures Ran(old(Abs()), RunGetExpected(cfg, old(state), tick), err)
    {
      var expected := ImagePullCounts(cfg, tick.pullSets);
      if expected.None? {
        return Some(CountsNotReady);
      }
      var same := Equal(state.counts, expected.value);
      if !same {
        state := GetExpected(expected.value, Some(tick.clock1));
      }
      if state.changedAt.Some? && tick.clock2 - state.changedAt.value < DEBOUNCE {
        return None;
      }
      SetNextState(EnsureNoOverlap(state.counts));
      return None;
    }

    method EnsureNodeTypesDoNotOverlap(tick: Tick) returns (err: Option<StageError>)
      requires state.EnsureNoOverlap? && !stateWasChanged && !done
      modifies this
      ensures Ran(old(Abs()), RunEnsureNoOverlap(old(state), tick), err)
    {
      var ok := EnsureOneImagePullPodPerNode(tick.pullPods);
      if !ok {
        Exit();
        return Some(NodeTypesOverlap);
      }
      var total := Total(state.counts);
      SetNextState(VerifyRunning(ImagePull, state.counts, total, None));
      return None;
    }

    method VerifyAllPodsRunning(tick: Tick) returns (err: Option<StageError>)
      requires state.VerifyRunning? && !stateWasChanged && !done
      modifies this
      ensures Ran(old(Abs()), RunVerifyRunning(old(state), tick), err)
      ensures !done && (err.None? <==> stateWasChanged) && (!stateWasChanged ==> state == old(state))
      ensures old(state).app == ImagePull ==> (stateWasChanged <==> AllRunning(tick.pullPods, old(state).expected))
      ensures old(state).app == HostChecker && old(state).webInfo.Some? ==>
                (stateWasChanged <==> AllRunning(tick.checkerPods, old(state).expected))
      ensures old(state).app == Client ==> (stateWasChanged <==> AllRunning(tick.clientPods, old(state).expected))
    {
      match state.app {
        case ImagePull =>
        case HostChecker =>
          if state.webInfo.None? {
            return Some(InternalNoWebInfo);
          }
        case Client =>
        case OtherApp(_) =>
          return Some(InternalUnknownApp);
      }
      var pods := PodsOf(tick, state.app);
      if pods.ListFailed? {
        return Some(NotAllRunning);
      }
      var numRunning := NumRunning(pods.items);
      if numRunning != state.expected {
        return Some(NotAllRunning);
      }
      match state.app {
        case ImagePull => SetNextState(DeleteImagePullers(state.counts));
        case HostChecker => SetNextState(VerifyHostCheckersReady(state.webInfo.value, state.counts));
        case Client => SetNextState(VerifyClientsReady(state.expected, 0, None, false));
      }
      return None;
    }

    method RemoveImagePullers(tick: Tick) returns (err: Option<StageError>)
      requires state.DeleteImagePullers? && !stateWasChanged && !done
      modifies this
      ensures Ran(old(Abs()), RunDeleteImagePullers(old(state), tick), err)
    {
      if tick.deleteFails {
        effects := effects + [DeletePart(ImagePull, tick.partlyDeleted)];
        return Some(DeleteFailed);
      }
      effects := effects + [DeleteAll(ImagePull)];
      SetNextState(GetWebServerInfo(state.counts));
      return None;
    }

    method ReadWebServerInfo(tick: Tick) returns (err: Option<StageError>)
      requires state.GetWebServerInfo? && !stateWasChanged && !done
      modifies this
      ensures Ran(old(Abs()), RunGetWebServerInfo(old(state), tick), err)
    {
      if !tick.networkNamesParse {
        return Some(BadNetworkName);
      }
      if tick.webServer.None? {
        return Some(NoWebServerInfo);
      }
      SetNextState(StartHostCheckers(tick.webServer.value, state.counts));
      return None;
    }

    method LaunchHostCheckers(tick: Tick) returns (err: Option<StageError>)
      requires state.StartHostCheckers? && !stateWasChanged && !done
      modifies this
      ensures Ran(old(Abs()), RunStartHostCheckers(cfg, old(state), tick), err)
    {
      if cfg.publicNetwork == "" {
        SetNextState(StartClients(state.web, state.counts));
        return None;
      }
      var creator := new Creator(tick.failingCreates, tick.lostCreate);
      var ok := creator.StartHostCheckers(tick.order);
      ghost var plan := seq(|tick.order|, i requires 0 <= i < |tick.order| => HostCheckerFor(tick.order[i]));
      ReachedIs(plan, creator.created, tick.failingCreates, tick.lostCreate, ok);
      effects := effects + Creates(creator.created);
      if !ok {
        Exit();
        return Some(CreateFailed);
      }
      var total := Total(state.counts);
      SetNextState(VerifyRunning(HostChecker, state.counts, total, Some(state.web)));
      return None;
    }

    method VerifyAllHostCheckersReady(tick: Tick) returns (err: Option<StageError>)
      requires state.VerifyHostCheckersReady? && !stateWasChanged && !done
      modifies this
      ensures Ran(old(Abs()), RunVerifyHostCheckersReady(old(state), tick), err)
      ensures !done && (err.None? <==> stateWasChanged) && (!stateWasChanged ==> state == old(state))
      ensures stateWasChanged <==> AllReady(tick.checkerPods, SumOf(old(state).counts))
    {
      var totalExpected := Total(state.counts);
      if tick.checkerPods.ListFailed? {
        return Some(NotAllReady);
      }
      var numReady := NumReady(tick.checkerPods.items);
      if numReady != totalExpected {
        return Some(NotAllReady);
      }
      SetNextState(DeleteHostCheckers(state.web, state.counts));
      return None;
    }

    method RemoveHostCheckers(tick: Tick) returns (err: Option<StageError>)
      requires state.DeleteHostCheckers? && !stateWasChanged && !done
      modifies this
      ensures Ran(old(Abs()), RunDeleteHostCheckers(cfg, old(state), tick), err)
    {
      if tick.deleteFails {
        effects := effects + [DeletePart(HostChecker, tick.partlyDeleted)];
        return Some(DeleteFailed);
      }
      effects := effects + [DeleteAll(HostChecker)];
      if cfg.hostCheckOnly {
        Exit();
        return None;
      }
      SetNextState(StartClients(state.web, state.counts));
      return None;
    }

    method LaunchClients(tick: Tick) returns (err: Option<StageError>)
      requires state.StartClients? && !stateWasChanged && !done
      requires IsOrderOf(tick.order, cfg.nodeTypes)
      modifies this
      ensures Ran(old(Abs()), RunStartClients(cfg, old(state), tick), err)
    {
      var creator := new Creator(tick.failingCreates, tick.lostCreate);
      var podsPerNodeType, ok := creator.StartAllClients(cfg, tick.order, state.web.publicAddr, state.counts);
      ghost var plan := ClientPlan(cfg, tick.order, state.web.publicAddr);
      ReachedIs(plan, creator.created, tick.failingCreates, tick.lostCreate, ok);
      effects := effects + Creates(creator.created);
      if !ok {
        Exit();
        return Some(CreateFailed);
      }
      var expected := Total(podsPerNodeType);
      SetNextState(VerifyRunning(Client, state.counts, expected, Some(state.web)));
      return None;
    }

    method VerifyAllClientsReady(tick: Tick) returns (err: Option<StageError>, flaky: bool)
      requires state.VerifyClientsReady? && !stateWasChanged && !done
      modifies this
      ensures Ran(old(Abs()), RunVerifyClientsReady(cfg, old(state), tick), err)
      ensures flaky == RunVerifyClientsReady(cfg, old(state), tick).flaky
      ensures !stateWasChanged && state.VerifyClientsReady? && state.expected == old(state).expected
      ensures (err.None? <==> done) && (done <==> AllReady(tick.clientPods, state.expected))
    {
      if tick.clientPods.ListFailed? {
        return Some(NotAllReady), false;
      }
      var numReady := NumReady(tick.clientPods.items);
      CheckFlaky(tick, numReady);
      if numReady != state.expected {
        return Some(NotAllReady), false;
      }
      Exit();
      return None, state.suggestFlaky;
    }

    method CheckFlaky(tick: Tick, numReady: int)
      requires state.VerifyClientsReady?
      modifies this`state
      ensures state == CheckIfFlaky(cfg, old(state), tick, numReady)
    {
      if state.suggestFlaky {
        return;
      }
      if numReady > state.prevNumReady && state.firstReadyAt.None? {
        state := state.(firstReadyAt := Some(tick.clock1));
        return;
      }
      if state.firstReadyAt.Some? {
        if tick.clock2 - state.firstReadyAt.value > cfg.flakyThreshold {
          state := state.(suggestFlaky := true);
        }
      }
    }

    method RunState(tick: Tick) returns (err: Option<StageError>, flaky: bool)
      requires !stateWasChanged && !done
      requires IsOrderOf(tick.order, cfg.nodeTypes)
      modifies this
      ensures Ran(old(Abs()), RunStage(cfg, old(state), tick), err) && flaky == RunStage(cfg, old(state), tick).flaky
    {
      flaky := false;
      match state {
        case GetExpected(_, _) => err := GetExpectedNumberOfImagePullPods(tick);
        case EnsureNoOverlap(_) => err := EnsureNodeTypesDoNotOverlap(tick);
        case VerifyRunning(_, _, _, _) => err := VerifyAllPodsRunning(tick);
        case DeleteImagePullers(_) => err := RemoveImagePullers(tick);
        case GetWebServerInfo(_) => err := ReadWebServerInfo(tick);
        case StartHostCheckers(_, _) => err := LaunchHostCheckers(tick);
        case VerifyHostCheckersReady(_, _) => err := VerifyAllHostCheckersReady(tick);
        case DeleteHostCheckers(_, _) => err := RemoveHostCheckers(tick);
        case StartClients(_, _) => err := LaunchClients(tick);
        case VerifyClientsReady(_, _, _, _) => err, flaky := VerifyAllClientsReady(tick);
      }
    }

    // The timer channel has not been received from, so draining it never blocks.
    method ResetTheTimer(tick: Tick)
      requires !timer.received && tick.stopAt <= tick.resetAt
      modifies timer
      ensures Some(timer.Value()) == ResetTimer(cfg, old(timer.Value()), tick)
    {
      var stopped := timer.Stop(tick.stopAt, tick.bufferedTimer);
      if !stopped {
        timer.Receive(tick.stopAt);
      }
      timer.Reset(tick.resetAt, cfg.resourceTimeout);
    }

    // One turn of the loop: the result if the run returns, None if it goes on.
    method Turn(tick: Tick) returns (result: Option<Result>)
      requires !done && !timer.received && tick.stopAt <= tick.resetAt
      requires IsOrderOf(tick.order, cfg.nodeTypes)
      modifies this, timer
      ensures Step(cfg, old(Abs()), tick) == if result.None? then Running(Abs()) else Returned(result.value, Abs())
      ensures result.None? ==> !done
    {
      var expired := !timer.received && tick.selectAt >= timer.deadline;
      if tick.doneAtSelect && !(expired && tick.timerFirst) {
        return Some(Canceled);
      }
      if expired {
        timer.Receive(tick.selectAt);
        return Some(TimedOut);
      }
      if stateWasChanged {
        ResetTheTimer(tick);
        stateWasChanged := false;
      }
      label running:
      ghost var m := Abs();
      assert Step(cfg, old(Abs()), tick) == AfterReset(cfg, m, tick);
      var err, flaky := RunState(tick);
      if tick.doneAfterRun {
        return Some(Canceled);
      }
      lastErr := err;
      if done {
        if err.Some? {
          return Some(Failed(err.value));
        }
        return Some(Success(flaky));
      }
      return None;
    }

    // The endless loop: it ends, and with the result of the run the specification describes.
    method Run(ghost start: Start, env: nat -> Tick) returns (result: Result, ghost turns: nat)
      requires ValidEnv(cfg, start, env) && !done
      requires Launch(cfg, start) == Running(Abs())
      modifies this, timer
      ensures RunFor(cfg, start, env, turns) == Returned(result, Abs())
    {
      turns := 0;
      var n := 0;
      while true
        invariant n == turns && !done
        invariant RunFor(cfg, start, env, turns) == Running(Abs())
        decreases TurnBound(cfg) - n
      {
        hide Step, Launch;
        RunTimer(cfg, start, env, n);
        RunMeasure(cfg, start, env, n);
        assert WellTimed(env, n);
        var r := Turn(env(n));
        n, turns := n + 1, turns + 1;
        if r.Some? {
          return r.value, turns;
        }
        RunMeasure(cfg, start, env, n);
      }
    }
  }

  // What happens before the loop: the result if the test ends there, and the effects on the cluster.
  method StartTest(cfg: Config, start: Start) returns (early: Option<Result>, effects: seq<Effect>)
    requires IsOrderOf(start.order, cfg.nodeTypes)
    ensures Launch(cfg, start) == var m := FirstMachine(cfg, start, effects);
                                  if early.None? then Running(m) else Returned(early.value, m)
  {
    hide ValidConfig, HasOSDs, Better, HasProblem, PullerPlan, Creates, FirstFailure;
    var problems := Validate(cfg);
    if problems != [] {
      return Some(Rejected), [];
    }
    if cfg.publicNetwork == "" && cfg.hostCheckOnly {
      return Some(Success(false)), [];
    }
    if start.ownerFails {
      return Some(StartFailed), First(if start.lostCall then 1 else 0);
    }
    var placement := BestNodePlacementForServer(cfg);
    if placement.None? {
      return Some(StartFailed), First(1);
    }
    if start.webConfigFails {
      return Some(StartFailed), First(if start.lostCall then 2 else 1);
    }
    if start.webPodFails {
      return Some(StartFailed), First(if start.lostCall then 3 else 2);
    }
    var creator := new Creator(start.failingCreates, start.lostCall);
    var ok := creator.StartImagePullers(start.order);
    ReachedIs(PullerPlan(start.order), creator.created, start.failingCreates, start.lostCall, ok);
    effects := First(3) + Creates(creator.created);
    early := if ok then None else Some(StartFailed);
  }

  // The whole test: it returns, and with the result and the effects of the run it is specified to take.
  method RunValidationTest(cfg: Config, start: Start, env: nat -> Tick) returns (result: Result, effects: seq<Effect>)
    requires ValidEnv(cfg, start, env)
    ensures exists n: nat :: IsResultOf(RunFor(cfg, start, env, n), result, effects)
    ensures EffectsSafe(cfg, effects)
    ensures result.Success? ==>
              if cfg.publicNetwork == "" && cfg.hostCheckOnly then effects == []
              else exists n: nat :: Proven(cfg, env, n, LastMilestone(cfg))
    ensures result.Success? && !cfg.hostCheckOnly ==>
              exists n: nat, expected: int :: ClientsSeen(cfg, env, n, ClientsReady, expected, effects)
  {
    hide Launch, Step;
    var early;
    early, effects := StartTest(cfg, start);
    assert RunFor(cfg, start, env, 0) == Launch(cfg, start);
    if early.Some? {
      Guarantees(cfg, start, env, 0, early.value, effects);
      return early.value, effects;
    }
    var timer := new GoTimer(start.timerAt, cfg.resourceTimeout);
    var machine := new ValidationStateMachine(cfg, timer, effects);
    ghost var turns;
    result, turns := machine.Run(start, env);
    effects := machine.effects;
    Guarantees(cfg, start, env, turns, result, effects);
  }

  lemma Guarantees(cfg: Config, start: Start, env: nat -> Tick, n: nat, result: Result, effects: seq<Effect>)
    requires ValidEnv(cfg, start, env) && IsResultOf(RunFor(cfg, start, env, n), result, effects)
    ensures EffectsSafe(cfg, effects)
    ensures result.Success? ==>
              if cfg.publicNetwork == "" && cfg.hostCheckOnly then effects == []
              else Proven(cfg, env, n, LastMilestone(cfg))
    ensures result.Success? && !cfg.hostCheckOnly ==>
              exists expected :: ClientsSeen(cfg, env, n, ClientsReady, expected, effects)
  {
    hide RunFor, EffectsSafe, Proven, ClientsSeen;
    ResourceSafety(cfg, start, env, n);
    if result.Success? {
      SuccessMeans(cfg, start, env, n);
      if !cfg.hostCheckOnly {
        SuccessLeavesClients(cfg, start, env, n);
      }
    }
  }

  ghost predicate IsResultOf(o: Outcome, result: Result, effects: seq<Effect>)
  {
    o.Returned? && o.result == result && o.final.effects == effects
  }
}
