/**
 The daemonsets a Multus validation test leaves in the cluster: at no moment of any run do two kinds
 of them exist together, none is created twice, and a host check never creates a client.
 */
module MultusEffects {
  import opened Wrappers
  import opened MultusConfig
  import opened MultusStages
  import opened MultusRuns

  // The daemonsets that exist after a sequence of effects.
  ghost function Live(effects: seq<Effect>): set<DaemonSet>
  {
    if effects == [] then {}
    else
      var before := Live(effects[..|effects| - 1]);
      match effects[|effects| - 1]
      case Create(d) => before + {d}
      case DeleteAll(app) => set d | d in before && KindOf(d) != app
      case DeletePart(app, gone) => set d | d in before && !(KindOf(d) == app && d in gone)
      case _ => before
  }

  ghost predicate AllOfKind(live: set<DaemonSet>, kind: AppType)
  {
    forall d :: d in live ==> KindOf(d) == kind
  }

  ghost predicate OneKind(live: set<DaemonSet>)
  {
    forall d, e :: d in live && e in live ==> KindOf(d) == KindOf(e)
  }

  // One kind at a time, at every point of the sequence.
  ghost predicate NeverMixed(effects: seq<Effect>)
  {
    forall i :: 0 <= i <= |effects| ==> OneKind(Live(effects[..i]))
  }

  ghost predicate CreatedOnce(effects: seq<Effect>)
  {
    forall i, j :: 0 <= i < j < |effects| && effects[i].Create? && effects[j].Create? ==>
      effects[i].ds != effects[j].ds
  }

  ghost predicate CreatedKinds(effects: seq<Effect>, kinds: set<AppType>)
  {
    forall i :: 0 <= i < |effects| && effects[i].Create? ==> KindOf(effects[i].ds) in kinds
  }

  ghost predicate DistinctPlan(plan: seq<DaemonSet>, kind: AppType)
  {
    && (forall i :: 0 <= i < |plan| ==> KindOf(plan[i]) == kind)
    && (forall i, j :: 0 <= i < j < |plan| ==> plan[i] != plan[j])
  }

  // The one kind that may exist while a stage runs; no daemonset is of kind OtherApp.
  function KindAt(s: Stage): AppType
  {
    if Rank(s) <= 3 then ImagePull
    else if 6 <= Rank(s) <= 8 then HostChecker
    else if 10 <= Rank(s) then Client
    else OtherApp("")
  }

  function KindsBefore(s: Stage): set<AppType>
  {
    if Rank(s) <= 5 then {ImagePull}
    else if Rank(s) <= 9 then {ImagePull, HostChecker}
    else {ImagePull, HostChecker, Client}
  }

  ghost predicate EffectsInv(cfg: Config, s: Stage, effects: seq<Effect>)
  {
    && NeverMixed(effects) && CreatedOnce(effects)
    && AllOfKind(Live(effects), KindAt(s))
    && CreatedKinds(effects, KindsBefore(s))
    && (KindAt(s) == Client && !s.VerifyClientsReady? ==>
          s.webInfo.Some? && LiveClients(cfg, s.webInfo.value.publicAddr, effects))
    && (s.VerifyClientsReady? ==> ClientsMatch(cfg, s.expected, effects))
  }

  // The client daemonsets that exist are exactly those the config asks for.
  ghost predicate LiveClients(cfg: Config, publicAddr: string, effects: seq<Effect>)
  {
    forall d :: d in Live(effects) <==> Wanted(cfg, publicAddr, d)
  }

  // The number of pods waited for is what those daemonsets amount to on some number of nodes per type.
  ghost predicate ClientsMatch(cfg: Config, expected: int, effects: seq<Effect>)
  {
    exists counts, web ::
      expected == ExpectedClients(cfg, counts, web) && LiveClients(cfg, web.publicAddr, effects)
  }

  lemma NeverMixedAppend(effects: seq<Effect>, e: Effect)
    requires NeverMixed(effects) && OneKind(Live(effects + [e]))
    ensures NeverMixed(effects + [e])
  {
    var all := effects + [e];
    forall i | 0 <= i <= |all| ensures OneKind(Live(all[..i])) {
      if i == |all| {
        assert all[..i] == all;
      } else {
        assert all[..i] == effects[..i];
      }
    }
  }

  lemma CreateOne(effects: seq<Effect>, d: DaemonSet, kinds: set<AppType>)
    requires NeverMixed(effects) && CreatedOnce(effects) && AllOfKind(Live(effects), KindOf(d))
    requires CreatedKinds(effects, kinds)
    requires forall i :: 0 <= i < |effects| ==> effects[i] != Create(d)
    ensures var all := effects + [Create(d)];
            && NeverMixed(all) && CreatedOnce(all) && CreatedKinds(all, kinds + {KindOf(d)})
            && Live(all) == Live(effects) + {d}
  {
    hide NeverMixed;
    var all := effects + [Create(d)];
    assert Live(all) == Live(effects) + {d} by { assert all[..|all| - 1] == effects; }
    hide Live;
    assert AllOfKind(Live(all), KindOf(d));
    NeverMixedAppend(effects, Create(d));
    assert CreatedOnce(all) && CreatedKinds(all, kinds + {KindOf(d)});
  }

  lemma LivePlan(live: set<DaemonSet>, plan: seq<DaemonSet>)
    requires plan != []
    ensures var init, last := plan[..|plan| - 1], plan[|plan| - 1];
            live + (set d | d in plan) == live + (set d | d in init) + {last}
  {
    assert plan == plan[..|plan| - 1] + [plan[|plan| - 1]];
  }

  lemma PlanIsNew(effects: seq<Effect>, plan: seq<DaemonSet>, kind: AppType, kinds: set<AppType>)
    requires CreatedKinds(effects, kinds) && kind !in kinds && DistinctPlan(plan, kind) && plan != []
    ensures var init, last := plan[..|plan| - 1], plan[|plan| - 1];
            var before := effects + Creates(init);
            && effects + Creates(plan) == before + [Create(last)]
            && DistinctPlan(init, kind) && KindOf(last) == kind
            && forall i :: 0 <= i < |before| ==> before[i] != Create(last)
  {
  }

  // Creating a plan of one kind, where only that kind lives and none of it was created before.
  lemma {:induction false} CreatePlan(effects: seq<Effect>, plan: seq<DaemonSet>, kind: AppType, kinds: set<AppType>)
    requires NeverMixed(effects) && CreatedOnce(effects) && AllOfKind(Live(effects), kind)
    requires CreatedKinds(effects, kinds) && kind !in kinds && DistinctPlan(plan, kind)
    ensures var all := effects + Creates(plan);
            && NeverMixed(all) && CreatedOnce(all) && CreatedKinds(all, kinds + {kind}) && AllOfKind(Live(all), kind)
            && Live(all) == Live(effects) + set d | d in plan
    decreases |plan|
  {
    var all := effects + Creates(plan);
    if plan == [] {
      assert all == effects;
    } else {
      hide NeverMixed, CreatedOnce, Live, CreatedKinds, DistinctPlan, Creates;
      var init, last := plan[..|plan| - 1], plan[|plan| - 1];
      PlanIsNew(effects, plan, kind, kinds);
      CreatePlan(effects, init, kind, kinds);
      var before := effects + Creates(init);
      CreateOne(before, last, kinds + {kind});
      LivePlan(Live(effects), plan);
      assert kinds + {kind} + {KindOf(last)} == kinds + {kind};
    }
  }

  lemma DeleteKind(effects: seq<Effect>, kind: AppType, kinds: set<AppType>)
    requires NeverMixed(effects) && CreatedOnce(effects) && AllOfKind(Live(effects), kind)
    requires CreatedKinds(effects, kinds)
    ensures var all := effects + [DeleteAll(kind)];
            NeverMixed(all) && CreatedOnce(all) && Live(all) == {} && CreatedKinds(all, kinds)
  {
    hide NeverMixed;
    var all := effects + [DeleteAll(kind)];
    assert Live(all) == {} by { assert all[..|all| - 1] == effects; }
    hide Live;
    NeverMixedAppend(effects, DeleteAll(kind));
  }

  // A failed deletion only takes away.
  lemma DeleteSome(effects: seq<Effect>, kind: AppType, kinds: set<AppType>, gone: set<DaemonSet>)
    requires NeverMixed(effects) && CreatedOnce(effects) && AllOfKind(Live(effects), kind)
    requires CreatedKinds(effects, kinds)
    ensures var all := effects + [DeletePart(kind, gone)];
            && NeverMixed(all) && CreatedOnce(all) && AllOfKind(Live(all), kind) && CreatedKinds(all, kinds)
  {
    hide NeverMixed;
    var all := effects + [DeletePart(kind, gone)];
    assert Live(all) <= Live(effects) by { assert all[..|all| - 1] == effects; }
    hide Live;
    NeverMixedAppend(effects, DeletePart(kind, gone));
  }

  // ----- Plans are distinct -----

  // The client daemonsets the config asks for, given the web server's public address.
  ghost predicate Wanted(cfg: Config, publicAddr: string, d: DaemonSet)
  {
    d.ClientFor? && d.nodeType in cfg.nodeTypes && WantedOn(cfg.nodeTypes[d.nodeType], publicAddr, d)
  }

  ghost predicate WantedOn(node: NodeConfig, publicAddr: string, d: DaemonSet)
    requires d.ClientFor?
  {
    if d.osd then d.id < node.osdsPerNode else publicAddr != "" && d.id < node.otherDaemonsPerNode
  }

  lemma {:induction false} ClientPlanDistinct(cfg: Config, order: seq<string>, publicAddr: string)
    requires forall t :: t in order ==> t in cfg.nodeTypes
    requires forall i, j :: 0 <= i < j < |order| ==> order[i] != order[j]
    ensures DistinctPlan(ClientPlan(cfg, order, publicAddr), Client)
    ensures forall d :: d in ClientPlan(cfg, order, publicAddr) <==>
              Wanted(cfg, publicAddr, d) && d.nodeType in order
  {
    if order != [] {
      hide DistinctPlan, ClientsFor, WantedOn;
      var init, last := order[..|order| - 1], order[|order| - 1];
      assert order == init + [last];
      ClientPlanDistinct(cfg, init, publicAddr);
      ClientsForDistinct(cfg.nodeTypes[last], last, publicAddr);
      JoinDistinct(ClientPlan(cfg, init, publicAddr), ClientsFor(cfg.nodeTypes[last], last, publicAddr), Client);
    }
  }

  lemma JoinDistinct(head: seq<DaemonSet>, tail: seq<DaemonSet>, kind: AppType)
    requires DistinctPlan(head, kind) && DistinctPlan(tail, kind) && forall d :: d in head ==> d !in tail
    ensures DistinctPlan(head + tail, kind)
    ensures forall d :: d in head + tail <==> d in head || d in tail
  {
    assert forall i :: 0 <= i < |head| ==> head[i] in head;
    assert forall i :: 0 <= i < |tail| ==> tail[i] in tail;
  }

  lemma ClientsForDistinct(node: NodeConfig, nodeType: string, publicAddr: string)
    ensures DistinctPlan(ClientsFor(node, nodeType, publicAddr), Client)
    ensures forall d :: d in ClientsFor(node, nodeType, publicAddr) <==>
              d.ClientFor? && d.nodeType == nodeType && WantedOn(node, publicAddr, d)
  {
    var osds := Clients(nodeType, true, AtLeastZero(node.osdsPerNode));
    var others := if publicAddr == "" then [] else Clients(nodeType, false, AtLeastZero(node.otherDaemonsPerNode));
    forall d: DaemonSet | d.ClientFor? && d.nodeType == nodeType && WantedOn(node, publicAddr, d)
      ensures d in osds + others
    {
      if d.osd {
        assert osds[d.id] == d;
        assert (osds + others)[d.id] == d;
      } else {
        assert others[d.id] == d;
        assert (osds + others)[|osds| + d.id] == d;
      }
    }
  }

  // ----- What each stage does to the cluster -----

  ghost predicate EffectsSafe(cfg: Config, effects: seq<Effect>)
  {
    && NeverMixed(effects) && CreatedOnce(effects)
    && (cfg.hostCheckOnly ==> CreatedKinds(effects, {ImagePull, HostChecker}))
  }

  // What a stage starts from: only daemonsets of its kind, created once, of the kinds seen so far.
  ghost predicate Tidy(effects: seq<Effect>, kind: AppType, kinds: set<AppType>)
  {
    NeverMixed(effects) && CreatedOnce(effects) && AllOfKind(Live(effects), kind) && CreatedKinds(effects, kinds)
  }

  lemma TidyIsSafe(cfg: Config, effects: seq<Effect>, kind: AppType, kinds: set<AppType>)
    requires Tidy(effects, kind, kinds) && (cfg.hostCheckOnly ==> kinds <= {ImagePull, HostChecker})
    ensures EffectsSafe(cfg, effects)
  {
    hide NeverMixed, CreatedOnce, Live;
  }

  lemma EffectsInvTidy(cfg: Config, s: Stage, effects: seq<Effect>)
    requires EffectsInv(cfg, s, effects)
    ensures Tidy(effects, KindAt(s), KindsBefore(s))
  {
    hide NeverMixed, CreatedOnce, Live, CreatedKinds;
  }

  lemma CreatedTidily(
    effects: seq<Effect>, plan: seq<DaemonSet>, kind: AppType, kinds: set<AppType>, kinds': set<AppType>)
    requires Tidy(effects, OtherApp(""), kinds) && DistinctPlan(plan, kind)
    requires kind !in kinds && kinds' == kinds + {kind}
    ensures Tidy(effects + Creates(plan), kind, kinds')
    ensures Live(effects + Creates(plan)) == set d | d in plan
  {
    hide NeverMixed, CreatedOnce, CreatedKinds, DistinctPlan, Creates;
    assert Live(effects) == {};
    CreatePlan(effects, plan, kind, kinds);
  }

  lemma StartHostCheckersEffects(cfg: Config, s: Stage, effects: seq<Effect>, tick: Tick, r: StageResult)
    requires IsOrderOf(tick.order, cfg.nodeTypes) && s.StartHostCheckers? && EffectsInv(cfg, s, effects)
    requires r == RunStartHostCheckers(cfg, s, tick)
    ensures EffectsSafe(cfg, effects + r.effects)
    ensures r.changed ==> EffectsInv(cfg, r.state, effects + r.effects)
  {
    hide NeverMixed, CreatedOnce, Live, CreatedKinds, EffectsSafe;
    EffectsInvTidy(cfg, s, effects);
    if cfg.publicNetwork == "" {
      assert effects + r.effects == effects;
      assert CreatedKinds(effects, {ImagePull, HostChecker}) by {
        MoreKinds(effects, {ImagePull}, {ImagePull, HostChecker});
      }
      TidyIsSafe(cfg, effects, OtherApp(""), {ImagePull});
    } else {
      var plan := seq(|tick.order|, i requires 0 <= i < |tick.order| => HostCheckerFor(tick.order[i]));
      var k := Reached(|plan|, tick.failingCreates, tick.lostCreate);
      assert plan[..|plan|] == plan;
      assert r.effects == Creates(plan[..k]);
      assert DistinctPlan(plan[..k], HostChecker);
      hide DistinctPlan, Creates, FirstFailure, Reached, SumOf;
      CreatedTidily(effects, plan[..k], HostChecker, {ImagePull}, {ImagePull, HostChecker});
      TidyIsSafe(cfg, effects + r.effects, HostChecker, {ImagePull, HostChecker});
    }
  }

  lemma MoreKinds(effects: seq<Effect>, kinds: set<AppType>, more: set<AppType>)
    requires CreatedKinds(effects, kinds) && kinds <= more
    ensures CreatedKinds(effects, more)
  {
  }

  lemma ClientsAreWanted(cfg: Config, order: seq<string>, publicAddr: string, effects: seq<Effect>)
    requires IsOrderOf(order, cfg.nodeTypes)
    requires Live(effects) == set d | d in ClientPlan(cfg, order, publicAddr)
    ensures LiveClients(cfg, publicAddr, effects)
  {
    hide Live, ClientPlan;
    ClientPlanDistinct(cfg, order, publicAddr);
  }

  lemma PlanPrefix(plan: seq<DaemonSet>, k: nat, kind: AppType)
    requires k <= |plan| && DistinctPlan(plan, kind)
    ensures DistinctPlan(plan[..k], kind)
  {
  }

  lemma StartClientsEffects(cfg: Config, s: Stage, effects: seq<Effect>, tick: Tick, r: StageResult)
    requires IsOrderOf(tick.order, cfg.nodeTypes) && s.StartClients? && EffectsInv(cfg, s, effects)
    requires !cfg.hostCheckOnly
    requires r == RunStartClients(cfg, s, tick)
    ensures EffectsSafe(cfg, effects + r.effects)
    ensures r.changed ==> EffectsInv(cfg, r.state, effects + r.effects)
  {
    hide NeverMixed, CreatedOnce, Live, CreatedKinds, EffectsSafe, ClientPlan, Creates, LiveClients;
    hide DistinctPlan, ClientCounts;
    EffectsInvTidy(cfg, s, effects);
    var plan := ClientPlan(cfg, tick.order, s.web.publicAddr);
    var k := Reached(|plan|, tick.failingCreates, tick.lostCreate);
    assert plan[..|plan|] == plan;
    assert r.effects == Creates(plan[..k]);
    ClientPlanDistinct(cfg, tick.order, s.web.publicAddr);
    PlanPrefix(plan, k, Client);
    CreatedTidily(effects, plan[..k], Client, {ImagePull, HostChecker}, {ImagePull, HostChecker, Client});
    TidyIsSafe(cfg, effects + r.effects, Client, {ImagePull, HostChecker, Client});
    if r.changed {
      ClientsAreWanted(cfg, tick.order, s.web.publicAddr, effects + r.effects);
    }
  }

  lemma DeletedTidily(cfg: Config, effects: seq<Effect>, kind: AppType, kinds: set<AppType>)
    requires Tidy(effects, kind, kinds) && kinds <= {ImagePull, HostChecker}
    ensures Tidy(effects + [DeleteAll(kind)], OtherApp(""), kinds) && Live(effects + [DeleteAll(kind)]) == {}
    ensures EffectsSafe(cfg, effects + [DeleteAll(kind)])
  {
    hide NeverMixed, CreatedOnce, CreatedKinds, Live, EffectsSafe;
    DeleteKind(effects, kind, kinds);
    assert AllOfKind({}, OtherApp(""));
    TidyIsSafe(cfg, effects + [DeleteAll(kind)], OtherApp(""), kinds);
  }

  lemma PartDeletedTidily(
    cfg: Config, effects: seq<Effect>, kind: AppType, kinds: set<AppType>, gone: set<DaemonSet>)
    requires Tidy(effects, kind, kinds) && kinds <= {ImagePull, HostChecker}
    ensures Tidy(effects + [DeletePart(kind, gone)], kind, kinds)
    ensures EffectsSafe(cfg, effects + [DeletePart(kind, gone)])
  {
    hide NeverMixed, CreatedOnce, CreatedKinds, Live, EffectsSafe;
    DeleteSome(effects, kind, kinds, gone);
    TidyIsSafe(cfg, effects + [DeletePart(kind, gone)], kind, kinds);
  }

  // The stages that create nothing: they keep the effects, or delete all or some daemonsets of their kind.
  lemma QuietStage(cfg: Config, s: Stage, tick: Tick, r: StageResult)
    requires forall t :: t in tick.order ==> t in cfg.nodeTypes
    requires !s.StartHostCheckers? && !s.StartClients? && FieldsInv(cfg, s)
    requires r == RunStage(cfg, s, tick)
    ensures r.effects ==
            if !s.DeleteImagePullers? && !s.DeleteHostCheckers? then []
            else if tick.deleteFails then [DeletePart(KindAt(s), tick.partlyDeleted)]
            else [DeleteAll(KindAt(s))]
    ensures r.effects == [] ==> KindAt(r.state) == KindAt(s) && KindsBefore(r.state) == KindsBefore(s)
    ensures r.effects != [] ==> KindsBefore(s) <= {ImagePull, HostChecker} && KindAt(s) != Client
    ensures r.effects != [] && tick.deleteFails ==> r.state == s && !r.done
    ensures r.effects != [] && !tick.deleteFails && !r.done ==>
              KindAt(r.state) == OtherApp("") && KindsBefore(r.state) == KindsBefore(s) && !r.state.VerifyClientsReady?
    ensures r.done && r.err.None? ==>
              s.VerifyClientsReady? || (s.DeleteHostCheckers? && cfg.hostCheckOnly && !tick.deleteFails)
    ensures KindAt(s) != Client ==> KindAt(r.state) != Client
    ensures s.VerifyClientsReady? ==> r.state.VerifyClientsReady? && r.state.expected == s.expected
    ensures KindAt(s) == Client && !s.VerifyClientsReady? ==>
              r.state == s || (r.state.VerifyClientsReady? && s.webInfo.Some?
                               && r.state.expected == ExpectedClients(cfg, s.counts, s.webInfo.value))
  {
    hide PullCounts, OnePodPerNode, CountRunning, CountReady, SumOf, ClientCounts, CheckIfFlaky;
    match s
    case GetExpected(_, _) =>
    case EnsureNoOverlap(_) =>
    case VerifyRunning(_, _, _, _) =>
    case DeleteImagePullers(_) =>
    case GetWebServerInfo(_) =>
    case VerifyHostCheckersReady(_, _) =>
    case DeleteHostCheckers(_, _) =>
    case VerifyClientsReady(_, _, _, _) =>
  }

  lemma OtherStageEffects(cfg: Config, s: Stage, effects: seq<Effect>, tick: Tick, r: StageResult)
    requires forall t :: t in tick.order ==> t in cfg.nodeTypes
    requires !s.StartHostCheckers? && !s.StartClients? && EffectsInv(cfg, s, effects) && FieldsInv(cfg, s)
    requires cfg.hostCheckOnly ==> Rank(s) <= 8
    requires r == RunStage(cfg, s, tick)
    ensures EffectsSafe(cfg, effects + r.effects)
    ensures !r.done ==> EffectsInv(cfg, r.state, effects + r.effects)
    ensures r.done && r.err.None? ==>
              if cfg.hostCheckOnly then Live(effects + r.effects) == {}
              else
                && s.VerifyClientsReady? && r.state.VerifyClientsReady? && r.state.expected == s.expected
                && ClientsMatch(cfg, s.expected, effects + r.effects)
  {
    hide RunStage, NeverMixed, CreatedOnce, Live, CreatedKinds, EffectsSafe, LiveClients, ExpectedClients;
    QuietStage(cfg, s, tick, r);
    EffectsInvTidy(cfg, s, effects);
    if r.effects == [] {
      assert effects + r.effects == effects;
      TidyIsSafe(cfg, effects, KindAt(s), KindsBefore(s));
    } else if tick.deleteFails {
      PartDeletedTidily(cfg, effects, KindAt(s), KindsBefore(s), tick.partlyDeleted);
    } else {
      DeletedTidily(cfg, effects, KindAt(s), KindsBefore(s));
    }
  }

  // ----- Every run -----

  ghost predicate OutcomeEffects(cfg: Config, o: Outcome)
  {
    match o
    case Running(m) => EffectsInv(cfg, m.state, m.effects)
    case Returned(result, final) =>
      && EffectsSafe(cfg, final.effects)
      && (result.Success? ==>
            if cfg.hostCheckOnly then Live(final.effects) == {}
            else final.state.VerifyClientsReady? && ClientsMatch(cfg, final.state.expected, final.effects))
    case Blocked => true
  }

  lemma StageEffects(cfg: Config, s: Stage, effects: seq<Effect>, tick: Tick, r: StageResult)
    requires IsOrderOf(tick.order, cfg.nodeTypes)
    requires EffectsInv(cfg, s, effects) && FieldsInv(cfg, s) && (cfg.hostCheckOnly ==> Rank(s) <= 8)
    requires r == RunStage(cfg, s, tick)
    ensures EffectsSafe(cfg, effects + r.effects)
    ensures !r.done ==> EffectsInv(cfg, r.state, effects + r.effects)
    ensures r.done && r.err.None? ==>
              if cfg.hostCheckOnly then Live(effects + r.effects) == {}
              else
                && s.VerifyClientsReady? && r.state.VerifyClientsReady? && r.state.expected == s.expected
                && ClientsMatch(cfg, s.expected, effects + r.effects)
  {
    if s.StartHostCheckers? {
      StartHostCheckersEffects(cfg, s, effects, tick, r);
    } else if s.StartClients? {
      StartClientsEffects(cfg, s, effects, tick, r);
    } else {
      OtherStageEffects(cfg, s, effects, tick, r);
    }
  }

  lemma SafeWhileRunning(cfg: Config, s: Stage, effects: seq<Effect>)
    requires EffectsInv(cfg, s, effects) && (cfg.hostCheckOnly ==> Rank(s) <= 8)
    ensures EffectsSafe(cfg, effects)
  {
  }

  lemma StepEffects(cfg: Config, env: nat -> Tick, n: nat, m: Machine)
    requires IsOrderOf(env(n).order, cfg.nodeTypes)
    requires MachineInv(cfg, env, n, m) && EffectsInv(cfg, m.state, m.effects)
    ensures OutcomeEffects(cfg, Step(cfg, m, env(n)))
  {
    hide RunStage, EffectsInv, EffectsSafe, StageInv, MachineInv, FieldsInv, ClientsMatch, Live;
    var r := RunStage(cfg, m.state, env(n));
    MachineFields(cfg, env, n, m);
    StageEffects(cfg, m.state, m.effects, env(n), r);
    SafeWhileRunning(cfg, m.state, m.effects);
  }

  lemma MachineFields(cfg: Config, env: nat -> Tick, n: nat, m: Machine)
    requires MachineInv(cfg, env, n, m)
    ensures FieldsInv(cfg, m.state) && (cfg.hostCheckOnly ==> Rank(m.state) <= 8)
  {
  }

  lemma {:induction false} LaunchEffects(cfg: Config, start: Start)
    requires IsOrderOf(start.order, cfg.nodeTypes)
    ensures OutcomeEffects(cfg, Launch(cfg, start))
  {
    hide NeverMixed, CreatedOnce, CreatedKinds, Live, ValidConfig, HasOSDs, Creates, EffectsSafe, PullerPlan;
    StillSafe(cfg, []);
    forall n: nat | n <= 3 ensures EffectsSafe(cfg, First(n)) {
      StillSafe(cfg, First(n));
    }
    var plan := PullerPlan(start.order);
    PullersStarted(cfg, start.order, Reached(|plan|, start.failingCreates, start.lostCall));
    assert Live([]) == {} by { NothingCreated([]); }
  }

  lemma StillSafe(cfg: Config, effects: seq<Effect>)
    requires NoDaemonSets(effects)
    ensures EffectsSafe(cfg, effects)
  {
    hide NeverMixed, CreatedOnce, Live;
    NothingCreated(effects);
  }

  lemma PullersStarted(cfg: Config, order: seq<string>, k: nat)
    requires IsOrderOf(order, cfg.nodeTypes) && k <= |PullerPlan(order)|
    ensures var effects := First(3) + Creates(PullerPlan(order)[..k]);
            Tidy(effects, ImagePull, {ImagePull}) && EffectsSafe(cfg, effects)
  {
    hide NeverMixed, CreatedOnce, CreatedKinds, Live, Creates, EffectsSafe;
    var first, plan := First(3), PullerPlan(order);
    NothingCreated(first);
    CreatePlan(first, plan[..k], ImagePull, {});
    assert {} + {ImagePull} == {ImagePull};
    TidyIsSafe(cfg, first + Creates(plan[..k]), ImagePull, {ImagePull});
  }

  ghost predicate NoDaemonSets(effects: seq<Effect>)
  {
    forall i :: 0 <= i < |effects| ==> !effects[i].Create? && !effects[i].DeleteAll? && !effects[i].DeletePart?
  }

  lemma {:induction false} NothingCreated(effects: seq<Effect>)
    requires NoDaemonSets(effects)
    ensures Live(effects) == {} && NeverMixed(effects) && CreatedOnce(effects) && CreatedKinds(effects, {})
  {
    if effects == [] {
      assert forall i :: 0 <= i <= |effects| ==> effects[..i] == [];
    } else {
      var init := effects[..|effects| - 1];
      NothingCreated(init);
      assert effects == init + [effects[|effects| - 1]];
      NeverMixedAppend(init, effects[|effects| - 1]);
    }
  }

  lemma {:induction false} RunEffects(cfg: Config, start: Start, env: nat -> Tick, n: nat)
    requires ValidEnv(cfg, start, env)
    ensures OutcomeEffects(cfg, RunFor(cfg, start, env, n))
  {
    hide Step, Launch, MachineInv, EffectsInv, EffectsSafe, IsOrderOf;
    LaunchEffects(cfg, start);
    if n > 0 {
      RunEffects(cfg, start, env, n - 1);
      RunInv(cfg, start, env, n - 1);
      var before := RunFor(cfg, start, env, n - 1);
      if before.Running? {
        StepEffects(cfg, env, n - 1, before.m);
      }
    }
  }

  ghost function EffectsOf(o: Outcome): seq<Effect>
  {
    match o
    case Running(m) => m.effects
    case Returned(_, final) => final.effects
    case Blocked => []
  }

  // In every run, finished or not: no two kinds of daemonset ever exist together, so image pullers
  // are gone before host checkers exist and host checkers before clients; no daemonset is created
  // twice, so the stages that create them run at most once; a host check creates no client.
  lemma {:induction false} ResourceSafety(cfg: Config, start: Start, env: nat -> Tick, n: nat)
    requires ValidEnv(cfg, start, env)
    ensures EffectsSafe(cfg, EffectsOf(RunFor(cfg, start, env, n)))
  {
    hide RunFor, MachineInv, EffectsInv, EffectsSafe;
    var o := RunFor(cfg, start, env, n);
    RunEffects(cfg, start, env, n);
    RunInv(cfg, start, env, n);
    if o.Running? {
      MachineFields(cfg, env, n, o.m);
      SafeWhileRunning(cfg, o.m.state, o.m.effects);
    } else if o.Blocked? {
      NoEffectsSafe(cfg);
    }
  }

  // ----- What is left after success -----

  // The clients that exist are those of the very counts and web server that were observed.
  ghost predicate ClientsSeen(
    cfg: Config, env: nat -> Tick, n: nat, ms: Milestone, expected: int, effects: seq<Effect>)
  {
    exists counts, web ::
      && expected == ExpectedClients(cfg, counts, web)
      && Seen(cfg, env, n, ms, counts, web) && LiveClients(cfg, web.publicAddr, effects)
  }

  // The last stage is entered only from the one that waits for running clients.
  lemma EntersLastStage(cfg: Config, s: Stage, tick: Tick, r: StageResult)
    requires forall t :: t in tick.order ==> t in cfg.nodeTypes
    requires r == RunStage(cfg, s, tick) && FieldsInv(cfg, s) && r.state.VerifyClientsReady?
    ensures r.effects == []
    ensures s.VerifyClientsReady? ==> r.state.expected == s.expected
    ensures !s.VerifyClientsReady? ==>
              && s.VerifyRunning? && s.app.Client? && s.webInfo.Some? && r.state.expected == s.expected
              && s.expected == ExpectedClients(cfg, s.counts, s.webInfo.value)
              && AllRunning(tick.clientPods, s.expected)
  {
    hide PullCounts, OnePodPerNode, CountRunning, CountReady, SumOf, ClientCounts, ClientPlan, FirstFailure, Creates;
    hide AllRunning;
    if s.VerifyRunning? {
      AllRunningIs(tick.clientPods, s.expected);
    }
  }

  lemma ClientsKept(cfg: Config, env: nat -> Tick, n: nat, ms: Milestone, expected: int, effects: seq<Effect>)
    requires ClientsSeen(cfg, env, n, ms, expected, effects)
    ensures ClientsSeen(cfg, env, n + 1, ms, expected, effects)
  {
    hide Seen, LiveClients, ExpectedClients;
    var counts, web :| && expected == ExpectedClients(cfg, counts, web)
                       && Seen(cfg, env, n, ms, counts, web) && LiveClients(cfg, web.publicAddr, effects);
    SeenKept(cfg, env, n, ms, counts, web);
  }

  lemma ClientsNext(cfg: Config, env: nat -> Tick, n: nat, expected: int, effects: seq<Effect>)
    requires ClientsSeen(cfg, env, n, ClientsRunning, expected, effects) && AllReady(env(n).clientPods, expected)
    ensures ClientsSeen(cfg, env, n + 1, ClientsReady, expected, effects)
  {
    hide Seen, LiveClients, ExpectedClients;
    var counts, web :| && expected == ExpectedClients(cfg, counts, web)
                       && Seen(cfg, env, n, ClientsRunning, counts, web) && LiveClients(cfg, web.publicAddr, effects);
    SeenNext(cfg, env, n, ClientsReady, counts, web);
  }

  lemma ClientsStarted(cfg: Config, env: nat -> Tick, n: nat, s: Stage, effects: seq<Effect>)
    requires s.VerifyRunning? && s.app.Client? && s.webInfo.Some?
    requires s.expected == ExpectedClients(cfg, s.counts, s.webInfo.value)
    requires StageInv(cfg, env, n, s) && EffectsInv(cfg, s, effects) && AllRunning(env(n).clientPods, s.expected)
    ensures ClientsSeen(cfg, env, n + 1, ClientsRunning, s.expected, effects)
  {
    hide Seen, LiveClients, ExpectedClients, NeverMixed, CreatedOnce, CreatedKinds, Live;
    SeenNext(cfg, env, n, ClientsRunning, s.counts, s.webInfo.value);
  }

  lemma FirstStageFirst(cfg: Config, start: Start, env: nat -> Tick)
    requires ValidEnv(cfg, start, env)
    ensures var o := RunFor(cfg, start, env, 0);
            && (o.Running? ==> o.m.state.GetExpected?)
            && (o.Returned? && o.result.Success? ==> cfg.publicNetwork == "" && cfg.hostCheckOnly)
  {
  }

  lemma {:induction false} RunClients(cfg: Config, start: Start, env: nat -> Tick, n: nat)
    requires ValidEnv(cfg, start, env)
    requires RunFor(cfg, start, env, n).Running? && RunFor(cfg, start, env, n).m.state.VerifyClientsReady?
    ensures var m := RunFor(cfg, start, env, n).m;
            ClientsSeen(cfg, env, n, ClientsRunning, m.state.expected, m.effects)
  {
    hide *;
    FirstStageFirst(cfg, start, env);
    if n > 0 {
      RunNext(cfg, start, env, n - 1);
      var m, tick := RunFor(cfg, start, env, n - 1).m, env(n - 1);
      StepLeaves(cfg, m, tick);
      RunHolds(cfg, start, env, n - 1);
      EntersLastStage(cfg, m.state, tick, RunStage(cfg, m.state, tick));
      assert m.effects + [] == m.effects;
      if m.state.VerifyClientsReady? {
        RunClients(cfg, start, env, n - 1);
        ClientsKept(cfg, env, n - 1, ClientsRunning, m.state.expected, m.effects);
      } else {
        ClientsStarted(cfg, env, n - 1, m.state, m.effects);
      }
    }
  }

  lemma RunHolds(cfg: Config, start: Start, env: nat -> Tick, n: nat)
    requires ValidEnv(cfg, start, env) && RunFor(cfg, start, env, n).Running?
    ensures var m := RunFor(cfg, start, env, n).m;
            && StageInv(cfg, env, n, m.state) && FieldsInv(cfg, m.state) && EffectsInv(cfg, m.state, m.effects)
  {
    hide RunFor, StageInv, FieldsInv, EffectsInv;
    RunInv(cfg, start, env, n);
    InvParts(cfg, env, n, RunFor(cfg, start, env, n).m);
    RunEffects(cfg, start, env, n);
  }

  lemma InvParts(cfg: Config, env: nat -> Tick, n: nat, m: Machine)
    requires MachineInv(cfg, env, n, m)
    ensures StageInv(cfg, env, n, m.state) && FieldsInv(cfg, m.state)
  {
  }

  // A successful run that checks more than hosts leaves exactly the clients that its config asks for at
  // the web server it observed, and they are the ones it saw running and then ready.
  lemma {:induction false} SuccessLeavesClients(cfg: Config, start: Start, env: nat -> Tick, n: nat)
    requires ValidEnv(cfg, start, env) && !cfg.hostCheckOnly
    requires var o := RunFor(cfg, start, env, n); o.Returned? && o.result.Success?
    ensures var final := RunFor(cfg, start, env, n).final;
            && final.state.VerifyClientsReady?
            && ClientsSeen(cfg, env, n, ClientsReady, final.state.expected, final.effects)
  {
    hide *;
    FirstStageFirst(cfg, start, env);
    if n > 0 {
      RunNext(cfg, start, env, n - 1);
      var before := RunFor(cfg, start, env, n - 1);
      if before.Running? {
        SuccessStep(cfg, start, env, n - 1);
      } else {
        SuccessLeavesClients(cfg, start, env, n - 1);
        ClientsKept(cfg, env, n - 1, ClientsReady, before.final.state.expected, before.final.effects);
      }
    }
  }

  lemma SuccessStep(cfg: Config, start: Start, env: nat -> Tick, n: nat)
    requires ValidEnv(cfg, start, env) && !cfg.hostCheckOnly
    requires RunFor(cfg, start, env, n).Running?
    requires var o := RunFor(cfg, start, env, n + 1); o.Returned? && o.result.Success?
    ensures var final := RunFor(cfg, start, env, n + 1).final;
            && final.state.VerifyClientsReady?
            && ClientsSeen(cfg, env, n + 1, ClientsReady, final.state.expected, final.effects)
  {
    hide *;
    RunNext(cfg, start, env, n);
    var m, tick := RunFor(cfg, start, env, n).m, env(n);
    SuccessFrom(cfg, m, tick);
    StepLeaves(cfg, m, tick);
    LastStageQuits(cfg, m.state, tick);
    assert m.effects + [] == m.effects;
    RunClients(cfg, start, env, n);
    ClientsNext(cfg, env, n, m.state.expected, m.effects);
  }

  lemma LastStageQuits(cfg: Config, s: Stage, tick: Tick)
    requires forall t :: t in tick.order ==> t in cfg.nodeTypes
    requires s.VerifyClientsReady?
    ensures var r := RunStage(cfg, s, tick);
            r.state.VerifyClientsReady? && r.state.expected == s.expected && r.effects == []
  {
  }

  lemma NoEffectsSafe(cfg: Config)
    ensures EffectsSafe(cfg, [])
  {
    NothingCreated([]);
  }
}
