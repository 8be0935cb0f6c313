/**
 Which daemonsets exist while the Multus validation test waits, and how many pods they amount to: one image
 puller or host checker per node type, and as many clients as the config asks for on every node.
 */
module MultusDaemonSets {
  import opened Wrappers
  import opened MultusConfig
  import opened MultusStages
  import opened MultusRuns
  import opened MultusEffects

  // ----- Image pullers and host checkers -----

  // While a stage waits for image pullers or host checkers there is one for each node type, and nothing else.
  ghost predicate OnePerType(cfg: Config, s: Stage, live: set<DaemonSet>)
  {
    && (Rank(s) <= 2 ==> forall d :: d in live <==> d.ImagePullerFor? && d.nodeType in cfg.nodeTypes)
    && (6 <= Rank(s) <= 7 ==> forall d :: d in live <==> d.HostCheckerFor? && d.nodeType in cfg.nodeTypes)
  }

  // These stages are entered only from each other, and from the one that starts the host checkers.
  lemma WaitsFrom(cfg: Config, s: Stage, tick: Tick, r: StageResult)
    requires forall t :: t in tick.order ==> t in cfg.nodeTypes
    requires r == RunStage(cfg, s, tick) && FieldsInv(cfg, s)
    ensures Rank(r.state) <= 2 ==> Rank(s) <= 2 && r.effects == []
    ensures 6 <= Rank(r.state) <= 7 && !s.StartHostCheckers? ==> 6 <= Rank(s) <= 7 && r.effects == []
  {
    hide PullCounts, OnePodPerNode, CountRunning, CountReady, SumOf, ClientCounts, ClientPlan, FirstFailure, Creates;
    hide CheckIfFlaky;
  }

  lemma CheckersPerType(cfg: Config, s: Stage, effects: seq<Effect>, tick: Tick, r: StageResult)
    requires IsOrderOf(tick.order, cfg.nodeTypes) && s.StartHostCheckers? && EffectsInv(cfg, s, effects)
    requires r == RunStartHostCheckers(cfg, s, tick)
    ensures OnePerType(cfg, r.state, Live(effects + r.effects))
  {
    hide NeverMixed, CreatedOnce, Live, CreatedKinds;
    EffectsInvTidy(cfg, s, effects);
    if cfg.publicNetwork != "" && !r.done {
      var plan := seq(|tick.order|, i requires 0 <= i < |tick.order| => HostCheckerFor(tick.order[i]));
      assert r.effects == Creates(plan);
      assert DistinctPlan(plan, HostChecker);
      hide DistinctPlan, Creates, FirstFailure, Reached, SumOf;
      CreatedTidily(effects, plan, HostChecker, {ImagePull}, {ImagePull, HostChecker});
      forall d ensures d in plan <==> d.HostCheckerFor? && d.nodeType in cfg.nodeTypes {
        if d.HostCheckerFor? && d.nodeType in cfg.nodeTypes {
          var i :| 0 <= i < |tick.order| && tick.order[i] == d.nodeType;
          assert plan[i] == d;
        }
      }
    }
  }

  lemma StagePerType(cfg: Config, s: Stage, effects: seq<Effect>, tick: Tick, r: StageResult)
    requires IsOrderOf(tick.order, cfg.nodeTypes)
    requires EffectsInv(cfg, s, effects) && FieldsInv(cfg, s) && OnePerType(cfg, s, Live(effects))
    requires r == RunStage(cfg, s, tick)
    ensures OnePerType(cfg, r.state, Live(effects + r.effects))
  {
    if s.StartHostCheckers? {
      CheckersPerType(cfg, s, effects, tick, r);
    } else {
      hide RunStage, EffectsInv, FieldsInv, Live;
      WaitsFrom(cfg, s, tick, r);
      assert r.effects == [] ==> effects + r.effects == effects;
    }
  }

  lemma LaunchPerType(cfg: Config, start: Start)
    requires IsOrderOf(start.order, cfg.nodeTypes)
    ensures var o := Launch(cfg, start);
            o.Running? ==>
              && OnePerType(cfg, o.m.state, Live(o.m.effects))
              && [CreateOwner, CreateWebConfig, CreateWebPod] <= o.m.effects
  {
    hide NeverMixed, CreatedOnce, CreatedKinds, Live, ValidConfig, HasOSDs;
    var first, plan := First(3), PullerPlan(start.order);
    NothingCreated(first);
    assert DistinctPlan(plan, ImagePull);
    CreatePlan(first, plan, ImagePull, {});
    forall d ensures d in plan <==> d.ImagePullerFor? && d.nodeType in cfg.nodeTypes {
      if d.ImagePullerFor? && d.nodeType in cfg.nodeTypes {
        var i :| 0 <= i < |start.order| && start.order[i] == d.nodeType;
        assert plan[i] == d;
      }
    }
    assert plan[..|plan|] == plan;
  }

  // In every run: the three resources of the start are there before all daemonsets, and whenever the test
  // waits for image pullers or host checkers, exactly one of them exists per node type.
  lemma {:induction false} RunPerType(cfg: Config, start: Start, env: nat -> Tick, n: nat)
    requires ValidEnv(cfg, start, env) && RunFor(cfg, start, env, n).Running?
    ensures var m := RunFor(cfg, start, env, n).m;
            && OnePerType(cfg, m.state, Live(m.effects))
            && [CreateOwner, CreateWebConfig, CreateWebPod] <= m.effects
  {
    hide Step, Launch, RunStage, OnePerType, Live, FieldsInv, EffectsInv, StageInv;
    if n == 0 {
      LaunchPerType(cfg, start);
    } else {
      RunNext(cfg, start, env, n - 1);
      RunPerType(cfg, start, env, n - 1);
      RunHolds(cfg, start, env, n - 1);
      var m := RunFor(cfg, start, env, n - 1).m;
      StepLeaves(cfg, m, env(n - 1));
      StagePerType(cfg, m.state, m.effects, env(n - 1), RunStage(cfg, m.state, env(n - 1)));
    }
  }

  // ----- How many pods daemonsets amount to -----

  // Each daemonset runs one pod on every node of its type.
  ghost function PodsUnder(live: set<DaemonSet>, counts: Counts): int
  {
    if live == {} then 0
    else
      var d :| d in live;
      Lookup(counts, d.nodeType) + PodsUnder(live - {d}, counts)
  }

  lemma {:induction false} PodsUnderRemove(live: set<DaemonSet>, counts: Counts, d: DaemonSet)
    requires d in live
    ensures PodsUnder(live, counts) == Lookup(counts, d.nodeType) + PodsUnder(live - {d}, counts)
    decreases |live|
  {
    var e :| e in live && PodsUnder(live, counts) == Lookup(counts, e.nodeType) + PodsUnder(live - {e}, counts);
    if e != d {
      PodsUnderRemove(live - {e}, counts, d);
      PodsUnderRemove(live - {d}, counts, e);
      assert live - {e} - {d} == live - {d} - {e};
    }
  }

  lemma {:induction false} PodsUnderUnion(a: set<DaemonSet>, b: set<DaemonSet>, counts: Counts)
    requires a !! b
    ensures PodsUnder(a + b, counts) == PodsUnder(a, counts) + PodsUnder(b, counts)
    decreases |a|
  {
    if a == {} {
      assert a + b == b;
    } else {
      var d :| d in a;
      PodsUnderRemove(a, counts, d);
      PodsUnderRemove(a + b, counts, d);
      assert a + b - {d} == (a - {d}) + b;
      PodsUnderUnion(a - {d}, b, counts);
    }
  }

  // Daemonsets of one type.
  lemma {:induction false} PodsOfOneType(live: set<DaemonSet>, t: string, counts: Counts)
    requires forall d :: d in live ==> d.nodeType == t
    ensures PodsUnder(live, counts) == |live| * Lookup(counts, t)
    decreases |live|
  {
    if live != {} {
      hide Lookup;
      var d :| d in live;
      PodsUnderRemove(live, counts, d);
      PodsOfOneType(live - {d}, t, counts);
      hide PodsUnder;
      OneMoreTime(|live - {d}|, Lookup(counts, t));
    }
  }

  lemma OneMoreTime(n: nat, x: int)
    ensures (n + 1) * x == n * x + x
  {
  }

  lemma {:induction false} AsManyAsListed(plan: seq<DaemonSet>)
    requires forall i, j :: 0 <= i < j < |plan| ==> plan[i] != plan[j]
    ensures |set d | d in plan| == |plan|
  {
    if plan == [] {
      assert (set d | d in plan) == {};
    } else {
      var init, last := plan[..|plan| - 1], plan[|plan| - 1];
      AsManyAsListed(init);
      assert plan == init + [last];
      assert last !in init;
      assert (set d | d in plan) == (set d | d in init) + {last};
    }
  }

  // The clients asked for on nodes of the given types.
  ghost predicate AreClientsOf(live: set<DaemonSet>, nodeTypes: map<string, NodeConfig>, publicAddr: string)
  {
    forall d :: d in live <==>
      d.ClientFor? && d.nodeType in nodeTypes && WantedOn(nodeTypes[d.nodeType], publicAddr, d)
  }

  ghost function PodCounts(nodeTypes: map<string, NodeConfig>, counts: Counts, publicAddr: string): Counts
  {
    map t | t in nodeTypes :: ClientsPerNode(nodeTypes[t], publicAddr) * Lookup(counts, t)
  }

  lemma ClientsOfType(node: NodeConfig, t: string, publicAddr: string, counts: Counts)
    ensures var clients := set d | d in ClientsFor(node, t, publicAddr);
            PodsUnder(clients, counts) == ClientsPerNode(node, publicAddr) * Lookup(counts, t)
  {
    hide WantedOn, PodsUnder, Lookup;
    ClientsForDistinct(node, t, publicAddr);
    var plan := ClientsFor(node, t, publicAddr);
    AsManyAsListed(plan);
    PodsOfOneType((set d | d in plan), t, counts);
    assert |plan| == ClientsPerNode(node, publicAddr);
  }

  lemma {:induction false} PodsOfTypes(
    live: set<DaemonSet>, nodeTypes: map<string, NodeConfig>, publicAddr: string, counts: Counts)
    requires AreClientsOf(live, nodeTypes, publicAddr)
    ensures SumOf(PodCounts(nodeTypes, counts, publicAddr)) == PodsUnder(live, counts)
    decreases |nodeTypes|
  {
    if nodeTypes == map[] {
      assert live == {};
    } else {
      hide WantedOn, ClientsFor, ClientsPerNode, PodsUnder, SumOf, PodCounts, AreClientsOf, Lookup;
      var t :| t in nodeTypes;
      var rest, mine := nodeTypes - {t}, set d | d in ClientsFor(nodeTypes[t], t, publicAddr);
      ClientsSplit(live, nodeTypes, publicAddr, t);
      ClientsOfType(nodeTypes[t], t, publicAddr, counts);
      PodsOfTypes(live - mine, rest, publicAddr, counts);
      PodsUnderUnion(live - mine, mine, counts);
      PodCountsSplit(nodeTypes, counts, publicAddr, t);
    }
  }

  lemma ClientsSplit(live: set<DaemonSet>, nodeTypes: map<string, NodeConfig>, publicAddr: string, t: string)
    requires AreClientsOf(live, nodeTypes, publicAddr) && t in nodeTypes
    ensures var mine := set d | d in ClientsFor(nodeTypes[t], t, publicAddr);
            AreClientsOf(live - mine, nodeTypes - {t}, publicAddr) && live == (live - mine) + mine
  {
    hide WantedOn, ClientsFor;
    ClientsForDistinct(nodeTypes[t], t, publicAddr);
  }

  lemma PodCountsSplit(nodeTypes: map<string, NodeConfig>, counts: Counts, publicAddr: string, t: string)
    requires t in nodeTypes
    ensures SumOf(PodCounts(nodeTypes, counts, publicAddr))
         == ClientsPerNode(nodeTypes[t], publicAddr) * Lookup(counts, t)
            + SumOf(PodCounts(nodeTypes - {t}, counts, publicAddr))
  {
    hide SumOf, ClientsPerNode, Lookup;
    var all := PodCounts(nodeTypes, counts, publicAddr);
    SumOfRemove(all, t);
    assert all - {t} == PodCounts(nodeTypes - {t}, counts, publicAddr);
  }

  // The number of client pods that the test waits for is what the clients that exist amount to on the nodes
  // counted.
  lemma ExpectedIsPodsUnder(cfg: Config, counts: Counts, web: WebInfo, effects: seq<Effect>)
    requires LiveClients(cfg, web.publicAddr, effects)
    ensures ExpectedClients(cfg, counts, web) == PodsUnder(Live(effects), counts)
  {
    hide Live, WantedOn, SumOf, PodsUnder, ClientsPerNode;
    PodsOfTypes(Live(effects), cfg.nodeTypes, web.publicAddr, counts);
    assert PodCounts(cfg.nodeTypes, counts, web.publicAddr) == ClientCounts(cfg, counts, web.publicAddr);
  }

  // A successful run that checks more than hosts: the clients that exist are those the config asks for, and
  // in its last turns it saw exactly as many pods running, and then ready, as these clients have on the nodes
  // counted.
  ghost predicate AllPodsSeen(cfg: Config, env: nat -> Tick, n: nat, effects: seq<Effect>)
  {
    exists counts, web ::
      && Seen(cfg, env, n, ClientsReady, counts, web) && LiveClients(cfg, web.publicAddr, effects)
      && ExpectedClients(cfg, counts, web) == PodsUnder(Live(effects), counts)
  }

  lemma SuccessSawAllPods(cfg: Config, start: Start, env: nat -> Tick, n: nat)
    requires ValidEnv(cfg, start, env) && !cfg.hostCheckOnly
    requires var o := RunFor(cfg, start, env, n); o.Returned? && o.result.Success?
    ensures AllPodsSeen(cfg, env, n, RunFor(cfg, start, env, n).final.effects)
  {
    hide RunFor, Seen, LiveClients, ExpectedClients, PodsUnder, Live, ValidEnv;
    SuccessLeavesClients(cfg, start, env, n);
    var final := RunFor(cfg, start, env, n).final;
    var counts, web :| && final.state.expected == ExpectedClients(cfg, counts, web)
                       && Seen(cfg, env, n, ClientsReady, counts, web)
                       && LiveClients(cfg, web.publicAddr, final.effects);
    ExpectedIsPodsUnder(cfg, counts, web, final.effects);
  }
}
