/** The configuration of a Multus validation test and what `Validate` demands of it. */
module MultusConfig {
  import opened Wrappers

  const SECOND: int := 1_000_000_000
  const MINUTE: int := 60 * SECOND

  datatype PlacementConfig = PlacementConfig(nodeSelector: map<string, string>, tolerations: seq<string>)

  datatype NodeConfig = NodeConfig(osdsPerNode: int, otherDaemonsPerNode: int, placement: PlacementConfig)

  datatype Config = Config(
    namespace: string,
    publicNetwork: string,
    clusterNetwork: string,
    resourceTimeout: int,
    flakyThreshold: int,
    hostCheckOnly: bool,
    nginxImage: string,
    nodeTypes: map<string, NodeConfig>)

  datatype Problem =
    | NoNamespace
    | NoNetwork
    | TimeoutTooShort
    | FlakyThresholdTooShort
    | NoImage
    | NoOSDs
    | BadNodeType(name: string)

  // ----- Sums over maps, independent of the order in which keys are visited -----

  ghost function SumOf(m: map<string, int>): int
  {
    if m == map[] then 0 else
      var k :| k in m;
      m[k] + SumOf(m - {k})
  }

  lemma {:induction false} SumOfRemove(m: map<string, int>, k: string)
    requires k in m
    ensures SumOf(m) == m[k] + SumOf(m - {k})
    decreases |m|
  {
    var j :| j in m && SumOf(m) == m[j] + SumOf(m - {j});
    if j != k {
      SumOfRemove(m - {j}, k);
      SumOfRemove(m - {k}, j);
      assert m - {j} - {k} == m - {k} - {j};
    }
  }

  ghost function OSDCounts(nodeTypes: map<string, NodeConfig>): map<string, int>
  {
    map t | t in nodeTypes :: nodeTypes[t].osdsPerNode
  }

  method TotalOSDsPerNode(cfg: Config) returns (total: int)
    ensures total == SumOf(OSDCounts(cfg.nodeTypes))
  {
    total := 0;
    var rest := cfg.nodeTypes;
    while rest != map[]
      invariant total + SumOf(OSDCounts(rest)) == SumOf(OSDCounts(cfg.nodeTypes))
      decreases |rest|
    {
      var t :| t in rest;
      SumOfRemove(OSDCounts(rest), t);
      assert OSDCounts(rest - {t}) == OSDCounts(rest) - {t};
      total := total + rest[t].osdsPerNode;
      rest := rest - {t};
    }
  }

  // ----- Web server placement -----

  ghost predicate NonNegativeCounts(nodeTypes: map<string, NodeConfig>)
  {
    forall t :: t in nodeTypes ==> nodeTypes[t].osdsPerNode >= 0 && nodeTypes[t].otherDaemonsPerNode >= 0
  }

  predicate Better(a: NodeConfig, b: NodeConfig)
  {
    a.osdsPerNode > b.osdsPerNode
    || (a.osdsPerNode == b.osdsPerNode && a.otherDaemonsPerNode > b.otherDaemonsPerNode)
  }

  // No node type has more OSDs per node, or as many and more other daemons.
  ghost predicate IsBest(nodeTypes: map<string, NodeConfig>, best: NodeConfig)
  {
    forall u :: u in nodeTypes ==>
      && nodeTypes[u].osdsPerNode <= best.osdsPerNode
      && (nodeTypes[u].osdsPerNode == best.osdsPerNode ==> nodeTypes[u].otherDaemonsPerNode <= best.otherDaemonsPerNode)
  }

  ghost predicate HasOSDs(nodeTypes: map<string, NodeConfig>)
  {
    exists t :: t in nodeTypes && nodeTypes[t].osdsPerNode > 0
  }

  // Whatever order the node types are visited in, a placement is found exactly when some node type
  // has OSDs, and it belongs to a node type that no other node type beats.
  method BestNodePlacementForServer(cfg: Config) returns (placement: Option<PlacementConfig>)
    ensures placement.Some? <==> HasOSDs(cfg.nodeTypes)
    ensures placement.Some? ==>
              exists t :: t in cfg.nodeTypes && cfg.nodeTypes[t].placement == placement.value
                          && cfg.nodeTypes[t].osdsPerNode > 0 && IsBest(cfg.nodeTypes, cfg.nodeTypes[t])
  {
    var none := NodeConfig(0, 0, PlacementConfig(map[], []));
    var best := none;
    var rest := cfg.nodeTypes;
    while rest != map[]
      invariant forall u :: u in rest ==> u in cfg.nodeTypes && rest[u] == cfg.nodeTypes[u]
      invariant best == none || exists t :: t in cfg.nodeTypes && cfg.nodeTypes[t] == best
      invariant best.osdsPerNode >= 0
      invariant forall u :: u in cfg.nodeTypes && u !in rest ==> !Better(cfg.nodeTypes[u], best)
      decreases |rest|
    {
      var t :| t in rest;
      if Better(rest[t], best) {
        best := rest[t];
      }
      rest := rest - {t};
    }
    if best.osdsPerNode == 0 {
      return None;
    }
    return Some(best.placement);
  }

  lemma {:induction false} NoOSDsSumsToZero(nodeTypes: map<string, NodeConfig>)
    requires NonNegativeCounts(nodeTypes) && !HasOSDs(nodeTypes)
    ensures SumOf(OSDCounts(nodeTypes)) == 0
    decreases |nodeTypes|
  {
    if nodeTypes == map[] {
      assert OSDCounts(nodeTypes) == map[];
    } else {
      var t :| t in nodeTypes;
      var rest := nodeTypes - {t};
      assert OSDCounts(nodeTypes) - {t} == OSDCounts(rest);
      SumOfRemove(OSDCounts(nodeTypes), t);
      assert forall u :: u in rest ==> u in nodeTypes && rest[u] == nodeTypes[u];
      NoOSDsSumsToZero(rest);
    }
  }

  // ----- Validate -----

  predicate AlphaNumeric(c: char)
  {
    'a' <= c <= 'z' || '0' <= c <= '9'
  }

  // RFC 1123 subdomain, as Kubernetes checks it: dot-separated labels of lower-case letters, digits
  // and inner dashes, 253 characters at most.
  predicate IsDNS1123Subdomain(s: string)
  {
    && 0 < |s| <= 253
    && AlphaNumeric(s[0]) && AlphaNumeric(s[|s| - 1])
    && (forall i :: 0 <= i < |s| ==> AlphaNumeric(s[i]) || s[i] == '-' || s[i] == '.')
    && (forall i :: 0 < i < |s| - 1 && s[i] == '.' ==> AlphaNumeric(s[i - 1]) && AlphaNumeric(s[i + 1]))
  }

  ghost predicate ValidSettings(cfg: Config)
  {
    && cfg.namespace != ""
    && !(cfg.publicNetwork == "" && cfg.clusterNetwork == "")
    && cfg.resourceTimeout >= MINUTE
    && cfg.flakyThreshold >= 5 * SECOND
    && cfg.nginxImage != ""
    && SumOf(OSDCounts(cfg.nodeTypes)) != 0
  }

  ghost predicate ValidConfig(cfg: Config)
  {
    ValidSettings(cfg) && forall t :: t in cfg.nodeTypes ==> IsDNS1123Subdomain(t)
  }

  // What is wrong with a config.
  ghost predicate HasProblem(cfg: Config, problem: Problem)
  {
    match problem
    case NoNamespace => cfg.namespace == ""
    case NoNetwork => cfg.publicNetwork == "" && cfg.clusterNetwork == ""
    case TimeoutTooShort => cfg.resourceTimeout < MINUTE
    case FlakyThresholdTooShort => cfg.flakyThreshold < 5 * SECOND
    case NoImage => cfg.nginxImage == ""
    case NoOSDs => SumOf(OSDCounts(cfg.nodeTypes)) == 0
    case BadNodeType(name) => name in cfg.nodeTypes && !IsDNS1123Subdomain(name)
  }

  method AddIf(problems: seq<Problem>, wrong: bool, problem: Problem) returns (more: seq<Problem>)
    ensures forall p :: p in more <==> p in problems || (wrong && p == problem)
  {
    more := if wrong then problems + [problem] else problems;
  }

  method SettingProblems(cfg: Config) returns (problems: seq<Problem>)
    ensures forall p :: p in problems <==> !p.BadNodeType? && HasProblem(cfg, p)
  {
    problems := AddIf([], cfg.namespace == "", NoNamespace);
    problems := AddIf(problems, cfg.publicNetwork == "" && cfg.clusterNetwork == "", NoNetwork);
    problems := AddIf(problems, cfg.resourceTimeout < MINUTE, TimeoutTooShort);
    problems := AddIf(problems, cfg.flakyThreshold < 5 * SECOND, FlakyThresholdTooShort);
    problems := AddIf(problems, cfg.nginxImage == "", NoImage);
    var total := TotalOSDsPerNode(cfg);
    problems := AddIf(problems, total == 0, NoOSDs);
  }

  // Every problem of the config is listed, and no other.
  method Validate(cfg: Config) returns (problems: seq<Problem>)
    ensures forall p :: p in problems <==> HasProblem(cfg, p)
    ensures problems == [] <==> ValidConfig(cfg)
  {
    problems := SettingProblems(cfg);
    var rest := cfg.nodeTypes.Keys;
    while rest != {}
      invariant rest <= cfg.nodeTypes.Keys
      invariant forall p :: p in problems <==> HasProblem(cfg, p) && !(p.BadNodeType? && p.name in rest)
      decreases rest
    {
      var t :| t in rest;
      problems := AddIf(problems, !IsDNS1123Subdomain(t), BadNodeType(t));
      rest := rest - {t};
    }
    NoProblems(cfg, problems);
  }

  lemma NoProblems(cfg: Config, problems: seq<Problem>)
    requires forall p :: p in problems <==> HasProblem(cfg, p)
    ensures problems == [] <==> ValidConfig(cfg)
  {
    assert problems != [] ==> problems[0] in problems;
    assert problems == [] ==> forall p :: !HasProblem(cfg, p);
    if problems == [] {
      assert !HasProblem(cfg, NoNamespace) && !HasProblem(cfg, NoNetwork) && !HasProblem(cfg, TimeoutTooShort);
      assert !HasProblem(cfg, FlakyThresholdTooShort) && !HasProblem(cfg, NoImage) && !HasProblem(cfg, NoOSDs);
      forall t | t in cfg.nodeTypes ensures IsDNS1123Subdomain(t) {
        assert !HasProblem(cfg, BadNodeType(t));
      }
    }
  }

  // A config that passes `Validate` names at least one node type, and with non-negative counts the
  // web server can be placed.
  lemma ValidConfigIsPlaceable(cfg: Config)
    requires ValidConfig(cfg)
    ensures cfg.nodeTypes != map[]
    ensures NonNegativeCounts(cfg.nodeTypes) ==> HasOSDs(cfg.nodeTypes)
  {
    assert cfg.nodeTypes == map[] ==> OSDCounts(cfg.nodeTypes) == map[];
    if NonNegativeCounts(cfg.nodeTypes) && !HasOSDs(cfg.nodeTypes) {
      NoOSDsSumsToZero(cfg.nodeTypes);
    }
  }
}
