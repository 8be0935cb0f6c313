/**
 Which of the nodes named in a storage spec get OSDs: two opposite nested-loop joins between the spec's
 nodes and the cluster's nodes, with the validity filter between them.
 */
module ValidNodes {
  import opened Wrappers
  import opened NodePlacement

  // A node entry of the storage spec; everything but its name is kept as it is.
  datatype RookNode = RookNode(name: string, settings: string)

  datatype KubeNode = KubeNode(
    name: string, hostnameLabel: string, unschedulable: bool, ready: bool, node: Node)

  function Hostname(kn: KubeNode): string
  {
    if kn.hostnameLabel == "" then kn.name else kn.hostnameLabel
  }

  predicate Matches(rn: RookNode, kn: KubeNode)
  {
    rn.name == Hostname(kn) || rn.name == kn.name
  }

  // ValidNode: schedulable, meets the placement, ready; scheduleAlways waives the first and the last.
  predicate IsValid(kn: KubeNode, placement: Placement, scheduleAlways: bool)
  {
    && (!kn.unschedulable || scheduleAlways)
    && MeetsPlacement(kn.node, placement, false) == Yes
    && (kn.ready || scheduleAlways)
  }

  method ValidNode(kn: KubeNode, placement: Placement, scheduleAlways: bool) returns (valid: bool)
    ensures valid <==> IsValid(kn, placement, scheduleAlways)
  {
    if kn.unschedulable && !scheduleAlways {
      return false;
    }
    var answer := NodeMeetsPlacementTerms(kn.node, placement, false);
    if answer != Yes {
      return false;
    }
    if !kn.ready {
      return scheduleAlways;
    }
    return true;
  }

  // ----- The joins as functions -----

  // The first of the cluster's nodes that an entry matches, if any.
  function FirstMatch(rn: RookNode, kns: seq<KubeNode>): seq<KubeNode>
  {
    if kns == [] then []
    else
      var before := FirstMatch(rn, kns[..|kns| - 1]);
      if before != [] then before
      else if Matches(rn, kns[|kns| - 1]) then [kns[|kns| - 1]]
      else []
  }

  function KubeNodesFor(rns: seq<RookNode>, kns: seq<KubeNode>): seq<KubeNode>
  {
    if rns == [] then [] else KubeNodesFor(rns[..|rns| - 1], kns) + FirstMatch(rns[|rns| - 1], kns)
  }

  function OnlyValid(kns: seq<KubeNode>, placement: Placement, scheduleAlways: bool): seq<KubeNode>
  {
    if kns == [] then []
    else
      var last := kns[|kns| - 1];
      OnlyValid(kns[..|kns| - 1], placement, scheduleAlways)
      + if IsValid(last, placement, scheduleAlways) then [last] else []
  }

  // The entries that match one of the cluster's nodes, under its host name.
  function EntriesFor(rns: seq<RookNode>, kn: KubeNode): seq<RookNode>
  {
    if rns == [] then []
    else
      var last := rns[|rns| - 1];
      EntriesFor(rns[..|rns| - 1], kn) + if Matches(last, kn) then [last.(name := Hostname(kn))] else []
  }

  function RookNodesFor(rns: seq<RookNode>, kns: seq<KubeNode>): seq<RookNode>
  {
    if kns == [] then [] else RookNodesFor(rns, kns[..|kns| - 1]) + EntriesFor(rns, kns[|kns| - 1])
  }

  // ----- The joins as the code runs them -----

  method GetKubernetesNodesMatchingRookNodes(rns: seq<RookNode>, kns: seq<KubeNode>) returns (nodes: seq<KubeNode>)
    ensures nodes == KubeNodesFor(rns, kns)
  {
    nodes := [];
    for i := 0 to |rns|
      invariant nodes == KubeNodesFor(rns[..i], kns)
    {
      ghost var before := nodes;
      assert rns[..i + 1][..i] == rns[..i];
      var nodeFound := false;
      for k := 0 to |kns|
        invariant !nodeFound && nodes == before && FirstMatch(rns[i], kns[..k]) == []
      {
        assert kns[..k + 1][..k] == kns[..k];
        if Matches(rns[i], kns[k]) {
          nodes := nodes + [kns[k]];
          nodeFound := true;
          FirstMatchStays(rns[i], kns, k + 1);
          break;
        }
      }
      assert !nodeFound ==> kns[..|kns|] == kns;
    }
    assert rns[..|rns|] == rns;
  }

  lemma {:induction false} FirstMatchStays(rn: RookNode, kns: seq<KubeNode>, k: nat)
    requires k <= |kns| && FirstMatch(rn, kns[..k]) != []
    ensures FirstMatch(rn, kns) == FirstMatch(rn, kns[..k])
    decreases |kns|
  {
    if k == |kns| {
      assert kns[..k] == kns;
    } else {
      assert kns[..|kns| - 1][..k] == kns[..k];
      FirstMatchStays(rn, kns[..|kns| - 1], k);
    }
  }

  method RookNodesMatchingKubernetesNodes(rns: seq<RookNode>, kns: seq<KubeNode>) returns (nodes: seq<RookNode>)
    ensures nodes == RookNodesFor(rns, kns)
  {
    nodes := [];
    for k := 0 to |kns|
      invariant nodes == RookNodesFor(rns, kns[..k])
    {
      ghost var before := nodes;
      assert kns[..k + 1][..k] == kns[..k];
      for i := 0 to |rns|
        invariant nodes == before + EntriesFor(rns[..i], kns[k])
      {
        assert rns[..i + 1][..i] == rns[..i];
        if Matches(rns[i], kns[k]) {
          nodes := nodes + [rns[i].(name := Hostname(kns[k]))];
        }
      }
      assert rns[..|rns|] == rns;
    }
    assert kns[..|kns|] == kns;
  }

  // ----- What comes out, by the fields of the entries and nodes -----

  predicate Names(rn: RookNode, kn: KubeNode)
  {
    rn.name == kn.name || (kn.hostnameLabel != "" && rn.name == kn.hostnameLabel)
  }

  // The node is in order, or the spec schedules always; and it meets the placement.
  predicate Usable(kn: KubeNode, placement: Placement, scheduleAlways: bool)
  {
    (scheduleAlways || (kn.ready && !kn.unschedulable)) && MeetsPlacement(kn.node, placement, false) == Yes
  }

  // Node k is the first of the cluster's nodes that some entry names.
  ghost predicate Chosen(rns: seq<RookNode>, kns: seq<KubeNode>, k: int)
  {
    exists i :: 0 <= i < |rns| && NamesFirst(rns[i], kns, k)
  }

  ghost predicate NamesFirst(rn: RookNode, kns: seq<KubeNode>, k: int)
  {
    0 <= k < |kns| && Names(rn, kns[k]) && forall j :: 0 <= j < k ==> !Names(rn, kns[j])
  }

  // The entry x is an entry of the spec under the host name of a chosen and usable node that it names.
  ghost predicate Belongs(
    x: RookNode, rns: seq<RookNode>, kns: seq<KubeNode>, placement: Placement, scheduleAlways: bool)
  {
    exists k :: 0 <= k < |kns| && Chosen(rns, kns, k) && Usable(kns[k], placement, scheduleAlways)
                && IsEntryFor(x, rns, kns[k])
  }

  ghost predicate IsEntryFor(x: RookNode, rns: seq<RookNode>, kn: KubeNode)
  {
    && x.name == (if kn.hostnameLabel == "" then kn.name else kn.hostnameLabel)
    && exists i :: 0 <= i < |rns| && Names(rns[i], kn) && x.settings == rns[i].settings
  }

  lemma {:induction false} FirstMatchAt(rn: RookNode, kns: seq<KubeNode>, kn: KubeNode)
    ensures FirstMatch(rn, kns) == [kn] <==> exists k :: NamesFirst(rn, kns, k) && kns[k] == kn
    ensures FirstMatch(rn, kns) == [] <==> forall k :: 0 <= k < |kns| ==> !Names(rn, kns[k])
    ensures |FirstMatch(rn, kns)| <= 1
  {
    if kns != [] {
      var init, last := kns[..|kns| - 1], kns[|kns| - 1];
      assert Names(rn, last) <==> Matches(rn, last);
      hide Names, Matches;
      FirstMatchAt(rn, init, kn);
      FirstMatchAt(rn, init, last);
      assert forall k :: 0 <= k < |init| ==> init[k] == kns[k];
      assert forall k :: 0 <= k < |init| ==> (NamesFirst(rn, kns, k) <==> NamesFirst(rn, init, k));
      if FirstMatch(rn, init) == [] && Names(rn, last) {
        assert NamesFirst(rn, kns, |init|);
      }
    }
  }

  lemma {:induction false} ChosenNodes(rns: seq<RookNode>, kns: seq<KubeNode>, kn: KubeNode)
    ensures kn in KubeNodesFor(rns, kns) <==> exists i :: 0 <= i < |rns| && FirstMatch(rns[i], kns) == [kn]
  {
    if rns != [] {
      hide FirstMatch;
      var init, last := rns[..|rns| - 1], rns[|rns| - 1];
      FirstMatchAt(last, kns, kn);
      ChosenNodes(init, kns, kn);
      assert forall i :: 0 <= i < |init| ==> init[i] == rns[i];
    }
  }

  lemma {:induction false} OnlyUsable(kns: seq<KubeNode>, placement: Placement, scheduleAlways: bool, kn: KubeNode)
    ensures kn in OnlyValid(kns, placement, scheduleAlways) <==> kn in kns && Usable(kn, placement, scheduleAlways)
  {
    if kns != [] {
      hide MeetsPlacement;
      OnlyUsable(kns[..|kns| - 1], placement, scheduleAlways, kn);
      assert kns == kns[..|kns| - 1] + [kns[|kns| - 1]];
    }
  }

  lemma {:induction false} EntriesAre(x: RookNode, rns: seq<RookNode>, kn: KubeNode)
    ensures x in EntriesFor(rns, kn) <==> IsEntryFor(x, rns, kn)
  {
    if rns != [] {
      var init, last := rns[..|rns| - 1], rns[|rns| - 1];
      EntriesAre(x, init, kn);
      assert Names(last, kn) <==> Matches(last, kn);
      assert forall i :: 0 <= i < |init| ==> init[i] == rns[i];
    }
  }

  lemma {:induction false} EntriesOfAll(x: RookNode, rns: seq<RookNode>, kns: seq<KubeNode>)
    ensures x in RookNodesFor(rns, kns) <==> exists kn :: kn in kns && IsEntryFor(x, rns, kn)
  {
    if kns != [] {
      hide IsEntryFor;
      var init, last := kns[..|kns| - 1], kns[|kns| - 1];
      EntriesOfAll(x, rns, init);
      EntriesAre(x, rns, last);
      assert kns == init + [last];
    }
  }

  // Every returned entry belongs, and every entry that belongs is returned.
  lemma SelectedBelongs(
    x: RookNode, rns: seq<RookNode>, kns: seq<KubeNode>, placement: Placement, scheduleAlways: bool)
    ensures x in Selected(rns, kns, placement, scheduleAlways) <==> Belongs(x, rns, kns, placement, scheduleAlways)
  {
    hide IsEntryFor, Usable, OnlyValid, RookNodesFor, KubeNodesFor, FirstMatch, Chosen;
    var found := KubeNodesFor(rns, kns);
    var valid := OnlyValid(found, placement, scheduleAlways);
    EntriesOfAll(x, rns, valid);
    if x in Selected(rns, kns, placement, scheduleAlways) {
      var kn :| kn in valid && IsEntryFor(x, rns, kn);
      OnlyUsable(found, placement, scheduleAlways, kn);
      var k := ChosenAt(rns, kns, kn);
    }
    if Belongs(x, rns, kns, placement, scheduleAlways) {
      var k :| 0 <= k < |kns| && Chosen(rns, kns, k) && Usable(kns[k], placement, scheduleAlways)
               && IsEntryFor(x, rns, kns[k]);
      ChosenIsFound(rns, kns, k);
      OnlyUsable(found, placement, scheduleAlways, kns[k]);
    }
  }

  lemma ChosenAt(rns: seq<RookNode>, kns: seq<KubeNode>, kn: KubeNode) returns (k: int)
    requires kn in KubeNodesFor(rns, kns)
    ensures 0 <= k < |kns| && Chosen(rns, kns, k) && kns[k] == kn
  {
    hide KubeNodesFor, FirstMatch;
    ChosenNodes(rns, kns, kn);
    var i :| 0 <= i < |rns| && FirstMatch(rns[i], kns) == [kn];
    FirstMatchAt(rns[i], kns, kn);
    k :| NamesFirst(rns[i], kns, k) && kns[k] == kn;
  }

  lemma ChosenIsFound(rns: seq<RookNode>, kns: seq<KubeNode>, k: int)
    requires 0 <= k < |kns| && Chosen(rns, kns, k)
    ensures kns[k] in KubeNodesFor(rns, kns)
  {
    hide KubeNodesFor, FirstMatch;
    var i :| 0 <= i < |rns| && NamesFirst(rns[i], kns, k);
    FirstMatchAt(rns[i], kns, kns[k]);
    ChosenNodes(rns, kns, kns[k]);
  }

  // `listed` is None when the cluster's nodes cannot be listed.
  method GetValidNodes(rns: seq<RookNode>, listed: Option<seq<KubeNode>>, placement: Placement, scheduleAlways: bool)
    returns (nodes: seq<RookNode>)
    ensures nodes == if listed.None? then [] else Selected(rns, listed.value, placement, scheduleAlways)
    ensures forall x :: x in nodes <==> listed.Some? && Belongs(x, rns, listed.value, placement, scheduleAlways)
  {
    hide Belongs;
    if listed.Some? {
      forall x ensures x in Selected(rns, listed.value, placement, scheduleAlways) <==>
                       Belongs(x, rns, listed.value, placement, scheduleAlways) {
        SelectedBelongs(x, rns, listed.value, placement, scheduleAlways);
      }
    }
    if listed.None? {
      return [];
    }
    var matching := GetKubernetesNodesMatchingRookNodes(rns, listed.value);
    var valid: seq<KubeNode> := [];
    for i := 0 to |matching|
      invariant valid == OnlyValid(matching[..i], placement, scheduleAlways)
    {
      assert matching[..i + 1][..i] == matching[..i];
      var ok := ValidNode(matching[i], placement, scheduleAlways);
      if ok {
        valid := valid + [matching[i]];
      }
    }
    assert matching[..|matching|] == matching;
    nodes := RookNodesMatchingKubernetesNodes(rns, valid);
  }

  function Selected(rns: seq<RookNode>, kns: seq<KubeNode>, placement: Placement, scheduleAlways: bool): seq<RookNode>
  {
    RookNodesFor(rns, OnlyValid(KubeNodesFor(rns, kns), placement, scheduleAlways))
  }

  // ----- What should come out -----

  // An entry under the host name of the node it matches, if there is one and it is valid.
  function ValidEntry(rn: RookNode, kns: seq<KubeNode>, placement: Placement, scheduleAlways: bool): seq<RookNode>
  {
    var found := OnlyValid(FirstMatch(rn, kns), placement, scheduleAlways);
    if found == [] then [] else [rn.(name := Hostname(found[0]))]
  }

  // Each valid entry once, in the order of the spec.
  function ValidEntries(
    rns: seq<RookNode>, kns: seq<KubeNode>, placement: Placement, scheduleAlways: bool): seq<RookNode>
  {
    if rns == [] then []
    else
      ValidEntries(rns[..|rns| - 1], kns, placement, scheduleAlways)
      + ValidEntry(rns[|rns| - 1], kns, placement, scheduleAlways)
  }

  // Each valid node that an entry selects is matched by that entry alone.
  ghost predicate OneEntryPerNode(rns: seq<RookNode>, kns: seq<KubeNode>, placement: Placement, scheduleAlways: bool)
  {
    forall i, j :: 0 <= i < |rns| && 0 <= j < |rns| && i != j ==>
      !SharesNode(rns[i], rns[j], kns, placement, scheduleAlways)
  }

  ghost predicate SharesNode(
    rn: RookNode, other: RookNode, kns: seq<KubeNode>, placement: Placement, scheduleAlways: bool)
  {
    var found := FirstMatch(rn, kns);
    found != [] && IsValid(found[0], placement, scheduleAlways) && Matches(other, found[0])
  }

  // ----- The joins deliver it exactly when no two entries share a node -----

  lemma {:induction false} FirstMatchMatches(rn: RookNode, kns: seq<KubeNode>)
    ensures var found := FirstMatch(rn, kns); |found| <= 1 && (found != [] ==> Matches(rn, found[0]))
  {
    if kns != [] {
      FirstMatchMatches(rn, kns[..|kns| - 1]);
    }
  }

  lemma {:induction false} OnlyValidConcat(
    a: seq<KubeNode>, b: seq<KubeNode>, placement: Placement, scheduleAlways: bool)
    ensures OnlyValid(a + b, placement, scheduleAlways)
         == OnlyValid(a, placement, scheduleAlways) + OnlyValid(b, placement, scheduleAlways)
  {
    if b == [] {
      assert a + b == a;
    } else {
      assert (a + b)[..|a + b| - 1] == a + b[..|b| - 1];
      OnlyValidConcat(a, b[..|b| - 1], placement, scheduleAlways);
    }
  }

  lemma {:induction false} RookNodesForConcat(rns: seq<RookNode>, a: seq<KubeNode>, b: seq<KubeNode>)
    ensures RookNodesFor(rns, a + b) == RookNodesFor(rns, a) + RookNodesFor(rns, b)
  {
    if b == [] {
      assert a + b == a;
    } else {
      assert (a + b)[..|a + b| - 1] == a + b[..|b| - 1];
      RookNodesForConcat(rns, a, b[..|b| - 1]);
    }
  }

  // The entries for a node that entry i matches: at least that one, and just that one if it is alone.
  lemma {:induction false} EntriesForShape(rns: seq<RookNode>, kn: KubeNode, i: nat)
    requires i < |rns| && Matches(rns[i], kn)
    ensures |EntriesFor(rns, kn)| >= 1
    ensures (forall j :: 0 <= j < |rns| && j != i ==> !Matches(rns[j], kn)) ==>
              EntriesFor(rns, kn) == [rns[i].(name := Hostname(kn))]
    ensures (exists j :: 0 <= j < |rns| && j != i && Matches(rns[j], kn)) ==> |EntriesFor(rns, kn)| >= 2
    decreases |rns|
  {
    var init := rns[..|rns| - 1];
    if i < |init| {
      EntriesForShape(init, kn, i);
      assert forall j :: 0 <= j < |init| ==> init[j] == rns[j];
    } else {
      EntriesForOthers(init, kn);
      assert forall j :: 0 <= j < |init| ==> init[j] == rns[j];
    }
  }

  lemma {:induction false} EntriesForOthers(rns: seq<RookNode>, kn: KubeNode)
    ensures EntriesFor(rns, kn) == [] <==> forall j :: 0 <= j < |rns| ==> !Matches(rns[j], kn)
  {
    if rns != [] {
      var init := rns[..|rns| - 1];
      EntriesForOthers(init, kn);
      assert forall j :: 0 <= j < |init| ==> init[j] == rns[j];
    }
  }

  // What entry i contributes to the result.
  function Contribution(
    rns: seq<RookNode>, i: nat, kns: seq<KubeNode>, placement: Placement, scheduleAlways: bool): seq<RookNode>
    requires i < |rns|
  {
    RookNodesFor(rns, OnlyValid(FirstMatch(rns[i], kns), placement, scheduleAlways))
  }

  lemma ContributionShape(rns: seq<RookNode>, i: nat, kns: seq<KubeNode>, placement: Placement, scheduleAlways: bool)
    requires i < |rns|
    ensures var c := Contribution(rns, i, kns, placement, scheduleAlways);
            var v := ValidEntry(rns[i], kns, placement, scheduleAlways);
            && |c| >= |v|
            && ((forall j :: 0 <= j < |rns| && j != i ==>
                   !SharesNode(rns[i], rns[j], kns, placement, scheduleAlways)) ==> c == v)
            && ((exists j :: 0 <= j < |rns| && j != i &&
                   SharesNode(rns[i], rns[j], kns, placement, scheduleAlways)) ==> |c| > |v|)
  {
    hide IsValid, Matches, Hostname, FirstMatch, OnlyValid, RookNodesFor, EntriesFor;
    var found := FirstMatch(rns[i], kns);
    FirstMatchMatches(rns[i], kns);
    if found != [] {
      assert found == [found[0]];
      EntriesForShape(rns, found[0], i);
      OnlyOne(rns, found[0], placement, scheduleAlways);
    }
    NoneLeft(rns, placement, scheduleAlways);
  }

  lemma OnlyOne(rns: seq<RookNode>, kn: KubeNode, placement: Placement, scheduleAlways: bool)
    ensures OnlyValid([kn], placement, scheduleAlways) == if IsValid(kn, placement, scheduleAlways) then [kn] else []
    ensures RookNodesFor(rns, [kn]) == EntriesFor(rns, kn)
  {
    hide IsValid, EntriesFor;
    assert [kn][..0] == [];
  }

  lemma NoneLeft(rns: seq<RookNode>, placement: Placement, scheduleAlways: bool)
    ensures OnlyValid([], placement, scheduleAlways) == [] && RookNodesFor(rns, []) == []
  {
  }

  // The result is the contributions of the entries in order; n is how many entries are counted.
  lemma {:induction false} SelectedByEntries(
    rns: seq<RookNode>, n: nat, kns: seq<KubeNode>, placement: Placement, scheduleAlways: bool)
    requires n <= |rns|
    ensures var s := RookNodesFor(rns, OnlyValid(KubeNodesFor(rns[..n], kns), placement, scheduleAlways));
            var v := ValidEntries(rns[..n], kns, placement, scheduleAlways);
            && |s| >= |v|
            && ((forall i, j :: 0 <= i < n && 0 <= j < |rns| && i != j ==>
                   !SharesNode(rns[i], rns[j], kns, placement, scheduleAlways)) ==> s == v)
            && ((exists i, j :: 0 <= i < n && 0 <= j < |rns| && i != j &&
                   SharesNode(rns[i], rns[j], kns, placement, scheduleAlways)) ==> |s| > |v|)
  {
    if n > 0 {
      hide SharesNode, FirstMatch, ValidEntry, IsValid;
      var k := KubeNodesFor(rns[..n - 1], kns);
      var f := FirstMatch(rns[n - 1], kns);
      assert rns[..n][..n - 1] == rns[..n - 1];
      SelectedByEntries(rns, n - 1, kns, placement, scheduleAlways);
      OnlyValidConcat(k, f, placement, scheduleAlways);
      RookNodesForConcat(rns, OnlyValid(k, placement, scheduleAlways), OnlyValid(f, placement, scheduleAlways));
      ContributionShape(rns, n - 1, kns, placement, scheduleAlways);
    }
  }

  // The result is exactly the valid entries of the spec, in order and once each, with only the name
  // changed, if and only if no valid node selected by one entry is also matched by another.
  lemma ValidNodesExact(rns: seq<RookNode>, kns: seq<KubeNode>, placement: Placement, scheduleAlways: bool)
    ensures Selected(rns, kns, placement, scheduleAlways) == ValidEntries(rns, kns, placement, scheduleAlways)
            <==> OneEntryPerNode(rns, kns, placement, scheduleAlways)
  {
    hide SharesNode, FirstMatch, ValidEntry, IsValid, RookNodesFor, OnlyValid, KubeNodesFor, ValidEntries;
    assert rns[..|rns|] == rns;
    SelectedByEntries(rns, |rns|, kns, placement, scheduleAlways);
  }

  lemma SelectedTwice(a: RookNode, b: RookNode, kn: KubeNode)
    requires Matches(a, kn) && Matches(b, kn)
    ensures KubeNodesFor([a, b], [kn]) == [kn, kn]
  {
    assert [a, b][..1] == [a] && [a][..0] == [] && [kn][..0] == [];
    assert FirstMatch(a, [kn]) == [kn];
    assert FirstMatch(b, [kn]) == [kn];
    hide FirstMatch;
    assert KubeNodesFor([a], [kn]) == [kn];
  }

  lemma ValidTwice(kn: KubeNode, placement: Placement, scheduleAlways: bool)
    requires IsValid(kn, placement, scheduleAlways)
    ensures OnlyValid([kn, kn], placement, scheduleAlways) == [kn, kn]
  {
    hide IsValid;
    assert [kn, kn][..1] == [kn] && [kn][..0] == [];
    assert OnlyValid([kn], placement, scheduleAlways) == [kn];
  }

  lemma ListedTwice(rns: seq<RookNode>, kn: KubeNode)
    ensures RookNodesFor(rns, [kn, kn]) == EntriesFor(rns, kn) + EntriesFor(rns, kn)
  {
    hide EntriesFor;
    assert [kn, kn][..1] == [kn] && [kn][..0] == [];
    assert RookNodesFor(rns, [kn]) == EntriesFor(rns, kn);
  }

  // Two entries for one valid node: each comes out twice.
  lemma TwoEntriesForOne(a: RookNode, b: RookNode, kn: KubeNode, placement: Placement, scheduleAlways: bool)
    requires Matches(a, kn) && Matches(b, kn) && IsValid(kn, placement, scheduleAlways)
    ensures Selected([a, b], [kn], placement, scheduleAlways) ==
            var h := Hostname(kn); [a.(name := h), b.(name := h), a.(name := h), b.(name := h)]
  {
    SelectedTwice(a, b, kn);
    ValidTwice(kn, placement, scheduleAlways);
    ListedTwice([a, b], kn);
    hide Matches, IsValid, Hostname, KubeNodesFor, OnlyValid, RookNodesFor;
    assert [a, b][..1] == [a] && [a][..0] == [];
    assert EntriesFor([a], kn) == [a.(name := Hostname(kn))];
    assert EntriesFor([a, b], kn) == [a.(name := Hostname(kn)), b.(name := Hostname(kn))];
  }

  // One node named twice, by its host name and by its node name: each entry comes out twice.
  lemma SameNodeTwice(node: Node)
    requires node.taints == []
    ensures var kn := KubeNode("node", "host", false, true, node);
            var a, b := RookNode("host", ""), RookNode("host", "");
            Selected([RookNode("host", ""), RookNode("node", "")], [kn], Placement(None, None, None, None, None), false)
            == [a, b, a, b]
  {
    var kn := KubeNode("node", "host", false, true, node);
    hide RookNodesFor, OnlyValid, KubeNodesFor, Selected;
    TwoEntriesForOne(RookNode("host", ""), RookNode("node", ""), kn, Placement(None, None, None, None, None), false);
  }
}
