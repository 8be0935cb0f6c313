/**
 Placement merging against the meaning that node selection gives to it: what a merged node affinity
 and merged tolerations accept, for every node.
 */
module NodePlacement {
  import opened Wrappers

  datatype Requirement = Requirement(key: string, operator: string, values: seq<string>)

  datatype Term = Term(matchExpressions: seq<Requirement>, matchFields: seq<Requirement>)

  datatype Preferred = Preferred(weight: int, preference: Term)

  // `required`: None when unset, otherwise its terms.
  datatype NodeAffinity = NodeAffinity(preferred: seq<Preferred>, required: Option<seq<Term>>)

  datatype Toleration = Toleration(key: string, operator: string, value: string, effect: string)

  datatype Taint = Taint(key: string, value: string, effect: string)

  // How a node answers to single requirements and taints: the Kubernetes library's part.
  datatype Node = Node(
    name: string,
    taints: seq<Taint>,
    accepted: Requirement -> bool,           // labels.NewRequirement accepts it
    holds: Requirement -> bool,              // it matches the node's labels
    tolerates: (Toleration, Taint) -> bool)

  // ----- What an affinity means for a node -----

  const OPERATORS: set<string> := {"In", "NotIn", "Exists", "DoesNotExist", "Gt", "Lt"}

  datatype Answer = Yes | No | Malformed

  predicate WellFormed(node: Node, r: Requirement)
  {
    r.operator in OPERATORS && node.accepted(r)
  }

  predicate WellFormedTerm(node: Node, t: Term)
  {
    forall i :: 0 <= i < |t.matchExpressions| ==> WellFormed(node, t.matchExpressions[i])
  }

  // A term without match expressions selects no node; its match fields are not looked at.
  predicate MeetsTerm(node: Node, t: Term)
  {
    t.matchExpressions != [] && forall i :: 0 <= i < |t.matchExpressions| ==> node.holds(t.matchExpressions[i])
  }

  // The terms in order: the first that is malformed or met decides.
  function MeetsTerms(node: Node, terms: seq<Term>): Answer
  {
    if terms == [] then No
    else if !WellFormedTerm(node, terms[0]) then Malformed
    else if MeetsTerm(node, terms[0]) then Yes
    else MeetsTerms(node, terms[1..])
  }

  function MeetsAffinity(node: Node, affinity: Option<NodeAffinity>): Answer
  {
    if affinity.None? || affinity.value.required.None? then Yes
    else MeetsTerms(node, affinity.value.required.value)
  }

  predicate WellFormedTerms(node: Node, terms: seq<Term>)
  {
    forall i :: 0 <= i < |terms| ==> WellFormedTerm(node, terms[i])
  }

  lemma {:induction false} MeetsTermsIsAny(node: Node, terms: seq<Term>)
    requires WellFormedTerms(node, terms)
    ensures MeetsTerms(node, terms) == if exists i :: 0 <= i < |terms| && MeetsTerm(node, terms[i]) then Yes else No
  {
    if terms != [] {
      MeetsTermsIsAny(node, terms[1..]);
      if exists i :: 0 <= i < |terms| && MeetsTerm(node, terms[i]) {
        var i :| 0 <= i < |terms| && MeetsTerm(node, terms[i]);
        assert i > 0 ==> terms[1..][i - 1] == terms[i];
      }
    }
  }

  // Term i decides: it is the first that is malformed or met.
  ghost predicate Decides(node: Node, terms: seq<Term>, i: int)
  {
    && 0 <= i < |terms| && (!WellFormedTerm(node, terms[i]) || MeetsTerm(node, terms[i]))
    && forall j :: 0 <= j < i ==> WellFormedTerm(node, terms[j]) && !MeetsTerm(node, terms[j])
  }

  // No term decides: the node is not accepted. Otherwise the deciding term is malformed, or it is met.
  lemma {:induction false} MeetsTermsMeans(node: Node, terms: seq<Term>)
    ensures var answer := MeetsTerms(node, terms);
            && (answer == No <==> forall i :: !Decides(node, terms, i))
            && (answer == Yes <==> exists i :: Decides(node, terms, i) && WellFormedTerm(node, terms[i]))
            && (answer == Malformed <==> exists i :: Decides(node, terms, i) && !WellFormedTerm(node, terms[i]))
  {
    hide MeetsTerm, WellFormedTerm;
    if terms != [] {
      var rest := terms[1..];
      assert forall i :: 1 <= i < |terms| ==> rest[i - 1] == terms[i];
      if !WellFormedTerm(node, terms[0]) || MeetsTerm(node, terms[0]) {
        assert Decides(node, terms, 0);
      } else {
        MeetsTermsMeans(node, rest);
        assert forall i :: Decides(node, rest, i) ==> Decides(node, terms, i + 1);
        assert forall i :: Decides(node, terms, i) ==> Decides(node, rest, i - 1);
      }
    }
  }

  // nodeSelectorRequirementsAsSelector fails if a requirement is malformed.
  method RequirementsAsSelector(node: Node, requirements: seq<Requirement>) returns (ok: bool)
    ensures ok <==> forall i :: 0 <= i < |requirements| ==> WellFormed(node, requirements[i])
  {
    for i := 0 to |requirements|
      invariant forall j :: 0 <= j < i ==> WellFormed(node, requirements[j])
    {
      if requirements[i].operator !in OPERATORS {
        return false;
      }
      if !node.accepted(requirements[i]) {
        return false;
      }
    }
    return true;
  }

  method NodeMeetsAffinityTerms(node: Node, affinity: Option<NodeAffinity>) returns (answer: Answer)
    ensures answer == MeetsAffinity(node, affinity)
  {
    if affinity.None? || affinity.value.required.None? {
      return Yes;
    }
    var terms := affinity.value.required.value;
    for i := 0 to |terms|
      invariant MeetsTerms(node, terms) == MeetsTerms(node, terms[i..])
    {
      var ok := RequirementsAsSelector(node, terms[i].matchExpressions);
      if !ok {
        return Malformed;
      }
      if MeetsTerm(node, terms[i]) {
        return Yes;
      }
      assert terms[i..][1..] == terms[i + 1..];
    }
    return No;
  }

  // ----- Merging affinities -----

  function MergeTerms(placement: seq<Term>, existing: seq<Term>): seq<Term>
    requires placement != [] && existing != []
  {
    var first := Term(existing[0].matchExpressions + placement[0].matchExpressions,
                      existing[0].matchFields + placement[0].matchFields);
    [first] + placement[1..]
  }

  function MergeNodeAffinity(placement: NodeAffinity, existing: Option<NodeAffinity>): NodeAffinity
  {
    if existing.None? then placement
    else
      var merged := placement.(preferred := existing.value.preferred + placement.preferred);
      if existing.value.required.None? then merged
      else if placement.required.None? then merged.(required := existing.value.required)
      else if existing.value.required.value == [] then merged
      else if placement.required.value == [] then merged.(required := existing.value.required)
      else merged.(required := Some(MergeTerms(placement.required.value, existing.value.required.value)))
  }

  // The conjunction of two terms, except that a term without match expressions, which accepts no node,
  // does not count.
  predicate MeetsBoth(node: Node, a: Term, b: Term)
  {
    if a.matchExpressions == [] then MeetsTerm(node, b)
    else if b.matchExpressions == [] then MeetsTerm(node, a)
    else MeetsTerm(node, a) && MeetsTerm(node, b)
  }

  lemma MergedFirstTerm(node: Node, a: Term, b: Term)
    ensures var merged := Term(a.matchExpressions + b.matchExpressions, a.matchFields + b.matchFields);
            && (WellFormedTerm(node, merged) <==> WellFormedTerm(node, a) && WellFormedTerm(node, b))
            && (MeetsTerm(node, merged) <==> MeetsBoth(node, a, b))
  {
    hide WellFormed;
    var x, y := a.matchExpressions, b.matchExpressions;
    var all := x + y;
    assert forall i :: 0 <= i < |x| ==> all[i] == x[i];
    assert forall i :: 0 <= i < |y| ==> all[|x| + i] == y[i];
    assert (forall i :: 0 <= i < |all| ==> node.holds(all[i])) <==>
           (forall i :: 0 <= i < |x| ==> node.holds(x[i])) && (forall i :: 0 <= i < |y| ==> node.holds(y[i]));
  }

  ghost predicate MeetsLater(node: Node, terms: seq<Term>)
  {
    exists i :: 1 <= i < |terms| && MeetsTerm(node, terms[i])
  }

  // Whatever the node and the terms: a malformed first term on either side makes the check fail, a node
  // that meets both first terms is accepted, and otherwise the placement's later terms decide. The later
  // terms of the other affinity are dropped unread.
  lemma MergeMeaning(node: Node, placement: NodeAffinity, existing: NodeAffinity)
    requires placement.required.Some? && existing.required.Some?
    requires placement.required.value != [] && existing.required.value != []
    ensures var p, e := placement.required.value, existing.required.value;
            var merged := MeetsAffinity(node, Some(MergeNodeAffinity(placement, Some(existing))));
            && merged == (if !WellFormedTerm(node, e[0]) || !WellFormedTerm(node, p[0]) then Malformed
                          else if MeetsBoth(node, e[0], p[0]) then Yes
                          else MeetsTerms(node, p[1..]))
            && (WellFormedTerm(node, e[0]) && WellFormedTerms(node, p) ==>
                  merged == if MeetsBoth(node, e[0], p[0]) || MeetsLater(node, p) then Yes else No)
  {
    hide MeetsBoth, MeetsTerm, WellFormedTerm;
    var p, e := placement.required.value, existing.required.value;
    var merged := MergeTerms(p, e);
    MergedFirstTerm(node, e[0], p[0]);
    assert merged[1..] == p[1..];
    if WellFormedTerms(node, p) {
      MeetsTermsIsAny(node, p[1..]);
      assert forall i :: 1 <= i < |p| ==> p[1..][i - 1] == p[i];
    }
  }

  // ----- When the merge is the conjunction, for all nodes -----

  function Reqs(t: Term): set<Requirement>
  {
    set r | r in t.matchExpressions
  }

  predicate Within(t: Term, reqs: set<Requirement>)
  {
    t.matchExpressions != [] && Reqs(t) <= reqs
  }

  predicate AnyWithin(terms: seq<Term>, reqs: set<Requirement>)
  {
    exists i :: 0 <= i < |terms| && Within(terms[i], reqs)
  }

  // The node that answers to exactly the given requirements.
  ghost function NodeHolding(reqs: set<Requirement>): Node
  {
    Node("", [], (r: Requirement) => true, (r: Requirement) => r in reqs, (t: Toleration, u: Taint) => false)
  }

  predicate KnownOperators(terms: seq<Term>)
  {
    forall i, r :: 0 <= i < |terms| && r in terms[i].matchExpressions ==> r.operator in OPERATORS
  }

  ghost predicate AgreesOn(node: Node, p: seq<Term>, e: seq<Term>)
    requires p != [] && e != []
  {
    MeetsTerms(node, MergeTerms(p, e)) == Yes <==> MeetsTerms(node, p) == Yes && MeetsTerms(node, e) == Yes
  }

  // A condition on the two lists of terms alone. With match expressions in both first terms the first
  // clause always holds. The second: what a later placement term asks for includes what some term of
  // the other affinity asks for. The third: the placement's first term and a later term of the other
  // affinity together include the other's first term or a later placement term.
  predicate Conjunctive(p: seq<Term>, e: seq<Term>)
    requires p != [] && e != []
  {
    && (var first := Reqs(p[0]) + Reqs(e[0]);
        first != {} ==> AnyWithin(p, first) && AnyWithin(e, first))
    && (forall i :: 1 <= i < |p| && p[i].matchExpressions != [] ==> AnyWithin(e, Reqs(p[i])))
    && (p[0].matchExpressions != [] ==>
          forall j :: 1 <= j < |e| && e[j].matchExpressions != [] ==>
            var both := Reqs(p[0]) + Reqs(e[j]);
            Reqs(e[0]) <= both || AnyWithin(p[1..], both))
  }

  lemma MeetsIsWithin(t: Term, reqs: set<Requirement>)
    ensures MeetsTerm(NodeHolding(reqs), t) <==> Within(t, reqs)
  {
    var node := NodeHolding(reqs);
    assert forall i :: 0 <= i < |t.matchExpressions| ==> t.matchExpressions[i] in Reqs(t);
  }

  lemma WithinIsMet(node: Node, t: Term, reqs: set<Requirement>)
    requires Within(t, reqs) && forall r :: r in reqs ==> node.holds(r)
    ensures MeetsTerm(node, t)
  {
    assert forall i :: 0 <= i < |t.matchExpressions| ==> t.matchExpressions[i] in Reqs(t);
  }

  lemma MetHolds(node: Node, t: Term)
    requires MeetsTerm(node, t)
    ensures forall r :: r in Reqs(t) ==> node.holds(r)
  {
  }

  lemma BothIsFirst(node: Node, a: Term, b: Term)
    ensures MeetsBoth(node, a, b) <==>
            Reqs(a) + Reqs(b) != {} && forall r :: r in Reqs(a) + Reqs(b) ==> node.holds(r)
  {
    TermHolds(node, a);
    TermHolds(node, b);
    hide MeetsTerm, Reqs;
    var all := Reqs(a) + Reqs(b);
    assert all != {} <==> Reqs(a) != {} || Reqs(b) != {};
    assert (forall r :: r in all ==> node.holds(r)) <==>
           (forall r :: r in Reqs(a) ==> node.holds(r)) && (forall r :: r in Reqs(b) ==> node.holds(r));
  }

  lemma TermHolds(node: Node, t: Term)
    ensures Reqs(t) == {} <==> t.matchExpressions == []
    ensures MeetsTerm(node, t) <==> Reqs(t) != {} && forall r :: r in Reqs(t) ==> node.holds(r)
  {
    assert forall i :: 0 <= i < |t.matchExpressions| ==> t.matchExpressions[i] in Reqs(t);
    assert t.matchExpressions != [] ==> t.matchExpressions[0] in Reqs(t);
  }

  ghost predicate MeetsAny(node: Node, terms: seq<Term>)
  {
    exists i :: 0 <= i < |terms| && MeetsTerm(node, terms[i])
  }

  // For well-formed terms, the two sides of the agreement in terms of single terms.
  lemma AgreementUnfolded(node: Node, p: seq<Term>, e: seq<Term>)
    requires p != [] && e != [] && WellFormedTerms(node, p) && WellFormedTerms(node, e)
    ensures AgreesOn(node, p, e) <==>
            (MeetsBoth(node, e[0], p[0]) || MeetsAny(node, p[1..]) <==> MeetsAny(node, p) && MeetsAny(node, e))
  {
    hide MeetsTerm, WellFormedTerm, MeetsBoth;
    MeetsTermsIsAny(node, p);
    MeetsTermsIsAny(node, e);
    MeetsTermsIsAny(node, p[1..]);
    MergedFirstTerm(node, e[0], p[0]);
    assert MergeTerms(p, e)[1..] == p[1..];
  }

  lemma AnyLater(node: Node, terms: seq<Term>)
    requires terms != []
    ensures MeetsAny(node, terms) <==> MeetsTerm(node, terms[0]) || MeetsAny(node, terms[1..])
  {
    if MeetsAny(node, terms) {
      var i :| 0 <= i < |terms| && MeetsTerm(node, terms[i]);
      assert i > 0 ==> terms[1..][i - 1] == terms[i];
    }
  }

  lemma AnyMet(node: Node, terms: seq<Term>, reqs: set<Requirement>)
    requires AnyWithin(terms, reqs) && forall r :: r in reqs ==> node.holds(r)
    ensures MeetsAny(node, terms)
  {
    var i :| 0 <= i < |terms| && Within(terms[i], reqs);
    WithinIsMet(node, terms[i], reqs);
  }

  lemma ConjunctiveAgrees(node: Node, p: seq<Term>, e: seq<Term>)
    requires p != [] && e != [] && Conjunctive(p, e)
    requires WellFormedTerms(node, p) && WellFormedTerms(node, e)
    ensures AgreesOn(node, p, e)
  {
    hide MeetsTerm, WellFormedTerm, MeetsBoth, Within, AnyWithin, Reqs, AgreesOn, WellFormedTerms;
    AgreementUnfolded(node, p, e);
    AnyLater(node, p);
    AnyLater(node, e);
    BothIsFirst(node, e[0], p[0]);
    if MeetsBoth(node, e[0], p[0]) {
      AnyMet(node, p, Reqs(p[0]) + Reqs(e[0]));
      AnyMet(node, e, Reqs(p[0]) + Reqs(e[0]));
    } else if MeetsAny(node, p[1..]) {
      var i :| 0 <= i < |p[1..]| && MeetsTerm(node, p[1..][i]);
      LaterIsEnough(node, p, e, i + 1);
    } else if MeetsTerm(node, p[0]) && MeetsAny(node, e) {
      FirstIsEnough(node, p, e);
    }
  }

  lemma LaterIsEnough(node: Node, p: seq<Term>, e: seq<Term>, i: nat)
    requires p != [] && e != [] && Conjunctive(p, e) && 1 <= i < |p| && MeetsTerm(node, p[i])
    ensures MeetsAny(node, e)
  {
    hide Within, AnyWithin, Reqs;
    MetHolds(node, p[i]);
    AnyMet(node, e, Reqs(p[i]));
  }

  lemma FirstIsEnough(node: Node, p: seq<Term>, e: seq<Term>)
    requires p != [] && e != [] && Conjunctive(p, e) && MeetsTerm(node, p[0]) && MeetsAny(node, e)
    ensures MeetsBoth(node, e[0], p[0]) || MeetsAny(node, p[1..])
  {
    var j :| 0 <= j < |e| && MeetsTerm(node, e[j]);
    assert p[0].matchExpressions[0] in Reqs(p[0]);
    assert e[j].matchExpressions != [];
    MetHolds(node, p[0]);
    MetHolds(node, e[j]);
    BothIsFirst(node, e[0], p[0]);
    hide MeetsTerm, MeetsBoth, Within, AnyWithin, Reqs;
    var both := Reqs(p[0]) + Reqs(e[j]);
    if j > 0 && !(Reqs(e[0]) <= both) {
      AnyMet(node, p[1..], both);
    }
  }

  // The other way round: a list of requirements for which the agreement fails if a clause does.
  lemma AgreementAt(p: seq<Term>, e: seq<Term>, reqs: set<Requirement>)
    requires p != [] && e != [] && KnownOperators(p) && KnownOperators(e)
    ensures WellFormedTerms(NodeHolding(reqs), p) && WellFormedTerms(NodeHolding(reqs), e)
    ensures AgreesOn(NodeHolding(reqs), p, e) <==>
            ((Reqs(p[0]) + Reqs(e[0]) != {} && Reqs(p[0]) + Reqs(e[0]) <= reqs) || AnyWithin(p[1..], reqs)
             <==> AnyWithin(p, reqs) && AnyWithin(e, reqs))
  {
    var node := NodeHolding(reqs);
    KnownIsWellFormed(reqs, p);
    KnownIsWellFormed(reqs, e);
    AgreementUnfolded(node, p, e);
    BothIsFirst(node, e[0], p[0]);
    AnyIsWithin(p, reqs);
    AnyIsWithin(p[1..], reqs);
    AnyIsWithin(e, reqs);
    hide MeetsTerm, WellFormedTerms, MeetsBoth, Within, AnyWithin, Reqs, AgreesOn, MeetsAny;
    assert Reqs(e[0]) + Reqs(p[0]) == Reqs(p[0]) + Reqs(e[0]);
  }

  lemma KnownIsWellFormed(reqs: set<Requirement>, terms: seq<Term>)
    requires KnownOperators(terms)
    ensures WellFormedTerms(NodeHolding(reqs), terms)
  {
  }

  lemma AnyIsWithin(terms: seq<Term>, reqs: set<Requirement>)
    ensures MeetsAny(NodeHolding(reqs), terms) <==> AnyWithin(terms, reqs)
  {
    forall i | 0 <= i < |terms| ensures MeetsTerm(NodeHolding(reqs), terms[i]) <==> Within(terms[i], reqs) {
      MeetsIsWithin(terms[i], reqs);
    }
  }

  lemma AgreementIsConjunctive(p: seq<Term>, e: seq<Term>)
    requires p != [] && e != []
    requires forall reqs ::
               ((Reqs(p[0]) + Reqs(e[0]) != {} && Reqs(p[0]) + Reqs(e[0]) <= reqs) || AnyWithin(p[1..], reqs)
                <==> AnyWithin(p, reqs) && AnyWithin(e, reqs))
    ensures Conjunctive(p, e)
  {
    var first := Reqs(p[0]) + Reqs(e[0]);
    assert first != {} ==> AnyWithin(p, first) && AnyWithin(e, first);
    forall i | 1 <= i < |p| && p[i].matchExpressions != [] ensures AnyWithin(e, Reqs(p[i])) {
      assert Within(p[1..][i - 1], Reqs(p[i]));
      assert AnyWithin(p[1..], Reqs(p[i]));
    }
    forall j | 1 <= j < |e| && e[j].matchExpressions != [] && p[0].matchExpressions != []
      ensures var both := Reqs(p[0]) + Reqs(e[j]); Reqs(e[0]) <= both || AnyWithin(p[1..], both)
    {
      var both := Reqs(p[0]) + Reqs(e[j]);
      assert Within(p[0], both) && Within(e[j], both);
      assert AnyWithin(p, both) && AnyWithin(e, both);
    }
  }

  // The merge is the conjunction of the two affinities for every node exactly when the terms are
  // conjunctive; with an unknown operator no node is judged at all.
  lemma MergeIsConjunctionWhen(p: seq<Term>, e: seq<Term>)
    requires p != [] && e != []
    ensures (forall node: Node :: WellFormedTerms(node, p) && WellFormedTerms(node, e) ==> AgreesOn(node, p, e))
            <==> !(KnownOperators(p) && KnownOperators(e)) || Conjunctive(p, e)
  {
    hide AgreesOn, Reqs, AnyWithin;
    if !(KnownOperators(p) && KnownOperators(e)) {
      forall node: Node ensures !(WellFormedTerms(node, p) && WellFormedTerms(node, e)) {
        UnknownIsMalformed(node, p);
        UnknownIsMalformed(node, e);
      }
    } else if Conjunctive(p, e) {
      forall node: Node | WellFormedTerms(node, p) && WellFormedTerms(node, e) ensures AgreesOn(node, p, e) {
        ConjunctiveAgrees(node, p, e);
      }
    } else if forall node: Node :: WellFormedTerms(node, p) && WellFormedTerms(node, e) ==> AgreesOn(node, p, e) {
      forall reqs ensures
          ((Reqs(p[0]) + Reqs(e[0]) != {} && Reqs(p[0]) + Reqs(e[0]) <= reqs) || AnyWithin(p[1..], reqs)
           <==> AnyWithin(p, reqs) && AnyWithin(e, reqs)) {
        AgreementAt(p, e, reqs);
      }
      AgreementIsConjunctive(p, e);
    }
  }

  lemma UnknownIsMalformed(node: Node, terms: seq<Term>)
    ensures WellFormedTerms(node, terms) ==> KnownOperators(terms)
  {
    forall i, r | WellFormedTerms(node, terms) && 0 <= i < |terms| && r in terms[i].matchExpressions
      ensures r.operator in OPERATORS
    {
      assert WellFormedTerm(node, terms[i]);
    }
  }

  // No preference is lost, whatever becomes of the required terms.
  lemma PreferencesKept(placement: NodeAffinity, existing: NodeAffinity)
    ensures var merged := MergeNodeAffinity(placement, Some(existing));
            multiset(merged.preferred) == multiset(placement.preferred) + multiset(existing.preferred)
  {
  }

  // When one side has no required terms the other side's decide, even where an empty list of terms
  // accepts no node.
  lemma OneSidedMerge(node: Node, placement: NodeAffinity, existing: NodeAffinity)
    ensures var merged := MeetsAffinity(node, Some(MergeNodeAffinity(placement, Some(existing))));
            && (NoTerms(existing) && placement.required.Some? ==> merged == MeetsAffinity(node, Some(placement)))
            && (NoTerms(placement) && !NoTerms(existing) ==> merged == MeetsAffinity(node, Some(existing)))
            && (existing.required == Some([]) ==> MeetsAffinity(node, Some(existing)) == No)
  {
  }

  predicate NoTerms(a: NodeAffinity)
  {
    a.required.None? || a.required.value == []
  }

  // With one term each, the merge is exactly the conjunction of the two affinities, unless one term
  // has no match expressions and the other is met.
  lemma SingleTermMergeIsConjunction(node: Node, p: Term, e: Term)
    requires WellFormedTerm(node, p) && WellFormedTerm(node, e)
    ensures var both := MeetsTerms(node, [p]) == Yes && MeetsTerms(node, [e]) == Yes;
            var merged := MeetsTerms(node, MergeTerms([p], [e])) == Yes;
            (merged <==> both) <==>
              !(p.matchExpressions == [] && MeetsTerm(node, e)) && !(e.matchExpressions == [] && MeetsTerm(node, p))
  {
    MergedFirstTerm(node, e, p);
    var merged := MergeTerms([p], [e]);
    assert merged[1..] == [];
    assert [p][1..] == [] && [e][1..] == [];
    MeetsTermsIsAny(node, merged);
    MeetsTermsIsAny(node, [p]);
    MeetsTermsIsAny(node, [e]);
  }

  // A term without match expressions accepts no node, but merged with another it is not missed.
  lemma EmptyTermIsIgnored(r: Requirement)
    requires r.operator in OPERATORS
    ensures var node, empty, t := NodeHolding({r}), Term([], []), Term([r], []);
            && MeetsTerms(node, [empty]) == No && MeetsTerms(node, [t]) == Yes
            && MeetsTerms(node, MergeTerms([empty], [t])) == Yes
            && !Conjunctive([empty], [t])
  {
    var node, empty, t := NodeHolding({r}), Term([], []), Term([r], []);
    assert [empty][1..] == [] && MergeTerms([empty], [t])[1..] == [];
    MergedFirstTerm(node, t, empty);
    assert r in Reqs(t);
  }

  ghost predicate MeetsBothNotMerge(node: Node, placement: seq<Term>, existing: seq<Term>)
  {
    && WellFormedTerms(node, placement) && WellFormedTerms(node, existing)
    && placement != [] && existing != []
    && MeetsTerms(node, placement) == Yes && MeetsTerms(node, existing) == Yes
    && MeetsTerms(node, MergeTerms(placement, existing)) == No
  }

  // With more terms it is not a conjunction: some node meets both affinities but not their merge.
  lemma MergeDropsTerms()
    ensures exists node: Node, placement, existing :: MeetsBothNotMerge(node, placement, existing)
  {
    var yes, no := Requirement("a", "Exists", []), Requirement("b", "Exists", []);
    var node := Node("n", [], (r: Requirement) => true, (r: Requirement) => r.key == "a", (t, u) => false);
    var t, f := Term([yes], []), Term([no], []);
    var placement, existing := [t], [f, t];
    var merged := MergeTerms(placement, existing);
    assert merged[0].matchExpressions[0] == no && f.matchExpressions[0] == no;
    assert MeetsTerm(node, t) && !MeetsTerm(node, f) && !MeetsTerm(node, merged[0]);
    MergedFirstTerm(node, f, t);
    assert existing[1] == t && placement[0] == t;
    MeetsTermsIsAny(node, placement);
    MeetsTermsIsAny(node, existing);
    MeetsTermsIsAny(node, merged);
    assert MeetsBothNotMerge(node, placement, existing);
  }

  // ----- Tolerations -----

  // The taints that Kubernetes itself puts on nodes.
  const WELL_KNOWN_TAINTS: seq<string> := [
    "node.kubernetes.io/not-ready", "node.kubernetes.io/unreachable", "node.kubernetes.io/unschedulable",
    "node.kubernetes.io/memory-pressure", "node.kubernetes.io/disk-pressure",
    "node.kubernetes.io/network-unavailable", "node.kubernetes.io/pid-pressure",
    "node.cloudprovider.kubernetes.io/uninitialized", "node.cloudprovider.kubernetes.io/shutdown"]

  predicate Tolerated(node: Node, taint: Taint, tolerations: seq<Toleration>)
  {
    exists i :: 0 <= i < |tolerations| && node.tolerates(tolerations[i], taint)
  }

  predicate Ignored(taint: Taint, ignoreWellKnown: bool)
  {
    ignoreWellKnown && taint.key in WELL_KNOWN_TAINTS
  }

  predicate IsTolerable(node: Node, tolerations: seq<Toleration>, ignoreWellKnown: bool)
  {
    forall i :: 0 <= i < |node.taints| ==>
      Ignored(node.taints[i], ignoreWellKnown) || Tolerated(node, node.taints[i], tolerations)
  }

  method NodeIsTolerable(node: Node, tolerations: seq<Toleration>, ignoreWellKnown: bool) returns (tolerable: bool)
    ensures tolerable <==> IsTolerable(node, tolerations, ignoreWellKnown)
  {
    for i := 0 to |node.taints|
      invariant forall j :: 0 <= j < i ==>
                  Ignored(node.taints[j], ignoreWellKnown) || Tolerated(node, node.taints[j], tolerations)
    {
      var taint := node.taints[i];
      if ignoreWellKnown && taint.key in WELL_KNOWN_TAINTS {
        continue;
      }
      var isTolerated := false;
      for k := 0 to |tolerations|
        invariant !isTolerated && forall j :: 0 <= j < k ==> !node.tolerates(tolerations[j], taint)
      {
        if node.tolerates(tolerations[k], taint) {
          isTolerated := true;
          break;
        }
      }
      if !isTolerated {
        return false;
      }
    }
    return true;
  }

  // The placement's own tolerations come first; None is Go's nil slice.
  function MergeTolerations(
    placement: Option<seq<Toleration>>, others: Option<seq<Toleration>>): Option<seq<Toleration>>
  {
    if others.None? || (placement.None? && others.value == []) then placement
    else Some((if placement.Some? then placement.value else []) + others.value)
  }

  function TolerationsOf(t: Option<seq<Toleration>>): seq<Toleration>
  {
    if t.Some? then t.value else []
  }

  // A taint is tolerated after the merge exactly when one side tolerated it, in either order of merging.
  lemma MergedTolerations(node: Node, taint: Taint, a: Option<seq<Toleration>>, b: Option<seq<Toleration>>)
    ensures Tolerated(node, taint, TolerationsOf(MergeTolerations(a, b))) <==>
            Tolerated(node, taint, TolerationsOf(a)) || Tolerated(node, taint, TolerationsOf(b))
  {
    var x, y := TolerationsOf(a), TolerationsOf(b);
    var all := x + y;
    assert TolerationsOf(MergeTolerations(a, b)) == all;
    assert forall i :: 0 <= i < |x| ==> all[i] == x[i];
    assert forall i :: 0 <= i < |y| ==> all[|x| + i] == y[i];
  }

  // ----- Placements -----

  // Pod affinities and spread constraints are carried along unread.
  datatype Placement = Placement(
    nodeAffinity: Option<NodeAffinity>, podAffinity: Option<string>, podAntiAffinity: Option<string>,
    tolerations: Option<seq<Toleration>>, spread: Option<string>)

  function Override<T>(base: Option<T>, with: Option<T>): Option<T>
  {
    if with.Some? then with else base
  }

  function Merge(p: Placement, with: Placement): Placement
  {
    Placement(
      Override(p.nodeAffinity, with.nodeAffinity),
      Override(p.podAffinity, with.podAffinity),
      Override(p.podAntiAffinity, with.podAntiAffinity),
      if with.tolerations.Some? then MergeTolerations(p.tolerations, with.tolerations) else p.tolerations,
      Override(p.spread, with.spread))
  }

  // The value of the side that goes first, where it has one.
  ghost predicate FirstGiven<T>(first: Option<T>, second: Option<T>, r: Option<T>)
  {
    (first.Some? ==> r == first) && (first.None? ==> r == second)
  }

  // What is not merged comes from the daemon's placement where that sets it, and else from the one for all.
  lemma MergeTakes(base: Placement, with: Placement)
    ensures var r := Merge(base, with);
            && FirstGiven(with.nodeAffinity, base.nodeAffinity, r.nodeAffinity)
            && FirstGiven(with.podAffinity, base.podAffinity, r.podAffinity)
            && FirstGiven(with.podAntiAffinity, base.podAntiAffinity, r.podAntiAffinity)
            && FirstGiven(with.spread, base.spread, r.spread)
  {
  }

  function MeetsPlacement(node: Node, p: Placement, ignoreWellKnown: bool): Answer
  {
    var a := MeetsAffinity(node, p.nodeAffinity);
    if a != Yes then a
    else if IsTolerable(node, TolerationsOf(p.tolerations), ignoreWellKnown) then Yes
    else No
  }

  method NodeMeetsPlacementTerms(node: Node, p: Placement, ignoreWellKnown: bool) returns (answer: Answer)
    ensures answer == MeetsPlacement(node, p, ignoreWellKnown)
  {
    var a := NodeMeetsAffinityTerms(node, p.nodeAffinity);
    if a.Malformed? {
      return Malformed;
    }
    if a.No? {
      return No;
    }
    var tolerable := NodeIsTolerable(node, TolerationsOf(p.tolerations), ignoreWellKnown);
    return if tolerable then Yes else No;
  }

  // A daemon's placement merged over the one for all daemons: nodes are judged by the daemon's node
  // affinity if it has one, and every taint tolerated before stays tolerated.
  lemma MergeAccepts(node: Node, base: Placement, with: Placement, ignoreWellKnown: bool)
    ensures MeetsPlacement(node, Merge(base, with), ignoreWellKnown) == Yes <==>
            && MeetsAffinity(node, if with.nodeAffinity.Some? then with.nodeAffinity else base.nodeAffinity) == Yes
            && forall i :: 0 <= i < |node.taints| ==>
                 || Ignored(node.taints[i], ignoreWellKnown)
                 || Tolerated(node, node.taints[i], TolerationsOf(base.tolerations))
                 || Tolerated(node, node.taints[i], TolerationsOf(with.tolerations))
  {
    forall i | 0 <= i < |node.taints|
      ensures Tolerated(node, node.taints[i], TolerationsOf(Merge(base, with).tolerations)) <==>
              Tolerated(node, node.taints[i], TolerationsOf(base.tolerations))
              || Tolerated(node, node.taints[i], TolerationsOf(with.tolerations))
    {
      MergedTolerations(node, node.taints[i], base.tolerations, with.tolerations);
    }
  }

  const NO_PLACEMENT := Placement(None, None, None, None, None)

  // The tolerations apart from the difference between none and an empty list.
  function Normal(p: Placement): Placement
  {
    p.(tolerations := Some(TolerationsOf(p.tolerations)))
  }

  // Merging is associative and the empty placement its unit.
  lemma MergeLaws(a: Placement, b: Placement, c: Placement)
    ensures Merge(a, NO_PLACEMENT) == a && Normal(Merge(NO_PLACEMENT, a)) == Normal(a)
    ensures Normal(Merge(Merge(a, b), c)) == Normal(Merge(a, Merge(b, c)))
  {
    var x, y, z := TolerationsOf(a.tolerations), TolerationsOf(b.tolerations), TolerationsOf(c.tolerations);
    MergedList(a, b);
    MergedList(b, c);
    MergedList(Merge(a, b), c);
    MergedList(a, Merge(b, c));
    MergedList(NO_PLACEMENT, a);
    assert [] + x == x && x + y + z == x + (y + z);
  }

  lemma MergedList(base: Placement, with: Placement)
    ensures TolerationsOf(Merge(base, with).tolerations)
         == TolerationsOf(base.tolerations) + TolerationsOf(with.tolerations)
  {
  }

  // ----- Applying a placement to a pod -----

  class PodSpec {
    var nodeAffinity: Option<NodeAffinity>
    var podAffinity: Option<string>
    var podAntiAffinity: Option<string>
    var tolerations: Option<seq<Toleration>>
    var spread: Option<string>

    // What the scheduler makes of the pod.
    function AsPlacement(): Placement
      reads this
    {
      Placement(nodeAffinity, podAffinity, podAntiAffinity, tolerations, spread)
    }
  }

  function Applied(p: Placement, pod: Placement): Placement
  {
    Placement(
      if p.nodeAffinity.Some? then Some(MergeNodeAffinity(p.nodeAffinity.value, pod.nodeAffinity))
      else pod.nodeAffinity,
      Override(pod.podAffinity, p.podAffinity),
      Override(pod.podAntiAffinity, p.podAntiAffinity),
      if p.tolerations.Some? then MergeTolerations(p.tolerations, pod.tolerations) else pod.tolerations,
      Override(pod.spread, p.spread))
  }

  method ApplyToPodSpec(p: Placement, pod: PodSpec)
    modifies pod
    ensures pod.AsPlacement() == Applied(p, old(pod.AsPlacement()))
    ensures FirstGiven(p.podAffinity, old(pod.podAffinity), pod.podAffinity)
    ensures FirstGiven(p.podAntiAffinity, old(pod.podAntiAffinity), pod.podAntiAffinity)
    ensures FirstGiven(p.spread, old(pod.spread), pod.spread)
  {
    if p.nodeAffinity.Some? {
      pod.nodeAffinity := Some(MergeNodeAffinity(p.nodeAffinity.value, pod.nodeAffinity));
    }
    if p.podAffinity.Some? {
      pod.podAffinity := p.podAffinity;
    }
    if p.podAntiAffinity.Some? {
      pod.podAntiAffinity := p.podAntiAffinity;
    }
    if p.tolerations.Some? {
      pod.tolerations := MergeTolerations(p.tolerations, pod.tolerations);
    }
    if p.spread.Some? {
      pod.spread := p.spread;
    }
  }

  predicate HasTerms(a: Option<NodeAffinity>)
  {
    a.Some? && !NoTerms(a.value)
  }

  // What the two affinities together demand of a node, whichever of them are given.
  predicate MeetsMerged(node: Node, p: Option<NodeAffinity>, pod: Option<NodeAffinity>)
  {
    if p.None? then MeetsAffinity(node, pod) == Yes
    else if pod.None? || pod.value.required.None? then MeetsAffinity(node, p) == Yes
    else if p.value.required.None? then MeetsAffinity(node, pod) == Yes
    else if NoTerms(pod.value) then MeetsAffinity(node, p) == Yes
    else if NoTerms(p.value) then MeetsAffinity(node, pod) == Yes
    else
      var own, others := p.value.required.value, pod.value.required.value;
      && WellFormedTerm(node, own[0]) && WellFormedTerm(node, others[0])
      && (MeetsBoth(node, others[0], own[0]) || MeetsTerms(node, own[1..]) == Yes)
  }

  predicate EitherTolerates(node: Node, taint: Taint, a: Placement, b: Placement)
  {
    Tolerated(node, taint, TolerationsOf(a.tolerations)) || Tolerated(node, taint, TolerationsOf(b.tolerations))
  }

  // A placed pod runs exactly on the nodes that meet what the affinities demand together and whose
  // taints either side tolerates.
  lemma AppliedNarrows(node: Node, p: Placement, pod: Placement, ignoreWellKnown: bool)
    ensures MeetsPlacement(node, Applied(p, pod), ignoreWellKnown) == Yes <==>
            && MeetsMerged(node, p.nodeAffinity, pod.nodeAffinity)
            && forall i :: 0 <= i < |node.taints| ==>
                 Ignored(node.taints[i], ignoreWellKnown) || EitherTolerates(node, node.taints[i], p, pod)
  {
    hide MeetsTerms, MeetsBoth, WellFormedTerm, MergeTerms, Ignored;
    if HasTerms(p.nodeAffinity) && HasTerms(pod.nodeAffinity) {
      MergeMeaning(node, p.nodeAffinity.value, pod.nodeAffinity.value);
    }
    forall i | 0 <= i < |node.taints|
      ensures Tolerated(node, node.taints[i], TolerationsOf(Applied(p, pod).tolerations)) <==>
              EitherTolerates(node, node.taints[i], p, pod)
    {
      MergedTolerations(node, node.taints[i], p.tolerations, pod.tolerations);
    }
  }

  // With conjunctive terms on both sides it runs exactly on the nodes that meet both affinities and
  // whose taints either side tolerates.
  lemma AppliedIsConjunction(node: Node, p: Placement, pod: Placement, ignoreWellKnown: bool)
    requires HasTerms(p.nodeAffinity) && HasTerms(pod.nodeAffinity)
    requires Conjunctive(p.nodeAffinity.value.required.value, pod.nodeAffinity.value.required.value)
    requires WellFormedTerms(node, p.nodeAffinity.value.required.value)
    requires WellFormedTerms(node, pod.nodeAffinity.value.required.value)
    ensures MeetsPlacement(node, Applied(p, pod), ignoreWellKnown) == Yes <==>
            && MeetsAffinity(node, p.nodeAffinity) == Yes && MeetsAffinity(node, pod.nodeAffinity) == Yes
            && forall i :: 0 <= i < |node.taints| ==>
                 Ignored(node.taints[i], ignoreWellKnown) || EitherTolerates(node, node.taints[i], p, pod)
  {
    var own, others := p.nodeAffinity.value.required.value, pod.nodeAffinity.value.required.value;
    AppliedNarrows(node, p, pod, ignoreWellKnown);
    ConjunctiveAgrees(node, own, others);
    MergeMeaning(node, p.nodeAffinity.value, pod.nodeAffinity.value);
    hide MeetsTerms, MeetsBoth, WellFormedTerm, MergeTerms, Conjunctive, MeetsPlacement, Applied, Ignored;
  }
}
