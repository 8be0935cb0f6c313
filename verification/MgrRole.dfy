/**
 The mgr sidecars: each polls Ceph for the active mgr and keeps the mgr_role label of the pods of its
 daemon. Polls, single label writes, restarts and pods that come and go interleave in any way, and any
 call may fail.
 */
module MgrRole {
  import opened Wrappers

  datatype Label = NoLabel | Active | Standby

  type PodName = string

  // A pod as a listing shows it.
  datatype Listed = Listed(pod: PodName, shown: Label)

  // What a label update answers. Lost: it failed for the caller, but the label was changed.
  datatype Answer = Written | Refused | Lost

  // A sidecar between polls, or in one: the active mgr it was told of, the pods still to label, and
  // whether a label update failed.
  datatype Work = Idle | Writing(name: string, todo: seq<Listed>, failed: bool)

  // A mgr pod with its label, and the memory of the sidecar that runs in it.
  datatype Pod = Pod(daemon: string, role: Label, activeMgr: string, work: Work)

  type Cluster = map<PodName, Pod>

  function RoleFor(daemon: string, activeName: string): Label
  {
    if daemon == activeName then Active else Standby
  }

  // ----- The steps -----

  datatype Event =
    // the sidecar asks Ceph for the active mgr, then for the cluster's spec and the pods of its daemon;
    // None is a failed call
    | Asks(pod: PodName, stat: Option<string>, specFound: bool, listing: Option<seq<PodName>>)
    | Writes(pod: PodName, answer: Answer)         // and turns to the next pod of the listing
    | Ends(pod: PodName, servicesOk: bool)         // and reconciles the services
    | Restarts(pod: PodName)                       // the sidecar's memory is gone
    | Appears(pod: PodName, daemon: string, role: Label)
    | Vanishes(pod: PodName)

  predicate Enabled(c: Cluster, e: Event)
  {
    match e
    case Asks(q, _, _, listing) =>
      && q in c && c[q].work.Idle?
      && (listing.Some? ==> forall p :: p in listing.value ==> p in c && c[p].daemon == c[q].daemon)
    case Writes(q, _) => q in c && c[q].work.Writing? && c[q].work.todo != []
    case Ends(q, _) => q in c && c[q].work.Writing? && c[q].work.todo == []
    case Restarts(q) => q in c
    case Appears(q, _, _) => q !in c
    case Vanishes(q) => q in c
  }

  function Snapshot(c: Cluster, listing: seq<PodName>): seq<Listed>
    requires forall p :: p in listing ==> p in c
  {
    seq(|listing|, i requires 0 <= i < |listing| => Listed(listing[i], c[listing[i]].role))
  }

  function AfterAsks(c: Cluster, e: Event): Cluster
    requires e.Asks? && Enabled(c, e)
  {
    var me := c[e.pod];
    if e.stat.None? then c[e.pod := me.(activeMgr := "")]
    else if e.stat.value == me.activeMgr then c
    else if !e.specFound || e.listing.None? then c[e.pod := me.(activeMgr := "")]
    else c[e.pod := me.(work := Writing(e.stat.value, Snapshot(c, e.listing.value), false))]
  }

  // The pod whose label a write changes, if it changes one.
  function Target(c: Cluster, e: Event): Option<PodName>
  {
    if !(e.Writes? && Enabled(c, e)) then None
    else
      var me := c[e.pod];
      var next := me.work.todo[0];
      if next.shown == RoleFor(me.daemon, me.work.name) || e.answer.Refused? then None
      else if next.pod !in c || c[next.pod].daemon != me.daemon then None   // it is gone
      else Some(next.pod)
  }

  function WithRole(c: Cluster, p: PodName, role: Label): Cluster
  {
    if p in c then c[p := c[p].(role := role)] else c
  }

  function AfterWrites(c: Cluster, e: Event): Cluster
    requires e.Writes? && Enabled(c, e)
  {
    var me := c[e.pod];
    var role := RoleFor(me.daemon, me.work.name);
    var target := Target(c, e);
    var ok := me.work.todo[0].shown == role || (target.Some? && e.answer.Written?);
    var c' := if target.Some? then WithRole(c, target.value, role) else c;
    c'[e.pod := c'[e.pod].(work := Writing(me.work.name, me.work.todo[1..], me.work.failed || !ok))]
  }

  // A step that is not enabled where it comes changes nothing.
  function After(c: Cluster, e: Event): Cluster
  {
    if !Enabled(c, e) then c
    else
      match e
      case Asks(_, _, _, _) => AfterAsks(c, e)
      case Writes(_, _) => AfterWrites(c, e)
      case Ends(q, servicesOk) =>
        var work := c[q].work;
        c[q := c[q].(activeMgr := if servicesOk && !work.failed then work.name else "", work := Idle)]
      case Restarts(q) => c[q := c[q].(activeMgr := "unknown", work := Idle)]
      case Appears(q, daemon, role) => c[q := Pod(daemon, role, "unknown", Idle)]
      case Vanishes(q) => c - {q}
  }

  function Run(c: Cluster, events: seq<Event>): Cluster
  {
    if events == [] then c else After(Run(c, events[..|events| - 1]), events[|events| - 1])
  }

  lemma RunSnoc(c: Cluster, events: seq<Event>, e: Event)
    ensures Run(c, events + [e]) == After(Run(c, events), e)
  {
    assert (events + [e])[..|events|] == events;
  }

  // ----- What decides a label, in every run -----

  predicate IsReal(name: string)
  {
    name != "" && name != "unknown"
  }

  ghost predicate LabelFollows(pod: Pod)
  {
    pod.role == RoleFor(pod.daemon, pod.activeMgr)
  }

  // The step starts a poll in which the sidecar of q goes on to write labels.
  predicate Begins(c: Cluster, e: Event, q: PodName)
  {
    && e.Asks? && e.pod == q && Enabled(c, e)
    && e.stat.Some? && e.stat.value != c[q].activeMgr && e.specFound && e.listing.Some?
  }

  // The active mgr that the sidecar of q was told of when it last began to write.
  function Told(c: Cluster, events: seq<Event>, q: PodName): string
  {
    if events == [] then ""
    else
      var init, e := events[..|events| - 1], events[|events| - 1];
      if Begins(Run(c, init), e, q) then e.stat.value else Told(c, init, q)
  }

  // When the sidecar of q last began to write, its listing did not show q, while the label of q was wrong
  // for the mgr it was told of.
  predicate Blinded(c: Cluster, events: seq<Event>, q: PodName)
  {
    events != [] &&
    var init, e := events[..|events| - 1], events[|events| - 1];
    var before := Run(c, init);
    if Begins(before, e, q) then q !in e.listing.value && before[q].role != RoleFor(before[q].daemon, e.stat.value)
    else Blinded(c, init, q)
  }

  // The mgr for which the sidecar of another pod changed the label of q, if that was the last change
  // since the sidecar of q began to write.
  function Overwritten(c: Cluster, events: seq<Event>, q: PodName): Option<string>
  {
    if events == [] then None
    else
      var init, e := events[..|events| - 1], events[|events| - 1];
      var before := Run(c, init);
      if Begins(before, e, q) then None
      else if Target(before, e) != Some(q) then Overwritten(c, init, q)
      else if e.pod == q then None
      else Some(before[e.pod].work.name)
  }

  ghost predicate StillToWrite(q: PodName, todo: seq<Listed>, right: Label)
  {
    exists i :: 0 <= i < |todo| && todo[i].pod == q && todo[i].shown != right
  }

  ghost predicate Unlisted(q: PodName, todo: seq<Listed>)
  {
    forall i :: 0 <= i < |todo| ==> todo[i].pod != q
  }

  // How the label of q stands to the mgr that its sidecar was told of. After a poll: an overwritten label
  // is the neighbour's, and any other is right unless the sidecar was blinded. In a poll it may also be
  // still to be written, or a write has failed.
  ghost predicate Watched(q: PodName, pod: Pod, told: string, blinded: bool, over: Option<string>)
  {
    var right := RoleFor(pod.daemon, told);
    match pod.work
    case Idle =>
      IsReal(pod.activeMgr) ==>
        && pod.activeMgr == told
        && if over.Some? then pod.role == RoleFor(pod.daemon, over.value) else (pod.role == right <==> !blinded)
    case Writing(name, todo, failed) =>
      && name == told && (blinded ==> Unlisted(q, todo))
      && if over.Some? then pod.role == RoleFor(pod.daemon, over.value)
         else if blinded then pod.role != right
         else failed || pod.role == right || StillToWrite(q, todo, right)
  }

  lemma BeginsWatched(c: Cluster, e: Event, q: PodName)
    requires Begins(c, e, q)
    ensures var blinded := q !in e.listing.value && c[q].role != RoleFor(c[q].daemon, e.stat.value);
            q in After(c, e) && Watched(q, After(c, e)[q], e.stat.value, blinded, None)
  {
    var right, listing := RoleFor(c[q].daemon, e.stat.value), e.listing.value;
    var todo := Snapshot(c, listing);
    assert After(c, e)[q] == c[q].(work := Writing(e.stat.value, todo, false));
    assert q !in listing ==> Unlisted(q, todo);
    if q in listing && c[q].role != right {
      var i :| 0 <= i < |listing| && listing[i] == q;
      assert todo[i] == Listed(q, c[q].role);
      assert StillToWrite(q, todo, right);
    }
  }

  // A write of the sidecar itself: it changes its own label, or it turns to the next pod.
  lemma OwnWriteWatched(c: Cluster, e: Event, q: PodName, told: string, blinded: bool, over: Option<string>)
    requires e.Writes? && Enabled(c, e) && e.pod == q && Watched(q, c[q], told, blinded, over)
    ensures q in After(c, e)
    ensures Watched(q, After(c, e)[q], told, blinded, if Target(c, e) == Some(q) then None else over)
  {
    var me, pod := c[q], After(c, e)[q];
    var right, todo := RoleFor(me.daemon, told), me.work.todo;
    assert todo == [todo[0]] + todo[1..];
    assert pod.daemon == me.daemon && pod.work.name == told && pod.work.todo == todo[1..];
    assert pod.role == if Target(c, e) == Some(q) then right else me.role;
    assert blinded ==> Unlisted(q, todo[1..]) && todo[0].pod != q;
    if StillToWrite(q, todo, right) && !(todo[0].pod == q && todo[0].shown != right) {
      var i :| 0 <= i < |todo| && todo[i].pod == q && todo[i].shown != right;
      assert todo[1..][i - 1] == todo[i];
      assert StillToWrite(q, todo[1..], right);
    }
  }

  // A step of another pod leaves the sidecar of q alone; it can only overwrite the label.
  lemma OtherStep(c: Cluster, e: Event, q: PodName)
    requires q in c && q in After(c, e) && e.pod != q
    ensures Target(c, e) == Some(q) ==>
              && e.Writes? && Enabled(c, e)
              && After(c, e)[q] == c[q].(role := RoleFor(c[q].daemon, c[e.pod].work.name))
    ensures Target(c, e) != Some(q) ==> After(c, e)[q] == c[q]
  {
  }

  // Any other step of the sidecar: it ends its poll, restarts, or asks without going on to write.
  lemma OwnStepWatched(c: Cluster, e: Event, q: PodName, told: string, blinded: bool, over: Option<string>)
    requires q in c && q in After(c, e) && e.pod == q && !e.Writes? && !Begins(c, e, q)
    requires Watched(q, c[q], told, blinded, over)
    ensures Watched(q, After(c, e)[q], told, blinded, over)
  {
    hide Unlisted;
    assert !StillToWrite(q, [], RoleFor(c[q].daemon, told));
  }

  lemma AppearsWatched(c: Cluster, e: Event, q: PodName, told: string, blinded: bool, over: Option<string>)
    requires q !in c && q in After(c, e)
    ensures Watched(q, After(c, e)[q], told, blinded, over)
  {
  }

  // Every sidecar starts out idle and remembering no mgr.
  ghost predicate Fresh(c: Cluster)
  {
    forall q :: q in c ==> c[q].work.Idle? && c[q].activeMgr == "unknown"
  }

  lemma {:induction false} AlwaysWatched(c: Cluster, events: seq<Event>, q: PodName)
    requires Fresh(c) && q in Run(c, events)
    ensures Watched(q, Run(c, events)[q], Told(c, events, q), Blinded(c, events, q), Overwritten(c, events, q))
  {
    if events != [] {
      hide After, Watched, Enabled, Target;
      var init, e := events[..|events| - 1], events[|events| - 1];
      var before := Run(c, init);
      if Begins(before, e, q) {
        BeginsWatched(before, e, q);
      } else if q !in before {
        AppearsWatched(before, e, q, Told(c, events, q), Blinded(c, events, q), Overwritten(c, events, q));
      } else {
        AlwaysWatched(c, init, q);
        StepWatched(before, e, q, Told(c, init, q), Blinded(c, init, q), Overwritten(c, init, q));
      }
    }
  }

  lemma StepWatched(c: Cluster, e: Event, q: PodName, told: string, blinded: bool, over: Option<string>)
    requires q in c && q in After(c, e) && !Begins(c, e, q) && Watched(q, c[q], told, blinded, over)
    ensures Target(c, e) == Some(q) ==> e.pod in c && c[e.pod].work.Writing?
    ensures Watched(q, After(c, e)[q], told, blinded,
                    if Target(c, e) != Some(q) then over else if e.pod == q then None else Some(c[e.pod].work.name))
  {
    TargetWrites(c, e);
    if e.pod != q {
      OtherStep(c, e, q);
      hide After, Target, StillToWrite, Unlisted;
    } else if !Enabled(c, e) {
      NotEnabled(c, e);
    } else if e.Writes? {
      OwnWriteWatched(c, e, q, told, blinded, over);
    } else {
      OwnStepWatched(c, e, q, told, blinded, over);
    }
  }

  lemma TargetWrites(c: Cluster, e: Event)
    ensures Target(c, e).Some? ==> e.Writes? && Enabled(c, e)
  {
  }

  lemma NotEnabled(c: Cluster, e: Event)
    requires !Enabled(c, e)
    ensures After(c, e) == c
  {
  }

  // In every run, whatever fails and however the steps interleave: a sidecar that remembers a real mgr has,
  // between its polls, the right label on its own pod exactly if it was not blinded when it last began to
  // write. Only where the sidecar of another pod of its daemon has changed the label since, the label is
  // right exactly if that one was told of a mgr that gives the same role.
  lemma FollowsUnlessBlinded(c: Cluster, events: seq<Event>, q: PodName)
    requires Fresh(c) && q in Run(c, events)
    requires Run(c, events)[q].work.Idle? && IsReal(Run(c, events)[q].activeMgr)
    ensures var pod, over := Run(c, events)[q], Overwritten(c, events, q);
            LabelFollows(pod) <==>
              if over.Some? then (over.value == pod.daemon <==> pod.activeMgr == pod.daemon)
              else !Blinded(c, events, q)
  {
    hide Run, Told, Blinded, Overwritten;
    AlwaysWatched(c, events, q);
  }

  // ----- One pod per daemon -----

  predicate OnePodEach(c: Cluster)
  {
    forall p, q :: p in c && q in c && p != q ==> c[p].daemon != c[q].daemon
  }

  // A pod appears only when its daemon has no other pod.
  predicate OnePodRun(c: Cluster, events: seq<Event>)
  {
    if events == [] then OnePodEach(c)
    else
      var init, e := events[..|events| - 1], events[|events| - 1];
      && OnePodRun(c, init)
      && (e.Appears? ==> forall p :: p in Run(c, init) ==> Run(c, init)[p].daemon != e.daemon)
  }

  // A step keeps the daemon of every pod that stays, and a write goes to a pod of the writer's daemon.
  lemma DaemonsKept(c: Cluster, e: Event, p: PodName)
    requires p in After(c, e)
    ensures if p in c then After(c, e)[p].daemon == c[p].daemon
            else e.Appears? && p == e.pod && After(c, e)[p].daemon == e.daemon
    ensures Target(c, e) == Some(p) ==> p in c && e.pod in c && c[p].daemon == c[e.pod].daemon
  {
  }

  lemma OnePodStep(c: Cluster, e: Event)
    requires OnePodEach(c) && (e.Appears? ==> forall p :: p in c ==> c[p].daemon != e.daemon)
    ensures OnePodEach(After(c, e))
    ensures Target(c, e).Some? ==> Target(c, e).value == e.pod
  {
    TargetStays(c, e);
    hide After, Target;
    forall p | p in After(c, e)
      ensures if p in c then After(c, e)[p].daemon == c[p].daemon
              else e.Appears? && p == e.pod && After(c, e)[p].daemon == e.daemon
      ensures Target(c, e) == Some(p) ==> p in c && e.pod in c && c[p].daemon == c[e.pod].daemon
    {
      DaemonsKept(c, e, p);
    }
  }

  lemma TargetStays(c: Cluster, e: Event)
    ensures Target(c, e).Some? ==> Target(c, e).value in After(c, e)
  {
  }

  lemma {:induction false} NeverOverwritten(c: Cluster, events: seq<Event>, q: PodName)
    requires OnePodRun(c, events)
    ensures OnePodEach(Run(c, events)) && Overwritten(c, events, q).None?
  {
    if events != [] {
      hide After, Begins, Target, OnePodEach;
      NeverOverwritten(c, events[..|events| - 1], q);
      OnePodStep(Run(c, events[..|events| - 1]), events[|events| - 1]);
    }
  }

  // With one pod per daemon, which is the normal case, the label is right exactly if the sidecar was not
  // blinded.
  lemma OnePodFollows(c: Cluster, events: seq<Event>, q: PodName)
    requires Fresh(c) && OnePodRun(c, events) && q in Run(c, events)
    requires Run(c, events)[q].work.Idle? && IsReal(Run(c, events)[q].activeMgr)
    ensures LabelFollows(Run(c, events)[q]) <==> !Blinded(c, events, q)
  {
    hide *;
    FollowsUnlessBlinded(c, events, q);
    NeverOverwritten(c, events, q);
  }

  // A listing that shows the pod of its own sidecar never blinds it.
  lemma {:induction false} NeverBlinded(c: Cluster, events: seq<Event>, q: PodName)
    requires forall i :: 0 <= i < |events| && events[i].Asks? && events[i].listing.Some? ==>
               events[i].pod in events[i].listing.value
    ensures !Blinded(c, events, q)
  {
    if events != [] {
      NeverBlinded(c, events[..|events| - 1], q);
    }
  }

  // So with listings that always show it, every label is right.
  lemma LabelsAlwaysFollow(c: Cluster, events: seq<Event>, q: PodName)
    requires Fresh(c) && OnePodRun(c, events) && q in Run(c, events)
    requires forall i :: 0 <= i < |events| && events[i].Asks? && events[i].listing.Some? ==>
               events[i].pod in events[i].listing.value
    requires Run(c, events)[q].work.Idle? && IsReal(Run(c, events)[q].activeMgr)
    ensures LabelFollows(Run(c, events)[q])
  {
    hide *;
    OnePodFollows(c, events, q);
    NeverBlinded(c, events, q);
  }

  ghost predicate AgreeOn(c: Cluster, mgr: string)
  {
    forall q :: q in c ==> c[q].work.Idle? && c[q].activeMgr == mgr
  }

  // Exactly the pod of the active mgr is labelled active, and all others standby.
  ghost predicate OnlyActive(c: Cluster, mgr: string)
  {
    forall q :: q in c ==> c[q].role == if c[q].daemon == mgr then Active else Standby
  }

  // Once all sidecars remember the same real mgr, exactly that mgr's pod is labelled active if and only if
  // none of them was blinded.
  lemma AgreementMeansOneActive(c: Cluster, events: seq<Event>, mgr: string)
    requires Fresh(c) && OnePodRun(c, events) && IsReal(mgr) && AgreeOn(Run(c, events), mgr)
    ensures OnlyActive(Run(c, events), mgr) <==> forall q :: q in Run(c, events) ==> !Blinded(c, events, q)
  {
    hide Run, OnePodRun, Blinded;
    var r := Run(c, events);
    forall q | q in r ensures LabelFollows(r[q]) <==> !Blinded(c, events, q) {
      OnePodFollows(c, events, q);
    }
    assert forall q :: q in r ==> (LabelFollows(r[q]) <==> r[q].role == RoleFor(r[q].daemon, mgr));
  }

  // Without its own pod in the listing a sidecar remembers the new mgr and leaves the wrong label, and
  // as long as that mgr stays active it does not look again.
  lemma EmptyListingLabelsNothing(q: PodName, mgr: string, role: Label)
    requires IsReal(mgr) && role != RoleFor("a", mgr)
    ensures var c := map[q := Pod("a", role, "unknown", Idle)];
            var blind, again := Asks(q, Some(mgr), true, Some([])), Asks(q, Some(mgr), true, Some([q]));
            var after := map[q := Pod("a", role, mgr, Idle)];
            && !LabelFollows(after[q])
            && Run(c, [] + [blind] + [Ends(q, true)]) == after
            && Run(c, [] + [blind] + [Ends(q, true)] + [again]) == after
  {
    var c := map[q := Pod("a", role, "unknown", Idle)];
    var blind, again := Asks(q, Some(mgr), true, Some([])), Asks(q, Some(mgr), true, Some([q]));
    assert Snapshot(c, []) == [];
    var c1 := map[q := Pod("a", role, "unknown", Writing(mgr, [], false))];
    var c2 := map[q := Pod("a", role, mgr, Idle)];
    assert After(c, blind) == c1;
    assert After(c1, Ends(q, true)) == c2;
    assert After(c2, again) == c2;
    RunSnoc(c, [], blind);
    hide After;
    RunSnoc(c, [] + [blind], Ends(q, true));
    RunSnoc(c, [] + [blind] + [Ends(q, true)], again);
  }

  // ----- A poll that nobody interrupts -----

  // The listing shows pods of the sidecar's daemon.
  predicate Listable(c: Cluster, q: PodName, listing: seq<PodName>)
  {
    q in c && forall p :: p in listing ==> p in c && c[p].daemon == c[q].daemon
  }

  // Everything a poll meets, with the answers to its label updates in order.
  datatype Poll = Poll(
    stat: Option<string>, specFound: bool, listing: Option<seq<PodName>>, answers: nat -> Answer, servicesOk: bool)

  function WritesOf(q: PodName, answers: nat -> Answer, n: nat): seq<Event>
  {
    seq(n, i requires 0 <= i < n => Writes(q, answers(i)))
  }

  function EventsOf(q: PodName, poll: Poll): seq<Event>
  {
    [Asks(q, poll.stat, poll.specFound, poll.listing)]
    + (if poll.listing.Some? then WritesOf(q, poll.answers, |poll.listing.value|) else [])
    + [Ends(q, poll.servicesOk)]
  }

  lemma {:induction false} RunConcat(c: Cluster, a: seq<Event>, b: seq<Event>)
    ensures Run(c, a + b) == Run(Run(c, a), b)
  {
    if b == [] {
      assert a + b == a;
    } else {
      assert (a + b)[..|a + b| - 1] == a + b[..|b| - 1];
      RunConcat(c, a, b[..|b| - 1]);
    }
  }

  // An idle sidecar has nothing to write and nothing to end.
  lemma {:induction false} IdleStays(c: Cluster, q: PodName, answers: nat -> Answer, n: nat, servicesOk: bool)
    requires q !in c || c[q].work.Idle?
    ensures Run(c, WritesOf(q, answers, n)) == c && After(c, Ends(q, servicesOk)) == c
  {
    if n > 0 {
      assert WritesOf(q, answers, n)[..n - 1] == WritesOf(q, answers, n - 1);
      IdleStays(c, q, answers, n - 1, servicesOk);
    }
  }

  lemma EventsRun(c: Cluster, q: PodName, poll: Poll)
    ensures var asked := After(c, Asks(q, poll.stat, poll.specFound, poll.listing));
            var n := if poll.listing.Some? then |poll.listing.value| else 0;
            Run(c, EventsOf(q, poll)) == After(Run(asked, WritesOf(q, poll.answers, n)), Ends(q, poll.servicesOk))
  {
    var asks := Asks(q, poll.stat, poll.specFound, poll.listing);
    var n := if poll.listing.Some? then |poll.listing.value| else 0;
    var writes := WritesOf(q, poll.answers, n);
    assert EventsOf(q, poll) == [asks] + writes + [Ends(q, poll.servicesOk)];
    assert Run(c, [asks]) == After(c, asks) by {
      assert [] + [asks] == [asks];
      RunSnoc(c, [], asks);
    }
    RunConcat(c, [asks], writes);
    RunSnoc(c, [asks] + writes, Ends(q, poll.servicesOk));
  }

  // A poll that learns nothing new, or fails before it writes, ends with its first step.
  lemma NothingToWrite(c: Cluster, q: PodName, poll: Poll)
    requires q in c && c[q].work.Idle? && (poll.listing.Some? ==> Listable(c, q, poll.listing.value))
    requires poll.stat.None? || poll.stat.value == c[q].activeMgr || !poll.specFound || poll.listing.None?
    ensures Run(c, EventsOf(q, poll)) ==
            if poll.stat.Some? && poll.stat.value == c[q].activeMgr then c else c[q := c[q].(activeMgr := "")]
  {
    EventsRun(c, q, poll);
    var n := if poll.listing.Some? then |poll.listing.value| else 0;
    var asked := After(c, Asks(q, poll.stat, poll.specFound, poll.listing));
    IdleStays(asked, q, poll.answers, n, poll.servicesOk);
  }

  function Roles(c: Cluster): map<PodName, Label>
  {
    map p | p in c :: c[p].role
  }

  // What the sidecars share: the labels at the API server.
  class Labels {
    var roles: map<PodName, Label>
  }

  // The label of p is not the one that its daemon should have: Active if it is the active mgr, else Standby.
  predicate NeedsWrite(c: Cluster, p: PodName, daemon: string, mgr: string)
  {
    p in c && c[p].role != if daemon == mgr then Active else Standby
  }

  // One of the label updates for the first k listed pods fails.
  predicate AWriteFails(
    c: Cluster, listing: seq<PodName>, k: nat, answers: nat -> Answer, daemon: string, mgr: string)
    requires k <= |listing|
  {
    exists i :: 0 <= i < k && NeedsWrite(c, listing[i], daemon, mgr) && !answers(i).Written?
  }

  lemma NextWrite(c: Cluster, listing: seq<PodName>, k: nat, answers: nat -> Answer, daemon: string, mgr: string)
    requires k < |listing| && listing[k] in c
    ensures AWriteFails(c, listing, k + 1, answers, daemon, mgr) <==>
            || AWriteFails(c, listing, k, answers, daemon, mgr)
            || (listing[k] in Roles(c) && Roles(c)[listing[k]] != RoleFor(daemon, mgr) && !answers(k).Written?)
  {
  }

  lemma NoWriteYet(c: Cluster, listing: seq<PodName>, answers: nat -> Answer, daemon: string, mgr: string)
    ensures !AWriteFails(c, listing, 0, answers, daemon, mgr)
  {
  }

  // The poll fails: Ceph does not answer, or there is a new active mgr and something on the way to its labels
  // and services fails.
  predicate PollFails(c: Cluster, daemon: string, activeMgr: string, poll: Poll)
  {
    || poll.stat.None?
    || (poll.stat.value != activeMgr
        && (|| !poll.specFound || poll.listing.None? || !poll.servicesOk
            || AWriteFails(c, poll.listing.value, |poll.listing.value|, poll.answers, daemon, poll.stat.value)))
  }

  class MgrSidecar {
    const pod: PodName
    const daemonName: string
    const labels: Labels
    var activeMgr: string

    constructor (pod: PodName, daemonName: string, labels: Labels)
      ensures this.pod == pod && this.daemonName == daemonName && this.labels == labels && activeMgr == "unknown"
    {
      this.pod, this.daemonName, this.labels, this.activeMgr := pod, daemonName, labels, "unknown";
    }

    // The sidecar and the labels are those of the cluster `c`.
    ghost predicate Shows(c: Cluster)
      reads this, labels
    {
      && labels.roles == Roles(c) && pod in c
      && c[pod].daemon == daemonName && c[pod].activeMgr == activeMgr
    }

    // Labels every listed pod, going on after a failed update, and then reconciles the services. `c` is
    // the cluster in which the listing was made.
    method SetMgrRoleLabel(
      name: string, listing: seq<PodName>, answers: nat -> Answer, servicesOk: bool, ghost c: Cluster)
      returns (ok: bool, ghost after: Cluster)
      requires Shows(c) && Listable(c, pod, listing) && c[pod].work == Writing(name, Snapshot(c, listing), false)
      modifies labels
      ensures after == Run(c, WritesOf(pod, answers, |listing|)) && Shows(after)
      ensures after[pod].work.Writing? && after[pod].work.todo == [] && after[pod].work.name == name
      ensures ok <==> servicesOk && !after[pod].work.failed
      ensures ok <==> servicesOk && !AWriteFails(c, listing, |listing|, answers, daemonName, name)
      ensures ok ==> forall p :: p in listing ==> p in labels.roles && labels.roles[p] == RoleFor(daemonName, name)
      ensures forall p :: p !in listing && p in c ==> p in labels.roles && labels.roles[p] == c[p].role
    {
      var role := RoleFor(daemonName, name);
      var shown := labels.roles;
      var failed := false;
      after := c;
      NothingWritten(c, pod, name, listing, answers);
      NoWriteYet(c, listing, answers, daemonName, name);
      hide AWriteFails;
      for i := 0 to |listing|
        invariant Progress(c, pod, name, listing, answers, i, after, labels.roles, failed)
        invariant failed <==> AWriteFails(c, listing, i, answers, daemonName, name)
      {
        hide *;
        var p := listing[i];
        ProgressStep(c, pod, name, listing, answers, i, after, labels.roles, failed);
        NextWrite(c, listing, i, answers, daemonName, name);
        after := After(after, Writes(pod, answers(i)));
        if shown[p] != role {
          if !answers(i).Refused? {
            labels.roles := labels.roles[p := role];
          }
          if !answers(i).Written? {
            failed := true;
          }
        }
      }
      AllWritten(c, pod, name, listing, answers, after, labels.roles, failed);
      ok := servicesOk && !failed;
    }

    // The name to remember: on any failure it is empty.
    method ReconcileMgr(poll: Poll, ghost c: Cluster) returns (name: string, failed: bool, ghost after: Cluster)
      requires Shows(c) && c[pod].work.Idle? && (poll.listing.Some? ==> Listable(c, pod, poll.listing.value))
      modifies labels
      ensures after == Run(c, EventsOf(pod, poll)) && labels.roles == Roles(after)
      ensures pod in after && after[pod].daemon == daemonName && after[pod].work.Idle? && after[pod].activeMgr == name
      ensures failed <==> PollFails(c, daemonName, activeMgr, poll)
      ensures name == if failed then "" else poll.stat.value
    {
      after := Run(c, EventsOf(pod, poll));
      if poll.stat.None? {
        NothingToWrite(c, pod, poll);
        return "", true, after;
      }
      if poll.stat.value == activeMgr {
        NothingToWrite(c, pod, poll);
        return poll.stat.value, false, after;
      }
      if !poll.specFound || poll.listing.None? {
        NothingToWrite(c, pod, poll);
        return "", true, after;
      }
      ghost var asked := After(c, Asks(pod, poll.stat, poll.specFound, poll.listing));
      Asked(c, pod, poll);
      hide *;
      var ok;
      ghost var written;
      ok, written := SetMgrRoleLabel(poll.stat.value, poll.listing.value, poll.answers, poll.servicesOk, asked);
      after := Ended(c, pod, poll, written, ok);
      name := if ok then poll.stat.value else "";
      failed := !ok;
    }

    // One turn of the sidecar's endless loop.
    method Turn(poll: Poll, ghost c: Cluster) returns (ghost after: Cluster)
      requires Shows(c) && c[pod].work.Idle? && (poll.listing.Some? ==> Listable(c, pod, poll.listing.value))
      modifies this, labels
      ensures after == Run(c, EventsOf(pod, poll)) && Shows(after) && after[pod].work.Idle?
      ensures activeMgr == if PollFails(c, daemonName, old(activeMgr), poll) then "" else poll.stat.value
    {
      var failed;
      activeMgr, failed, after := ReconcileMgr(poll, c);
    }
  }

  lemma Asked(c: Cluster, q: PodName, poll: Poll)
    requires q in c && c[q].work.Idle? && poll.stat.Some? && poll.stat.value != c[q].activeMgr && poll.specFound
    requires poll.listing.Some? && Listable(c, q, poll.listing.value)
    ensures var asked := After(c, Asks(q, poll.stat, poll.specFound, poll.listing));
            && Listable(asked, q, poll.listing.value) && Roles(asked) == Roles(c)
            && asked[q] == c[q].(work := Writing(poll.stat.value, Snapshot(asked, poll.listing.value), false))
  {
    var asked := After(c, Asks(q, poll.stat, poll.specFound, poll.listing));
    assert Snapshot(asked, poll.listing.value) == Snapshot(c, poll.listing.value);
  }

  lemma Ended(c: Cluster, q: PodName, poll: Poll, written: Cluster, ok: bool) returns (after: Cluster)
    requires q in written && written[q].work.Writing? && written[q].work.todo == [] && poll.stat.Some?
    requires poll.listing.Some? && written[q].work.name == poll.stat.value
    requires written == Run(After(c, Asks(q, poll.stat, poll.specFound, poll.listing)),
                            WritesOf(q, poll.answers, |poll.listing.value|))
    requires ok <==> poll.servicesOk && !written[q].work.failed
    ensures after == Run(c, EventsOf(q, poll)) && Roles(after) == Roles(written)
    ensures q in after && after[q] == written[q].(activeMgr := if ok then poll.stat.value else "", work := Idle)
  {
    hide Run;
    EventsRun(c, q, poll);
    after := After(written, Ends(q, poll.servicesOk));
  }

  // ----- A quiet round -----

  function GoodPoll(q: PodName, mgr: string): Poll
  {
    Poll(Some(mgr), true, Some([q]), (i: nat) => Written, true)
  }

  // Every sidecar polls once, is told of the same mgr, and meets no failure.
  function Round(pods: seq<PodName>, mgr: string): seq<Event>
  {
    if pods == [] then []
    else
      var last := pods[|pods| - 1];
      Round(pods[..|pods| - 1], mgr) + EventsOf(last, GoodPoll(last, mgr))
  }

  ghost predicate AllIdle(c: Cluster)
  {
    forall q :: q in c ==> c[q].work.Idle?
  }

  // A good poll makes its own sidecar remember the mgr and touches no other. It writes the label unless
  // the sidecar remembered that mgr already.
  lemma GoodPollWorks(c: Cluster, q: PodName, mgr: string)
    requires q in c && c[q].work.Idle?
    ensures Run(c, EventsOf(q, GoodPoll(q, mgr))) == Settled(c, q, mgr)
  {
    var asks, writes, ends := Asks(q, Some(mgr), true, Some([q])), Writes(q, Written), Ends(q, true);
    assert EventsOf(q, GoodPoll(q, mgr)) == [] + [asks] + [writes] + [ends];
    GoodSteps(c, q, mgr);
    assert Run(c, []) == c;
    hide After, Run, EventsOf, GoodPoll, Settled;
    RunSnoc(c, [], asks);
    RunSnoc(c, [] + [asks], writes);
    RunSnoc(c, [] + [asks] + [writes], ends);
  }

  function Settled(c: Cluster, q: PodName, mgr: string): Cluster
    requires q in c
  {
    if c[q].activeMgr == mgr then c else c[q := Pod(c[q].daemon, RoleFor(c[q].daemon, mgr), mgr, Idle)]
  }

  lemma GoodSteps(c: Cluster, q: PodName, mgr: string)
    requires q in c && c[q].work.Idle?
    ensures After(After(After(c, Asks(q, Some(mgr), true, Some([q]))), Writes(q, Written)), Ends(q, true))
         == Settled(c, q, mgr)
  {
    var c1 := After(c, Asks(q, Some(mgr), true, Some([q])));
    if c[q].activeMgr != mgr {
      assert Snapshot(c, [q]) == [Listed(q, c[q].role)];
      assert c1[q].work.todo[1..] == [];
      var c2 := After(c1, Writes(q, Written));
      assert c2 == c[q := Pod(c[q].daemon, RoleFor(c[q].daemon, mgr), c[q].activeMgr, Writing(mgr, [], false))];
    }
  }

  lemma {:induction false} RoundWorks(c: Cluster, pods: seq<PodName>, mgr: string)
    requires AllIdle(c) && forall q :: q in pods ==> q in c
    ensures var r := Run(c, Round(pods, mgr));
            && r.Keys == c.Keys && AllIdle(r)
            && forall q :: q in c ==> r[q] == if q in pods then Settled(c, q, mgr)[q] else c[q]
  {
    if pods != [] {
      var init, last := pods[..|pods| - 1], pods[|pods| - 1];
      assert forall q :: q in pods <==> q in init || q == last by { assert pods == init + [last]; }
      RoundWorks(c, init, mgr);
      var r := Run(c, Round(init, mgr));
      hide Run, EventsOf, GoodPoll;
      GoodPollWorks(r, last, mgr);
      RunConcat(c, Round(init, mgr), EventsOf(last, GoodPoll(last, mgr)));
    }
  }

  // Whatever went on before, after one quiet round of polls exactly the pod of the active mgr is active, if
  // and only if no sidecar that remembered this mgr before the round was blinded.
  lemma QuietRoundSettles(c: Cluster, events: seq<Event>, pods: seq<PodName>, mgr: string)
    requires Fresh(c) && OnePodRun(c, events) && AllIdle(Run(c, events)) && IsReal(mgr)
    requires forall q :: q in pods <==> q in Run(c, events)
    ensures var before, after := Run(c, events), Run(c, events + Round(pods, mgr));
            && AgreeOn(after, mgr) && after.Keys == before.Keys
            && (OnlyActive(after, mgr) <==>
                  forall q :: q in before && before[q].activeMgr == mgr ==> !Blinded(c, events, q))
  {
    hide Run, OnePodRun, Round, Blinded;
    var before, after := Run(c, events), Run(c, events + Round(pods, mgr));
    RoundWorks(before, pods, mgr);
    RunConcat(c, events, Round(pods, mgr));
    forall q | q in before && before[q].activeMgr == mgr ensures LabelFollows(before[q]) <==> !Blinded(c, events, q) {
      OnePodFollows(c, events, q);
    }
    assert forall q :: q in before ==>
        (after[q].role == RoleFor(after[q].daemon, mgr) <==> before[q].activeMgr != mgr || LabelFollows(before[q]));
  }

  // ----- Two pods of one daemon -----

  function Pair(p: Pod, q: Pod): Cluster
  {
    map["p" := p, "q" := q]
  }

  // The sidecar of one of the two is told of a mgr, lists both pods and labels them.
  lemma PairPoll(p: Pod, q: Pod, x: PodName, name: string)
    requires x in {"p", "q"} && p.daemon == q.daemon && p.role == q.role && p.work.Idle? && q.work.Idle?
    requires p.role != RoleFor(p.daemon, name) && name != (if x == "p" then p else q).activeMgr
    ensures var role := RoleFor(p.daemon, name);
            Run(Pair(p, q), EventsOf(x, PairOf(name))) ==
            Pair(Pod(p.daemon, role, if x == "p" then name else p.activeMgr, Idle),
                 Pod(q.daemon, role, if x == "q" then name else q.activeMgr, Idle))
  {
    var c, role, poll := Pair(p, q), RoleFor(p.daemon, name), PairOf(name);
    var asked := After(c, Asks(x, poll.stat, poll.specFound, poll.listing));
    PairAsks(p, q, x, name);
    var w0, w1 := Writes(x, poll.answers(0)), Writes(x, poll.answers(1));
    assert WritesOf(x, poll.answers, 2) == [] + [w0] + [w1];
    EventsRun(c, x, poll);
    assert Run(asked, []) == asked;
    hide Run, After;
    RunSnoc(asked, [], w0);
    RunSnoc(asked, [] + [w0], w1);
    PairWrites(p, q, x, name);
  }

  function PairOf(name: string): Poll
  {
    Poll(Some(name), true, Some(["p", "q"]), (i: nat) => Written, true)
  }

  // The pair in the middle of a poll of x, with the labels and the pods that are left.
  function PairWriting(
    p: Pod, q: Pod, x: PodName, name: string, rp: Label, rq: Label, todo: seq<Listed>): Cluster
  {
    var work := Writing(name, todo, false);
    Pair(p.(role := rp, work := if x == "p" then work else Idle),
         q.(role := rq, work := if x == "q" then work else Idle))
  }

  lemma PairAsks(p: Pod, q: Pod, x: PodName, name: string)
    requires x in {"p", "q"} && p.daemon == q.daemon && p.work.Idle? && q.work.Idle?
    requires name != (if x == "p" then p else q).activeMgr
    ensures After(Pair(p, q), Asks(x, Some(name), true, Some(["p", "q"])))
         == PairWriting(p, q, x, name, p.role, q.role, [Listed("p", p.role), Listed("q", q.role)])
  {
    assert Snapshot(Pair(p, q), ["p", "q"]) == [Listed("p", p.role), Listed("q", q.role)];
  }

  lemma PairWrite(p: Pod, q: Pod, x: PodName, name: string, rp: Label, rq: Label, todo: seq<Listed>)
    requires x in {"p", "q"} && p.daemon == q.daemon && p.work.Idle? && q.work.Idle?
    requires todo != [] && todo[0].pod in {"p", "q"} && todo[0].shown != RoleFor(p.daemon, name)
    ensures var role := RoleFor(p.daemon, name);
            After(PairWriting(p, q, x, name, rp, rq, todo), Writes(x, Written)) ==
            PairWriting(p, q, x, name, if todo[0].pod == "p" then role else rp,
                        if todo[0].pod == "q" then role else rq, todo[1..])
  {
    var c := PairWriting(p, q, x, name, rp, rq, todo);
    assert Target(c, Writes(x, Written)) == Some(todo[0].pod);
  }

  lemma PairWrites(p: Pod, q: Pod, x: PodName, name: string)
    requires x in {"p", "q"} && p.daemon == q.daemon && p.role == q.role && p.work.Idle? && q.work.Idle?
    requires p.role != RoleFor(p.daemon, name)
    ensures var todo, w := [Listed("p", p.role), Listed("q", q.role)], Writes(x, Written);
            var role := RoleFor(p.daemon, name);
            After(After(After(PairWriting(p, q, x, name, p.role, q.role, todo), w), w), Ends(x, true)) ==
            Pair(Pod(p.daemon, role, if x == "p" then name else p.activeMgr, Idle),
                 Pod(q.daemon, role, if x == "q" then name else q.activeMgr, Idle))
  {
    var todo, role := [Listed("p", p.role), Listed("q", q.role)], RoleFor(p.daemon, name);
    assert todo[1..] == [Listed("q", q.role)] && todo[1..][1..] == [];
    PairWrite(p, q, x, name, p.role, q.role, todo);
    PairWrite(p, q, x, name, role, q.role, todo[1..]);
    PairEnds(p, q, x, name, role);
  }

  lemma PairEnds(p: Pod, q: Pod, x: PodName, name: string, role: Label)
    requires x in {"p", "q"}
    ensures After(PairWriting(p, q, x, name, role, role, []), Ends(x, true)) ==
            Pair(Pod(p.daemon, role, if x == "p" then name else p.activeMgr, Idle),
                 Pod(q.daemon, role, if x == "q" then name else q.activeMgr, Idle))
  {
  }

  // Two fresh pods of one daemon: first one sidecar is told of another mgr, then its neighbour of their own.
  // The first then has the wrong label, although both listings showed both pods and no call failed.
  lemma TwoPodsRace(mgr: string)
    requires IsReal(mgr) && mgr != "a"
    ensures var c := Pair(Pod("a", NoLabel, "unknown", Idle), Pod("a", NoLabel, "unknown", Idle));
            var after := Run(c, EventsOf("q", PairOf(mgr)) + EventsOf("p", PairOf("a")));
            && Fresh(c) && after == Pair(Pod("a", Active, "a", Idle), Pod("a", Active, mgr, Idle))
            && !LabelFollows(after["q"])
  {
    var young := Pod("a", NoLabel, "unknown", Idle);
    PairPoll(young, young, "q", mgr);
    PairPoll(Pod("a", Standby, "unknown", Idle), Pod("a", Standby, mgr, Idle), "p", "a");
    hide Run, EventsOf, PairOf;
    RunConcat(Pair(young, young), EventsOf("q", PairOf(mgr)), EventsOf("p", PairOf("a")));
  }

  // ----- The loop over a listing -----

  // Where the labels stand after the first i pods of the listing.
  ghost predicate Progress(
    c: Cluster, q: PodName, name: string, listing: seq<PodName>, answers: nat -> Answer, i: nat,
    after: Cluster, roles: map<PodName, Label>, failed: bool)
    requires Listable(c, q, listing) && i <= |listing|
  {
    var role := RoleFor(c[q].daemon, name);
    && after == Run(c, WritesOf(q, answers, i)) && after.Keys == c.Keys && roles == Roles(after)
    && (forall p :: p in c ==> after[p].daemon == c[p].daemon && after[p].activeMgr == c[p].activeMgr)
    && after[q].work == Writing(name, Snapshot(c, listing)[i..], failed)
    && LabelledTo(listing[..i], Roles(c), roles, role, failed)
  }

  // Without a failed write all the given pods have the role; other pods have the label they had.
  ghost predicate LabelledTo(
    done: seq<PodName>, before: map<PodName, Label>, roles: map<PodName, Label>, role: Label, failed: bool)
  {
    && roles.Keys == before.Keys && (forall p :: p in done ==> p in roles)
    && (!failed ==> forall p :: p in done ==> roles[p] == role)
    && (forall p :: p in roles && p !in done ==> roles[p] == before[p])
  }

  lemma LabelledOneMore(
    done: seq<PodName>, before: map<PodName, Label>, roles: map<PodName, Label>, role: Label, failed: bool,
    p: PodName, answer: Answer)
    requires LabelledTo(done, before, roles, role, failed) && p in before
    ensures var wrong := before[p] != role;
            LabelledTo(done + [p], before, if wrong && !answer.Refused? then roles[p := role] else roles, role,
                       failed || (wrong && !answer.Written?))
  {
  }

  lemma NothingWritten(c: Cluster, q: PodName, name: string, listing: seq<PodName>, answers: nat -> Answer)
    requires Listable(c, q, listing) && c[q].work == Writing(name, Snapshot(c, listing), false)
    ensures Progress(c, q, name, listing, answers, 0, c, Roles(c), false)
  {
    assert WritesOf(q, answers, 0) == [];
    assert Snapshot(c, listing)[0..] == Snapshot(c, listing);
  }

  lemma ProgressStep(
    c: Cluster, q: PodName, name: string, listing: seq<PodName>, answers: nat -> Answer, i: nat,
    after: Cluster, roles: map<PodName, Label>, failed: bool)
    requires Listable(c, q, listing) && i < |listing|
    requires Progress(c, q, name, listing, answers, i, after, roles, failed)
    ensures var p, role := listing[i], RoleFor(c[q].daemon, name);
            p in c && p in Roles(c) && p in roles &&
            var wrong := Roles(c)[p] != role;
            Progress(c, q, name, listing, answers, i + 1, After(after, Writes(q, answers(i))),
                     if wrong && !answers(i).Refused? then roles[p := role] else roles,
                     failed || (wrong && !answers(i).Written?))
  {
    hide After, Run, RoleFor, WritesOf, LabelledTo, Snapshot, Roles, Target;
    var p, role, e := listing[i], RoleFor(c[q].daemon, name), Writes(q, answers(i));
    NextListed(c, q, listing, answers, i);
    RolesOf(c);
    RolesOf(after);
    WriteChanges(after, e, p);
    LabelledOneMore(listing[..i], Roles(c), roles, role, failed, p, answers(i));
    RunSnoc(c, WritesOf(q, answers, i), e);
  }

  lemma RolesOf(c: Cluster)
    ensures Roles(c).Keys == c.Keys && forall p :: p in c ==> Roles(c)[p] == c[p].role
  {
  }

  lemma NextListed(c: Cluster, q: PodName, listing: seq<PodName>, answers: nat -> Answer, i: nat)
    requires Listable(c, q, listing) && i < |listing|
    ensures var todo, p := Snapshot(c, listing), listing[i];
            && |todo| == |listing| && p in c && c[p].daemon == c[q].daemon
            && todo[i..] != [] && todo[i..][0] == Listed(p, Roles(c)[p]) && todo[i..][1..] == todo[i + 1..]
            && listing[..i + 1] == listing[..i] + [p]
            && WritesOf(q, answers, i + 1) == WritesOf(q, answers, i) + [Writes(q, answers(i))]
  {
    assert listing[i] in listing;
  }

  lemma AllWritten(
    c: Cluster, q: PodName, name: string, listing: seq<PodName>, answers: nat -> Answer,
    after: Cluster, roles: map<PodName, Label>, failed: bool)
    requires Listable(c, q, listing)
    requires Progress(c, q, name, listing, answers, |listing|, after, roles, failed)
    ensures after == Run(c, WritesOf(q, answers, |listing|)) && q in after && roles == Roles(after)
    ensures after[q].work == Writing(name, [], failed)
    ensures after[q].daemon == c[q].daemon && after[q].activeMgr == c[q].activeMgr
    ensures !failed ==> forall p :: p in listing ==> p in roles && roles[p] == RoleFor(c[q].daemon, name)
    ensures forall p :: p !in listing && p in c ==> p in roles && roles[p] == c[p].role
  {
    hide Run, WritesOf;
    assert forall p :: p in Roles(c) <==> p in c;
    assert Snapshot(c, listing)[|listing|..] == [] && listing[..|listing|] == listing;
  }

  lemma WriteChanges(c: Cluster, e: Event, p: PodName)
    requires e.Writes? && Enabled(c, e) && c[e.pod].work.todo[0].pod == p && p in c && c[p].daemon == c[e.pod].daemon
    ensures var me, c' := c[e.pod], After(c, e);
            var role, shown := RoleFor(me.daemon, me.work.name), me.work.todo[0].shown;
            && c'.Keys == c.Keys
            && (forall q :: q in c ==> c'[q].daemon == c[q].daemon && c'[q].activeMgr == c[q].activeMgr)
            && Roles(c') == (if shown != role && !e.answer.Refused? then Roles(c)[p := role] else Roles(c))
            && c'[e.pod].work == Writing(me.work.name, me.work.todo[1..],
                                         me.work.failed || (shown != role && !e.answer.Written?))
  {
    var me, c' := c[e.pod], After(c, e);
    var role, shown := RoleFor(me.daemon, me.work.name), me.work.todo[0].shown;
    var writes := shown != role && !e.answer.Refused?;
    assert Target(c, e) == if writes then Some(p) else None;
    var written := if writes then WithRole(c, p, role) else c;
    assert c' == written[e.pod := written[e.pod].(work := c'[e.pod].work)];
    assert forall q :: q in c ==> written[q] == c[q].(role := if writes && q == p then role else c[q].role);
    hide After, Target, WithRole, RoleFor;
    assert forall q :: q in c ==> c'[q].role == if writes && q == p then role else c[q].role;
  }
}
