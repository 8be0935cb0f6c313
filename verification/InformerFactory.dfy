/**
 The shared informer factory under concurrent use. Each method's locked section is one step, and so are
 the end of an informer goroutine and the return of Shutdown; runs are all their interleavings.
 */
module InformerFactory {
  import opened Wrappers

  type Kind = string   // the reflect.Type of an object

  type Informer = nat  // the informer a constructor call returned

  datatype Factory = Factory(
    informers: map<Kind, Informer>,
    started: set<Kind>,
    shuttingDown: bool,
    running: set<Kind>,                  // goroutines counted by the wait group
    starts: seq<(Kind, Informer)>,       // every goroutine started so far
    shutdownReturned: bool)              // some call of Shutdown has returned

  const NEW_FACTORY := Factory(map[], {}, false, {}, [], false)

  // ----- The steps -----

  datatype Action =
    | Get(kind: Kind, made: Informer)    // InformerFor; `made` is what the constructor would return
    | Start(order: seq<Kind>)            // StartWithContext, visiting the map in this order
    | Finish(kind: Kind)                 // an informer's goroutine ends
    | BeginShutdown                      // the locked section of Shutdown
    | EndShutdown                        // its wait for the goroutines is over

  function Starting(f: Factory, kind: Kind): (g: Factory)
    requires kind in f.informers
    ensures g.informers == f.informers
  {
    if kind in f.started then f
    else
      f.(started := f.started + {kind}, running := f.running + {kind},
         starts := f.starts + [(kind, f.informers[kind])])
  }

  function StartingAll(f: Factory, order: seq<Kind>): (g: Factory)
    requires forall k :: k in order ==> k in f.informers
    ensures g.informers == f.informers
  {
    if order == [] then f else Starting(StartingAll(f, order[..|order| - 1]), order[|order| - 1])
  }

  predicate Enabled(f: Factory, a: Action)
  {
    match a
    case Start(order) => (set k | k in order) == f.informers.Keys
    case Finish(kind) => kind in f.running
    case EndShutdown => f.shuttingDown && f.running == {}
    case _ => true
  }

  function Do(f: Factory, a: Action): Factory
    requires Enabled(f, a)
  {
    match a
    case Get(kind, made) => if kind in f.informers then f else f.(informers := f.informers[kind := made])
    case Start(order) => if f.shuttingDown then f else StartingAll(f, order)
    case Finish(kind) => f.(running := f.running - {kind})
    case BeginShutdown => f.(shuttingDown := true)
    case EndShutdown => f.(shutdownReturned := true)
  }

  // None if an action is not enabled where it happens.
  function RunFrom(f: Factory, actions: seq<Action>): Option<Factory>
  {
    if actions == [] then Some(f)
    else
      var before, last := RunFrom(f, actions[..|actions| - 1]), actions[|actions| - 1];
      if before.Some? && Enabled(before.value, last) then Some(Do(before.value, last)) else None
  }

  // ----- What every step keeps -----

  ghost predicate Valid(f: Factory)
  {
    && f.running <= f.started <= f.informers.Keys
    && (forall k :: k in f.started <==> exists i :: 0 <= i < |f.starts| && f.starts[i].0 == k)
    && (forall i :: 0 <= i < |f.starts| ==> f.starts[i].0 in f.informers && f.starts[i].1 == f.informers[f.starts[i].0])
    && (forall i, j :: 0 <= i < j < |f.starts| ==> f.starts[i].0 != f.starts[j].0)
    && (f.shutdownReturned ==> f.shuttingDown && f.running == {})
  }

  // How a later state relates to an earlier one.
  ghost predicate Follows(f: Factory, g: Factory)
  {
    && (forall k :: k in f.informers ==> k in g.informers && g.informers[k] == f.informers[k])
    && f.starts <= g.starts
    && (f.shuttingDown ==> g.shuttingDown && g.starts == f.starts)
    && (f.shutdownReturned ==> g.shutdownReturned && g.running == {})
  }

  lemma StartingKeeps(f: Factory, kind: Kind)
    requires Valid(f) && kind in f.informers && !f.shuttingDown
    ensures var g := Starting(f, kind);
            Valid(g) && f.starts <= g.starts && !g.shuttingDown && !g.shutdownReturned && kind in g.started
  {
    var g := Starting(f, kind);
    if kind !in f.started {
      assert g.starts[|f.starts|] == (kind, f.informers[kind]);
      assert forall i :: 0 <= i < |f.starts| ==> g.starts[i] == f.starts[i];
      forall k ensures k in g.started <==> exists i :: 0 <= i < |g.starts| && g.starts[i].0 == k {
        if k in f.started {
          var i :| 0 <= i < |f.starts| && f.starts[i].0 == k;
          assert g.starts[i].0 == k;
        }
      }
    }
  }

  lemma {:induction false} StartingAllKeeps(f: Factory, order: seq<Kind>)
    requires Valid(f) && !f.shuttingDown && forall k :: k in order ==> k in f.informers
    ensures var g := StartingAll(f, order);
            Valid(g) && f.starts <= g.starts && !g.shuttingDown && !g.shutdownReturned
  {
    if order != [] {
      hide Valid, Starting;
      var init := StartingAll(f, order[..|order| - 1]);
      StartingAllKeeps(f, order[..|order| - 1]);
      StartingKeeps(init, order[|order| - 1]);
    } else {
      assert Valid(f);
    }
  }

  // One goroutine for each of these kinds, with the kind's own informer, and nothing else.
  ghost predicate Appends(
    starts: seq<(Kind, Informer)>, starts': seq<(Kind, Informer)>, informers: map<Kind, Informer>, kinds: set<Kind>)
    requires kinds <= informers.Keys
  {
    && starts <= starts' && |starts'| == |starts| + |kinds|
    && (forall k :: k in kinds ==> exists i :: |starts| <= i < |starts'| && starts'[i] == (k, informers[k]))
  }

  // The kinds that had no goroutine now have one, and nothing else has changed.
  ghost predicate StartsThese(f: Factory, g: Factory, kinds: set<Kind>)
    requires kinds <= f.informers.Keys
  {
    && g.informers == f.informers && g.shuttingDown == f.shuttingDown && g.shutdownReturned == f.shutdownReturned
    && g.started == f.started + kinds && g.running == f.running + (kinds - f.started)
    && Appends(f.starts, g.starts, f.informers, kinds - f.started)
  }

  lemma AppendsOneMore(
    starts: seq<(Kind, Informer)>, starts': seq<(Kind, Informer)>, informers: map<Kind, Informer>, kinds: set<Kind>,
    kind: Kind)
    requires kinds <= informers.Keys && kind in informers && kind !in kinds
    requires Appends(starts, starts', informers, kinds)
    ensures Appends(starts, starts' + [(kind, informers[kind])], informers, kinds + {kind})
  {
    var longer := starts' + [(kind, informers[kind])];
    assert longer[|starts'|] == (kind, informers[kind]);
    forall k | k in kinds ensures exists i :: |starts| <= i < |longer| && longer[i] == (k, informers[k]) {
      var i :| |starts| <= i < |starts'| && starts'[i] == (k, informers[k]);
      assert longer[i] == starts'[i];
    }
  }

  lemma StartsOneMore(f: Factory, g: Factory, kinds: set<Kind>, kind: Kind)
    requires kinds <= f.informers.Keys && kind in f.informers && StartsThese(f, g, kinds)
    ensures StartsThese(f, Starting(g, kind), kinds + {kind})
  {
    hide Appends;
    var before, after := kinds - f.started, kinds + {kind} - f.started;
    if kind !in g.started {
      AppendsOneMore(f.starts, g.starts, f.informers, before, kind);
      assert after == before + {kind};
    } else {
      assert after == before;
    }
  }

  function KindsOf(order: seq<Kind>): set<Kind>
  {
    set k | k in order
  }

  lemma StartsNone(f: Factory)
    ensures StartsThese(f, f, {})
  {
    assert {} - f.started == {};
  }

  lemma {:induction false} StartingAllStarts(f: Factory, order: seq<Kind>)
    requires forall k :: k in order ==> k in f.informers
    ensures StartsThese(f, StartingAll(f, order), KindsOf(order))
  {
    hide StartsThese;
    if order == [] {
      StartsNone(f);
      assert KindsOf(order) == {};
    } else {
      var init, last := order[..|order| - 1], order[|order| - 1];
      StartingAllStarts(f, init);
      StartsOneMore(f, StartingAll(f, init), KindsOf(init), last);
      assert KindsOf(order) == KindsOf(init) + {last} by { assert order == init + [last]; }
    }
  }

  // What StartWithContext does: after it every registered kind is started, unless a shutdown has begun.
  lemma StartStartsTheRest(f: Factory, order: seq<Kind>)
    requires Enabled(f, Start(order))
    ensures if f.shuttingDown then Do(f, Start(order)) == f else StartsThese(f, Do(f, Start(order)), f.informers.Keys)
  {
    hide StartingAll, StartsThese;
    StartingAllStarts(f, order);
    assert KindsOf(order) == f.informers.Keys;
  }

  lemma StepKeeps(f: Factory, a: Action)
    requires Valid(f) && Enabled(f, a)
    ensures Valid(Do(f, a)) && Follows(f, Do(f, a))
  {
    if a.Start? && !f.shuttingDown {
      StartingAllKeeps(f, a.order);
    }
  }

  lemma FollowsTransitive(f: Factory, g: Factory, h: Factory)
    requires Follows(f, g) && Follows(g, h)
    ensures Follows(f, h)
  {
  }

  // ----- Every run -----

  lemma {:induction false} RunKeeps(f: Factory, actions: seq<Action>)
    requires Valid(f)
    ensures RunFrom(f, actions).Some? ==> Valid(RunFrom(f, actions).value) && Follows(f, RunFrom(f, actions).value)
  {
    hide Valid, Enabled, Do;
    if actions == [] {
      assert Follows(f, f) by { FollowsSelf(f); }
    } else {
      hide Follows;
      var before := RunFrom(f, actions[..|actions| - 1]);
      RunKeeps(f, actions[..|actions| - 1]);
      if RunFrom(f, actions).Some? {
        StepKeeps(before.value, actions[|actions| - 1]);
        FollowsTransitive(f, before.value, RunFrom(f, actions).value);
      }
    }
  }

  lemma FollowsSelf(f: Factory)
    requires Valid(f)
    ensures Follows(f, f)
  {
  }

  // ----- What a run has done, read off its actions -----

  predicate Gets(a: Action, kind: Kind)
  {
    a.Get? && a.kind == kind
  }

  // Action p starts the kind's informer: the kind was asked for before, and no shutdown had begun.
  ghost predicate StartsAt(actions: seq<Action>, kind: Kind, p: int)
  {
    && 0 <= p < |actions| && actions[p].Start?
    && (exists i :: 0 <= i < p && Gets(actions[i], kind))
    && (forall i :: 0 <= i < p ==> actions[i] != BeginShutdown)
  }

  // The first time the kind was asked for.
  ghost predicate FirstGet(actions: seq<Action>, kind: Kind, p: int)
  {
    0 <= p < |actions| && Gets(actions[p], kind) && forall i :: 0 <= i < p ==> !Gets(actions[i], kind)
  }

  // A kind has the informer made when it was first asked for; it has been started exactly if a Start came
  // after that and before every shutdown; and it runs until it finishes.
  ghost predicate Reflects(actions: seq<Action>, kind: Kind, f: Factory)
  {
    && (kind in f.informers ==> exists p :: FirstGet(actions, kind, p) && f.informers[kind] == actions[p].made)
    && (kind in f.informers <==> exists p :: 0 <= p < |actions| && Gets(actions[p], kind))
    && (kind in f.started <==> exists p :: StartsAt(actions, kind, p))
    && (kind in f.running <==> kind in f.started && Finish(kind) !in actions)
    && (Finish(kind) in actions ==> kind in f.started)
    && (f.shuttingDown <==> BeginShutdown in actions)
    && (f.shutdownReturned <==> EndShutdown in actions)
  }

  lemma ReflectsNone(kind: Kind)
    ensures Reflects([], kind, NEW_FACTORY)
  {
  }

  lemma GetsAfter(init: seq<Action>, last: Action, kind: Kind, f: Factory)
    requires Reflects(init, kind, f) && Enabled(f, last)
    ensures var g, actions := Do(f, last), init + [last];
            && (kind in g.informers ==>
                  exists p :: FirstGet(actions, kind, p) && g.informers[kind] == actions[p].made)
            && (kind in g.informers <==> exists p :: 0 <= p < |actions| && Gets(actions[p], kind))
  {
    hide StartingAll;
    var g, actions := Do(f, last), init + [last];
    assert actions[|init|] == last;
    if kind in f.informers {
      var p :| FirstGet(init, kind, p) && f.informers[kind] == init[p].made;
      assert FirstGet(actions, kind, p);
    } else if Gets(last, kind) {
      assert FirstGet(actions, kind, |init|);
    } else {
      assert forall p :: 0 <= p < |actions| ==> !Gets(actions[p], kind);
    }
  }

  lemma StartsAtNext(init: seq<Action>, last: Action, kind: Kind, p: int)
    ensures StartsAt(init + [last], kind, p) <==>
            || StartsAt(init, kind, p)
            || (p == |init| && last.Start? && BeginShutdown !in init
                && exists i :: 0 <= i < |init| && Gets(init[i], kind))
  {
    hide Gets;
    var actions := init + [last];
    assert forall i :: 0 <= i < |init| ==> actions[i] == init[i];
    assert actions[|init|] == last;
  }

  // The step starts the kind's informer.
  predicate StartsKind(f: Factory, a: Action, kind: Kind)
  {
    a.Start? && kind in f.informers && kind !in f.started && !f.shuttingDown
  }

  lemma StepStarts(f: Factory, a: Action, kind: Kind)
    requires Enabled(f, a)
    ensures var g := Do(f, a);
            && (kind in g.started <==> kind in f.started || StartsKind(f, a, kind))
            && (kind in g.running <==> (kind in f.running && a != Finish(kind)) || StartsKind(f, a, kind))
            && (g.shuttingDown <==> f.shuttingDown || a == BeginShutdown)
            && (g.shutdownReturned <==> f.shutdownReturned || a == EndShutdown)
  {
    hide StartingAll, Appends;
    if a.Start? {
      StartStartsTheRest(f, a.order);
    }
  }

  lemma StartsAfter(init: seq<Action>, last: Action, kind: Kind, f: Factory)
    requires Reflects(init, kind, f) && Enabled(f, last)
    ensures kind in Do(f, last).started <==> exists p :: StartsAt(init + [last], kind, p)
  {
    StepStarts(f, last, kind);
    hide Do, Enabled, StartsAt, FirstGet, Gets;
    if kind in f.started {
      var p :| StartsAt(init, kind, p);
      StartsAtNext(init, last, kind, p);
    } else if kind in Do(f, last).started {
      StartsAtNext(init, last, kind, |init|);
    } else {
      forall p ensures !StartsAt(init + [last], kind, p) {
        StartsAtNext(init, last, kind, p);
      }
    }
  }

  lemma FlagsAfter(init: seq<Action>, last: Action, kind: Kind, f: Factory)
    requires Reflects(init, kind, f) && Enabled(f, last)
    ensures var g, actions := Do(f, last), init + [last];
            && (kind in g.running <==> kind in g.started && Finish(kind) !in actions)
            && (Finish(kind) in actions ==> kind in g.started)
            && (g.shuttingDown <==> BeginShutdown in actions)
            && (g.shutdownReturned <==> EndShutdown in actions)
  {
    StepStarts(f, last, kind);
    FinishRuns(f, last);
    hide Do, Enabled, StartsAt, FirstGet, Gets;
    assert forall a :: a in init + [last] <==> a in init || a == last;
  }

  lemma FinishRuns(f: Factory, a: Action)
    requires Enabled(f, a)
    ensures a.Finish? ==> a.kind in f.running
  {
  }

  lemma ReflectsNext(init: seq<Action>, last: Action, kind: Kind, f: Factory)
    requires Reflects(init, kind, f) && Enabled(f, last)
    ensures Reflects(init + [last], kind, Do(f, last))
  {
    GetsAfter(init, last, kind, f);
    StartsAfter(init, last, kind, f);
    FlagsAfter(init, last, kind, f);
    hide FirstGet, StartsAt, Gets, Do, Enabled;
  }

  lemma {:induction false} RunReflects(actions: seq<Action>, kind: Kind)
    requires RunFrom(NEW_FACTORY, actions).Some?
    ensures Reflects(actions, kind, RunFrom(NEW_FACTORY, actions).value)
  {
    hide Reflects, Enabled, Do;
    if actions == [] {
      ReflectsNone(kind);
    } else {
      var init, last := actions[..|actions| - 1], actions[|actions| - 1];
      RunReflects(init, kind);
      ReflectsNext(init, last, kind, RunFrom(NEW_FACTORY, init).value);
      assert init + [last] == actions;
    }
  }

  // In every run, a kind that was asked for before some Start, with no shutdown begun, has exactly one
  // goroutine started for it, with the informer it first got.
  lemma StartedExactlyOnce(actions: seq<Action>, kind: Kind, first: int, p: int)
    requires RunFrom(NEW_FACTORY, actions).Some?
    requires FirstGet(actions, kind, first) && first < p && StartsAt(actions, kind, p)
    ensures var g := RunFrom(NEW_FACTORY, actions).value;
            exists i :: 0 <= i < |g.starts| && g.starts[i] == (kind, actions[first].made)
                        && forall j :: 0 <= j < |g.starts| && g.starts[j].0 == kind ==> j == i
  {
    hide RunFrom, StartsAt;
    RunReflects(actions, kind);
    FactoryIsValid();
    RunKeeps(NEW_FACTORY, actions);
  }

  lemma FactoryIsValid()
    ensures Valid(NEW_FACTORY)
  {
  }

  // In every run each kind keeps the one informer it first got, that informer is started at most
  // once and no other is ever started for the kind, and once a shutdown has begun nothing starts.
  lemma OneInformerPerKind(before: seq<Action>, later: seq<Action>, kind: Kind)
    requires RunFrom(NEW_FACTORY, before).Some?
    requires RunFrom(RunFrom(NEW_FACTORY, before).value, later).Some?
    ensures var f, g := RunFrom(NEW_FACTORY, before).value, RunFrom(RunFrom(NEW_FACTORY, before).value, later).value;
            && (kind in f.informers ==> kind in g.informers && g.informers[kind] == f.informers[kind])
            && (forall i :: 0 <= i < |g.starts| ==>
                  && g.starts[i].0 in g.informers && g.starts[i].1 == g.informers[g.starts[i].0]
                  && forall j :: i < j < |g.starts| ==> g.starts[i].0 != g.starts[j].0)
            && (f.shuttingDown ==> g.starts == f.starts)
  {
    hide RunFrom;
    RunKeeps(NEW_FACTORY, before);
    RunKeeps(RunFrom(NEW_FACTORY, before).value, later);
  }

  // After a shutdown has returned, no informer goroutine is running, nor will one ever be.
  lemma ShutdownIsFinal(before: seq<Action>, later: seq<Action>)
    requires RunFrom(NEW_FACTORY, before).Some? && RunFrom(NEW_FACTORY, before).value.shutdownReturned
    requires RunFrom(RunFrom(NEW_FACTORY, before).value, later).Some?
    ensures RunFrom(RunFrom(NEW_FACTORY, before).value, later).value.running == {}
  {
    hide RunFrom;
    RunKeeps(NEW_FACTORY, before);
    RunKeeps(RunFrom(NEW_FACTORY, before).value, later);
  }

  lemma StartingNext(f: Factory, order: seq<Kind>, i: nat)
    requires i < |order| && forall k :: k in order ==> k in f.informers
    ensures StartingAll(f, order[..i + 1]) == Starting(StartingAll(f, order[..i]), order[i])
  {
    assert order[..i + 1][..i] == order[..i];
  }

  // ----- The code: its locked sections -----

  class SharedInformerFactory {
    var informers: map<Kind, Informer>
    var startedInformers: map<Kind, bool>
    var shuttingDown: bool
    var running: set<Kind>
    ghost var starts: seq<(Kind, Informer)>
    ghost var shutdownReturned: bool

    constructor ()
      ensures Abs() == NEW_FACTORY
    {
      informers, startedInformers, shuttingDown, running := map[], map[], false, {};
      starts, shutdownReturned := [], false;
    }

    ghost function Abs(): Factory
      reads this
    {
      Factory(informers, (set k | k in startedInformers && startedInformers[k]), shuttingDown, running, starts,
              shutdownReturned)
    }

    method InformerFor(kind: Kind, made: Informer) returns (informer: Informer)
      modifies this
      ensures Abs() == Do(old(Abs()), Get(kind, made))
      ensures kind in informers && informer == informers[kind]
      ensures informer == if kind in old(informers) then old(informers)[kind] else made
    {
      if kind in informers {
        return informers[kind];
      }
      informers := informers[kind := made];
      return made;
    }

    method StartWithContext(order: seq<Kind>)
      requires Enabled(Abs(), Start(order))
      modifies this
      ensures Abs() == Do(old(Abs()), Start(order))
      ensures if old(shuttingDown) then Abs() == old(Abs()) else StartsThese(old(Abs()), Abs(), informers.Keys)
    {
      hide StartsThese;
      ghost var before := Abs();
      StartStartsTheRest(before, order);
      if shuttingDown {
        return;
      }
      assert StartingAll(before, order[..0]) == before;
      hide StartingAll;
      for i := 0 to |order|
        invariant Abs() == StartingAll(before, order[..i])
      {
        StartingNext(before, order, i);
        var kind := order[i];
        ghost var was := Abs();
        if !(kind in startedInformers && startedInformers[kind]) {
          running := running + {kind};
          starts := starts + [(kind, informers[kind])];
          startedInformers := startedInformers[kind := true];
          assert Abs().started == was.started + {kind};
          assert Abs() == Starting(was, kind);
        }
      }
      assert order[..|order|] == order;
    }

    method BeginShutdown()
      modifies this
      ensures Abs() == Do(old(Abs()), Action.BeginShutdown)
      ensures Abs() == old(Abs()).(shuttingDown := true)
    {
      shuttingDown := true;
    }
  }
}
