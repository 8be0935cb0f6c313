/**
 What a turn of the Multus validation test does, by what it observes: when a stage is left, when it goes on
 waiting, and what each result of a run means.
 */
module MultusTurns {
  import opened Wrappers
  import opened MultusConfig
  import opened MultusStages
  import opened MultusRuns

  // ----- What a stage waits for -----

  // The counts that a listing of image puller daemonsets shows: one daemonset per node type, each scheduled
  // somewhere, and the last one counts where two have one node type.
  ghost predicate ShowsCounts(cfg: Config, sets: Listed<SetStatus>, counts: Counts)
  {
    && sets.Listed? && |sets.items| == |cfg.nodeTypes|
    && (forall i :: 0 <= i < |sets.items| ==> sets.items[i].numScheduled != 0)
    && IsLastOf(sets.items, counts)
  }

  ghost predicate IsLastOf(sets: seq<SetStatus>, counts: Counts)
  {
    && (forall i :: 0 <= i < |sets| ==> sets[i].nodeType in counts)
    && (forall t :: t in counts ==> exists i :: LastAt(sets, t, i) && counts[t] == sets[i].numScheduled)
  }

  ghost predicate LastAt(sets: seq<SetStatus>, t: string, i: int)
  {
    0 <= i < |sets| && sets[i].nodeType == t && forall j :: i < j < |sets| ==> sets[j].nodeType != t
  }

  lemma {:induction false} CountsOfIsLast(sets: seq<SetStatus>)
    ensures IsLastOf(sets, CountsOf(sets))
  {
    if sets != [] {
      var init, last := sets[..|sets| - 1], sets[|sets| - 1];
      CountsOfIsLast(init);
      LastOfNext(init, last, CountsOf(init));
      assert sets == init + [last];
    }
  }

  lemma LastOfNext(init: seq<SetStatus>, last: SetStatus, before: Counts)
    requires IsLastOf(init, before)
    ensures IsLastOf(init + [last], before[last.nodeType := last.numScheduled])
  {
    var sets, counts := init + [last], before[last.nodeType := last.numScheduled];
    forall t | t in counts ensures exists i :: LastAt(sets, t, i) && counts[t] == sets[i].numScheduled {
      if t == last.nodeType {
        assert LastAt(sets, t, |init|);
      } else {
        var i :| LastAt(init, t, i) && before[t] == init[i].numScheduled;
        assert LastAt(sets, t, i);
      }
    }
  }

  lemma LastIsUnique(sets: seq<SetStatus>, a: Counts, b: Counts)
    requires IsLastOf(sets, a) && IsLastOf(sets, b)
    ensures a == b
  {
    forall t | t in a ensures t in b && a[t] == b[t] {
      var i :| LastAt(sets, t, i) && a[t] == sets[i].numScheduled;
      var j :| LastAt(sets, t, j) && b[t] == sets[j].numScheduled;
      assert i == j;
    }
    forall t | t in b ensures t in a {
      var i :| LastAt(sets, t, i) && b[t] == sets[i].numScheduled;
    }
  }

  lemma PullCountsMeans(cfg: Config, sets: Listed<SetStatus>, counts: Counts)
    ensures PullCounts(cfg, sets) == Some(counts) <==> ShowsCounts(cfg, sets, counts)
  {
    if sets.Listed? {
      hide CountsOf, IsLastOf;
      CountsOfIsLast(sets.items);
      if IsLastOf(sets.items, counts) {
        LastIsUnique(sets.items, counts, CountsOf(sets.items));
      }
    }
  }

  // Some listing of the turn shows counts, and they have been the same for the debounce time.
  ghost predicate ShowsStableCounts(cfg: Config, s: Stage, tick: Tick)
    requires s.GetExpected?
  {
    exists counts :: ShowsCounts(cfg, tick.pullSets, counts)
                     && tick.clock2 - SeenSince(s, counts, tick) >= DEBOUNCE
  }

  // Since when the first stage has seen these counts, the current turn included.
  function SeenSince(s: Stage, counts: Counts, tick: Tick): int
    requires s.GetExpected?
  {
    if s.changedAt.Some? && s.counts == counts then s.changedAt.value else tick.clock1
  }

  // No create call of the stage fails: one call per daemonset.
  ghost predicate NoCallFails(calls: nat, tick: Tick)
  {
    forall i: nat :: i < calls ==> i !in tick.failingCreates
  }

  // What the turn has to observe for the stage to be left.
  ghost predicate Has(cfg: Config, s: Stage, tick: Tick)
    requires forall t :: t in tick.order ==> t in cfg.nodeTypes
  {
    match s
    case GetExpected(_, _) => ShowsStableCounts(cfg, s, tick)
    case EnsureNoOverlap(_) =>
      && tick.pullPods.Listed?
      && (forall i, j :: 0 <= i < j < |tick.pullPods.items| ==>
            tick.pullPods.items[i].nodeName != tick.pullPods.items[j].nodeName)
    case VerifyRunning(app, _, expected, _) =>
      if app.ImagePull? then AllRunning(tick.pullPods, expected)
      else if app.HostChecker? then AllRunning(tick.checkerPods, expected)
      else AllRunning(tick.clientPods, expected)
    case DeleteImagePullers(_) => !tick.deleteFails
    case GetWebServerInfo(_) => tick.networkNamesParse && tick.webServer.Some?
    case StartHostCheckers(_, _) => cfg.publicNetwork == "" || NoCallFails(|tick.order|, tick)
    case VerifyHostCheckersReady(_, counts) => AllReady(tick.checkerPods, SumOf(counts))
    case DeleteHostCheckers(_, _) => !tick.deleteFails
    case StartClients(web, _) => NoCallFails(|ClientPlan(cfg, tick.order, web.publicAddr)|, tick)
    case VerifyClientsReady(expected, _, _, _) => AllReady(tick.clientPods, expected)
  }

  // Three stages do not wait: two pods on one node, a failed listing of them, or a failed create call end
  // the run.
  ghost predicate Fatal(cfg: Config, s: Stage, tick: Tick)
    requires forall t :: t in tick.order ==> t in cfg.nodeTypes
  {
    (s.EnsureNoOverlap? || s.StartHostCheckers? || s.StartClients?) && !Has(cfg, s, tick)
  }

  // The stage whose end is the end of the test.
  predicate IsLast(cfg: Config, s: Stage)
  {
    s.VerifyClientsReady? || (s.DeleteHostCheckers? && cfg.hostCheckOnly)
  }

  // The same stage, waiting for the same thing. What it has noted about the time may differ.
  ghost predicate SameWait(s: Stage, s': Stage)
  {
    if s.GetExpected? then s'.GetExpected?
    else if s.VerifyClientsReady? then s'.VerifyClientsReady? && s'.expected == s.expected
    else s' == s
  }

  // ----- One stage -----

  ghost predicate Outcome(cfg: Config, s: Stage, tick: Tick, r: StageResult)
    requires forall t :: t in tick.order ==> t in cfg.nodeTypes
  {
    if Has(cfg, s, tick) then
      if IsLast(cfg, s) then r.done && r.err.None? else !r.done && r.changed && Rank(s) < Rank(r.state)
    else if Fatal(cfg, s, tick) then r.done && r.err.Some?
    else !r.done && !r.changed && SameWait(s, r.state)
  }

  // The first stage knows since when it has seen what it saw last.
  predicate Noted(cfg: Config, s: Stage)
  {
    cfg.nodeTypes != map[] && (s.GetExpected? && s.changedAt.None? ==> s.counts == map[])
  }

  lemma FirstOutcome(cfg: Config, s: Stage, tick: Tick)
    requires forall t :: t in tick.order ==> t in cfg.nodeTypes
    requires s.GetExpected? && Noted(cfg, s)
    ensures Outcome(cfg, s, tick, RunGetExpected(cfg, s, tick))
  {
    hide PullCounts, ShowsCounts;
    var seen := PullCounts(cfg, tick.pullSets);
    forall counts ensures ShowsCounts(cfg, tick.pullSets, counts) <==> seen == Some(counts) {
      PullCountsMeans(cfg, tick.pullSets, counts);
    }
    if seen.Some? {
      PullCountsNonEmpty(cfg, tick.pullSets);
      assert ShowsCounts(cfg, tick.pullSets, seen.value);
      assert Has(cfg, s, tick) <==> tick.clock2 - SeenSince(s, seen.value, tick) >= DEBOUNCE;
    }
  }

  lemma WaitingOutcome(cfg: Config, s: Stage, tick: Tick)
    requires forall t :: t in tick.order ==> t in cfg.nodeTypes
    requires (s.VerifyRunning? || s.VerifyHostCheckersReady? || s.VerifyClientsReady?) && FieldsInv(cfg, s)
    ensures Outcome(cfg, s, tick, RunStage(cfg, s, tick))
  {
    hide CountRunning, CountReady, SumOf, AllRunning, AllReady, ClientCounts, CheckIfFlaky;
    match s
    case VerifyRunning(app, _, expected, _) => AllRunningIs(PodsOf(tick, app), expected);
    case VerifyHostCheckersReady(_, counts) => AllReadyIs(tick.checkerPods, SumOf(counts));
    case VerifyClientsReady(expected, _, _, _) => AllReadyIs(tick.clientPods, expected);
  }

  lemma NoCallFailsIs(calls: nat, tick: Tick)
    ensures NoCallFails(calls, tick) <==> FirstFailure(calls, tick.failingCreates) == calls
  {
  }

  lemma StartingOutcome(cfg: Config, s: Stage, tick: Tick)
    requires forall t :: t in tick.order ==> t in cfg.nodeTypes
    requires s.StartHostCheckers? || s.StartClients?
    ensures Outcome(cfg, s, tick, RunStage(cfg, s, tick))
  {
    hide FirstFailure, SumOf, ClientPlan, Creates, ClientCounts, Reached, NoCallFails;
    match s
    case StartHostCheckers(_, _) => NoCallFailsIs(|tick.order|, tick);
    case StartClients(web, _) => NoCallFailsIs(|ClientPlan(cfg, tick.order, web.publicAddr)|, tick);
  }

  // A stage is left exactly when the turn observes what it waits for. Otherwise it goes on waiting for the
  // same thing, except for the three stages that end the run.
  lemma StageOutcome(cfg: Config, s: Stage, tick: Tick)
    requires forall t :: t in tick.order ==> t in cfg.nodeTypes
    requires FieldsInv(cfg, s) && Noted(cfg, s)
    ensures Outcome(cfg, s, tick, RunStage(cfg, s, tick))
  {
    if s.GetExpected? {
      FirstOutcome(cfg, s, tick);
    } else if s.VerifyRunning? || s.VerifyHostCheckersReady? || s.VerifyClientsReady? {
      WaitingOutcome(cfg, s, tick);
    } else if s.StartHostCheckers? || s.StartClients? {
      StartingOutcome(cfg, s, tick);
    } else {
      hide SumOf;
    }
  }

  // ----- One turn -----

  // The context is done when the select happens, and the select picks that.
  predicate CanceledAtSelect(m: Machine, tick: Tick)
  {
    tick.doneAtSelect && !(tick.selectAt >= m.timer.deadline && tick.timerFirst)
  }

  // Everything a turn can come to, by what it observes.
  lemma TurnOutcome(cfg: Config, m: Machine, tick: Tick)
    requires forall t :: t in tick.order ==> t in cfg.nodeTypes
    requires FieldsInv(cfg, m.state) && Noted(cfg, m.state) && !m.timer.received
    ensures var o := Step(cfg, m, tick);
            if CanceledAtSelect(m, tick) then o == Returned(Canceled, m)
            else if tick.selectAt >= m.timer.deadline then
              o.Returned? && o.result == TimedOut && o.final.effects == m.effects
            else if tick.doneAfterRun then o.Returned? && o.result == Canceled
            else if Fatal(cfg, m.state, tick) then o.Returned? && o.result.Failed?
            else if !Has(cfg, m.state, tick) then
              o.Running? && !o.m.changed && SameWait(m.state, o.m.state) && Rank(o.m.state) == Rank(m.state)
            else if IsLast(cfg, m.state) then o.Returned? && o.result.Success?
            else o.Running? && o.m.changed && Rank(m.state) < Rank(o.m.state)
  {
    StageOutcome(cfg, m.state, tick);
    hide RunStage, Has, FieldsInv;
  }

  // ----- Every run -----

  lemma RunNoted(cfg: Config, start: Start, env: nat -> Tick, n: nat)
    requires ValidEnv(cfg, start, env) && RunFor(cfg, start, env, n).Running?
    ensures var m := RunFor(cfg, start, env, n).m; FieldsInv(cfg, m.state) && Noted(cfg, m.state) && ValidConfig(cfg)
  {
    hide RunFor, ValidConfig, Seen, ExpectationSeen;
    RunInv(cfg, start, env, n);
    ValidConfigIsPlaceable(cfg);
  }

  // What the result of a run says about the turn that ended it, or about its start.
  ghost predicate Explained(cfg: Config, start: Start, env: nat -> Tick, n: nat, result: Result)
    requires ValidEnv(cfg, start, env)
  {
    match result
    case Rejected => !ValidConfig(cfg)
    case StartFailed =>
      || start.ownerFails || start.webConfigFails || start.webPodFails || !HasOSDs(cfg.nodeTypes)
      || exists i: nat :: i < |start.order| && i in start.failingCreates
    case Failed(_) => exists k: nat :: k < n && EndedAt(cfg, start, env, k) && FatalAt(cfg, start, env, k)
    case TimedOut => exists k: nat :: k < n && EndedAt(cfg, start, env, k) && ExpiredAt(cfg, start, env, k)
    case Canceled =>
      exists k: nat :: k < n && EndedAt(cfg, start, env, k) && (env(k).doneAtSelect || env(k).doneAfterRun)
    case Success(_) =>
      || (cfg.hostCheckOnly && cfg.publicNetwork == "")
      || exists k: nat :: k < n && EndedAt(cfg, start, env, k) && HasAt(cfg, start, env, k)
  }

  // Turn k is the last one.
  ghost predicate EndedAt(cfg: Config, start: Start, env: nat -> Tick, k: nat)
    requires ValidEnv(cfg, start, env)
  {
    RunFor(cfg, start, env, k).Running? && RunFor(cfg, start, env, k + 1).Returned?
  }

  ghost predicate FatalAt(cfg: Config, start: Start, env: nat -> Tick, k: nat)
    requires ValidEnv(cfg, start, env)
  {
    RunFor(cfg, start, env, k).Running? && Orders(cfg, env, k)
    && Fatal(cfg, RunFor(cfg, start, env, k).m.state, env(k))
  }

  ghost predicate HasAt(cfg: Config, start: Start, env: nat -> Tick, k: nat)
    requires ValidEnv(cfg, start, env)
  {
    RunFor(cfg, start, env, k).Running? && Orders(cfg, env, k)
    && Has(cfg, RunFor(cfg, start, env, k).m.state, env(k))
  }

  ghost predicate ExpiredAt(cfg: Config, start: Start, env: nat -> Tick, k: nat)
    requires ValidEnv(cfg, start, env)
  {
    RunFor(cfg, start, env, k).Running? && env(k).selectAt >= RunFor(cfg, start, env, k).m.timer.deadline
  }

  ghost predicate Orders(cfg: Config, env: nat -> Tick, k: nat)
  {
    forall t :: t in env(k).order ==> t in cfg.nodeTypes
  }

  lemma LaunchExplained(cfg: Config, start: Start, env: nat -> Tick)
    requires ValidEnv(cfg, start, env)
    ensures var o := RunFor(cfg, start, env, 0);
            && !o.Blocked? && (o.Returned? ==> Explained(cfg, start, env, 0, o.result))
            && (o.Running? ==> !o.m.timer.received)
  {
    hide ValidConfig, HasOSDs;
  }

  lemma {:induction false} ResultExplained(cfg: Config, start: Start, env: nat -> Tick, n: nat)
    requires ValidEnv(cfg, start, env)
    ensures var o := RunFor(cfg, start, env, n);
            && !o.Blocked? && (o.Returned? ==> Explained(cfg, start, env, n, o.result))
            && (o.Running? ==> !o.m.timer.received)
  {
    hide RunFor, Has, Step, FieldsInv, ValidConfig, HasOSDs, ValidEnv;
    LaunchExplained(cfg, start, env);
    if n > 0 {
      ResultExplained(cfg, start, env, n - 1);
      RunNext(cfg, start, env, n - 1);
      var before := RunFor(cfg, start, env, n - 1);
      if before.Running? {
        RunNoted(cfg, start, env, n - 1);
        TurnOutcome(cfg, before.m, env(n - 1));
        UnreadAfter(cfg, before.m, env(n - 1));
        var o := RunFor(cfg, start, env, n);
        assert o.Returned? ==> EndedAt(cfg, start, env, n - 1);
        assert Orders(cfg, env, n - 1);
      }
    }
  }

  lemma UnreadAfter(cfg: Config, m: Machine, tick: Tick)
    requires forall t :: t in tick.order ==> t in cfg.nodeTypes
    ensures var o := Step(cfg, m, tick); o.Running? && !m.timer.received ==> !o.m.timer.received
  {
    hide RunStage;
  }
}
