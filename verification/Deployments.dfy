/**
 Updating a batch of deployments and waiting for them: every deployment ends up in exactly one of
 "update failed", "unchanged", "finished" and "wait failed", and each failure is reported once.
 */
module Deployments {
  import opened Wrappers

  datatype Failure = UpdateFailed(name: string) | DeadlineExceeded(name: string) | TimedOut(name: string)

  // What a listing shows of a deployment.
  datatype Status = Status(
    name: string, observedGeneration: int, updatedReplicas: int, readyReplicas: int, conditions: seq<Condition>)

  datatype Condition = Condition(kind: string, reason: string)

  datatype Listing = Listing(items: seq<Status>) | ListError | ListCanceled

  type Waiting = map<string, int>

  function DoneUpdating(d: Status, oldGeneration: int): bool
  {
    d.observedGeneration != oldGeneration && d.updatedReplicas > 0 && d.readyReplicas > 0
  }

  predicate Exceeded(d: Status)
  {
    exists i :: 0 <= i < |d.conditions|
                && d.conditions[i].kind == "Progressing" && d.conditions[i].reason == "ProgressDeadlineExceeded"
  }

  method ProgressDeadlineExceeded(d: Status) returns (exceeded: bool)
    ensures exceeded <==> Exceeded(d)
  {
    for i := 0 to |d.conditions|
      invariant forall j :: 0 <= j < i ==>
                  !(d.conditions[j].kind == "Progressing" && d.conditions[j].reason == "ProgressDeadlineExceeded")
    {
      if d.conditions[i].kind == "Progressing" && d.conditions[i].reason == "ProgressDeadlineExceeded" {
        return true;
      }
    }
    return false;
  }

  // ----- The fate of one deployment, read off the items that were listed -----

  datatype Fate = Pending | Finished | GaveUp

  // The first listed item that settles the matter decides; later ones no longer count.
  function FateOf(name: string, oldGeneration: int, items: seq<Status>): Fate
  {
    if items == [] then Pending
    else
      var before, d := FateOf(name, oldGeneration, items[..|items| - 1]), items[|items| - 1];
      if !before.Pending? || d.name != name then before
      else if Exceeded(d) then GaveUp
      else if DoneUpdating(d, oldGeneration) then Finished
      else Pending
  }

  predicate Settles(name: string, oldGeneration: int, d: Status)
  {
    d.name == name && (Exceeded(d) || DoneUpdating(d, oldGeneration))
  }

  // Item i is the first that settles the matter.
  ghost predicate FirstToSettle(name: string, oldGeneration: int, items: seq<Status>, i: nat)
  {
    && i < |items| && Settles(name, oldGeneration, items[i])
    && forall j :: 0 <= j < i ==> !Settles(name, oldGeneration, items[j])
  }

  // Pending: no item settled it. Otherwise the first that did says how, and a passed deadline weighs
  // more than a finished update.
  lemma {:induction false} FateIsFirstToSettle(name: string, oldGeneration: int, items: seq<Status>)
    ensures var fate := FateOf(name, oldGeneration, items);
            && (fate.Pending? <==> forall i :: 0 <= i < |items| ==> !Settles(name, oldGeneration, items[i]))
            && (fate.GaveUp? <==>
                  exists i: nat :: FirstToSettle(name, oldGeneration, items, i) && Exceeded(items[i]))
            && (fate.Finished? <==>
                  exists i: nat :: FirstToSettle(name, oldGeneration, items, i) && !Exceeded(items[i]))
  {
    hide Exceeded, DoneUpdating;
    if items != [] {
      var init, last := items[..|items| - 1], |items| - 1;
      FateIsFirstToSettle(name, oldGeneration, init);
      assert forall i: nat :: i < last ==> init[i] == items[i];
      assert forall i: nat :: i < last ==>
          (FirstToSettle(name, oldGeneration, items, i) <==> FirstToSettle(name, oldGeneration, init, i));
      assert FirstToSettle(name, oldGeneration, items, last) <==>
             FateOf(name, oldGeneration, init).Pending? && Settles(name, oldGeneration, items[last]);
    }
  }

  // ----- The same by the fields of the listed items -----

  // The item shows a new generation with updated and ready replicas.
  predicate ShowsFinished(name: string, oldGeneration: int, d: Status)
  {
    d.name == name && d.observedGeneration != oldGeneration && d.updatedReplicas > 0 && d.readyReplicas > 0
  }

  ghost predicate ShowsExceeded(name: string, d: Status)
  {
    d.name == name && Condition("Progressing", "ProgressDeadlineExceeded") in d.conditions
  }

  ghost predicate FirstToShow(name: string, oldGeneration: int, items: seq<Status>, i: nat)
  {
    && i < |items| && (ShowsExceeded(name, items[i]) || ShowsFinished(name, oldGeneration, items[i]))
    && forall j :: 0 <= j < i ==> !ShowsExceeded(name, items[j]) && !ShowsFinished(name, oldGeneration, items[j])
  }

  // What is reported about a deployment that was updated, by what was listed. Nothing: the first item that
  // shows anything shows it finished. A passed deadline: that item shows this. A timeout: no item shows either.
  ghost predicate ReportedAsShown(failures: seq<Failure>, name: string, oldGeneration: int, items: seq<Status>)
  {
    && (TimedOut(name) in failures <==>
          forall d :: d in items ==> !ShowsExceeded(name, d) && !ShowsFinished(name, oldGeneration, d))
    && (DeadlineExceeded(name) in failures <==>
          exists i: nat :: FirstToShow(name, oldGeneration, items, i) && ShowsExceeded(name, items[i]))
    && (!Reported(failures, name) <==>
          exists i: nat :: FirstToShow(name, oldGeneration, items, i) && !ShowsExceeded(name, items[i])
                           && ShowsFinished(name, oldGeneration, items[i]))
  }

  lemma SettlesIsShown(name: string, oldGeneration: int, d: Status)
    ensures Settles(name, oldGeneration, d) <==> ShowsExceeded(name, d) || ShowsFinished(name, oldGeneration, d)
    ensures d.name == name ==> (Exceeded(d) <==> ShowsExceeded(name, d))
  {
  }

  lemma FateIsShown(name: string, oldGeneration: int, items: seq<Status>)
    ensures var fate := FateOf(name, oldGeneration, items);
            && (fate.Pending? <==>
                  forall d :: d in items ==> !ShowsExceeded(name, d) && !ShowsFinished(name, oldGeneration, d))
            && (fate.GaveUp? <==>
                  exists i: nat :: FirstToShow(name, oldGeneration, items, i) && ShowsExceeded(name, items[i]))
            && (fate.Finished? <==>
                  exists i: nat :: FirstToShow(name, oldGeneration, items, i) && !ShowsExceeded(name, items[i])
                                   && ShowsFinished(name, oldGeneration, items[i]))
  {
    hide FateOf, Exceeded, DoneUpdating, ShowsExceeded, ShowsFinished;
    FateIsFirstToSettle(name, oldGeneration, items);
    forall d
      ensures Settles(name, oldGeneration, d) <==> ShowsExceeded(name, d) || ShowsFinished(name, oldGeneration, d)
      ensures d.name == name ==> (Exceeded(d) <==> ShowsExceeded(name, d))
    {
      SettlesIsShown(name, oldGeneration, d);
    }
    assert forall i: nat ::
        FirstToShow(name, oldGeneration, items, i) <==> FirstToSettle(name, oldGeneration, items, i);
  }

  // ----- The wait set -----

  ghost predicate Reported(failures: seq<Failure>, name: string)
  {
    exists i :: 0 <= i < |failures| && failures[i].name == name
  }

  ghost predicate ReportedOnce(failures: seq<Failure>)
  {
    forall i, j :: 0 <= i < j < |failures| ==> failures[i].name != failures[j].name
  }

  lemma ReportAppended(failures: seq<Failure>, f: Failure)
    ensures forall n :: Reported(failures + [f], n) <==> Reported(failures, n) || n == f.name
    ensures ReportedOnce(failures) && !Reported(failures, f.name) ==> ReportedOnce(failures + [f])
  {
    var all := failures + [f];
    assert all[|failures|] == f;
    assert forall i :: 0 <= i < |failures| ==> all[i] == failures[i];
  }

  ghost predicate SomePending(updated: Waiting, items: seq<Status>)
  {
    exists n :: n in updated && FateOf(n, updated[n], items).Pending?
  }

  // The closure of WaitForDeploymentsToUpdate with the two variables it captures.
  class Waiter {
    var waitingOn: Waiting
    var failures: seq<Failure>
    ghost const updated: Waiting
    ghost var listed: seq<Status>   // every item seen in a successful listing so far

    constructor (updated: Waiting)
      ensures this.updated == updated && waitingOn == updated && failures == [] && listed == []
    {
      this.updated := updated;
      waitingOn := updated;
      failures := [];
      listed := [];
    }

    // The wait set holds the pending deployments, the failures those given up on, each once.
    ghost predicate Valid()
      reads this
    {
      && (forall n :: n in waitingOn <==> n in updated && FateOf(n, updated[n], listed).Pending?)
      && (forall n :: n in waitingOn ==> waitingOn[n] == updated[n])
      && (forall n :: Reported(failures, n) <==> n in updated && FateOf(n, updated[n], listed).GaveUp?)
      && (forall i :: 0 <= i < |failures| ==> failures[i].DeadlineExceeded?)
      && ReportedOnce(failures)
    }

    lemma WaitsOnPending()
      requires Valid()
      ensures waitingOn != map[] <==> SomePending(updated, listed)
    {
      if waitingOn != map[] {
        var n :| n in waitingOn;
      }
    }

    method See(d: Status)
      requires Valid()
      modifies this
      ensures Valid() && listed == old(listed) + [d]
    {
      listed := listed + [d];
      assert listed[..|listed| - 1] == old(listed);
      assert forall n :: n in updated && n != d.name ==>
          FateOf(n, updated[n], listed) == FateOf(n, updated[n], old(listed));
      if d.name !in waitingOn {
        return;
      }
      var oldGeneration := waitingOn[d.name];
      var exceeded := ProgressDeadlineExceeded(d);
      if exceeded {
        failures := failures + [DeadlineExceeded(d.name)];
        waitingOn := waitingOn - {d.name};
        ReportAppended(old(failures), DeadlineExceeded(d.name));
        return;
      }
      if DoneUpdating(d, oldGeneration) {
        waitingOn := waitingOn - {d.name};
      }
    }

    // One poll: whether to stop, and whether it ended in an error.
    method Poll(listing: Listing) returns (done: bool, err: bool)
      requires Valid()
      modifies this
      ensures Valid()
      ensures listed == old(listed) + if listing.Listing? then listing.items else []
      ensures done <==> if listing.Listing? then waitingOn == map[] else listing.ListCanceled?
      ensures err <==> !listing.Listing?
      ensures !listing.Listing? ==> waitingOn == old(waitingOn) && failures == old(failures)
    {
      if listing.ListCanceled? {
        return true, true;
      }
      if listing.ListError? {
        return false, true;
      }
      ghost var before := listed;
      for i := 0 to |listing.items|
        invariant Valid() && listed == before + listing.items[..i]
      {
        See(listing.items[i]);
        assert listed == before + listing.items[..i + 1];
      }
      assert listing.items[..|listing.items|] == listing.items;
      if waitingOn == map[] {
        return true, false;
      }
      return false, false;
    }
  }

  // ----- Retrying until done or timed out -----

  // The items of the first k listings.
  function Items(listings: nat -> Listing, k: nat): seq<Status>
  {
    if k == 0 then []
    else Items(listings, k - 1) + if listings(k - 1).Listing? then listings(k - 1).items else []
  }

  // An item counts exactly if one of these listings succeeded and holds it.
  lemma {:induction false} ItemsWereListed(listings: nat -> Listing, k: nat, d: Status)
    ensures d in Items(listings, k) <==>
            exists j: nat :: j < k && listings(j).Listing? && d in listings(j).items
  {
    if k > 0 {
      ItemsWereListed(listings, k - 1, d);
    }
  }

  // How the select after a poll ended: by the timeout, or by the next period.
  datatype Wake = Wake(timedOut: bool, selectAt: int, wokeAt: int)

  const SECOND: int := 1_000_000_000
  const PERIOD: int := 2 * SECOND             // waitForDeploymentPeriod
  const DEFAULT_TIMEOUT: int := 60 * SECOND   // waitForDeploymentTimeout

  // Twice the progress deadline, since pods both stop and start.
  function TimeoutFor(deadline: Option<int>): int
  {
    if deadline.Some? then 2 * deadline.value * SECOND else DEFAULT_TIMEOUT
  }

  // A select ends by the timeout only once that is over, and by the period only after a full period
  // that began while the timeout was not over.
  ghost predicate WellWoken(start: int, timeout: int, wakes: nat -> Wake, n: nat)
  {
    var w := wakes(n);
    && start <= w.selectAt <= w.wokeAt <= wakes(n + 1).selectAt
    && if w.timedOut then w.wokeAt - start >= timeout
       else w.selectAt - start < timeout && w.wokeAt - w.selectAt >= PERIOD
  }

  ghost predicate ValidWakes(start: int, timeout: int, wakes: nat -> Wake)
  {
    forall n :: WellWoken(start, timeout, wakes, n)
  }

  // Poll number `polls` is the one that follows the timeout.
  predicate AfterTimeout(wakes: nat -> Wake, polls: nat)
  {
    polls >= 2 && wakes(polls - 2).timedOut
  }

  ghost predicate StopsAfter(updated: Waiting, listings: nat -> Listing, wakes: nat -> Wake, polls: nat)
  {
    && polls > 0
    && (|| listings(polls - 1).ListCanceled?
        || !SomePending(updated, Items(listings, polls))
        || AfterTimeout(wakes, polls))
  }

  // Polling goes on until a listing is canceled, nothing is pending, or the timeout was followed by
  // one more poll, whichever comes first.
  ghost predicate LastPoll(updated: Waiting, listings: nat -> Listing, wakes: nat -> Wake, polls: nat)
  {
    && StopsAfter(updated, listings, wakes, polls)
    && forall k :: 0 < k < polls ==> !StopsAfter(updated, listings, wakes, k)
  }

  // At most one poll per period, and two more.
  predicate WithinTimeout(timeout: int, polls: nat)
  {
    polls <= 2 || (polls - 3) * PERIOD < timeout
  }

  // After n polls none of which ended the wait: n - 1 periods have passed.
  ghost predicate StillPolling(
    updated: Waiting, listings: nat -> Listing, start: int, timeout: int, wakes: nat -> Wake, n: nat)
  {
    && (forall k :: 0 < k <= n ==> !StopsAfter(updated, listings, wakes, k))
    && (n > 0 ==> !wakes(n - 1).timedOut && (n - 1) * PERIOD <= wakes(n - 1).selectAt - start < timeout)
  }

  function PollsLeft(timeout: int, n: nat): int
  {
    timeout / PERIOD + 2 - n
  }

  lemma NoPollYet(updated: Waiting, listings: nat -> Listing, start: int, timeout: int, wakes: nat -> Wake)
    ensures StillPolling(updated, listings, start, timeout, wakes, 0) && Items(listings, 0) == []
  {
  }

  lemma NextItems(listings: nat -> Listing, n: nat)
    ensures Items(listings, n + 1) == Items(listings, n) + if listings(n).Listing? then listings(n).items else []
  {
  }

  lemma NextPoll(updated: Waiting, listings: nat -> Listing, start: int, timeout: int, wakes: nat -> Wake, n: nat)
    requires ValidWakes(start, timeout, wakes) && StillPolling(updated, listings, start, timeout, wakes, n)
    ensures WithinTimeout(timeout, n + 1) && !AfterTimeout(wakes, n + 1)
    ensures StopsAfter(updated, listings, wakes, n + 1) ==> LastPoll(updated, listings, wakes, n + 1)
    ensures !StopsAfter(updated, listings, wakes, n + 1) ==>
              if wakes(n).timedOut then LastPoll(updated, listings, wakes, n + 2) && WithinTimeout(timeout, n + 2)
              else
                && StillPolling(updated, listings, start, timeout, wakes, n + 1)
                && 0 <= PollsLeft(timeout, n + 1) < PollsLeft(timeout, n)
  {
    assert WellWoken(start, timeout, wakes, n);
    assert n > 0 ==> WellWoken(start, timeout, wakes, n - 1);
    assert wakes(n).timedOut ==> AfterTimeout(wakes, n + 2);
  }

  method RetryWithTimeout(
    w: Waiter, listings: nat -> Listing, ghost start: int, ghost timeout: int, wakes: nat -> Wake)
    returns (err: bool, ghost polls: nat)
    requires w.Valid() && w.listed == [] && w.waitingOn != map[] && ValidWakes(start, timeout, wakes)
    modifies w
    ensures w.Valid() && w.listed == Items(listings, polls)
    ensures LastPoll(w.updated, listings, wakes, polls) && WithinTimeout(timeout, polls)
    ensures !err <==> w.waitingOn == map[]
  {
    hide *;
    var n: nat := 0;
    ghost var updated := w.updated;
    NoPollYet(updated, listings, start, timeout, wakes);
    while true
      invariant w.Valid() && w.listed == Items(listings, n) && w.waitingOn != map[]
      invariant StillPolling(updated, listings, start, timeout, wakes, n)
      decreases PollsLeft(timeout, n)
    {
      NextPoll(updated, listings, start, timeout, wakes, n);
      NextItems(listings, n);
      var done;
      done, err := w.Poll(listings(n));
      n := n + 1;
      polls := n;
      Stopping(w, listings, wakes, n);
      if done {
        return;
      }
      if wakes(n - 1).timedOut {
        NextItems(listings, n);
        done, err := w.Poll(listings(n));
        polls := n + 1;
        err := if done then err else true;
        return;
      }
    }
  }

  lemma Stopping(w: Waiter, listings: nat -> Listing, wakes: nat -> Wake, n: nat)
    requires w.Valid() && w.listed == Items(listings, n) && n > 0
    ensures listings(n - 1).ListCanceled? || w.waitingOn == map[] ==> StopsAfter(w.updated, listings, wakes, n)
    ensures StopsAfter(w.updated, listings, wakes, n) ==>
              listings(n - 1).ListCanceled? || w.waitingOn == map[] || AfterTimeout(wakes, n)
  {
    w.WaitsOnPending();
  }

  // A cancellation met while something is pending and before the timeout.
  ghost predicate CanceledInTime(updated: Waiting, listings: nat -> Listing, wakes: nat -> Wake)
  {
    exists k: nat :: CanceledAt(updated, listings, wakes, k)
  }

  ghost predicate CanceledAt(updated: Waiting, listings: nat -> Listing, wakes: nat -> Wake, k: nat)
  {
    && listings(k).ListCanceled? && SomePending(updated, Items(listings, k))
    && forall j :: 0 <= j < k ==> !listings(j).ListCanceled? && !wakes(j).timedOut
  }

  lemma {:induction false} PendingBefore(updated: Waiting, listings: nat -> Listing, j: nat, k: nat)
    requires j <= k && SomePending(updated, Items(listings, k))
    ensures SomePending(updated, Items(listings, j))
    decreases k - j
  {
    if j < k {
      var n :| n in updated && FateOf(n, updated[n], Items(listings, k)).Pending?;
      if listings(k - 1).Listing? {
        PendingPrefix(n, updated[n], Items(listings, k - 1), listings(k - 1).items);
      }
      assert FateOf(n, updated[n], Items(listings, k - 1)).Pending? by {
        assert Items(listings, k - 1) + [] == Items(listings, k - 1);
      }
      PendingBefore(updated, listings, j, k - 1);
    }
  }

  lemma {:induction false} PendingPrefix(name: string, oldGeneration: int, items: seq<Status>, more: seq<Status>)
    requires FateOf(name, oldGeneration, items + more).Pending?
    ensures FateOf(name, oldGeneration, items).Pending?
    decreases |more|
  {
    if more == [] {
      assert items + more == items;
    } else {
      assert (items + more)[..|items + more| - 1] == items + more[..|more| - 1];
      PendingPrefix(name, oldGeneration, items, more[..|more| - 1]);
    }
  }

  lemma NothingNewWhenCanceled(updated: Waiting, listings: nat -> Listing, k: nat)
    requires listings(k).ListCanceled?
    ensures Items(listings, k + 1) == Items(listings, k)
  {
  }

  // Something is left pending before the timeout exactly when a cancellation came in time.
  lemma LeftBehind(updated: Waiting, listings: nat -> Listing, wakes: nat -> Wake, polls: nat)
    requires updated != map[] && LastPoll(updated, listings, wakes, polls)
    ensures SomePending(updated, Items(listings, polls)) && !AfterTimeout(wakes, polls)
            <==> CanceledInTime(updated, listings, wakes)
  {
    if SomePending(updated, Items(listings, polls)) && !AfterTimeout(wakes, polls) {
      NothingNewWhenCanceled(updated, listings, polls - 1);
      forall j | 0 <= j < polls - 1 ensures !listings(j).ListCanceled? && !wakes(j).timedOut {
        assert !StopsAfter(updated, listings, wakes, j + 1);
        assert j + 2 < polls ==> !StopsAfter(updated, listings, wakes, j + 2);
      }
      assert CanceledAt(updated, listings, wakes, polls - 1);
    }
    if CanceledInTime(updated, listings, wakes) {
      var k: nat :| CanceledAt(updated, listings, wakes, k);
      StopsAtCancellation(updated, listings, wakes, polls, k);
      NothingNewWhenCanceled(updated, listings, k);
    }
  }

  lemma StopsAtCancellation(updated: Waiting, listings: nat -> Listing, wakes: nat -> Wake, polls: nat, k: nat)
    requires LastPoll(updated, listings, wakes, polls) && CanceledAt(updated, listings, wakes, k)
    ensures polls == k + 1
  {
    assert StopsAfter(updated, listings, wakes, k + 1);
    assert polls <= k + 1;
    if polls <= k {
      PendingBefore(updated, listings, polls, k);
    }
  }

  // What the caller of the wait learns about one deployment.
  ghost predicate RightlyReported(failures: seq<Failure>, updated: Waiting, items: seq<Status>, name: string)
  {
    if name !in updated then !Reported(failures, name)
    else
      match FateOf(name, updated[name], items)
      case Finished => !Reported(failures, name)
      case GaveUp => DeadlineExceeded(name) in failures
      case Pending => TimedOut(name) in failures
  }

  // What the caller learns about the wait as a whole: how long it went on, and what a reported
  // timeout means.
  ghost predicate WaitedFor(
    updated: Waiting, listings: nat -> Listing, start: int, timeout: int, wakes: nat -> Wake,
    failures: seq<Failure>, polls: nat)
  {
    && (updated == map[] ==> polls == 0)
    && (updated != map[] ==> LastPoll(updated, listings, wakes, polls))
    && WithinTimeout(timeout, polls)
    && (SaysTimedOut(failures) ==>
          && polls > 0
          && (listings(polls - 1).ListCanceled? || (polls >= 2 && wakes(polls - 2).wokeAt - start >= timeout)))
    && (SaysTimedOut(failures) && !AfterTimeout(wakes, polls) <==> CanceledInTime(updated, listings, wakes))
  }

  ghost predicate SaysTimedOut(failures: seq<Failure>)
  {
    exists i :: 0 <= i < |failures| && failures[i].TimedOut?
  }

  lemma TimedOutIsPending(failures: seq<Failure>, updated: Waiting, items: seq<Status>)
    requires forall n :: RightlyReported(failures, updated, items, n)
    requires ReportedOnce(failures)
    ensures SaysTimedOut(failures) <==> SomePending(updated, items)
  {
    hide FateOf;
    if SaysTimedOut(failures) {
      var i :| 0 <= i < |failures| && failures[i].TimedOut?;
      var n := failures[i].name;
      assert RightlyReported(failures, updated, items, n);
      assert Reported(failures, n);
      assert DeadlineExceeded(n) !in failures;
    }
    if SomePending(updated, items) {
      var n :| n in updated && FateOf(n, updated[n], items).Pending?;
      assert RightlyReported(failures, updated, items, n);
    }
  }

  lemma Waited(
    updated: Waiting, listings: nat -> Listing, start: int, timeout: int, wakes: nat -> Wake,
    failures: seq<Failure>, polls: nat)
    requires ValidWakes(start, timeout, wakes) && ReportedOnce(failures)
    requires forall n :: RightlyReported(failures, updated, Items(listings, polls), n)
    requires if updated == map[] then polls == 0 && failures == [] else LastPoll(updated, listings, wakes, polls)
    requires WithinTimeout(timeout, polls)
    ensures WaitedFor(updated, listings, start, timeout, wakes, failures, polls)
  {
    hide RightlyReported, FateOf, WithinTimeout;
    TimedOutIsPending(failures, updated, Items(listings, polls));
    if updated != map[] {
      LeftBehind(updated, listings, wakes, polls);
      assert polls >= 2 ==> WellWoken(start, timeout, wakes, polls - 2);
    }
  }

  // A canceled first listing is reported as a timeout, after a single poll.
  lemma CanceledReadsAsTimedOut(failures: seq<Failure>, start: int, timeout: int, wakes: nat -> Wake, polls: nat)
    requires ValidWakes(start, timeout, wakes) && ReportedOnce(failures)
    requires var updated: Waiting := map["osd-0" := 1];
             var listings := (n: nat) => ListCanceled;
             && WaitedFor(updated, listings, start, timeout, wakes, failures, polls)
             && forall n :: RightlyReported(failures, updated, Items(listings, polls), n)
    ensures polls == 1 && TimedOut("osd-0") in failures && !AfterTimeout(wakes, polls)
  {
    var updated: Waiting := map["osd-0" := 1];
    var listings := (n: nat) => ListCanceled;
    assert Items(listings, 0) == [] && FateOf("osd-0", updated["osd-0"], []).Pending?;
    assert SomePending(updated, Items(listings, 0));
    assert CanceledAt(updated, listings, wakes, 0);
    StopsAtCancellation(updated, listings, wakes, polls, 0);
    NothingNewWhenCanceled(updated, listings, 0);
    assert RightlyReported(failures, updated, Items(listings, polls), "osd-0");
  }

  method WaitForDeploymentsToUpdate(
    updated: Waiting, deadline: Option<int>, listings: nat -> Listing, ghost start: int, wakes: nat -> Wake)
    returns (failures: seq<Failure>, ghost polls: nat)
    requires ValidWakes(start, TimeoutFor(deadline), wakes)
    ensures ReportedOnce(failures)
    ensures forall n :: RightlyReported(failures, updated, Items(listings, polls), n)
    ensures forall n :: n in updated ==> ReportedAsShown(failures, n, updated[n], Items(listings, polls))
    ensures forall i :: 0 <= i < |failures| ==> !failures[i].UpdateFailed? && failures[i].name in updated
    ensures WaitedFor(updated, listings, start, TimeoutFor(deadline), wakes, failures, polls)
    ensures polls <= 2 || polls <= if deadline.Some? then deadline.value + 2 else 32
  {
    hide WaitedFor, ReportedAsShown;
    if updated == map[] {
      Waited(updated, listings, start, TimeoutFor(deadline), wakes, [], 0);
      return [], 0;
    }
    var w := new Waiter(updated);
    var err;
    err, polls := RetryWithTimeout(w, listings, start, TimeoutFor(deadline), wakes);
    ghost var items := Items(listings, polls);
    var gaveUp, waitingOn := w.failures, w.waitingOn;
    assert forall n :: Settled(gaveUp, waitingOn, updated, items, n);
    failures := gaveUp;
    var rest := waitingOn.Keys;
    while rest != {}
      invariant rest <= waitingOn.Keys && gaveUp <= failures && ReportedOnce(failures)
      invariant forall i :: |gaveUp| <= i < |failures| ==> failures[i].TimedOut?
      invariant forall n :: Reported(failures, n) <==> Reported(gaveUp, n) || (n in waitingOn && n !in rest)
      invariant forall n :: n in waitingOn && n !in rest ==> TimedOut(n) in failures
      decreases rest
    {
      var name :| name in rest;
      assert Settled(gaveUp, waitingOn, updated, items, name);
      ReportAppended(failures, TimedOut(name));
      failures := failures + [TimedOut(name)];
      rest := rest - {name};
    }
    AllSettled(gaveUp, waitingOn, updated, items, failures);
    Waited(updated, listings, start, TimeoutFor(deadline), wakes, failures, polls);
    forall n | n in updated ensures ReportedAsShown(failures, n, updated[n], items) {
      AllShown(failures, updated, items, n);
    }
    AtMostThisOften(deadline, polls);
  }

  lemma AllShown(failures: seq<Failure>, updated: Waiting, items: seq<Status>, name: string)
    requires RightlyReported(failures, updated, items, name) && ReportedOnce(failures) && name in updated
    ensures ReportedAsShown(failures, name, updated[name], items)
  {
    hide FateOf, FirstToShow, ShowsExceeded, ShowsFinished, RightlyReported, ReportedOnce, Reported;
    WaitReport(failures, updated, items, name);
    FateIsShown(name, updated[name], items);
  }

  // A poll takes a period: no more polls than the progress deadline has seconds, and two.
  lemma AtMostThisOften(deadline: Option<int>, polls: nat)
    requires WithinTimeout(TimeoutFor(deadline), polls)
    ensures polls <= 2 || polls <= if deadline.Some? then deadline.value + 2 else 32
  {
  }

  lemma AllSettled(
    gaveUp: seq<Failure>, waitingOn: Waiting, updated: Waiting, items: seq<Status>, failures: seq<Failure>)
    requires forall n :: Settled(gaveUp, waitingOn, updated, items, n)
    requires gaveUp <= failures && forall i :: 0 <= i < |gaveUp| ==> gaveUp[i].DeadlineExceeded?
    requires forall i :: |gaveUp| <= i < |failures| ==> failures[i].TimedOut?
    requires forall n :: Reported(failures, n) <==> Reported(gaveUp, n) || n in waitingOn
    requires forall n :: n in waitingOn ==> TimedOut(n) in failures
    ensures forall n :: RightlyReported(failures, updated, items, n)
    ensures forall i :: 0 <= i < |failures| ==> !failures[i].UpdateFailed? && failures[i].name in updated
  {
    hide FateOf;
    forall n ensures RightlyReported(failures, updated, items, n) {
      assert Settled(gaveUp, waitingOn, updated, items, n);
      if Reported(gaveUp, n) {
        var i :| 0 <= i < |gaveUp| && gaveUp[i].name == n;
        assert failures[i] == gaveUp[i] == DeadlineExceeded(n);
      }
    }
    forall i | 0 <= i < |failures| ensures !failures[i].UpdateFailed? && failures[i].name in updated {
      assert Reported(failures, failures[i].name);
      assert RightlyReported(failures, updated, items, failures[i].name);
      assert i < |gaveUp| ==> failures[i] == gaveUp[i];
    }
  }

  // Where a deployment stands when polling ends.
  ghost predicate Settled(gaveUp: seq<Failure>, waitingOn: Waiting, updated: Waiting, items: seq<Status>, name: string)
  {
    && (name in waitingOn <==> name in updated && FateOf(name, updated[name], items).Pending?)
    && (Reported(gaveUp, name) <==> name in updated && FateOf(name, updated[name], items).GaveUp?)
  }

  // ----- Updating -----

  datatype Patch = PatchFailed | PatchEmpty | PatchChanges

  // The API server's answers while one deployment is updated. The server answers under the name of
  // the deployment it was asked for.
  datatype Answers = Answers(
    found: bool, oldGeneration: int, oldDeadline: Option<int>,
    patch: Patch, annotated: bool, accepted: bool, newDeadline: Option<int>)

  datatype Update = Failed | Unchanged | Updated(oldGeneration: int, oldDeadline: Option<int>, newDeadline: Option<int>)

  function UpdateDeployment(a: Answers): Update
  {
    if !a.found then Failed
    else if a.patch.PatchEmpty? then Unchanged   // a patch that cannot be computed counts as a change
    else if !a.annotated || !a.accepted then Failed
    else Updated(a.oldGeneration, a.oldDeadline, a.newDeadline)
  }

  function MaxPtr(a: Option<int>, b: Option<int>): Option<int>
  {
    if a.None? then b
    else if b.None? then a
    else if b.value > a.value then b
    else a
  }

  // No deadline of an updated deployment among the first k is above `max`, and `max` is one of them.
  ghost predicate IsMaxDeadline(max: Option<int>, answers: seq<Answers>, k: nat)
    requires k <= |answers|
  {
    && (forall i, d :: 0 <= i < k && HasDeadline(answers[i], d) ==> max.Some? && d <= max.value)
    && (max.Some? ==> exists i :: 0 <= i < k && HasDeadline(answers[i], max.value))
  }

  // The deployment was found, changed and accepted.
  predicate WasUpdated(a: Answers)
  {
    a.found && !a.patch.PatchEmpty? && a.annotated && a.accepted
  }

  ghost predicate HasDeadline(a: Answers, d: int)
  {
    WasUpdated(a) && (a.oldDeadline == Some(d) || a.newDeadline == Some(d))
  }

  // The largest progress deadline of the first k deployments that were updated.
  function DeadlineOf(answers: seq<Answers>, k: nat): Option<int>
    requires k <= |answers|
  {
    if k == 0 then None
    else
      var before, u := DeadlineOf(answers, k - 1), UpdateDeployment(answers[k - 1]);
      if u.Updated? then MaxPtr(MaxPtr(before, u.oldDeadline), u.newDeadline) else before
  }

  lemma {:induction false} DeadlineIsMax(answers: seq<Answers>, k: nat)
    requires k <= |answers|
    ensures IsMaxDeadline(DeadlineOf(answers, k), answers, k)
  {
    if k > 0 {
      DeadlineIsMax(answers, k - 1);
      var max := DeadlineOf(answers, k);
      if max.Some? && max != DeadlineOf(answers, k - 1) {
        assert HasDeadline(answers[k - 1], max.value);
      }
    }
  }

  predicate Distinct(names: seq<string>)
  {
    forall i, j :: 0 <= i < j < |names| ==> names[i] != names[j]
  }

  // The old generations of the first k deployments, where they were updated; a name that comes again
  // takes the later one.
  function UpdatedBy(names: seq<string>, answers: seq<Answers>, k: nat): Waiting
    requires k <= |names| == |answers|
  {
    if k == 0 then map[]
    else
      var before, u := UpdatedBy(names, answers, k - 1), UpdateDeployment(answers[k - 1]);
      if u.Updated? then before[names[k - 1] := u.oldGeneration] else before
  }

  function FailedBy(names: seq<string>, answers: seq<Answers>, k: nat): seq<Failure>
    requires k <= |names| == |answers|
  {
    if k == 0 then []
    else
      FailedBy(names, answers, k - 1)
      + if UpdateDeployment(answers[k - 1]).Failed? then [UpdateFailed(names[k - 1])] else []
  }

  method UpdateMultipleDeployments(names: seq<string>, answers: seq<Answers>)
    returns (updated: Waiting, failures: seq<Failure>, maxDeadline: Option<int>)
    requires |answers| == |names|
    ensures updated == UpdatedBy(names, answers, |names|)
    ensures failures == FailedBy(names, answers, |names|)
    ensures maxDeadline == DeadlineOf(answers, |answers|) && IsMaxDeadline(maxDeadline, answers, |answers|)
  {
    hide UpdateDeployment, IsMaxDeadline;
    updated, failures, maxDeadline := map[], [], None;
    for k := 0 to |names|
      invariant updated == UpdatedBy(names, answers, k)
      invariant failures == FailedBy(names, answers, k)
      invariant maxDeadline == DeadlineOf(answers, k)
    {
      var u := UpdateDeployment(answers[k]);
      if u.Failed? {
        failures := failures + [UpdateFailed(names[k])];
      } else if u.Updated? {
        updated := updated[names[k] := u.oldGeneration];
        maxDeadline := MaxPtr(maxDeadline, u.oldDeadline);
        maxDeadline := MaxPtr(maxDeadline, u.newDeadline);
      }
    }
    DeadlineIsMax(answers, |answers|);
  }

  ghost predicate Among(names: seq<string>, k: nat, name: string)
    requires k <= |names|
  {
    exists j :: 0 <= j < k && names[j] == name
  }

  lemma AmongNext(names: seq<string>, k: nat)
    requires k < |names| && Distinct(names)
    ensures !Among(names, k, names[k])
    ensures forall n :: Among(names, k + 1, n) <==> Among(names, k, n) || n == names[k]
  {
    forall n | Among(names, k, n) ensures Among(names, k + 1, n) {
      var j :| 0 <= j < k && names[j] == n;
    }
  }

  // A name is where its own update put it.
  ghost predicate SortedAt(name: string, u: Update, updated: Waiting, failures: seq<Failure>)
  {
    && (name in updated <==> u.Updated?)
    && (u.Updated? ==> updated[name] == u.oldGeneration)
    && (Reported(failures, name) <==> u.Failed?)
  }

  ghost predicate Sorted(names: seq<string>, answers: seq<Answers>, k: nat, updated: Waiting, failures: seq<Failure>)
    requires k <= |names| == |answers|
  {
    && (forall n :: n in updated ==> Among(names, k, n))
    && (forall i :: 0 <= i < k ==> SortedAt(names[i], UpdateDeployment(answers[i]), updated, failures))
    && ReportedOnce(failures)
    && (forall i :: 0 <= i < |failures| ==> failures[i].UpdateFailed?)
    && (forall n :: Reported(failures, n) ==> Among(names, k, n))
  }

  lemma {:induction false} UpdatesSorted(names: seq<string>, answers: seq<Answers>, k: nat)
    requires k <= |names| == |answers| && Distinct(names)
    ensures Sorted(names, answers, k, UpdatedBy(names, answers, k), FailedBy(names, answers, k))
  {
    hide *;
    if k == 0 {
      NothingSorted(names, answers);
    } else {
      UpdatesSorted(names, answers, k - 1);
      NextUpdate(names, answers, k - 1);
      OneMoreSorted(names, answers, k - 1, UpdatedBy(names, answers, k - 1), FailedBy(names, answers, k - 1),
                    UpdatedBy(names, answers, k), FailedBy(names, answers, k));
    }
  }

  lemma NothingSorted(names: seq<string>, answers: seq<Answers>)
    requires |names| == |answers|
    ensures Sorted(names, answers, 0, UpdatedBy(names, answers, 0), FailedBy(names, answers, 0))
  {
  }

  lemma NextUpdate(names: seq<string>, answers: seq<Answers>, k: nat)
    requires k < |names| == |answers|
    ensures var u, name := UpdateDeployment(answers[k]), names[k];
            var updated, failures := UpdatedBy(names, answers, k), FailedBy(names, answers, k);
            && UpdatedBy(names, answers, k + 1) == (if u.Updated? then updated[name := u.oldGeneration] else updated)
            && FailedBy(names, answers, k + 1) == (if u.Failed? then failures + [UpdateFailed(name)] else failures)
  {
    hide UpdateDeployment;
    assert FailedBy(names, answers, k) + [] == FailedBy(names, answers, k);
  }

  lemma OneMoreSorted(
    names: seq<string>, answers: seq<Answers>, k: nat, updated: Waiting, failures: seq<Failure>,
    updated': Waiting, failures': seq<Failure>)
    requires k < |names| == |answers| && Distinct(names) && Sorted(names, answers, k, updated, failures)
    requires var u := UpdateDeployment(answers[k]);
             && updated' == (if u.Updated? then updated[names[k] := u.oldGeneration] else updated)
             && failures' == (if u.Failed? then failures + [UpdateFailed(names[k])] else failures)
    ensures Sorted(names, answers, k + 1, updated', failures')
  {
    hide UpdateDeployment, ReportedOnce, Reported, Among;
    var name := names[k];
    AmongNext(names, k);
    assert !Reported(failures, name);
    ReportAppended(failures, UpdateFailed(name));
    forall i | 0 <= i < k + 1 ensures SortedAt(names[i], UpdateDeployment(answers[i]), updated', failures') {
      assert i < k ==> names[i] != name && SortedAt(names[i], UpdateDeployment(answers[i]), updated, failures);
    }
  }

  // ----- Updating and waiting -----

  // How deployment i ends: what the update answered, and for an updated one what the listings showed.
  datatype Ending = UpdateError | NothingToUpdate | UpdateFinished | DeadlinePassed | NotInTime

  function EndingOf(name: string, a: Answers, items: seq<Status>): Ending
  {
    if a.found && a.patch.PatchEmpty? then NothingToUpdate
    else if !(a.found && a.annotated && a.accepted) then UpdateError
    else
      match FateOf(name, a.oldGeneration, items)
      case Finished => UpdateFinished
      case GaveUp => DeadlinePassed
      case Pending => NotInTime
  }

  lemma EndingOfUpdate(name: string, a: Answers, items: seq<Status>)
    ensures var u, ending := UpdateDeployment(a), EndingOf(name, a, items);
            && (u.Failed? <==> ending.UpdateError?)
            && (u.Unchanged? <==> ending.NothingToUpdate?)
            && (u.Updated? ==>
                  var fate := FateOf(name, u.oldGeneration, items);
                  && (fate.Finished? <==> ending.UpdateFinished?)
                  && (fate.GaveUp? <==> ending.DeadlinePassed?)
                  && (fate.Pending? <==> ending.NotInTime?))
  {
  }

  // What is reported about one deployment: exactly how it ended, and nothing if all went well.
  ghost predicate ReportedAs(failures: seq<Failure>, name: string, ending: Ending)
  {
    && (UpdateFailed(name) in failures <==> ending.UpdateError?)
    && (DeadlineExceeded(name) in failures <==> ending.DeadlinePassed?)
    && (TimedOut(name) in failures <==> ending.NotInTime?)
    && (Reported(failures, name) <==> ending.UpdateError? || ending.DeadlinePassed? || ending.NotInTime?)
  }

  // With distinct names: each failed name is reported once, as it failed, and no other name is reported.
  ghost predicate RightlyReportedAll(
    names: seq<string>, answers: seq<Answers>, items: seq<Status>, failures: seq<Failure>)
    requires |answers| == |names|
  {
    && ReportedOnce(failures)
    && (forall i :: 0 <= i < |failures| ==> failures[i].name in names)
    && (forall i :: 0 <= i < |names| ==>
          ReportedAs(failures, names[i], EndingOf(names[i], answers[i], items)))
  }

  // `start` is when the wait begins.
  method UpdateMultipleDeploymentsAndWait(
    names: seq<string>, answers: seq<Answers>, listings: nat -> Listing, ghost start: int, wakes: nat -> Wake)
    returns (failures: seq<Failure>, ghost polls: nat)
    requires |answers| == |names| && ValidWakes(start, TimeoutFor(DeadlineOf(answers, |answers|)), wakes)
    ensures FailedBy(names, answers, |names|) <= failures
    ensures Distinct(names) ==> RightlyReportedAll(names, answers, Items(listings, polls), failures)
    ensures Distinct(names) ==> forall i :: 0 <= i < |names| && WasUpdated(answers[i]) ==>
              ReportedAsShown(failures, names[i], answers[i].oldGeneration, Items(listings, polls))
    ensures WaitedFor(UpdatedBy(names, answers, |names|), listings, start,
                      TimeoutFor(DeadlineOf(answers, |answers|)), wakes, failures, polls)
  {
    hide WaitedFor, ReportedAsShown, WasUpdated;
    var updated, updateFailures, maxDeadline := UpdateMultipleDeployments(names, answers);
    var waitFailures;
    waitFailures, polls := WaitForDeploymentsToUpdate(updated, maxDeadline, listings, start, wakes);
    failures := updateFailures + waitFailures;
    MoreFailures(updated, listings, start, TimeoutFor(maxDeadline), wakes, updateFailures, waitFailures, polls) by {
      AllUpdateFailures(names, answers, |names|);
    }
    if Distinct(names) {
      UpdatesSorted(names, answers, |names|);
      ReportsSorted(names, answers, Items(listings, polls), updated, updateFailures, waitFailures);
      AllReportedAsShown(names, answers, Items(listings, polls), failures);
    }
  }

  lemma AllReportedAsShown(
    names: seq<string>, answers: seq<Answers>, items: seq<Status>, failures: seq<Failure>)
    requires |answers| == |names| && RightlyReportedAll(names, answers, items, failures)
    ensures forall i :: 0 <= i < |names| && WasUpdated(answers[i]) ==>
              ReportedAsShown(failures, names[i], answers[i].oldGeneration, items)
  {
    hide FateOf, FirstToShow, ShowsExceeded, ShowsFinished, ReportedOnce, Reported;
    forall i | 0 <= i < |names| && WasUpdated(answers[i])
      ensures ReportedAsShown(failures, names[i], answers[i].oldGeneration, items)
    {
      assert ReportedAs(failures, names[i], EndingOf(names[i], answers[i], items));
      FateIsShown(names[i], answers[i].oldGeneration, items);
    }
  }

  lemma {:induction false} AllUpdateFailures(names: seq<string>, answers: seq<Answers>, k: nat)
    requires k <= |names| == |answers|
    ensures forall i :: 0 <= i < |FailedBy(names, answers, k)| ==> FailedBy(names, answers, k)[i].UpdateFailed?
  {
    if k > 0 {
      AllUpdateFailures(names, answers, k - 1);
    }
  }

  lemma MoreFailures(
    updated: Waiting, listings: nat -> Listing, start: int, timeout: int, wakes: nat -> Wake,
    before: seq<Failure>, failures: seq<Failure>, polls: nat)
    requires forall i :: 0 <= i < |before| ==> before[i].UpdateFailed?
    requires WaitedFor(updated, listings, start, timeout, wakes, failures, polls)
    ensures WaitedFor(updated, listings, start, timeout, wakes, before + failures, polls)
  {
    if SaysTimedOut(failures) {
      var i :| 0 <= i < |failures| && failures[i].TimedOut?;
      assert (before + failures)[|before| + i] == failures[i];
    }
  }

  lemma ReportsSorted(
    names: seq<string>, answers: seq<Answers>, items: seq<Status>,
    updated: Waiting, updateFailures: seq<Failure>, waitFailures: seq<Failure>)
    requires |answers| == |names| && Sorted(names, answers, |names|, updated, updateFailures)
    requires ReportedOnce(waitFailures) && forall n :: RightlyReported(waitFailures, updated, items, n)
    requires forall i :: 0 <= i < |waitFailures| ==> !waitFailures[i].UpdateFailed? && waitFailures[i].name in updated
    ensures RightlyReportedAll(names, answers, items, updateFailures + waitFailures)
  {
    hide FateOf, UpdateDeployment, EndingOf;
    var failures := updateFailures + waitFailures;
    ReportsAppended(updateFailures, waitFailures);
    forall i | 0 <= i < |names| ensures ReportedAs(failures, names[i], EndingOf(names[i], answers[i], items)) {
      OneReport(names[i], answers[i], items, updated, updateFailures, waitFailures);
    }
    forall a, b | 0 <= a < |updateFailures| && 0 <= b < |waitFailures|
      ensures updateFailures[a].name != waitFailures[b].name
    {
      assert Reported(updateFailures, updateFailures[a].name);
      var i :| 0 <= i < |names| && names[i] == updateFailures[a].name;
      assert SortedAt(names[i], UpdateDeployment(answers[i]), updated, updateFailures);
    }
    forall i | 0 <= i < |failures| ensures failures[i].name in names {
      assert failures[i] == if i < |updateFailures| then updateFailures[i] else waitFailures[i - |updateFailures|];
      assert i < |updateFailures| ==> Reported(updateFailures, failures[i].name);
    }
  }

  lemma ReportsAppended(a: seq<Failure>, b: seq<Failure>)
    ensures forall n :: Reported(a + b, n) <==> Reported(a, n) || Reported(b, n)
  {
    forall n | Reported(b, n) ensures Reported(a + b, n) {
      var i :| 0 <= i < |b| && b[i].name == n;
      assert (a + b)[|a| + i].name == n;
    }
    forall n | Reported(a, n) ensures Reported(a + b, n) {
      var i :| 0 <= i < |a| && a[i].name == n;
      assert (a + b)[i].name == n;
    }
  }

  lemma OneReport(
    name: string, a: Answers, items: seq<Status>,
    updated: Waiting, updateFailures: seq<Failure>, waitFailures: seq<Failure>)
    requires SortedAt(name, UpdateDeployment(a), updated, updateFailures)
    requires RightlyReported(waitFailures, updated, items, name) && ReportedOnce(waitFailures)
    requires forall i :: 0 <= i < |updateFailures| ==> updateFailures[i].UpdateFailed?
    requires forall i :: 0 <= i < |waitFailures| ==> !waitFailures[i].UpdateFailed?
    ensures ReportedAs(updateFailures + waitFailures, name, EndingOf(name, a, items))
  {
    hide FateOf, UpdateDeployment, EndingOf;
    EndingOfUpdate(name, a, items);
    ReportsAppended(updateFailures, waitFailures);
    WaitReport(waitFailures, updated, items, name);
    UpdateReport(updateFailures, waitFailures, name);
    hide RightlyReported, SortedAt, ReportedOnce, Reported;
    assert SortedAt(name, UpdateDeployment(a), updated, updateFailures);
  }

  // At most one report about a name: its kind follows from how the wait for it ended.
  lemma WaitReport(failures: seq<Failure>, updated: Waiting, items: seq<Status>, name: string)
    requires RightlyReported(failures, updated, items, name) && ReportedOnce(failures)
    ensures Reported(failures, name) <==> name in updated && !FateOf(name, updated[name], items).Finished?
    ensures DeadlineExceeded(name) in failures <==> name in updated && FateOf(name, updated[name], items).GaveUp?
    ensures TimedOut(name) in failures <==> name in updated && FateOf(name, updated[name], items).Pending?
  {
    hide FateOf;
    assert DeadlineExceeded(name) in failures ==> Reported(failures, name);
    assert TimedOut(name) in failures ==> Reported(failures, name);
    assert !(DeadlineExceeded(name) in failures && TimedOut(name) in failures);
  }

  lemma UpdateReport(updateFailures: seq<Failure>, waitFailures: seq<Failure>, name: string)
    requires forall i :: 0 <= i < |updateFailures| ==> updateFailures[i].UpdateFailed?
    requires forall i :: 0 <= i < |waitFailures| ==> !waitFailures[i].UpdateFailed?
    ensures var failures := updateFailures + waitFailures;
            && (UpdateFailed(name) in failures <==> Reported(updateFailures, name))
            && (DeadlineExceeded(name) in failures <==> DeadlineExceeded(name) in waitFailures)
            && (TimedOut(name) in failures <==> TimedOut(name) in waitFailures)
  {
    if Reported(updateFailures, name) {
      var i :| 0 <= i < |updateFailures| && updateFailures[i].name == name;
      assert updateFailures[i] == UpdateFailed(name);
    }
  }
}
