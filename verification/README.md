# Rook: verified models of its algorithms

Rook is a Kubernetes operator for Ceph. Most of it is plumbing, but some parts are algorithms and
protocols with promises that are easy to get wrong. This project models those parts in Dafny and
proves the promises. API servers, clocks, subprocesses, failing calls and the order in which Go visits
a map are inputs that may take any value, so each result holds whatever they do.

| modules | part of Rook |
|---|---|
| `MultusConfig`, `MultusStages`, `MultusRuns`, `MultusTurns`, `MultusEffects`, `MultusDaemonSets`, `MultusTiming`, `MultusLiveness`, `MultusMachine` | the Multus network validation test: twelve stages driven by a polling loop with a timer |
| `ShellSyntax`, `CommandFormat` | printing a command so that it can be pasted into a POSIX shell |
| `CommandTimeout` | running a command with a timeout, an interrupt and a kill |
| `Deployments` | updating a batch of deployments and waiting for them |
| `DnsLabel`, `DaemonNames` | DNS labels from any string; daemon names from indices and back |
| `NodePlacement`, `ValidNodes` | merging placements, and choosing the nodes that storage runs on |
| `PythonStrings`, `CephCaps`, `CephKeys` | the external cluster script: upgrading capabilities, rotating keys |
| `InformerFactory`, `MgrRole` | the shared informer factory; the label that marks the active mgr |
| `Wrappers` | the optional values that the others share |

Where the source updates things step by step, the model has a method or a class that does the same,
and its contract ties it to a function on values: `MultusMachine` does what `MultusStages` says,
`Deployments.Waiter` what `FateOf` says, and so on. The properties are then lemmas about those
functions, mostly over whole runs: every environment, every number of turns, every interleaving.

## Main results

- **A Multus test that succeeds has seen what it claims** (`MultusRuns.SuccessMeans`). In that run and
  in this order: pod counts stable for the debounce time, no node with two image pullers, all pullers
  running, their deletion, the web server, the host checkers running, ready and deleted, the clients
  running and ready, in the number that follows from the stable counts. The clients that exist then are
  exactly those of these counts and this web server (`MultusEffects.SuccessLeavesClients`), and the number
  of ready pods is what these clients have on the nodes counted (`MultusDaemonSets.SuccessSawAllPods`).
- **Every result of a test means something** (`MultusTurns.ResultExplained`). A turn that is neither canceled
  nor late leaves its stage exactly if it observes what the stage waits for; otherwise the stage goes on
  waiting for the same thing, except for an overlap of node types and a failed create call, which end the
  run (`MultusTurns.TurnOutcome`).
- **The converse**: if every stage is shown what it waits for at some turn within the resource timeout,
  whatever it is shown before, and nothing cancels or ends the run, the test succeeds
  (`MultusLiveness.EventuallySucceeds`). If every turn shows it, the test succeeds within 27 turns
  (`GoodRunSucceeds`), and there is such a cluster (`GoodRunExists`).
- **No two kinds of daemonset ever exist together and none is created twice**
  (`MultusEffects.ResourceSafety`), even if failed calls took effect. The timer reset never blocks, every
  run returns within a bound given by the config, and a timed-out stage had its full timeout exactly when it
  had run (`MultusTiming`). `MultusMachine.RunValidationTest` is code with loops, fields and a timer for
  which all of this holds.
- **The printed command line reads back as the command** through a POSIX tokenizer
  (`CommandFormat.LineReadsBack`), for all strings.
- **The output of a timed command is read only after its writers are done, and is all they wrote**, in every
  interleaving, with at most one interrupt and one kill, each no sooner than its timeout, within two timeouts and the
  grace period and the lag of three wake-ups (`CommandTimeout`).
- **Every updated deployment is accounted for once**, over any sequence of listings, by polls that go on
  until a listing is canceled, nothing is pending, or the timeout has passed (`Deployments`).
- **Every registered informer is started exactly once**, in every interleaving: by a Start that comes after
  its kind was first asked for and before every shutdown, and only by that
  (`InformerFactory.RunReflects`, `StartedExactlyOnce`).
- **Merging two node affinities is their conjunction, for every node, exactly under a condition on their
  terms** (`NodePlacement.MergeIsConjunctionWhen`).
- **A mgr sidecar has the right label on its own pod exactly if it was not blinded.** It is blinded when the
  listing it got as it last began to write labels did not show its own pod, while the label was wrong. This
  holds with one pod per daemon in every interleaving of polls, single label writes, failures, restarts and
  pods that come and go (`MgrRole.OnePodFollows`). `MgrRole.FollowsUnlessBlinded` covers several pods of a
  daemon too, where a neighbour may have overwritten the label since.

## Where the code does less than its text says

The models follow the code. In these places a lemma gives an input on which the promise fails, and
another says exactly when it holds.

- The comment in the loop of `pkg/daemon/multus/statemachine.go:66-70` says that each state gets the
  full resource timeout. A stage that was set but has not run yet can be ended by the timer of the one
  before it (`FreshStageCanBeCutShort`). `FullTimeoutGiven` gives the exact condition.
- `FormatCommand` prints text to be pasted into a POSIX shell. The words always read back, but a
  command name such as `A=b` stays unquoted and is then an assignment (`AssignmentIsNotRun`).
  `LineRunsCommand` gives the exact condition.
- Merging two node affinities drops terms (`MergeDropsTerms`) and forgets a term without match
  expressions (`EmptyTermIsIgnored`). `MergeIsConjunctionWhen` says for which affinities the merge is
  nevertheless their conjunction.
- `GetValidNodes` lists entries more than once when two entries of the spec name one node
  (`SameNodeTwice`). `ValidNodesExact` gives the exact condition.
- Cutting a DNS label to length leaves two adjacent dashes, so converting it again changes it
  (`CutLabelIsNotStable`). `IdempotentUnlessCut` gives the exact condition.
- "revert" does not always undo "rotate". The script takes every name that starts with the id for a key of
  the id, so that a longer id of another pool or cluster counts: next to one, "revert" goes back to a user
  that never existed (`SharedPrefixMisleads`). After the very first "rotate" generation 0 stays
  (`FirstRotationStays`). `RevertUndoesRotate` says exactly when the user gone back to existed, and
  `KeepsOwnUser` the same of a run that asks for no change.
- A cluster name or a rados namespace with a dot gives the rbd node user an id that the script reads
  wrongly: with the namespace `ns.5` its first user reads as generation 5 (`MisreadGeneration`), and with
  `ns.-5` "rotate" picks a generation that exists (`RotationNotFresh`). `ReadsItsOwnUsers`,
  `ReadsItsFirstUser`, `DottedIdFails` and `RotateIsFresh` give the exact conditions on the id, and
  `FlagsDecide` the one on the flags.
- A comment in `pkg/operator/k8sutil/deployment.go:296` takes every error of the wait for a timeout. A
  canceled listing ends it too, and what is pending is then reported as timed out
  (`CanceledReadsAsTimedOut`). `LeftBehind` says exactly when that happens before the timeout.
- `SetMgrRoleLabel` succeeds on an empty listing, so that a sidecar remembers a mgr that its label does
  not show, and does not look again (`EmptyListingLabelsNothing`); two pods of one daemon can overwrite
  each other's label (`TwoPodsRace`). `FollowsUnlessBlinded` gives the exact condition.

`checkIfFlaky` compares with the previous number of ready clients but never stores it.
`StoringChangesNothing` shows that storing it would make no difference.

## Model

| member | source | states |
|---|---|---|
| MultusConfig.TotalOSDsPerNode | pkg/daemon/multus/config.go:170-176 | The total is the sum over node types, whatever order the map is visited in. |
| MultusConfig.BestNodePlacementForServer | pkg/daemon/multus/config.go:186-205 | A placement is found exactly when some node type has OSDs, and no other node type beats its owner in OSDs, then other daemons, for any visiting order. |
| MultusConfig.Validate | pkg/daemon/multus/config.go:208-240 | Exactly the problems that the config has are listed, setting by setting and node type by node type, so none exactly for valid configs. |
| MultusConfig.NoOSDsSumsToZero | pkg/daemon/multus/config.go:170-176 | With non-negative counts and no node type with OSDs the total that `Validate` checks is zero. |
| MultusConfig.ValidConfigIsPlaceable | pkg/daemon/multus/config.go:186-240 | A valid config names a node type, and with non-negative counts the web server can be placed. |
| MultusRuns.PullCountsNonEmpty | pkg/daemon/multus/resources.go:286-313 | A usable listing never equals the initial empty map, so the first one always starts the debounce clock. |
| MultusRuns.GetExpectedStep | pkg/daemon/multus/validation.go:90-111 | The first stage is left only when all usable listings over at least the debounce time agreed as maps. |
| MultusRuns.LeavingShows | pkg/daemon/multus/validation.go:121-404 | Each stage in the middle is left only on the observation its successor relies on, and hands on the counts and the web server's addresses unchanged. |
| MultusRuns.StageStep | pkg/daemon/multus/validation.go:90-442 | Every stage keeps the invariant that all milestones before it were observed, each after the one before. |
| MultusRuns.StageOrder | pkg/daemon/multus/validation.go:90-442 | A stage hands over only to a strictly later one, and never both hands over and exits. |
| MultusRuns.RunInv | pkg/daemon/multus/statemachine.go:52-100 | The invariant holds after every turn of every run, and a host check never gets past deleting the host checkers. |
| MultusRuns.SuccessMeans | pkg/daemon/multus/validation.go:470-520 | A run that reports success had nothing to check and touched nothing, or observed all milestones in order, up to the exact expected number of clients being ready. |
| MultusRuns.NoInternalError | pkg/daemon/multus/validation.go:152-203 | On no run are the two internal errors reported, neither as last error nor as result. |
| MultusRuns.StagesMoveForward | pkg/daemon/multus/statemachine.go:43-100 | Along every run the rank of the stage never falls, and rises with every change of stage. |
| MultusTurns.PullCountsMeans | pkg/daemon/multus/resources.go:286-313 | A listing yields these counts exactly when it shows one daemonset per node type, each scheduled somewhere, and the counts are those of the last daemonset of each type. |
| MultusTurns.StageOutcome | pkg/daemon/multus/validation.go:90-442 | Every stage is left exactly when the turn observes what it waits for; otherwise it goes on waiting for the same thing, except that an overlap, a failed listing of it, or a failed create call exits with an error. |
| MultusTurns.TurnOutcome | pkg/daemon/multus/statemachine.go:61-100 | All that a turn can come to: canceled, timed out, failed by a stage that does not wait, still in the same stage, in a later stage, or successful, each exactly when the tick says so. |
| MultusTurns.ResultExplained | pkg/daemon/multus/statemachine.go:52-100 | On every run each result is explained by the turn that ended it: a failure by an overlap or a failed create call, a timeout by an expired timer, a cancellation by the context, a success by what the last stage waits for. |
| MultusEffects.CreatePlan | pkg/daemon/multus/resources.go:143-250 | Creating any distinct plan of one new kind keeps: one kind at a time, each created once; and exactly the plan is added to what lives. |
| MultusEffects.ClientPlanDistinct | pkg/daemon/multus/resources.go:200-250 | For any visiting order the client daemonsets are distinct and are exactly those the config asks for. |
| MultusEffects.StageEffects | pkg/daemon/multus/validation.go:90-442 | Every stage, also one that fails half-way through its create calls, leaves the cluster safe and its successor what it expects to find; the last one succeeds only with clients that amount to the number it waited for. |
| MultusEffects.RunEffects | pkg/daemon/multus/statemachine.go:52-100 | After every turn of every run the daemonsets that exist are those the stage expects; after success no host checker is left, or the clients amount to the number that the last stage waited for. |
| MultusEffects.ResourceSafety | pkg/daemon/multus/validation.go:470-520 | In every run, also where failed calls took effect or deleted a part, no two kinds of daemonset ever exist together, none is created twice, and a host check creates no client. |
| MultusEffects.SuccessLeavesClients | pkg/daemon/multus/validation.go:379-442 | After a success that checks more than hosts, the clients that exist are exactly those the config asks for at the observed web server, and they are the ones seen running and then ready in the number that follows from the stable counts. |
| MultusDaemonSets.RunPerType | pkg/daemon/multus/validation.go:90-336 | In every run, whenever the test waits for image pullers or host checkers, exactly one of them exists per node type and nothing else; the owner, the web server's config and its pod were created first. |
| MultusDaemonSets.ExpectedIsPodsUnder | pkg/daemon/multus/validation.go:379-404 | The number of clients expected is the sum, over the client daemonsets that exist, of the nodes counted for their type. |
| MultusDaemonSets.SuccessSawAllPods | pkg/daemon/multus/validation.go:379-442 | After a success that checks more than hosts, as many pods were seen running and then ready as the clients that exist have on the nodes counted. |
| MultusTiming.StepTurns | pkg/daemon/multus/statemachine.go:61-100 | A turn on an unread timer never blocks; if the run goes on, the timer is the old one or a fresh one, and the stage moved forward exactly if it was changed. |
| MultusTiming.RunTimer | pkg/daemon/multus/statemachine.go:52-107 | On every run the timer's channel is unread before each turn, and for a stage that has run the deadline is one timeout after the reset before its first turn. |
| MultusTiming.ResetNeverBlocks | pkg/daemon/multus/statemachine.go:102-107 | On no run does draining the timer wait forever, with buffered or synchronous timer channels. |
| MultusTiming.FullTimeoutGiven | pkg/daemon/multus/statemachine.go:61-84 | When a run times out, the current stage had its full resource timeout if and only if it had run at least once. |
| MultusTiming.FreshStageCanBeCutShort | pkg/daemon/multus/statemachine.go:61-84 | A concrete run in which a stage that was just set is ended by the timer of the stage before it. |
| MultusTiming.RunMeasure | pkg/daemon/multus/statemachine.go:52-100 | On every run the turns taken plus those the current stage and its successors can still take stay within the bound. |
| MultusTiming.EveryRunReturns | pkg/daemon/multus/statemachine.go:52-100 | Whatever the cluster answers, the endless loop returns within a number of turns fixed by the resource timeout. |
| MultusTiming.FlakyStep | pkg/daemon/multus/validation.go:447-467 | One check keeps: the warning is set exactly when some listing so far came later than the threshold after the first ready client. |
| MultusTiming.FlakyReport | pkg/daemon/multus/validation.go:419-467 | A successful run warns of a flaky network exactly when a listing in its last stage came later than the threshold after the first ready client. |
| MultusTiming.StoringChangesNothing | pkg/daemon/multus/validation.go:447-467 | Over any sequence of checks, storing the number of ready clients would give the same warning at the same time. |
| MultusLiveness.GoodStage | pkg/daemon/multus/validation.go:121-442 | Every stage after the first needs one turn when its observation is as expected, and hands the observed counts and web server on. |
| MultusLiveness.Finishes | pkg/daemon/multus/statemachine.go:52-100 | From any such stage the run succeeds in as many turns as there are stages left. |
| MultusLiveness.GoodRunSucceeds | pkg/daemon/multus/validation.go:470-520 | With a valid config, good observations, quick turns and no cancellation every run succeeds within 27 turns. |
| MultusLiveness.EventuallySucceeds | pkg/daemon/multus/validation.go:470-520 | If each stage is shown what it waits for at some turn within the resource timeout, whatever it is shown before, and the run is neither canceled nor ended by a stage that does not wait, every run succeeds. |
| MultusLiveness.NeverExpires | pkg/daemon/multus/statemachine.go:61-84 | In such a run no turn finds its timer expired, also not the turn after a change of stage, which still runs under the timer of the stage before. |
| MultusLiveness.GoodIsResponsive | pkg/daemon/multus/validation.go:470-520 | A run of good and quick turns meets these premises. |
| MultusLiveness.GoodRunExists | pkg/daemon/multus/validation.go:470-520 | A concrete cluster and environment that meet these premises and go through all stages. |
| MultusMachine.Total | pkg/daemon/multus/resources.go:262-268 | The sum of the counts, for any visiting order. |
| MultusMachine.Equal | pkg/daemon/multus/resources.go:270-284 | Exactly map equality. |
| MultusMachine.ImagePullCounts | pkg/daemon/multus/resources.go:286-313 | The counts of a usable listing: one daemonset per node type, all scheduled somewhere, a later entry for a type overwriting an earlier one. |
| MultusMachine.EnsureOneImagePullPodPerNode | pkg/daemon/multus/resources.go:315-335 | Passes exactly when the pods were listed and no two are on one node. |
| MultusMachine.NumRunning | pkg/daemon/multus/resources.go:337-357 | How many of the listed pods are flagged running. |
| MultusMachine.NumReady | pkg/daemon/multus/resources.go:359-371 | How many of the listed pods are flagged ready. |
| MultusMachine.Creator.StartClientsOfKind | pkg/daemon/multus/resources.go:200-250 | Creates the daemonsets of one kind up to the first failing call, whose effect may or may not stay, and counts them. |
| MultusMachine.Creator.StartClients | pkg/daemon/multus/resources.go:200-250 | Creates exactly the clients of one node type or a prefix up to the first failing call, and counts the clients per node. |
| MultusMachine.Creator.StartAllClients | pkg/daemon/multus/validation.go:379-404 | The same over all node types; on success the counts are clients per node times the accepted number of nodes. |
| MultusMachine.Creator.StartHostCheckers | pkg/daemon/multus/resources.go:179-198 | One host checker per node type, or a prefix up to the first failing call. |
| MultusMachine.Creator.StartImagePullers | pkg/daemon/multus/resources.go:143-158 | One image puller per node type, or a prefix up to the first failing call. |
| MultusMachine.ValidationStateMachine.GetExpectedNumberOfImagePullPods | pkg/daemon/multus/validation.go:90-111 | The fields, the error and the effects after the stage are those of its specification. |
| MultusMachine.ValidationStateMachine.EnsureNodeTypesDoNotOverlap | pkg/daemon/multus/validation.go:121-134 | The same for the overlap check, which exits on an overlap. |
| MultusMachine.ValidationStateMachine.VerifyAllPodsRunning | pkg/daemon/multus/validation.go:152-203 | The same for the three stages that wait for running pods, with their internal errors: each moves on exactly when its own listing shows the expected number of pods flagged running, and otherwise stays as it is. |
| MultusMachine.ValidationStateMachine.RemoveImagePullers | pkg/daemon/multus/validation.go:215-226 | The same for deleting the image pullers. |
| MultusMachine.ValidationStateMachine.ReadWebServerInfo | pkg/daemon/multus/validation.go:236-264 | The same for reading the web server's addresses. |
| MultusMachine.ValidationStateMachine.LaunchHostCheckers | pkg/daemon/multus/validation.go:275-302 | The same for starting the host checkers, which are skipped without a public network. |
| MultusMachine.ValidationStateMachine.VerifyAllHostCheckersReady | pkg/daemon/multus/validation.go:313-336 | The same for waiting until the host checkers are ready: it moves on exactly when as many as counted are flagged ready, and otherwise stays as it is. |
| MultusMachine.ValidationStateMachine.RemoveHostCheckers | pkg/daemon/multus/validation.go:350-368 | The same for deleting the host checkers, after which a host check exits. |
| MultusMachine.ValidationStateMachine.LaunchClients | pkg/daemon/multus/validation.go:379-404 | The same for starting the clients and working out how many to expect. |
| MultusMachine.ValidationStateMachine.VerifyAllClientsReady | pkg/daemon/multus/validation.go:419-442 | The same for the last stage, with its warning: it is done exactly when the expected number of clients is flagged ready. |
| MultusMachine.ValidationStateMachine.CheckFlaky | pkg/daemon/multus/validation.go:447-467 | The warning fields after the check are those of its specification. |
| MultusMachine.ValidationStateMachine.ResetTheTimer | pkg/daemon/multus/statemachine.go:102-107 | With an unread channel the reset gets through, and the timer runs a full timeout from then. |
| MultusMachine.ValidationStateMachine.Turn | pkg/daemon/multus/statemachine.go:61-100 | One turn of the loop is one step of the specification: cancellation, timeout, reset, stage, second cancellation check, exit. |
| MultusMachine.ValidationStateMachine.Run | pkg/daemon/multus/statemachine.go:52-100 | The endless loop ends, with the result and the final machine of the specified run. |
| MultusMachine.StartTest | pkg/daemon/multus/validation.go:470-507 | What happens before the loop: validation, the early success, and the create calls up to the first failure. |
| MultusMachine.RunValidationTest | pkg/daemon/multus/validation.go:470-520 | The whole test returns the result of the specified run; its effects are safe, success means all milestones were observed, and the clients left are those that were seen ready. |
| CommandFormat.NeedsQuoting | pkg/util/exec/format.go:54-65 | True exactly when some character is outside the safe set. |
| CommandFormat.FormatCommand | pkg/util/exec/format.go:30-52 | The line is the quoted words joined with single spaces. |
| CommandFormat.ScanEscaped | pkg/util/exec/format.go:41-52 | Inside single quotes the escaped text reads back as the argument, whatever follows. |
| CommandFormat.ScanQuoted | pkg/util/exec/format.go:41-52 | A quoted argument reads as one word with that value, whatever follows. |
| CommandFormat.LineReadsBack | pkg/util/exec/format.go:30-65 | A POSIX tokenizer splits the line into exactly the given vector, for all strings. |
| CommandFormat.LineInjective | pkg/util/exec/format.go:30-65 | Different vectors print as different lines. |
| CommandFormat.LineRunsCommand | pkg/util/exec/format.go:22-38 | The shell runs the command with exactly its arguments if and only if the unquoted name is no assignment and no reserved word. |
| CommandFormat.AssignmentIsNotRun | pkg/util/exec/format.go:22-38 | A concrete line that assigns a variable and runs the second word. |
| CommandTimeout.StepKeepsInv | pkg/util/exec/exec.go:102-168 | Every step of caller, process, copiers and clock keeps the invariant about phases, joined writers and reported results. |
| CommandTimeout.RunKeepsInv | pkg/util/exec/exec.go:102-168 | So does every interleaving. |
| CommandTimeout.OutputReadAfterJoin | pkg/util/exec/exec.go:126-168 | Whenever the output was read, all writers were done and the process had exited, and it is all that was written in the whole run, without the white space around it. |
| CommandTimeout.CallIsBounded | pkg/util/exec/exec.go:126-168 | At most an interrupt and then a kill, each no sooner than its timeout; no error exactly on a clean exit with no signal; back within two timeouts and the grace period plus the lag of three wake-ups. |
| CommandTimeout.ErrorsMean | pkg/util/exec/exec.go:126-168 | What each error says of the run: none, a clean exit and no timer fired; an exit error, a bad exit read before a kill; a failed kill, the second signal failed; a timeout, some timer fired. |
| CommandTimeout.RunReflects | pkg/util/exec/exec.go:102-168 | In every run the buffer is the concatenation of all writes, the exit is the one waited for, and one signal was sent per timer fired. |
| CommandTimeout.CallerCanMove | pkg/util/exec/exec.go:126-168 | Until it returns the caller is never stuck. |
| CommandTimeout.ResultIsFinal | pkg/util/exec/exec.go:102-168 | After the return no step changes the result or sends a signal. |
| Deployments.ProgressDeadlineExceeded | pkg/operator/k8sutil/deployment.go:328-335 | True exactly when some condition says so. |
| Deployments.FateIsFirstToSettle | pkg/operator/k8sutil/deployment.go:256-279 | A deployment is pending exactly when no listed item settles it; otherwise the first that does says whether it finished, and a passed deadline wins over a finished update. |
| Deployments.FateIsShown | pkg/operator/k8sutil/deployment.go:256-279 | The same by the fields of the items: a new observed generation with updated and ready replicas, or a condition that the progress deadline is exceeded. |
| Deployments.ItemsWereListed | pkg/operator/k8sutil/deployment.go:240-256 | An item counts exactly if one of the listings so far succeeded and holds it. |
| Deployments.Waiter.See | pkg/operator/k8sutil/deployment.go:256-279 | One listed item keeps: the wait set holds exactly the pending deployments and the failures exactly those given up on, each once. |
| Deployments.Waiter.Poll | pkg/operator/k8sutil/deployment.go:240-286 | One poll keeps that; a failed listing changes nothing; it is done when the wait set is empty or the call was canceled. |
| Deployments.RetryWithTimeout | pkg/util/retry.go:68-99 | It polls until a listing is canceled, nothing is pending, or one poll after the timeout, whichever comes first; at most one poll per period and two more; no error exactly when nothing is pending. |
| Deployments.WaitForDeploymentsToUpdate | pkg/operator/k8sutil/deployment.go:226-309 | Each deployment waited for is finished, given up on or timed out, as the first item that settles it says, and reported once exactly if not finished; a reported timeout means that the timeout passed or a listing was canceled, and the latter exactly when a cancellation came in time. By the fields of the listed items: no report means that the first item to show anything showed a new generation with updated and ready replicas, a passed deadline that it showed the condition, a timeout that none showed either. No more polls than the deadline has seconds and two, or 32 without one. |
| Deployments.LeftBehind | pkg/operator/k8sutil/deployment.go:240-309 | Something is left pending before the timeout if and only if a listing was canceled before the timeout while something was pending. |
| Deployments.CanceledReadsAsTimedOut | pkg/operator/k8sutil/deployment.go:294-308 | A canceled first listing is reported as a timeout after one poll. |
| Deployments.DeadlineIsMax | pkg/operator/k8sutil/deployment.go:216-217 | The deadline waited by is the largest among the old and new deployments of the updates, and none without one. |
| Deployments.UpdateMultipleDeployments | pkg/operator/k8sutil/deployment.go:190-221 | The updated map, the failures and the largest progress deadline of the batch. |
| Deployments.UpdatesSorted | pkg/operator/k8sutil/deployment.go:190-221 | With distinct names each one is updated, unchanged or failed as its own update ended, and each failure is listed once. |
| Deployments.ReportsSorted | pkg/operator/k8sutil/deployment.go:311-321 | With distinct names the failures of both phases together name each deployment that failed once, as a failed update, a passed deadline or a timeout, whichever it was, and no other. |
| Deployments.UpdateMultipleDeploymentsAndWait | pkg/operator/k8sutil/deployment.go:311-321 | Every failed update is reported, with distinct names the reports are as above and, for updated deployments, as the fields of the listed items show; the wait went on as above with twice the largest deadline. |
| DnsLabel.BufferedIsWords | pkg/apis/ceph.rook.io/v1/labels.go:184-207 | The buffer always holds the lower-cased alphanumeric runs joined by single dashes, with a `d` before a leading digit, and a dash if a separator came last. |
| DnsLabel.LabelShape | pkg/apis/ceph.rook.io/v1/labels.go:174-222 | Before cutting: empty exactly without letters and digits, otherwise a label with no adjacent dashes. |
| DnsLabel.LabelKeepsLetters | pkg/apis/ceph.rook.io/v1/labels.go:174-214 | Before cutting: without its dashes and the added `d`, the label is exactly the letters and digits of the input in order, upper case 32 code points up. |
| DnsLabel.CutKeepsEnds | pkg/apis/ceph.rook.io/v1/labels.go:225-236 | A cut string has exactly the wanted length: the two ends of the input, equally long up to one character, around two dashes. |
| DnsLabel.AlwaysValid | pkg/apis/ceph.rook.io/v1/labels.go:174-236 | For every input the result is empty exactly without letters and digits, and otherwise a label of section 2.3.1 of RFC 1035 with at most 63 characters. |
| DnsLabel.ValidLabelsKept | pkg/apis/ceph.rook.io/v1/labels.go:174-236 | A valid label without adjacent dashes is unchanged. |
| DnsLabel.IdempotentUnlessCut | pkg/apis/ceph.rook.io/v1/labels.go:225-236 | Converting twice is converting once if and only if nothing had to be cut. |
| DnsLabel.CutLabelIsNotStable | pkg/apis/ceph.rook.io/v1/labels.go:225-236 | 64 letters give a label that changes when converted again. |
| DnsLabel.TrimmedBuffer | pkg/apis/ceph.rook.io/v1/labels.go:209-214 | Trimming the buffer's dashes leaves exactly the joined words. |
| DnsLabel.WriteByte | pkg/apis/ceph.rook.io/v1/labels.go:184-207 | One byte of input extends the buffer as specified, with every write in bounds. |
| DnsLabel.ToValidDNSLabel | pkg/apis/ceph.rook.io/v1/labels.go:174-222 | The in-place algorithm computes the label specified by words. |
| DaemonNames.IndexToName | pkg/operator/k8sutil/name.go:29-42 | The loop computes the bijective base-26 name; a negative index gives one character. |
| DaemonNames.NameToIndex | pkg/operator/k8sutil/name.go:49-69 | An error exactly on a character outside a-z; otherwise the value of the name less one, and 0 for the empty name. |
| DaemonNames.NameOfIndex | pkg/operator/k8sutil/name.go:29-69 | Every index has a name of letters, and reading it gives the index back. |
| DaemonNames.IndexOfName | pkg/operator/k8sutil/name.go:29-69 | Every non-empty name of letters is the name of the index it reads as. |
| DaemonNames.IndexOrderIsShortLex | pkg/operator/k8sutil/name.go:22-42 | One index is below another exactly when its name comes first in shortlex order. |
| NodePlacement.RequirementsAsSelector | pkg/operator/k8sutil/node.go:220-250 | Succeeds exactly when every requirement is well formed. |
| NodePlacement.NodeMeetsAffinityTerms | pkg/operator/k8sutil/node.go:198-217 | The first term that is malformed or met decides. |
| NodePlacement.MeetsTermsIsAny | pkg/operator/k8sutil/node.go:198-217 | With well-formed terms a node is accepted exactly when it meets some term. |
| NodePlacement.MeetsTermsMeans | pkg/operator/k8sutil/node.go:198-217 | For all terms: no if none is malformed or met; else the first that is decides, with an error if it is malformed. |
| NodePlacement.MergedFirstTerm | pkg/apis/ceph.rook.io/v1/placement.go:78-89 | For every node: what the joined first term accepts, including terms without match expressions. |
| NodePlacement.MergeMeaning | pkg/apis/ceph.rook.io/v1/placement.go:48-92 | For every node and all terms: an error on a malformed first term, acceptance of a node that meets both first terms, and otherwise the placement's later terms decide. |
| NodePlacement.MergeIsConjunctionWhen | pkg/apis/ceph.rook.io/v1/placement.go:48-92 | The merge is the conjunction of the two affinities for every node if and only if their terms include one another in a stated way, which does not mention nodes. |
| NodePlacement.PreferencesKept | pkg/apis/ceph.rook.io/v1/placement.go:55-58 | The merge loses and adds no preferred term, whatever becomes of the required ones. |
| NodePlacement.OneSidedMerge | pkg/apis/ceph.rook.io/v1/placement.go:48-76 | When one side has no required terms, the other side's decide. |
| NodePlacement.SingleTermMergeIsConjunction | pkg/apis/ceph.rook.io/v1/placement.go:48-92 | With one term each the merge is the conjunction if and only if no empty term stands beside one the node meets. |
| NodePlacement.EmptyTermIsIgnored | pkg/apis/ceph.rook.io/v1/placement.go:78-89 | A node accepted by the merge although one side, a term without match expressions, accepts no node. |
| NodePlacement.MergeDropsTerms | pkg/apis/ceph.rook.io/v1/placement.go:78-89 | A node that meets both affinities but not their merge. |
| NodePlacement.NodeIsTolerable | pkg/operator/k8sutil/node.go:255-273 | Exactly when every taint is ignored or tolerated by some toleration. |
| NodePlacement.MergedTolerations | pkg/apis/ceph.rook.io/v1/placement.go:94-101 | After the merge a taint is tolerated exactly when one side tolerated it. |
| NodePlacement.NodeMeetsPlacementTerms | pkg/operator/k8sutil/node.go:181-193 | Affinity first, with its errors, then tolerations. |
| NodePlacement.MergeAccepts | pkg/apis/ceph.rook.io/v1/placement.go:106-124 | A merged placement accepts exactly the nodes that meet the overriding affinity and whose taints either side tolerates. |
| NodePlacement.MergeTakes | pkg/apis/ceph.rook.io/v1/placement.go:106-124 | What is not joined is the overriding placement's where that sets it, and the base's otherwise. |
| NodePlacement.MergeLaws | pkg/apis/ceph.rook.io/v1/placement.go:94-124 | Merging placements is associative with the empty placement as unit, apart from nil against empty tolerations. |
| NodePlacement.ApplyToPodSpec | pkg/apis/ceph.rook.io/v1/placement.go:27-46 | The pod spec afterwards: node affinities merged, tolerations joined, and pod affinity, pod anti-affinity and spread constraints those of the placement where it has them, else the pod's. |
| NodePlacement.AppliedNarrows | pkg/apis/ceph.rook.io/v1/placement.go:27-92 | For all placements and pods: the pod runs exactly on the nodes that meet what the affinities demand together, whichever are given, and whose taints either side tolerates. |
| NodePlacement.AppliedIsConjunction | pkg/apis/ceph.rook.io/v1/placement.go:27-92 | With terms that include one another as above, exactly on the nodes that meet both affinities. |
| ValidNodes.ValidNode | pkg/operator/k8sutil/node.go:44-72 | Exactly the schedulable and ready nodes that meet the placement; the flag waives the first two. |
| ValidNodes.GetKubernetesNodesMatchingRookNodes | pkg/operator/k8sutil/node.go:302-322 | For each entry of the spec its first matching node, in spec order. |
| ValidNodes.RookNodesMatchingKubernetesNodes | pkg/operator/k8sutil/node.go:341-352 | For each node all entries that match it, under its host name. |
| ValidNodes.GetValidNodes | pkg/operator/k8sutil/node.go:76-101 | The two joins around the filter; nothing when the nodes cannot be listed. By fields: an entry comes out exactly if it is an entry of the spec under the host name of a node that it names, which is the first node that some entry names, meets the placement, and is ready and schedulable unless both are waived. |
| ValidNodes.ValidNodesExact | pkg/operator/k8sutil/node.go:76-101 | The result is exactly the valid entries, in spec order, once each, with only the name changed, if and only if no valid node of one entry is matched by another. |
| ValidNodes.SameNodeTwice | pkg/operator/k8sutil/node.go:76-101 | One node named by host name and by node name: both entries come out twice. |
| CephCaps.ParseJoin | deploy/examples/create-external-cluster-resources.py:2191-2204 | Printing permissions with commas and splitting the text again gives them back. |
| CephCaps.ParseByCommas | deploy/examples/create-external-cluster-resources.py:2191-2196 | For every text: the parts between commas in order, each stripped, without the empty ones. |
| PythonStrings.StripKeepsMiddle | deploy/examples/create-external-cluster-resources.py:2191-2196 | Stripping takes nothing but white space away. |
| CephCaps.DedupList | deploy/examples/create-external-cluster-resources.py:2201-2203 | The loop keeps first occurrences in order. |
| CephCaps.UpgradeKeepsAndAppends | deploy/examples/create-external-cluster-resources.py:2186-2204 | The upgraded capability reads as the old permissions in their order followed by the missing new ones in theirs, each once. |
| CephCaps.UpgradeIdempotent | deploy/examples/create-external-cluster-resources.py:2186-2204 | Upgrading again with the same permissions changes nothing. |
| CephCaps.UpgradeUserPermissions | deploy/examples/create-external-cluster-resources.py:2186-2212 | The command leaves the user, under each of `mon`, `mgr`, `osd` and `mds`, its old permissions and the new ones; empty capabilities and other keys are gone. |
| CephCaps.GrantedAre | deploy/examples/create-external-cluster-resources.py:2204-2212 | The arguments of the command stand for exactly the non-empty capabilities. |
| CephCaps.UpgradeUserIdempotent | deploy/examples/create-external-cluster-resources.py:2186-2212 | A second run that reads what the first left on the user gives the same command. |
| CephKeys.DotFreeId | deploy/examples/create-external-cluster-resources.py:945-976 | The id of the rbd node user has no dot exactly when the cluster name and the rados namespace have none. |
| CephKeys.UserWords | deploy/examples/create-external-cluster-resources.py:1016-1051 | The name of every user splits into type, the parts of its id and the generation, for all ids. |
| CephKeys.GetLatestKeyGeneration | deploy/examples/create-external-cluster-resources.py:1635-1679 | By the text of the listed names: it succeeds exactly when each has a second word that does not start with the id, or is a key of the id, whose generation is the number after the next dot, or 0 without one; and then gives the largest such generation, or -1. |
| CephKeys.LatestIsLargest | deploy/examples/create-external-cluster-resources.py:1659-1679 | It succeeds exactly when every name can be read, and then gives the largest generation listed, or -1. |
| CephKeys.SpelledReads | deploy/examples/create-external-cluster-resources.py:1659-1679 | What the script makes of any name, by its text. |
| CephKeys.OtherUsersDoNotCount | deploy/examples/create-external-cluster-resources.py:1660-1663 | A name whose second word does not start with the id changes nothing, wherever it stands in the listing. |
| CephKeys.PrefixIsSecondWord | deploy/examples/create-external-cluster-resources.py:1650-1656 | The prefix looked for is the id up to its first dot, so the id itself exactly without a dot. |
| CephKeys.OwnUserReads | deploy/examples/create-external-cluster-resources.py:1650-1679 | What the script reads off a user it created, for every id and generation. |
| CephKeys.ReadsItsOwnUsers | deploy/examples/create-external-cluster-resources.py:1650-1679 | It reads all its users right if and only if the id has no dot. |
| CephKeys.ReadsItsFirstUser | deploy/examples/create-external-cluster-resources.py:1650-1679 | It reads its first user as generation 0 if and only if the id has no dot, or one with a zero after it. |
| CephKeys.NoKeysYet | deploy/examples/create-external-cluster-resources.py:2227-2238 | Without a listed name that starts with the id every mode picks generation 0; with such names of non-negative generations the latest is kept unless a change is asked for. |
| CephKeys.RotateIsFresh | deploy/examples/create-external-cluster-resources.py:2227-2230 | "rotate" picks a user that is absent from every listing if and only if the id does not have one dot with a negative number after it. |
| CephKeys.KeepsOwnUser | deploy/examples/create-external-cluster-resources.py:2227-2238 | Without a change asked for, the user picked exists if and only if the largest listed generation is one of the id's own. |
| CephKeys.RevertUndoesRotate | deploy/examples/create-external-cluster-resources.py:2227-2238 | After a rotation its generation is the latest, and "revert" goes back to a user that existed before if and only if the largest generation before was one of the id's own; it is then the one in use before. |
| CephKeys.SharedPrefixMisleads | deploy/examples/create-external-cluster-resources.py:1659-1679 | For every id: next to a user of a longer id, "revert" after the first rotation picks a user that never existed. |
| CephKeys.FirstRotationStays | deploy/examples/create-external-cluster-resources.py:2227-2238 | The listing on which "revert" does not undo "rotate": the one with the first user alone. |
| CephKeys.DottedIdFails | deploy/examples/create-external-cluster-resources.py:1650-1679 | A user of the script makes every run that lists it fail if and only if its id has two dots, or one and either a later generation or no number after the dot. |
| CephKeys.IdParts | deploy/examples/create-external-cluster-resources.py:945-976 | The id has the dots of the cluster name and of the rados namespace, and with one dot the stated text after it. |
| CephKeys.FlagsDecide | deploy/examples/create-external-cluster-resources.py:945-1051 | What the script reads off its first user, in terms of the flags. |
| CephKeys.MisreadGeneration | deploy/examples/create-external-cluster-resources.py:1650-1679 | With the namespace `ns.5` the first user reads as generation 5. |
| CephKeys.RotationNotFresh | deploy/examples/create-external-cluster-resources.py:2227-2230 | With the namespace `ns.-5` "rotate" picks a user that exists. |
| InformerFactory.StepKeeps | pkg/client/informers/externalversions/factory.go:147-246 | Every step keeps: started kinds are registered, each started once with its own informer, nothing runs after a shutdown returned. |
| InformerFactory.RunKeeps | pkg/client/informers/externalversions/factory.go:147-246 | So does every interleaving from any valid state, and later states extend earlier ones. |
| InformerFactory.StartStartsTheRest | pkg/client/informers/externalversions/factory.go:147-163 | The same of the step, for every state and every order in which the map is visited. |
| InformerFactory.RunReflects | pkg/client/informers/externalversions/factory.go:147-246 | In every run: a kind has the informer made when it was first asked for; it has been started if and only if a Start came after that and before every shutdown; it runs until it finishes. |
| InformerFactory.StartedExactlyOnce | pkg/client/informers/externalversions/factory.go:147-246 | Such a kind has exactly one goroutine started for it, with the informer it first got. |
| InformerFactory.OneInformerPerKind | pkg/client/informers/externalversions/factory.go:147-246 | In every run each kind keeps its first informer, which is started at most once, and nothing starts once a shutdown has begun. |
| InformerFactory.ShutdownIsFinal | pkg/client/informers/externalversions/factory.go:165-173 | After a shutdown returned no informer goroutine runs or ever will. |
| InformerFactory.SharedInformerFactory.InformerFor | pkg/client/informers/externalversions/factory.go:224-246 | Returns the informer that the kind has, or the new one if it had none, and is the step of the protocol. |
| InformerFactory.SharedInformerFactory.StartWithContext | pkg/client/informers/externalversions/factory.go:147-163 | Unless a shutdown has begun, every registered kind that was not started is started and running, with exactly one new goroutine, which is of its own informer; nothing else changes. |
| InformerFactory.SharedInformerFactory.BeginShutdown | pkg/client/informers/externalversions/factory.go:165-173 | The locked section of the shutdown: only the flag changes. |
| MgrRole.MgrSidecar.SetMgrRoleLabel | pkg/operator/ceph/cluster/mgr/mgr.go:285-328 | The loop over the listing is the sequence of write steps; it succeeds exactly if the services do and no needed update failed; on success every listed pod has the role, and pods that are not listed keep their label. |
| MgrRole.MgrSidecar.ReconcileMgr | cmd/rook/ceph/mgr.go:116-145 | A poll that nobody interrupts is the sequence of its steps. It fails exactly when Ceph does not answer, or names a new mgr and the spec, the listing, a needed label update or the services fail; the name is empty exactly then, and else the mgr named. |
| MgrRole.MgrSidecar.Turn | cmd/rook/ceph/mgr.go:103-112 | One turn of the sidecar's loop is that sequence, and the sidecar remembers the mgr named, or nothing if the poll failed. |
| MgrRole.StepWatched | cmd/rook/ceph/mgr.go:103-145 | Every step of any pod keeps how a label stands to the mgr its sidecar was told of: right, still to be written, failed, blinded or overwritten. |
| MgrRole.FollowsUnlessBlinded | cmd/rook/ceph/mgr.go:103-145 | In every run a sidecar that remembers a real mgr has, between polls, the right label if and only if the listing of its last write showed its pod or the label was right then; a label that a neighbour of the same daemon changed since is right if and only if the neighbour was told of a mgr that gives the same role. |
| MgrRole.OnePodFollows | cmd/rook/ceph/mgr.go:103-145 | With one pod per daemon the label is right if and only if the sidecar was not blinded. |
| MgrRole.LabelsAlwaysFollow | cmd/rook/ceph/mgr.go:103-145 | So with listings that show the own pod every label is right. |
| MgrRole.AgreementMeansOneActive | cmd/rook/ceph/mgr.go:103-145 | Once all sidecars remember the same mgr, exactly that mgr's pod is active and all others are standby if and only if none was blinded. |
| MgrRole.QuietRoundSettles | cmd/rook/ceph/mgr.go:103-145 | Whatever went on before, one quiet round of polls that name one mgr makes all sidecars remember it, and exactly its pod active if and only if no sidecar that remembered it already was blinded. |
| MgrRole.EmptyListingLabelsNothing | pkg/operator/ceph/cluster/mgr/mgr.go:285-328 | On an empty listing the sidecar remembers the mgr, keeps the wrong label and does not look again. |
| MgrRole.TwoPodsRace | pkg/operator/ceph/cluster/mgr/mgr.go:299-318 | Two fresh pods of one daemon, two polls without a failed call, and a label that is wrong afterwards. |

## Left out

- Deployments.UpdateMultipleDeploymentsAndWait: reports each failed name exactly once only for distinct names, because the names come from one listing of a namespace, where the API server keeps them distinct.
- NodePlacement.MergeIsConjunctionWhen: treats requirements as independent of each other, because what a requirement says about labels belongs to a Kubernetes library.
- MgrRole.LabelsAlwaysFollow: speaks of runs with one pod per daemon in which a sidecar's listing shows its own pod; `OnePodFollows` and `FollowsUnlessBlinded` cover all other runs.
- CommandTimeout: the caller is a set of steps on values, not a loop over channels, and stdin is left out.
- InformerFactory: the lock makes each locked section one step; resync periods, transforms, `WaitForCacheSync` and informer names are left out.
- CephKeys: only the rbd node user, whose names the script reads; dry runs and the other users' capabilities are left out.
- MgrRole: the services step and the lookup of the cluster's spec may fail or not; what they do is left out.
- Go integers are unbounded and Go slices are sequences, so overflow in `name.go` and aliasing in `append` are not captured.
- Python text is ASCII: other white space and other digits that `strip` and `int` accept are not modelled.
- The shell model has no aliases, and reads operators one character at a time; neither occurs in a printed line.
- Requirement matching and `ToleratesTaint` belong to Kubernetes libraries; a node answers them by arbitrary functions.
- `perNodeTypeCount.Increment` and `RetryWithContext`: easy members that nothing above needs.
- Error texts, suggestions, logging, YAML templates, network status parsing and the clean-up of the Multus test.
- The rest of the operator: reconciling custom resources, Ceph commands, volumes, generated clients.
