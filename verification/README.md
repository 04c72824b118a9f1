# DevPlane verification

A Dafny model of the hard parts of DevPlane: the Workspace lifecycle that the
operator and the OIDC gateway share without a lock, the gateway's token cache, the
NetworkPolicy compiler, the hash-chained session recorder, and the strings that
become names and settings. `dafny verify dfyconfig.toml` checks everything.

## How it is built

**Lifecycle.** `Lifecycle.dfy` cuts `Reconcile` at every API call and interleaves
the pieces with the gateway's reads, patches, losses and late deliveries, the
kubelet, the volume controller, the garbage collector, spec edits, deletion and a
clock. One event is one atomic step; a run is any sequence of events; theorems are
about all runs. Every API call succeeds, is refused, or takes effect while its reply
is lost. Both writers patch the status with the difference from the copy they hold
(JSON Merge Patch, section 2 of RFC 7396) and no version check, so patches may be
arbitrarily stale. The other `Lifecycle*.dfy` files prove properties of these runs:
`Status` (phase against Ready, no interference), `Guards` and `Volume` (what exists
before a pod does), `Stops` (who stops and who wakes), `Idle` (idle verdicts),
`Window` (the idle setting), `Wake` (when waking works), `Removal` (deletion),
`Stabilise` and `Rounds` (convergence and latency), `Outcomes` and `Reports` (every
ending of Reconcile, what it reports and when it asks for a requeue).

**Code in its own form.** `Reconciler.dfy` holds `Reconcile` as a class that changes
the cluster step by step; uninterrupted, it is proved to perform exactly the
machine's steps.
`StatusObjects.dfy` holds the status as a heap object with a conditions array, deep
copies and in-place edits. `GatewayLifecycle.dfy` holds the gateway's entry points
and the polling loop, `Activity.dfy` the rate-limited activity callback.

**Other components.** `TokenCache*.dfy` (the cache as an object, its races, its LRU
order, when it must hit), `NetworkPolicies.dfy` (builders and the meaning of policies),
`SessionRecorder.dfy` and `SessionChain.dfy`, `Identity.dfy`, `Settings.dfy`.
`Text.dfy`, `Common.dfy` and `WorkspaceApi.dfy` hold shared definitions.

## Results that contradict a promise

- Waking a stopped workspace clears phase, message and podName but does not stamp
  `lastAccessed`, and the idle check runs before Running is written. So the
  transparent restart of README.md:32 and ARCHITECTURE.md:140 does not happen after
  an idle stop: `LifecycleWake.WakingWorksExactlyWhileOpen` shows that a run to
  Running exists if and only if the idle window is still open, and
  `LifecycleIdle.WakingIsInVain` that nothing short of a stamp or an edited window
  changes that; `LifecycleWake.IdleStopIsFinal` joins the stop and the wake-ups after
  it. ARCHITECTURE.md:134 says a stamp is written when a user reaches the workspace
  API; `EnsureExists` writes none.
- A stamp can lag a frame by the one-minute rate limit and again by up to a second,
  because a stored time has whole seconds. "Idle minus one minute" is therefore not a
  safe margin for an active session (`Activity.OneMinuteIsNotEnough`); the exact one
  is 61 seconds less 2 nanoseconds (`Activity.MarginIsExact`).
- Reconcile checks that a volume claim exists, not whose it is. A pod can be left
  without its claim exactly when the claim found was another owner's leftover
  (`LifecycleVolume.VolumeGuardIsExact`).
- Two concurrent misses on one token leave two list elements for one key
  (`TokenCacheRaces.RaceLeavesDuplicate`). List and index stay in bijection exactly in
  the runs in which no insertion meets its key already indexed
  (`TokenCacheRaces.BijectionIffNoClash`); races on different tokens do no harm. When
  the older of two such elements is evicted, the index loses the key although the newer
  one is live (`TokenCacheHits.ClashForgetsLiveEntry`); without a clash a live entry
  hits (`TokenCacheHits.LiveEntriesHit`).
- A stored stamp can be turned back, in exactly two ways: by an older one of another
  session that arrives late, and by a Reconcile that read no stamp and seeds an older
  second (`Activity.StampsHoldExactly`).
- The comment above `sanitizeUserID` speaks of 63 characters; the code cuts at 49.

## Assumptions

- One Workspace object lives and dies; children left by an earlier one of the same
  name are objects of another owner. Gateway patches may already be under way at the
  start. The user ID is not edited.
- One Reconcile at a time, which reads what it wrote. A read through a stale cache is
  an earlier read followed by a delay; reads of different objects happen in order.
- `CreateOrUpdate` is one atomic step. An object controlled by another owner makes it
  fail before it writes, as `SetControllerReference` does.
- No one but the garbage collector, the kubelet and the operator deletes children.
- Every namespace carries its `kubernetes.io/metadata.name` label.
- Hashes are functions; injective, non-empty and free of bars only where stated.
- `time.After` never fires early. Operator and gateway share one clock, which does not
  run backwards; the margin and the idle results rest on that.

## Model

| member | source | states |
|---|---|---|
| `LifecycleStatus.PhaseAndReadyAgree` | controllers/workspace_controller.go:598-621 | In every run from a consistent Workspace, phase Running means Ready is True, and Creating, Failed or Stopped mean Ready is False, however stale the patches of operator and gateway are |
| `LifecycleStatus.OperatorPatch` | controllers/workspace_controller.go:598-605 | A status report computed from an old copy still leaves phase and Ready in agreement when the gateway cleared the phase meanwhile |
| `LifecycleStatus.OperatorKeepsLastAccessed` | controllers/workspace_controller.go:338-344 | In every run an operator step changes the stored lastAccessed only as a seed, only when the copy it read had none, and then to the seed's stamp |
| `LifecycleStatus.SeedsOnlyWhenMissing` | controllers/workspace_controller.go:338-344 | In every run a pending seed means that the copy read had no stamp |
| `LifecycleStatus.GatewayChangesOnlyItsFields` | pkg/gateway/lifecycle.go:166-177 | Whatever copies the patches are computed from and whatever is stored when they arrive: a wake-up of a Stopped copy empties the phase and can otherwise only empty message and podName; a touch can only write its own stamp |
| `LifecycleStatus.ReportAndTouchCommute` | controllers/workspace_controller.go:595-605 | A status report and a touch reach the same stored status in either order, and the report never undoes the stamp |
| `WorkspaceApi.SummarisedAgrees` | pkg/workspace/status_summary.go:26-59 | Every summary in a reportable phase leaves phase and Ready in agreement |
| `WorkspaceApi.SummarisedMeaning` | pkg/workspace/status_summary.go:26-74 | What a reader finds after a summary: its fields, the override in place of the message, one Ready condition with the given or default reason, a transition time that moves only with the status, other conditions and the stamp untouched |
| `WorkspaceApi.PatchMeaning` | controllers/workspace_controller.go:598-605 | A patch writes exactly the fields that were edited, however different base and stored status have become |
| `WorkspaceApi.DecodeLaws` | pkg/gateway/lifecycle.go:224-230 | Decoding an answer takes its non-empty fields and always its stamp, and keeps the rest of the struct |
| `WorkspaceApi.SetConditionReady` | pkg/workspace/status_summary.go:52-58 | Setting Ready makes it the condition a reader finds, and setting it twice changes nothing |
| `StatusObjects.StatusObject.DeepCopyInto` | api/v1alpha1/zz_generated.deepcopy.go:256-266 | The copy has the same JSON value and a conditions array of its own |
| `StatusObjects.StatusObject.DeepCopy` | api/v1alpha1/zz_generated.deepcopy.go:268-276 | The copy is a new object that shares no memory with the original |
| `StatusObjects.StatusObject.SetStatusCondition` | pkg/workspace/status_summary.go:52-58 | The in-place search and overwrite equals the specification on sequences; the array is either kept or new |
| `StatusObjects.StatusObject.ApplyStatusSummary` | pkg/workspace/status_summary.go:26-59 | The in-place edit turns the old JSON value into the summarised one; lastAccessed stays |
| `StatusObjects.StatusStore.UpdateStatus` | controllers/workspace_controller.go:598-605 | What reaches the server is the difference the summary makes to the object as read; stored lastAccessed never changes; against an up-to-date object the stored status becomes the summarised one |
| `StatusObjects.StatusStore.TouchLastAccessed` | pkg/gateway/lifecycle.go:224-230 | Whatever the object's age, only lastAccessed changes on the server, and it becomes the stamp unless the object already held it |
| `StatusObjects.StatusStore.ClearStopped` | pkg/gateway/lifecycle.go:166-177 | The wake-up edit always ends in an empty phase and never touches lastAccessed, endpoint, hint or conditions |
| `LifecycleGuards.PodsAreGuarded` | controllers/workspace_controller.go:122-284 | In every run, whichever calls fail and for as long as the Workspace exists, its pod exists only with its ServiceAccount, Role, RoleBinding and three NetworkPolicies, and with a PVC unless another owner's PVC was there at the start |
| `LifecycleGuards.PodsAreCreatedGuarded` | controllers/workspace_controller.go:102-284 | In every run, deletion of the Workspace included, a pod comes into being only while the Workspace exists with its finalizer and all those guards are in place |
| `LifecycleGuards.GuardsThroughout` | controllers/workspace_controller.go:462-593 | The inductive invariant: each pending call may rely on the guards before it, and stored policies are compiled from a spec the Workspace has had |
| `LifecycleGuards.PodTrafficIsAlwaysIntended` | controllers/workspace_controller.go:532-593 | At every moment of every run the stored policies permit the pod exactly the traffic that one spec this Workspace has had, and the operator's settings, call for |
| `LifecycleVolume.VolumeGuardIsExact` | controllers/workspace_controller.go:156-284 | The pod has its volume claim in every run if and only if the claim at the start is not another owner's |
| `LifecycleVolume.ForeignVolumeVanishes` | controllers/workspace_controller.go:156-284 | The concrete run: the claim is read, collected, then the pod is created |
| `LifecycleStops.StoppedOnlyAfterVerdict` | controllers/workspace_controller.go:345-359 | Phase Stopped is entered, each time, only by a Reconcile that has itself judged a ready pod whose idle window had passed, and has been running ever since |
| `LifecycleStops.StoppedLeftOnlyByWake` | controllers/workspace_controller.go:85-114 | Phase Stopped is left only by a delivered gateway clear, a report of an invalid spec, or removal of the Workspace |
| `LifecycleStops.StepKeepsPvc` | controllers/workspace_controller.go:156-211 | No operator or gateway step deletes or rewrites an existing PVC |
| `LifecycleStops.VolumeSurvives` | controllers/workspace_controller.go:156-227 | Across any number of stop and wake cycles, failures, edits and garbage collections the PVC keeps owner and size for as long as the Workspace exists, unless it is another owner's |
| `LifecycleRemoval.ReconcileRemoves` | controllers/workspace_controller.go:449-459 | One undisturbed Reconcile lets a Workspace marked for deletion go, touches nothing else and asks for no further call |
| `LifecycleRemoval.RemovedExactlyByOperator` | controllers/workspace_controller.go:451-459 | A Workspace with a finalizer disappears at a step if and only if it is an operator call that takes effect after it read the mark on the version still stored |
| `LifecycleRemoval.RemovalHasItsCall` | controllers/workspace_controller.go:85-88 | In every run that ends without a Workspace that had its finalizer, there was such a call |
| `LifecycleRemoval.FinalizerStays` | controllers/workspace_controller.go:102-109 | A finalizer stays in every run for as long as the Workspace does |
| `LifecycleIdle.IdleVerdictsAreStable` | controllers/workspace_controller.go:332-371 | Once a positive window has passed, no step writes Running in any run that keeps stamp and window, whatever pod there is, across wake-ups, pod recreation and failures; a Reconcile may already be running, short of a pending Running report |
| `LifecycleIdle.WakingIsInVain` | pkg/gateway/lifecycle.go:199-209 | With no session open, an overdue workspace never reaches Running again, whatever gateway, kubelet and operator do, unless the window is edited |
| `LifecycleWindow.SettingDecides` | controllers/workspace_controller.go:332-377 | One undisturbed Reconcile over a serving, stamped pod stops it if and only if the setting itself says so: never for "0", by its own duration, or by the operator's default when empty; otherwise it reports Running |
| `LifecycleWindow.SettingDecidesAtCheck` | controllers/workspace_controller.go:625-638 | The same from the idle check on, for every spec: a setting that cannot be parsed falls back to the operator's default |
| `LifecycleWindow.OptedOutIsNeverStopped` | controllers/workspace_controller.go:332-360 | A workspace whose setting leaves no window is stopped in no run, for as long as the setting stays so |
| `LifecycleWake.WakingWorksExactlyWhileOpen` | pkg/gateway/lifecycle.go:166-177 | A stopped workspace can be brought to Running if and only if its idle window is still open |
| `LifecycleWake.IdleStopIsFinal` | controllers/workspace_controller.go:345-359 | After the Reconcile that stops an idle workspace without sessions, no run reaches Running again until the window is edited |
| `LifecycleRounds.SelfStabilises` | controllers/workspace_controller.go:102-377 | From any mix of missing and outdated children at most five rounds reach Running with everything as desired and a pod of no other image, and every earlier round asks to be called again |
| `LifecycleRounds.ConvergedIsStable` | controllers/workspace_controller.go:102-377 | From there one more Reconcile changes nothing but the clock, and asks for a requeue after a quarter of the window |
| `LifecycleRounds.IdleStopLatency` | controllers/workspace_controller.go:345-375 | From the first reconcile that meets the ready pod, whatever phase, stamp and other children it finds: the stop comes strictly after the stamp (stored or seeded) plus idle, and no later than that reconcile or a quarter window after the window's end; in between the workspace is Running and unchanged |
| `LifecycleStabilise.CallsGoForward` | controllers/workspace_controller.go:75-447 | Every API call of Reconcile leads strictly forward, whatever its outcome, so Reconcile terminates |
| `LifecycleStabilise.ReconcileToRunning` | controllers/workspace_controller.go:362-375 | An undisturbed Reconcile over a serving pod and an open window yields this exact cluster: guards in place, Running reported, requeue after a quarter window |
| `LifecycleStabilise.ReconcileToStopped` | controllers/workspace_controller.go:345-359 | With the window passed the same Reconcile deletes the pod, reports Stopped and asks for nothing |
| `LifecycleStabilise.ReconcileAddsFinalizer` | controllers/workspace_controller.go:102-109 | A Workspace without a finalizer gets it, nothing else changes, and the Reconcile asks to be called at once |
| `LifecycleOutcomes.ReconcileAbsent` | controllers/workspace_controller.go:78-82 | Without a Workspace nothing happens |
| `LifecycleOutcomes.ReconcileInvalid` | controllers/workspace_controller.go:90-100 | A malformed spec or idle setting is reported as Failed, and nothing is created, changed or retried |
| `LifecycleOutcomes.ReconcileStopped` | controllers/workspace_controller.go:111-114 | A stopped workspace is left exactly as it is |
| `LifecycleOutcomes.ReconcileCreatesVolume` | controllers/workspace_controller.go:174-210 | A missing claim is created with the storage asked for, owned by the Workspace, and reported as binding |
| `LifecycleOutcomes.ReconcileLostVolume` | controllers/workspace_controller.go:213-227 | A lost claim is reported as Failed; pod, service and claim are left alone |
| `LifecycleOutcomes.ReconcileCreatesPod` | controllers/workspace_controller.go:252-285 | A missing pod is created with the configured image, owned by the Workspace |
| `LifecycleOutcomes.ReconcileReplacesPod` | controllers/workspace_controller.go:287-301 | A pod with another image is marked for deletion |
| `LifecycleOutcomes.StopIsExplained` | controllers/workspace_controller.go:348-356 | The status after an idle stop names neither pod nor endpoint, gives the cause and is not Ready |
| `LifecycleOutcomes.RunningIsExplained` | controllers/workspace_controller.go:363-371 | The status after a Running report names pod and endpoint, has no complaint and is Ready for this generation |
| `LifecycleOutcomes.FailuresAreReported` | controllers/workspace_controller.go:122-330 | Whichever call fails, or meets an object of another owner, the error is returned or named, with its call, in the next report; Failed for creations and the service, Creating with pod and endpoint kept otherwise; a refused call changes nothing |
| `LifecycleOutcomes.ForeignObjectsStay` | controllers/workspace_controller.go:462-593 | No step but the garbage collector's touches an object of another owner |
| `LifecycleReports.ProgressIsNeverForgotten` | controllers/workspace_controller.go:75-447 | In every run a Reconcile that ends without error and asks for no further call leaves phase Running, Failed, Stopped or cleared, never Creating |
| `LifecycleReports.ReconcileReports` | controllers/workspace_controller.go:379-446 | An undisturbed Reconcile over a pod that does not serve yields this exact cluster: guards and service in place, the pod's report stored, the report's requeue asked for |
| `LifecycleReports.PodReportMeaning` | controllers/workspace_controller.go:362-446 | Running for a ready pod, Failed for any other failed, unknown or stuck pod with its cause, Creating for the rest; requeue after a quarter window, never, or in five seconds |
| `LifecycleReports.IsPodReadyMeaning` | controllers/workspace_controller.go:641-651 | Ready means that a Ready condition exists and the first one is True |
| `LifecycleReports.FirstStuckMeaning` | controllers/workspace_controller.go:412-431 | A failure reason is found exactly when some container waits for one, and it is the first such container's |
| `Lifecycle.PodReport` | controllers/workspace_controller.go:362-446 | The final step always reports, and reports Running exactly for a running and ready pod |
| `Reconciler.WorkspaceReconciler.Reconcile` | controllers/workspace_controller.go:75-447 | For every pattern of failing calls the imperative code takes the machine from rest to rest through exactly its steps, at most fifteen; without failures it equals the undisturbed Reconcile of the convergence theorems |
| `Reconciler.WorkspaceReconciler.Attempt` | controllers/workspace_controller.go:75-114 | Reading, deletion, validation, finalizer and the Stopped check follow the machine, whose endings there are pinned by ReconcileAbsent, ReconcileRemoves, ReconcileInvalid, ReconcileAddsFinalizer and ReconcileStopped |
| `Reconciler.WorkspaceReconciler.Provision` | controllers/workspace_controller.go:122-447 | From the first guard to the final report the code follows the machine and ends at rest |
| `Reconciler.WorkspaceReconciler.EnsureRBAC` | controllers/workspace_controller.go:462-528 | It reaches the policies with all three RBAC objects ensured, or the setback report of the call that failed |
| `Reconciler.WorkspaceReconciler.EnsureNetworkPolicies` | controllers/workspace_controller.go:532-593 | It reaches the volume check with all three policies ensured, or the setback report of the call that failed |
| `Reconciler.WorkspaceReconciler.EnsurePVC` | controllers/workspace_controller.go:156-227 | It reaches the pod check only over an existing claim that is not lost; otherwise it ends at rest as the machine does |
| `Reconciler.WorkspaceReconciler.CreateClaim` | controllers/workspace_controller.go:174-210 | A missing claim is created and its result reported, as the machine does |
| `Reconciler.WorkspaceReconciler.EnsurePod` | controllers/workspace_controller.go:229-301 | It reaches the service with the current pod, or ends at rest after creating or replacing it |
| `Reconciler.WorkspaceReconciler.StartPod` | controllers/workspace_controller.go:252-285 | A missing pod is created, or the failure is reported, as the machine does |
| `Reconciler.WorkspaceReconciler.Publish` | controllers/workspace_controller.go:303-377 | Service, idle check and report follow the machine from the service call to rest |
| `Reconciler.WorkspaceReconciler.Seed` | controllers/workspace_controller.go:338-344 | A missing stamp is seeded and the judgement works on the server's answer, as the machine does |
| `Reconciler.WorkspaceReconciler.Judge` | controllers/workspace_controller.go:345-377 | An expired pod is deleted and reported Stopped, any other pod is reported from its status, as the machine does |
| `Reconciler.WorkspaceReconciler.UpdateStatus` | controllers/workspace_controller.go:598-621 | One patch ends the Reconcile with the intended result, or with an error if the patch fails |
| `Reconciler.WorkspaceReconciler.UpdateObject` | controllers/workspace_controller.go:449-459 | A whole-object update takes effect only on the version that was read |
| `Reconciler.StepsAreARun` | controllers/workspace_controller.go:75-447 | The steps of a Reconcile are a run of the lifecycle machine |
| `Reconciler.FewSteps` | controllers/workspace_controller.go:75-447 | Whatever fails, a Reconcile ends within fifteen steps |
| `Reconciler.UndisturbedReconcile` | controllers/workspace_controller.go:75-447 | Without failures the steps are the Reconcile of the convergence theorems |
| `GatewayLifecycle.WaitForRunning` | pkg/gateway/lifecycle.go:186-219 | At most 30 polls; a snapshot exactly when a turn that takes place reads Running; restarted exactly when some poll saw Stopped; the patches sent are the wake-ups of those polls |
| `GatewayLifecycle.WaitMeaning` | pkg/gateway/lifecycle.go:186-219 | Each answer comes if and only if a turn starts before the deadline, after turns that decided nothing, and calls for it: Running, Failed, an unreadable workspace, a failed wake-up, a cancellation; a timeout if and only if the deadline passes over undecided turns |
| `GatewayLifecycle.EnsureExists` | pkg/gateway/lifecycle.go:122-180 | The workspace is returned as read, as created, or as the server answers the wake-up, never Stopped; each failure has its own answer; a wake-up never stamps lastAccessed |
| `GatewayLifecycle.EnsureWorkspace` | pkg/gateway/lifecycle.go:56-115 | Once the object is there, the login succeeds if and only if a turn of the wait reads Running; the answer is the status read with the stamp, and the server's reply if there is one; the stamp is sent once, last, and only then |
| `GatewayLifecycle.WakesNeverStamp` | pkg/gateway/lifecycle.go:199-209 | No patch of any wait carries lastAccessed |
| `GatewayLifecycle.TurnIsARun` | pkg/gateway/lifecycle.go:189-217 | A turn of the wait is a run of the machine that clears a Stopped workspace and leaves everything else stored as it was |
| `GatewayLifecycle.LateLoginFails` | pkg/gateway/lifecycle.go:186-219 | The whole wait of a login to an overdue workspace without sessions ends in an error or a timeout, whatever its polls read in whatever runs |
| `Activity.Session.OnActivity` | cmd/gateway/main.go:621-630 | At most one stamp a minute; in between nothing is sent; a stamp changes only lastAccessed |
| `Activity.Session.Serve` | cmd/gateway/main.go:621-632 | After any frames with successful stamps the store holds exactly the last due stamp, cut to seconds |
| `Activity.LastTouchIsRecent` | cmd/gateway/main.go:623-630 | The last stamp is less than a minute older than the last frame, for every frame sequence |
| `Activity.TouchesAreSpaced` | cmd/gateway/main.go:623-630 | Stamps of a session are pairwise at least a minute apart |
| `Activity.TouchesCover` | cmd/gateway/main.go:623-630 | Every frame comes less than a minute after some stamp |
| `Activity.ActiveSessionIsNotStopped` | controllers/workspace_controller.go:332-360 | The stamp of a session's last due frame is sent and, after any run, arrives while nothing older is on its way or about to be seeded: in every run from there a Reconcile that held no older stamp and judges within idle minus 61 s plus 2 ns of the last frame reports instead of stopping |
| `Activity.TouchArrives` | pkg/gateway/lifecycle.go:224-230 | However long a stamp is under way, and whatever happens meanwhile, when it arrives so, nothing older is stored, on its way or about to be seeded |
| `Activity.StampsHoldExactly` | pkg/gateway/lifecycle.go:224-230 | A stored stamp goes back in no run if and only if no older stamp is on its way and no Reconcile is about to seed an older one |
| `Activity.MarginIsExact` | controllers/workspace_controller.go:332-360 | A decision some time after the last frame is safe for every session if and only if the window leaves that margin |
| `Activity.OneMinuteIsNotEnough` | cmd/gateway/main.go:621-630 | For every window of a minute or more, a session exists that is judged idle within the window less one minute of its last frame |
| `TokenCache.Validator.constructor` | pkg/gateway/auth.go:119-123 | A new validator has an empty, sound cache |
| `TokenCache.Validator.Lookup` | pkg/gateway/auth.go:171-184 | The first critical section: the hit, recency update or eager eviction of the specification, soundness kept |
| `TokenCache.Validator.Store` | pkg/gateway/auth.go:204-217 | The second critical section: evict to capacity, push in front, index, soundness kept |
| `TokenCache.Validator.Validate` | pkg/gateway/auth.go:168-220 | A hit answers from the cache, a miss with the verifier's answer, which is stored only if it accepts |
| `TokenCache.Validator.EvictExpired` | pkg/gateway/auth.go:153-161 | The loop over the index, in any order, equals one simultaneous sweep; soundness kept |
| `TokenCache.IndexFitsList` | pkg/gateway/auth.go:60-65 | A sound cache indexes no more entries than it lists, and lists at most 10,000 |
| `TokenCacheRaces.SoundUnderRaces` | pkg/gateway/auth.go:145-220 | Under every interleaving, index entries point to live elements with their key, the index fits the list, the list is bounded |
| `TokenCacheRaces.HitsAreVerified` | pkg/gateway/auth.go:168-220 | Every hit returns claims the verifier produced earlier for a token with that hash, stored less than the TTL ago |
| `TokenCacheRaces.RaceLeavesDuplicate` | pkg/gateway/auth.go:171-217 | Two requests that look up one token, miss, verify and insert leave two elements for one key |
| `TokenCacheRaces.BijectionIffNoClash` | pkg/gateway/auth.go:168-220 | Under any concurrency, list and index are in bijection throughout a run if and only if no insertion meets its key already indexed |
| `TokenCacheHits.LiveEntriesHit` | pkg/gateway/auth.go:168-220 | In every interleaving without a clash, across sweeps: a lookup returns the claims of the key's latest insertion if that is less than the TTL ago and fewer than 10,000 other keys were used since |
| `TokenCacheHits.RecentEntriesHit` | pkg/gateway/auth.go:168-220 | With any clashes on other keys: the same for a key stored where no element held it, with fewer than 10,000 lookups and insertions since |
| `TokenCacheHits.HeldHitsWhileYoung` | pkg/gateway/auth.go:153-178 | In every interleaving an indexed key hits if and only if its insertion is less than the TTL ago, and a sweep keeps it if and only if it is no more |
| `TokenCacheHits.HeldHitsSequentially` | pkg/gateway/auth.go:168-220 | Sequentially a held key returns, at any time, the claims of the request that stored it exactly while that is less than the TTL ago |
| `TokenCacheHits.ClashForgetsLiveEntry` | pkg/gateway/auth.go:204-217 | After a clash the cache can forget an entry stored just now although one other key was used |
| `TokenCacheLru.ValidatedIsExact` | pkg/gateway/auth.go:168-220 | Sequential use keeps list and index in exact bijection |
| `TokenCacheLru.SweptIsExact` | pkg/gateway/auth.go:153-161 | So does a sweep |
| `TokenCacheLru.StoredIsExact` | pkg/gateway/auth.go:204-217 | An insertion keeps the bijection if and only if its key is not indexed, or only as the entry evicted to make room |
| `TokenCacheLru.SurvivorsAreMostRecent` | pkg/gateway/auth.go:204-217 | Without sweeps the keys held are exactly the most recently used ones, in order, up to capacity, for every history, whatever expires during it |
| `TokenCacheLru.RecentMeaning` | pkg/gateway/auth.go:171-178 | The reference list of that theorem, from any start, holds each key of start and history once, ordered by last use |
| `TokenCacheLru.ListIsInOrder` | pkg/gateway/auth.go:145-220 | In every sequential history with expiries, rejected tokens, evictions and sweeps, the bijection holds and the list is ordered by last request |
| `NetworkPolicies.UnionIsIntended` | pkg/security/netpol.go:127-294 | The three policies together permit exactly: DNS to kube-system, any port to the LLM namespaces, TCP to any IPv4 address on the valid ports or the built-in list, and TCP 7681 from gateway pods |
| `NetworkPolicies.EgressRulesMeaning` | pkg/security/netpol.go:165-239 | The egress rules allow exactly the intended outgoing traffic |
| `NetworkPolicies.IngressRuleMeaning` | pkg/security/netpol.go:251-294 | The ingress rule allows exactly gateway pods in the configured, or else the own, namespace on TCP 7681 |
| `NetworkPolicies.InternetPortsMeaning` | pkg/security/netpol.go:190-211 | The port list is never empty, never means all ports, and holds exactly the valid configured ports, or the built-in ones if none is valid |
| `NetworkPolicies.BuildEgressNetworkPolicy` | pkg/security/netpol.go:165-239 | The loops build exactly the policy whose meaning is proved |
| `NetworkPolicies.ResolveLLMEgressNamespaces` | pkg/security/netpol.go:51-59 | The result is never empty and holds exactly the trimmed non-blank entries of the spec; or, if it has none, of the operator; or, if neither has, "ai-system" |
| `NetworkPolicies.ResolvedNamespacesMeaning` | pkg/security/netpol.go:48-59 | The same precedence for the function the other theorems use |
| `NetworkPolicies.ResolvedPortsMeaning` | pkg/security/netpol.go:61-76 | The ports opened are those of the spec if it lists any, else those of the operator, in each case the valid ones or the built-in list |
| `NetworkPolicies.IntendedMeaning` | pkg/security/netpol.go:51-76 | The traffic intended for resolved lists is the traffic the settings themselves call for |
| `NetworkPolicies.OtherPodsAreUntouched` | pkg/security/netpol.go:93-102 | A pod that is not this user's workspace is not isolated by the policies |
| `NetworkPolicies.CompactNonEmptyStrings` | pkg/security/netpol.go:78-86 | The loop computes the compacted list |
| `NetworkPolicies.CompactMembers` | pkg/security/netpol.go:78-86 | Its members are exactly the trimmed forms of the non-blank entries |
| `NetworkPolicies.CompactLaws` | pkg/security/netpol.go:78-86 | Compaction works entry by entry and keeps order and repetition |
| `SessionRecorder.Recorder.constructor` | pkg/gateway/session_recording.go:139-145 | A new recorder has an empty, valid chain |
| `SessionRecorder.Recorder.RecordFrame` | pkg/gateway/session_recording.go:157-195 | The chain stays valid whether the write succeeds or not; a failed or late write adds nothing |
| `SessionRecorder.Recorder.Close` | pkg/gateway/session_recording.go:198-244 | The log is untouched, and a second Close does not rewrite the manifest |
| `SessionRecorder.ChainIsValid` | pkg/gateway/session_recording.go:157-244 | For every sequence of calls and failures the records replay, their numbers increase, and the manifest names the last written hash and at least as many frames as records |
| `SessionRecorder.ClosedIsFinal` | pkg/gateway/session_recording.go:198-244 | After Close no call changes log or manifest |
| `SessionRecorder.ManifestCountsRecords` | pkg/gateway/session_recording.go:218-226 | Without failed writes the manifest's frame count is the number of records |
| `SessionRecorder.RecordsAreFrames` | pkg/gateway/session_recording.go:157-195 | The log tells exactly the frames written before Close, in order, field by field, with their place among all frames |
| `SessionRecorder.ManifestTellsSession` | pkg/gateway/session_recording.go:218-226 | The first Close writes the number of all frames seen and the hash of the last record, whichever writes failed |
| `SessionChain.TextDeterminesFields` | pkg/gateway/session_recording.go:164-171 | No other record at all renders to the text of a record whose fields hold no bar |
| `SessionChain.ChainIsUnique` | docs/audit-events.md:74-76 | A log of bar-free records is the only log of any records that replays to its final hash, under an injective hash |
| `SessionChain.ManifestPinsTheLog` | docs/audit-events.md:74-76 | Any log at all that replays and ends in a session's manifest hash is that session's log, whichever writes failed |
| `SessionChain.BarsAreAmbiguous` | pkg/gateway/session_recording.go:169-169 | With bars in the fields of both, two different records render alike |
| `Identity.SanitizedIsValid` | pkg/gateway/auth.go:73-92 | The ID is empty exactly when the lowercased subject has no letter or digit; otherwise it passes the validator and has no double hyphen |
| `Identity.DerivedNamesAreLabels` | pkg/workspace/resources.go:37-98 | Pod, PVC, Service and ServiceAccount names of a valid ID are DNS labels of at most 63 characters |
| `Identity.NamesIdentifyUsers` | pkg/workspace/resources.go:37-98 | For each kind of object, names of different users differ |
| `Identity.SanitizerImage` | pkg/workspace/resources.go:287-298 | The sanitizer's non-empty image is exactly the IDs the validator accepts that have no double hyphen |
| `Identity.ImageIsFixed` | pkg/gateway/auth.go:79-92 | Each of them is its own sanitized form |
| `Identity.SanitizeIdempotent` | pkg/gateway/auth.go:79-92 | Sanitizing twice is sanitizing once |
| `Identity.SanitizedSpellsSubject` | pkg/gateway/auth.go:79-92 | The ID spells the subject's maximal runs of letters and digits in order, joined by single hyphens, with "u-" before a digit, cut to 49 |
| `Identity.WordsAreWords` | pkg/gateway/auth.go:73-82 | The reference runs are non-empty and hold letters and digits only; there is none exactly when the subject has none |
| `Identity.WordsHoldAll` | pkg/gateway/auth.go:73-82 | The reference runs hold all letters and digits of the subject in order |
| `Identity.WordsAreRuns` | pkg/gateway/auth.go:73-82 | There are as many of them as runs in the subject |
| `Identity.LowerConcat` | pkg/gateway/auth.go:80-80 | Lowercasing works character by character |
| `Identity.LowerCharacter` | pkg/gateway/auth.go:80-80 | An ASCII capital becomes the small letter in its place of the alphabet; other ASCII characters stay |
| `Settings.ParseEgressPorts` | main.go:80-95 | The loop computes the specified list, and every port in it is valid |
| `Settings.ParseLLMNamespaces` | main.go:66-74 | The loop computes the specified list; every name in it is trimmed and non-blank |
| `Settings.PortsRoundTrip` | deploy/helm/workspace-operator/templates/operator-deployment.yaml:36-39 | Parsing the comma-joined rendering of any valid ports returns them |
| `Settings.OnlyValidPorts` | main.go:83-94 | Any string yields only ports in 1..65535 |
| `Settings.PortsLaws` | main.go:83-94 | Parsing works entry by entry and keeps the order: a number in range gives its port, anything else nothing, whatever stands around it |
| `Settings.OnlyPlainNamespaces` | main.go:66-74 | Any string yields only trimmed, non-blank names |
| `Settings.NamespacesRoundTrip` | deploy/helm/workspace-operator/templates/operator-deployment.yaml:36-39 | Comma-free, trimmed, non-blank namespaces come back unchanged |
| `Text.SplitJoin` | main.go:69-69 | Splitting undoes joining when no part holds the separator |
| `Text.TrimSpaceMeaning` | main.go:70-70 | Trimming removes blank ends only and empties exactly blank strings |
| `Text.ParseDecimal` | main.go:88-88 | ParseInt with 32 bits undoes decimal rendering on every 32-bit integer |

## Left out

- StatusObjects.StatusObject.SetStatusCondition: a grown slice is always a new array; Go may write into spare capacity behind the old length, which no other slice here can see.
- StatusObjects.StatusStore.TouchLastAccessed: the in-memory stamp keeps whole seconds only, which is all that any patch carries.
- LifecycleStops.VolumeSurvives: the binding phase of the claim may change, because the volume controller reports it.
- Activity.ActiveSessionIsNotStopped: stamps are best effort in the code; nothing is promised when the last due stamp is lost, or when an older stamp is still on its way or about to be seeded as it arrives, or for a Reconcile that had read an older stamp before.
- Activity.Session.OnActivity: the callback's three clock reads are one instant, and the unsynchronised race of the two copy directions on lastTouch is not modelled.
- SessionRecorder.Recorder.RecordFrame: a write happens wholly or not at all; a torn line, the 64-bit wrap-around of the counter and the payload bytes (outside the hash) are not modelled.
- SessionChain.ChainIsUnique: needs bar-free fields in the recorded log; the hexadecimal digests, RFC 3339 times and fixed direction labels that the gateway writes are bar-free.
- TokenCacheLru.SurvivorsAreMostRecent: speaks of tokens the verifier accepts and of no sweep; rejected tokens and sweeps only shorten the list, whose order TokenCacheLru.ListIsInOrder covers.
- TokenCacheHits.LiveEntriesHit: lookups of unknown tokens count as uses of their keys.
- Identity.SanitizedIsValid: lowercasing beyond ASCII is a parameter of the theorem, so it holds for any Unicode tables.
- TokenCache.Validator.Validate: signature checks and claim extraction are the verifier's answer; error classes are not modelled.
- Creation of a Workspace by the gateway inside a lifecycle run; runs begin with the object present.
- Texts of messages, hints and reasons: only which report they belong to, whether they are empty, and whether two are equal.
- Errors of the Build functions after a spec passed validation, and quantity and duration syntax: one flag of the spec stands for the field checks.
- Contents of RBAC rules, Service, pod security context, environment and volumes: fixed literals without a hard property.
- Names of NetworkPolicies, which may exceed 63 characters by their suffixes.
- HTTP handlers, OAuth, cookies, pages, the WebSocket proxy, rate limiting, audit logs, metrics and error-to-hint tables: input and output around library calls, or single lookups.
