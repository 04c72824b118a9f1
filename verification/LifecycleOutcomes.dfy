/**
 The endings of Reconcile. First the undisturbed ones that do not lead to a report
 about the pod, each as the exact cluster it leaves; then what any failing call leads
 to, and that objects of other owners are never touched.
 */
module LifecycleOutcomes {
  import opened Common
  import opened WorkspaceApi
  import opened Lifecycle
  import opened LifecycleStabilise

  // ------------------------------------------------------- undisturbed endings

  /** Without a Workspace there is nothing to do. */
  lemma ReconcileAbsent(cfg: Config, w: World)
    requires w.op.Resting? && w.api.cr.None?
    ensures Reconciled(cfg, w) == w.(op := Resting(Settled(None)))
  {
    hide DecideStep, AccessStep, PolicyStep, PvcStep, PodStep, ServiceStep, SeedStep, ReportStep;
    assert OperatorStep(cfg, w, Ok) == w.(op := Resting(Settled(None)));
  }

  /** A status that says the workspace failed for this reason and keeps its stamp. */
  predicate SaysFailed(before: Status, after: Status, about: Topic) {
    && after.phase == WorkspaceApi.Failed && after.message == Note(about, 0) && after.hint == Note(about, 0)
    && after.podName == NoText && after.endpoint == NoText
    && after.lastAccessed == before.lastAccessed && ReadyStatus(after.conditions) == Some(False)
  }

  lemma FailureSaysFailed(s: Status, about: Topic, generation: nat, now: nat)
    ensures SaysFailed(s, Summarised(s, Failure(about, 0), generation, now), about)
  {
    SetConditionReady(s.conditions, ReadyCondition(Failure(about, 0), generation), now);
  }

  /** An invalid spec is reported, and nothing is created, changed or retried. */
  lemma ReconcileInvalid(cfg: Config, w: World)
    requires w.op.Resting? && w.api.cr.Some? && !w.api.cr.value.deleting
    requires !w.api.cr.value.spec.wellFormed || w.api.cr.value.spec.idle == Malformed
    ensures var w' := Reconciled(cfg, w);
      && w'.api.cr.Some? && SaysFailed(w.api.cr.value.status, w'.api.cr.value.status, Validation)
      && w' == w.(api := w.api.(cr := Some(w.api.cr.value.(status := w'.api.cr.value.status))), op := Resting(Settled(None)))
  {
    hide AccessStep, PolicyStep, PvcStep, PodStep, ServiceStep, SeedStep, ReportStep, Summarised, SaysFailed;
    var ws := w.api.cr.value;
    var w1 := w.(op := Working(ws, Decide));
    var w2 := w.(op := Working(ws, Report(Failure(Validation, 0), Settled(None))));
    assert OperatorStep(cfg, w, Ok) == w1 && OperatorStep(cfg, w1, Ok) == w2;
    assert Finish(cfg, w1) == Finish(cfg, w2);
    FinishReport(cfg, w2);
    FailureSaysFailed(ws.status, Validation, ws.generation, w.clock);
  }

  /** A stopped workspace is left alone. */
  lemma ReconcileStopped(cfg: Config, w: World)
    requires w.op.Resting? && w.api.cr.Some? && !w.api.cr.value.deleting && w.api.cr.value.finalizer
    requires w.api.cr.value.spec.wellFormed && w.api.cr.value.spec.idle != Malformed
    requires w.api.cr.value.status.phase == Stopped
    ensures Reconciled(cfg, w) == w.(op := Resting(Settled(None)))
  {
    hide AccessStep, PolicyStep, PvcStep, PodStep, ServiceStep, SeedStep, ReportStep;
    var w1 := w.(op := Working(w.api.cr.value, Decide));
    assert OperatorStep(cfg, w, Ok) == w1;
    assert Finish(cfg, w1) == Finish(cfg, OperatorStep(cfg, w1, Ok));
  }

  /** A lost volume is reported; pod, service and claim are left as they are. */
  lemma ReconcileLostVolume(cfg: Config, w: World)
    requires Admitted(w) && w.api.cr.value.finalizer && w.api.pvc.Some? && w.api.pvc.value.phase == ClaimLost
    ensures var w', ws := Reconciled(cfg, w), w.api.cr.value;
      && w'.api.cr.Some? && SaysFailed(ws.status, w'.api.cr.value.status, PvcLost)
      && w' == w.(
        api := Guarded(cfg, w.api, ws.spec).(cr := Some(ws.(status := w'.api.cr.value.status))),
        op := Resting(Settled(None)))
  {
    hide WantedDenyAll, WantedEgress, WantedIngress, Reconciled, Summarised, SaysFailed,
      AccessStep, PolicyStep, PodStep, ServiceStep, SeedStep, ReportStep;
    var ws := w.api.cr.value;
    ReconcileGuards(cfg, w);
    var v := w.(api := Guarded(cfg, w.api, ws.spec), op := Working(ws, ReadPvc));
    var u := v.(op := Working(ws, Report(Failure(PvcLost, 0), Settled(None))));
    assert OperatorStep(cfg, v, Ok) == u;
    assert Finish(cfg, v) == Finish(cfg, u);
    FinishReport(cfg, u);
    FailureSaysFailed(ws.status, PvcLost, ws.generation, w.clock);
  }

  /** A pod that runs another image is marked for deletion, and nothing is reported. */
  lemma ReconcileReplacesPod(cfg: Config, w: World, image: nat)
    requires Startable(w) && w.api.cr.value.finalizer && w.api.pvc.Some?
    requires w.api.pod.Some? && !w.api.pod.value.terminating && w.api.pod.value.image == Some(image) && image != cfg.image
    ensures Reconciled(cfg, w) == w.(
      api := Guarded(cfg, w.api, w.api.cr.value.spec).(pod := Some(w.api.pod.value.(terminating := true))),
      op := Resting(Settled(Some(2 * SECOND))))
  {
    hide WantedDenyAll, WantedEgress, WantedIngress, Reconciled, Finish;
    var ws := w.api.cr.value;
    ReconcileGuards(cfg, w);
    var v := w.(api := Guarded(cfg, w.api, ws.spec), op := Working(ws, ReadPvc));
    FinishPvcCheck(cfg, v);
    FinishOutdatedPod(cfg, v.(op := Working(ws, ReadPod)));
  }

  /** A missing pod is created with the configured image, owned by the Workspace. */
  lemma ReconcileCreatesPod(cfg: Config, w: World)
    requires Startable(w) && w.api.cr.value.finalizer && w.api.pvc.Some? && w.api.pod.None?
    ensures Reconciled(cfg, w) == w.(
      api := Guarded(cfg, w.api, w.api.cr.value.spec).(pod := Some(Pod(Ours, Some(cfg.image), false, PodStatus(PodNew, [], [])))),
      op := Resting(Settled(Some(2 * SECOND))))
  {
    hide WantedDenyAll, WantedEgress, WantedIngress, Reconciled, Finish;
    var ws := w.api.cr.value;
    ReconcileGuards(cfg, w);
    var v := w.(api := Guarded(cfg, w.api, ws.spec), op := Working(ws, ReadPvc));
    FinishPvcCheck(cfg, v);
    FinishNewPod(cfg, v.(op := Working(ws, ReadPod)));
  }

  /** A missing claim is created with the storage asked for; the report says so. */
  lemma ReconcileCreatesVolume(cfg: Config, w: World)
    requires Admitted(w) && w.api.cr.value.finalizer && w.api.pvc.None?
    ensures var w', ws := Reconciled(cfg, w), w.api.cr.value;
      && w'.api.cr.Some? && SaysBinding(ws.status, w'.api.cr.value.status)
      && w' == w.(
        api := Guarded(cfg, w.api, ws.spec).(
          cr := Some(ws.(status := w'.api.cr.value.status)), pvc := Some(Pvc(Ours, ws.spec.storage, ClaimPending))),
        op := Resting(Settled(Some(2 * SECOND))))
  {
    hide WantedDenyAll, WantedEgress, WantedIngress, Reconciled, Finish;
    var ws := w.api.cr.value;
    ReconcileGuards(cfg, w);
    FinishNewVolume(cfg, w.(api := Guarded(cfg, w.api, ws.spec), op := Working(ws, ReadPvc)));
  }

  /** What a stop leaves to read: neither pod nor endpoint, the cause, and not Ready. */
  lemma StopIsExplained(cfg: Config, w: World)
    requires Startable(w) && w.api.cr.value.finalizer && PodUpToDate(cfg, w.api)
    requires !Fresh(w.api.cr.value.status.lastAccessed, w.clock, IdleWindow(cfg, w))
    ensures Reconciled(cfg, w).api.cr.Some?
    ensures var s := Reconciled(cfg, w).api.cr.value.status;
      && s.phase == Stopped && s.podName == s.endpoint == s.hint == NoText && s.message == Note(Idle, 0)
      && var i := Find(s.conditions, Ready);
         i < |s.conditions| && s.conditions[i].status == False && s.conditions[i].reason == BecauseStopped
         && s.conditions[i].message == Note(Idle, 0)
  {
    hide Reconciled, WantedDenyAll, WantedEgress, WantedIngress, Summarised, WholeSeconds, Fresh, Serving;
    var ws := w.api.cr.value;
    ReconcileToStopped(cfg, w);
    SummarisedMeaning(Stamped(ws.status, w.clock, IdleWindow(cfg, w)), STOPPED_SUMMARY, ws.generation, w.clock);
  }

  /** What a Running report leaves to read: pod, endpoint, no complaint, and Ready. */
  lemma RunningIsExplained(cfg: Config, w: World)
    requires Startable(w) && w.api.cr.value.finalizer && PodUpToDate(cfg, w.api)
    requires Fresh(w.api.cr.value.status.lastAccessed, w.clock, IdleWindow(cfg, w))
    ensures Reconciled(cfg, w).api.cr.Some?
    ensures var s := Reconciled(cfg, w).api.cr.value.status;
      && s.phase == Running && s.podName == PodRef && s.endpoint == EndpointRef && s.message == s.hint == NoText
      && var i := Find(s.conditions, Ready);
         i < |s.conditions| && s.conditions[i].status == True && s.conditions[i].reason == BecauseRunning
         && s.conditions[i].message == PodIsReady && s.conditions[i].generation == w.api.cr.value.generation
  {
    hide Reconciled, WantedDenyAll, WantedEgress, WantedIngress, Summarised, WholeSeconds, Fresh, Serving;
    var ws := w.api.cr.value;
    ReconcileToRunning(cfg, w);
    SummarisedMeaning(Stamped(ws.status, w.clock, IdleWindow(cfg, w)), RUNNING_SUMMARY, ws.generation, w.clock);
  }

  // ------------------------------------------------------------- failing calls

  predicate Foreign<T>(c: Option<Child<T>>) {
    c.Some? && c.value.owner == Other
  }

  /** The pending call is to ensure an object that another controller owns. */
  predicate ForeignTarget(w: World)
    requires w.op.Working?
  {
    match w.op.next
    case EnsureAccount => Foreign(w.api.account)
    case EnsureRole => Foreign(w.api.role)
    case EnsureBinding => Foreign(w.api.binding)
    case EnsureDenyAll => Foreign(w.api.denyAll)
    case EnsureEgress => Foreign(w.api.egress)
    case EnsureIngress => Foreign(w.api.ingress)
    case EnsureService(_) => Foreign(w.api.service)
    case _ => false
  }

  /** What a failure of this call is reported as; None when it is only returned. */
  function Blame(c: Call): Option<Topic> {
    match c
    case EnsureAccount => Some(Access)
    case EnsureRole => Some(Access)
    case EnsureBinding => Some(Access)
    case EnsureDenyAll => Some(Policies)
    case EnsureEgress => Some(Policies)
    case EnsureIngress => Some(Policies)
    case ReadPvc => Some(PvcRead)
    case CreatePvc => Some(WorkspaceApi.PvcCreate)
    case ReadPod => Some(PodRead)
    case CreatePod => Some(WorkspaceApi.PodCreate)
    case EnsureService(_) => Some(ServiceEnsure)
    case _ => None
  }

  /** Failing to create an object, or to ensure the service, fails the workspace. */
  predicate Fatal(c: Call) {
    c.CreatePvc? || c.CreatePod? || c.EnsureService?
  }

  /** The next report names the failure: as Failed, with pod and endpoint gone and no
      retry asked for, or as Creating, with both kept and the error returned. */
  predicate Reports(ws: Workspace, c: Call, about: Topic, code: nat, fatal: bool) {
    && c.Report? && SummaryMessage(c.sum) == c.sum.hint == Note(about, code) && c.sum.reason == Because(about, code)
    && (fatal ==> c.sum.phase == WorkspaceApi.Failed && c.sum.podName == c.sum.endpoint == NoText && c.result == Settled(None))
    && (!fatal ==> c.sum.phase == Creating && c.sum.podName == ws.status.podName && c.sum.endpoint == ws.status.endpoint
                   && c.result == Errored)
  }

  predicate MakesCall(w: World) {
    w.op.Working? ==> !w.op.next.JudgeIdle? && (w.op.next.Decide? ==>
      w.op.ws.deleting || (w.op.ws.spec.wellFormed && w.op.ws.spec.idle != Malformed && !w.op.ws.finalizer))
  }

  /** A failed step: it names the failure in its report, or returns the error. */
  predicate Admits(w: World, w': World, code: nat) {
    if w.op.Working? && Blame(w.op.next).Some?
    then w'.op.Working? && w'.op.ws == w.op.ws && Reports(w.op.ws, w'.op.next, Blame(w.op.next).value, code, Fatal(w.op.next))
    else w'.op == Resting(Errored)
  }

  lemma GuardFailures(cfg: Config, w: World, o: Outcome)
    requires w.op.Working? && (!o.Ok? || ForeignTarget(w))
    requires
      || w.op.next.EnsureAccount? || w.op.next.EnsureRole? || w.op.next.EnsureBinding?
      || w.op.next.EnsureDenyAll? || w.op.next.EnsureEgress? || w.op.next.EnsureIngress?
    ensures Admits(w, OperatorStep(cfg, w, o), Code(o))
    ensures o.Rejected? || ForeignTarget(w) ==> OperatorStep(cfg, w, o).api == w.api
  {
    hide WantedDenyAll, WantedEgress, WantedIngress, PvcStep, PodStep, ServiceStep, SeedStep, ReportStep, DecideStep;
  }

  lemma ChildFailures(cfg: Config, w: World, o: Outcome)
    requires w.op.Working? && (!o.Ok? || ForeignTarget(w))
    requires
      || w.op.next.ReadPvc? || w.op.next.CreatePvc? || w.op.next.ReadPod? || w.op.next.CreatePod?
      || w.op.next.DeleteOutdated? || w.op.next.EnsureService?
    ensures Admits(w, OperatorStep(cfg, w, o), Code(o))
    ensures o.Rejected? || ForeignTarget(w) ==> OperatorStep(cfg, w, o).api == w.api
  {
    hide AccessStep, PolicyStep, SeedStep, ReportStep, DecideStep, Serving, PodReport, WholeSeconds;
  }

  lemma WorkspaceFailures(cfg: Config, w: World, o: Outcome)
    requires !o.Ok? && MakesCall(w)
    requires w.op.Working? ==>
      w.op.next.Decide? || w.op.next.SeedLastAccessed? || w.op.next.DeleteIdle? || w.op.next.Report?
    ensures Admits(w, OperatorStep(cfg, w, o), Code(o))
    ensures o.Rejected? ==> OperatorStep(cfg, w, o).api == w.api
  {
    hide AccessStep, PolicyStep, PvcStep, PodStep, ServiceStep, ApplyPatch, Diff, Summarised, Decode;
  }

  /** No failure is swallowed: whichever call fails, or meets an object of another
      owner, the Reconcile returns the error or goes on to a report that names the call
      and the error; and a refused call changes nothing. */
  lemma FailuresAreReported(cfg: Config, w: World, o: Outcome)
    requires MakesCall(w) && (!o.Ok? || (w.op.Working? && ForeignTarget(w)))
    ensures Admits(w, OperatorStep(cfg, w, o), Code(o))
    ensures o.Rejected? || (w.op.Working? && ForeignTarget(w)) ==> OperatorStep(cfg, w, o).api == w.api
  {
    hide OperatorStep, Admits;
    if w.op.Resting? || w.op.next.Decide? || w.op.next.SeedLastAccessed? || w.op.next.DeleteIdle? || w.op.next.Report? {
      WorkspaceFailures(cfg, w, o);
    } else if w.op.next.ReadPvc? || w.op.next.CreatePvc? || w.op.next.ReadPod? || w.op.next.CreatePod?
              || w.op.next.DeleteOutdated? || w.op.next.EnsureService? {
      ChildFailures(cfg, w, o);
    } else {
      GuardFailures(cfg, w, o);
    }
  }

  predicate ForeignKept<T(==)>(before: Option<Child<T>>, after: Option<Child<T>>) {
    Foreign(before) ==> after == before
  }

  predicate ForeignStay(api: Cluster, api': Cluster) {
    && ForeignKept(api.account, api'.account) && ForeignKept(api.role, api'.role) && ForeignKept(api.binding, api'.binding)
    && ForeignKept(api.denyAll, api'.denyAll) && ForeignKept(api.egress, api'.egress)
    && ForeignKept(api.ingress, api'.ingress) && ForeignKept(api.service, api'.service)
  }

  lemma AccessSpares(w: World, o: Outcome)
    requires w.op.Working? && (w.op.next.EnsureAccount? || w.op.next.EnsureRole? || w.op.next.EnsureBinding?)
    ensures ForeignStay(w.api, AccessStep(w, o).api)
  {
    hide Setback;
  }

  lemma PoliciesSpare(cfg: Config, w: World, o: Outcome)
    requires w.op.Working? && (w.op.next.EnsureDenyAll? || w.op.next.EnsureEgress? || w.op.next.EnsureIngress?)
    ensures ForeignStay(w.api, PolicyStep(cfg, w, o).api)
  {
    hide WantedDenyAll, WantedEgress, WantedIngress, Setback;
  }

  lemma ChildrenSpare(cfg: Config, w: World, o: Outcome)
    requires w.op.Working? ==>
      || w.op.next.ReadPvc? || w.op.next.CreatePvc? || w.op.next.ReadPod? || w.op.next.CreatePod?
      || w.op.next.DeleteOutdated? || w.op.next.EnsureService? || w.op.next.JudgeIdle? || w.op.next.DeleteIdle?
    ensures ForeignStay(w.api, OperatorStep(cfg, w, o).api)
  {
    hide AccessStep, PolicyStep, SeedStep, ReportStep, DecideStep, Serving, PodReport, WholeSeconds;
  }

  lemma WorkspaceSpares(cfg: Config, w: World, o: Outcome)
    requires w.op.Working? && (w.op.next.Decide? || w.op.next.SeedLastAccessed? || w.op.next.Report?)
    ensures ForeignStay(w.api, OperatorStep(cfg, w, o).api)
  {
    hide AccessStep, PolicyStep, PvcStep, PodStep, ServiceStep, ApplyPatch, Diff, Summarised, Decode;
  }

  lemma OutsideSpares(cfg: Config, w: World, e: Event)
    requires !e.Collect? && !e.Operate?
    ensures ForeignStay(w.api, Do(cfg, w, e).api)
  {
    hide Do;
    var api := Do(cfg, w, e).api;
    assert api == w.api.(cr := api.cr, pod := api.pod, pvc := api.pvc) by { OutsideChangesFew(cfg, w, e); }
  }

  lemma OutsideChangesFew(cfg: Config, w: World, e: Event)
    requires !e.Collect? && !e.Operate?
    ensures var api := Do(cfg, w, e).api; api == w.api.(cr := api.cr, pod := api.pod, pvc := api.pvc)
  {
    hide OperatorStep, ApplyPatch, Diff, WakeMessage, TouchMessage, Decode;
  }

  /** No step but the garbage collector's touches an object of another owner. */
  lemma ForeignObjectsStay(cfg: Config, w: World, e: Event)
    requires !e.Collect?
    ensures ForeignStay(w.api, Do(cfg, w, e).api)
  {
    hide ForeignStay, AccessStep, PolicyStep, PvcStep, PodStep, ServiceStep, SeedStep, ReportStep, DecideStep, Deliver;
    if !e.Operate? {
      OutsideSpares(cfg, w, e);
    } else if w.op.Working? && (w.op.next.EnsureAccount? || w.op.next.EnsureRole? || w.op.next.EnsureBinding?) {
      AccessSpares(w, e.outcome);
    } else if w.op.Working? && (w.op.next.EnsureDenyAll? || w.op.next.EnsureEgress? || w.op.next.EnsureIngress?) {
      PoliciesSpare(cfg, w, e.outcome);
    } else if w.op.Working? && (w.op.next.Decide? || w.op.next.SeedLastAccessed? || w.op.next.Report?) {
      WorkspaceSpares(cfg, w, e.outcome);
    } else {
      ChildrenSpare(cfg, w, e.outcome);
    }
  }
}
