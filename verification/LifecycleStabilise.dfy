/**
 Self-stabilisation: from any mix of missing or outdated children, undisturbed
 Reconciles with a cooperative kubelet reach Running in at most five rounds and
 then change nothing more.
 */
module LifecycleStabilise {
  import opened Common
  import opened WorkspaceApi
  import opened Lifecycle

  // ------------------------------------------------ one undisturbed Reconcile

  /** Steps that a Reconcile at this call has still to take, at most. */
  function Remaining(c: Call): (n: nat)
    ensures n > 0
  {
    match c
    case Decide => 14
    case EnsureAccount => 13
    case EnsureRole => 12
    case EnsureBinding => 11
    case EnsureDenyAll => 10
    case EnsureEgress => 9
    case EnsureIngress => 8
    case ReadPvc => 7
    case CreatePvc => 2
    case ReadPod => 6
    case CreatePod => 2
    case DeleteOutdated => 1
    case EnsureService(_) => 5
    case SeedLastAccessed(_, _, _) => 4
    case JudgeIdle(_, _) => 3
    case DeleteIdle => 2
    case Report(_, _) => 1
  }

  predicate Forward(w: World, w': World)
    requires w.op.Working?
  {
    w'.op.Working? ==> Remaining(w'.op.next) < Remaining(w.op.next)
  }

  lemma EnsuresGoForward(cfg: Config, w: World, o: Outcome)
    requires w.op.Working? && Remaining(w.op.next) >= 8
    ensures Forward(w, OperatorStep(cfg, w, o))
  {
    hide WantedDenyAll, WantedEgress, WantedIngress, PvcStep, PodStep, ServiceStep, SeedStep, ReportStep;
  }

  lemma ChildCallsGoForward(cfg: Config, w: World, o: Outcome)
    requires w.op.Working? && (w.op.next.ReadPvc? || w.op.next.CreatePvc? || w.op.next.ReadPod? || w.op.next.CreatePod?
                               || w.op.next.DeleteOutdated?)
    ensures Forward(w, OperatorStep(cfg, w, o))
  {
    hide AccessStep, PolicyStep, DecideStep, ServiceStep, SeedStep, ReportStep;
  }

  lemma LastCallsGoForward(cfg: Config, w: World, o: Outcome)
    requires w.op.Working? && (w.op.next.EnsureService? || w.op.next.SeedLastAccessed? || w.op.next.JudgeIdle?
                               || w.op.next.DeleteIdle? || w.op.next.Report?)
    ensures Forward(w, OperatorStep(cfg, w, o))
  {
    hide Serving, FirstStuck, ApplyPatch, Diff, Summarised, Decode, WholeSeconds, AccessStep, PolicyStep, DecideStep, PvcStep, PodStep;
  }

  /** Reconcile is a straight line: every call leads strictly forward. */
  lemma CallsGoForward(cfg: Config, w: World, o: Outcome)
    requires w.op.Working?
    ensures Forward(w, OperatorStep(cfg, w, o))
  {
    hide OperatorStep;
    match w.op.next
    case ReadPvc => ChildCallsGoForward(cfg, w, o);
    case CreatePvc => ChildCallsGoForward(cfg, w, o);
    case ReadPod => ChildCallsGoForward(cfg, w, o);
    case CreatePod => ChildCallsGoForward(cfg, w, o);
    case DeleteOutdated => ChildCallsGoForward(cfg, w, o);
    case EnsureService(_) => LastCallsGoForward(cfg, w, o);
    case SeedLastAccessed(_, _, _) => LastCallsGoForward(cfg, w, o);
    case JudgeIdle(_, _) => LastCallsGoForward(cfg, w, o);
    case DeleteIdle => LastCallsGoForward(cfg, w, o);
    case Report(_, _) => LastCallsGoForward(cfg, w, o);
    case _ => EnsuresGoForward(cfg, w, o);
  }

  /** Run the pending Reconcile to its end without failures or interference. */
  function Finish(cfg: Config, w: World): World
    decreases if w.op.Resting? then 0 else Remaining(w.op.next)
  {
    if w.op.Resting? then w
    else
      CallsGoForward(cfg, w, Ok);
      Finish(cfg, OperatorStep(cfg, w, Ok))
  }

  function Reconciled(cfg: Config, w: World): World {
    Finish(cfg, OperatorStep(cfg, w, Ok))
  }

  // --------------------------------------------------------------- premises

  predicate Adoptable<T>(c: Option<Child<T>>) {
    c.Some? ==> c.value.owner != Other
  }

  /** A valid Workspace that is not Stopped, and nothing belongs to someone else. */
  predicate Admitted(w: World) {
    && w.op.Resting? && w.api.cr.Some?
    && !w.api.cr.value.deleting && ValidSpec(w.api.cr.value.spec) && w.api.cr.value.status.phase != Stopped
    && Adoptable(w.api.account) && Adoptable(w.api.role) && Adoptable(w.api.binding)
    && Adoptable(w.api.denyAll) && Adoptable(w.api.egress) && Adoptable(w.api.ingress)
    && Adoptable(w.api.service)
  }

  /** Besides, the volume is not lost. Everything else is arbitrary. */
  predicate Startable(w: World) {
    Admitted(w) && (w.api.pvc.Some? ==> w.api.pvc.value.phase != ClaimLost)
  }

  function IdleWindow(cfg: Config, w: World): int
    requires w.api.cr.Some?
  {
    EffectiveIdleTimeout(w.api.cr.value.spec, cfg.idleTimeout)
  }

  /** The idle window has not passed; without a stamp the seed counts. */
  predicate Fresh(lastAccessed: Option<nat>, now: nat, idle: int) {
    idle <= 0 || !Expired(Some(if lastAccessed.Some? then lastAccessed.value else WholeSeconds(now)), now, idle)
  }

  const READY_POD := PodStatus(PodRunning, [PodCondition(true, True)], [])

  /** A cooperative kubelet finishes deletions and brings pods up. */
  function KubeletDone(pod: Option<Pod>): Option<Pod> {
    if pod.None? || pod.value.terminating then None else Some(pod.value.(status := READY_POD))
  }

  function Awaited(w: World, elapsed: nat): World {
    w.(clock := w.clock + elapsed, api := w.api.(pod := KubeletDone(w.api.pod)))
  }

  function Round(cfg: Config, w: World, elapsed: nat): World {
    Reconciled(cfg, Awaited(w, elapsed))
  }

  // ------------------------------------------------- segments of a Reconcile

  /** Without interference a patch makes the stored status the edited one. */
  lemma PatchRoundTrip(s: Status, edited: Status)
    ensures ApplyPatch(s, Diff(s, edited)) == edited
    ensures Decode(edited, edited) == edited
  {
  }

  /** The children after a successful pass over RBAC and NetworkPolicies. */
  function Guarded(cfg: Config, api: Cluster, spec: Spec): Cluster {
    api.(account := Some(Child(Ours, AsBuilt)), role := Some(Child(Ours, AsBuilt)), binding := Some(Child(Ours, AsBuilt)),
         denyAll := Some(Child(Ours, WantedDenyAll(cfg))),
         egress := Some(Child(Ours, WantedEgress(cfg, spec))),
         ingress := Some(Child(Ours, WantedIngress(cfg))))
  }

  lemma FinishGuards(cfg: Config, w: World)
    requires w.op.Working? && w.op.next == EnsureAccount
    requires Adoptable(w.api.account) && Adoptable(w.api.role) && Adoptable(w.api.binding)
    requires Adoptable(w.api.denyAll) && Adoptable(w.api.egress) && Adoptable(w.api.ingress)
    ensures Finish(cfg, w) ==
            Finish(cfg, w.(api := Guarded(cfg, w.api, w.op.ws.spec), op := Working(w.op.ws, ReadPvc)))
  {
    hide WantedDenyAll, WantedEgress, WantedIngress;
    var w1 := AccessStep(w, Ok);
    var w2 := AccessStep(w1, Ok);
    var w3 := AccessStep(w2, Ok);
    var w4 := PolicyStep(cfg, w3, Ok);
    var w5 := PolicyStep(cfg, w4, Ok);
    var w6 := PolicyStep(cfg, w5, Ok);
    assert Finish(cfg, w) == Finish(cfg, w1);
    assert Finish(cfg, w1) == Finish(cfg, w2);
    assert Finish(cfg, w2) == Finish(cfg, w3);
    assert Finish(cfg, w3) == Finish(cfg, w4);
    assert Finish(cfg, w4) == Finish(cfg, w5);
    assert Finish(cfg, w5) == Finish(cfg, w6);
    assert w6 == w.(api := Guarded(cfg, w.api, w.op.ws.spec), op := Working(w.op.ws, ReadPvc));
  }

  /** The stored Workspace is what the operator holds. */
  predicate Undisturbed(w: World) {
    w.op.Working? && w.api.cr == Some(w.op.ws)
  }

  lemma FinishReport(cfg: Config, w: World)
    requires Undisturbed(w) && w.op.next.Report?
    ensures var edited := Summarised(w.op.ws.status, w.op.next.sum, w.op.ws.generation, w.clock);
            Finish(cfg, w) ==
            w.(api := w.api.(cr := Some(w.op.ws.(status := edited))), op := Resting(w.op.next.result))
  {
    hide Summarised;
    PatchRoundTrip(w.op.ws.status, Summarised(w.op.ws.status, w.op.next.sum, w.op.ws.generation, w.clock));
    assert Finish(cfg, w) == Finish(cfg, ReportStep(w, Ok));
  }

  lemma SummarisedFields(s: Status, sum: Summary, generation: nat, now: nat)
    ensures var r := Summarised(s, sum, generation, now);
            && r.phase == sum.phase && r.podName == sum.podName && r.endpoint == sum.endpoint
            && r.message == SummaryMessage(sum) && r.hint == sum.hint && r.lastAccessed == s.lastAccessed
  {
  }

  /** The report while a new volume is being bound keeps pod and endpoint. */
  predicate SaysBinding(before: Status, after: Status) {
    && after.phase == Creating && after.message == Note(PvcBinding, 0) && after.hint == NoText
    && after.podName == before.podName && after.endpoint == before.endpoint
    && after.lastAccessed == before.lastAccessed
  }

  lemma FinishNewVolume(cfg: Config, w: World)
    requires Undisturbed(w) && w.op.next == ReadPvc && w.api.pvc.None?
    ensures var w' := Finish(cfg, w);
            && w'.op == Resting(Settled(Some(2 * SECOND)))
            && w'.api.cr.Some? && w'.api.cr.value == w.op.ws.(status := w'.api.cr.value.status)
            && SaysBinding(w.op.ws.status, w'.api.cr.value.status)
            && w' == w.(op := w'.op, api := w.api.(cr := w'.api.cr, pvc := Some(Pvc(Ours, w.op.ws.spec.storage, ClaimPending))))
  {
    hide Summarised, AccessStep, PolicyStep, DecideStep, PodStep, ServiceStep, SeedStep, ReportStep;
    var w1 := PvcStep(w, Ok);
    var w2 := PvcStep(w1, Ok);
    assert Finish(cfg, w) == Finish(cfg, w1);
    assert Finish(cfg, w1) == Finish(cfg, w2);
    FinishReport(cfg, w2);
    SummarisedFields(w.op.ws.status, w2.op.next.sum, w.op.ws.generation, w.clock);
  }

  lemma FinishNewPod(cfg: Config, w: World)
    requires w.op.Working? && w.op.next == ReadPod && w.api.pod.None?
    ensures Finish(cfg, w) ==
            w.(op := Resting(Settled(Some(2 * SECOND))),
               api := w.api.(pod := Some(Pod(Ours, Some(cfg.image), false, NEW_POD_STATUS))))
  {
    var w1 := PodStep(cfg, w, Ok);
    assert Finish(cfg, w) == Finish(cfg, w1);
    assert Finish(cfg, w1) == Finish(cfg, PodStep(cfg, w1, Ok));
  }

  lemma FinishOutdatedPod(cfg: Config, w: World)
    requires w.op.Working? && w.op.next == ReadPod && w.api.pod.Some? && Outdated(cfg, w.api.pod.value)
    ensures Finish(cfg, w) ==
            w.(op := Resting(Settled(Some(2 * SECOND))),
               api := w.api.(pod := Some(w.api.pod.value.(terminating := true))))
  {
    var w1 := PodStep(cfg, w, Ok);
    assert Finish(cfg, w) == Finish(cfg, w1);
    assert Finish(cfg, w1) == Finish(cfg, PodStep(cfg, w1, Ok));
  }

  /** The stamp that the idle check works with. */
  function Stamped(s: Status, now: nat, idle: int): Status {
    if idle > 0 && s.lastAccessed.None? then s.(lastAccessed := Some(WholeSeconds(now))) else s
  }

  lemma FinishJudgement(cfg: Config, w: World)
    requires w.op.Working? && w.op.next.JudgeIdle? && w.op.ws.status.lastAccessed.Some? && w.op.next.idle > 0
    ensures Finish(cfg, w) == Finish(cfg, w.(op := Working(w.op.ws, AfterCheck(w, w.op.next.pod, w.op.next.idle))))
  {
    hide PodReport, WholeSeconds;
    assert Finish(cfg, w) == Finish(cfg, JudgeStep(w));
  }

  /** Where the idle check leads. */
  function AfterCheck(w: World, pod: Pod, idle: int): Call
    requires w.op.Working?
  {
    if Fresh(w.op.ws.status.lastAccessed, w.clock, idle) then PodReport(pod, idle) else DeleteIdle
  }

  lemma FinishSeedCall(cfg: Config, w: World)
    requires w.op.Working? && w.op.next.SeedLastAccessed?
    ensures Finish(cfg, w) == Finish(cfg, SeedStep(w, Ok))
  {
    hide SeedStep;
  }

  lemma FinishSeed(cfg: Config, w: World)
    requires Undisturbed(w) && w.op.next.SeedLastAccessed? && w.op.next.idle > 0
    requires w.op.next.stamp == WholeSeconds(w.clock) && w.op.ws.status.lastAccessed.None?
    ensures var ws := w.op.ws.(status := w.op.ws.status.(lastAccessed := Some(w.op.next.stamp)));
            Finish(cfg, w) == Finish(cfg, w.(api := w.api.(cr := Some(ws)),
              op := Working(ws, AfterCheck(w, w.op.next.pod, w.op.next.idle))))
  {
    hide PodReport, WholeSeconds, Finish, ApplyPatch, Diff, Decode;
    var held := w.op.ws.status.(lastAccessed := Some(w.op.next.stamp));
    PatchRoundTrip(w.op.ws.status, held);
    var w2 := SeedStep(w, Ok);
    assert Finish(cfg, w) == Finish(cfg, w2) by { FinishSeedCall(cfg, w); }
    FinishJudgement(cfg, w2);
  }

  lemma FinishService(cfg: Config, w: World)
    requires w.op.Working? && w.op.next.EnsureService?
    ensures Finish(cfg, w) == Finish(cfg, ServiceStep(cfg, w, Ok))
  {
    hide ServiceStep;
  }

  /** From the service to the verdict: the stamp is in place, then the pod is
      either reported Running or deleted. */
  lemma FinishIdleCheck(cfg: Config, w: World)
    requires Undisturbed(w) && w.op.next.EnsureService? && Serving(w.op.next.pod) && Adoptable(w.api.service)
    ensures var idle := EffectiveIdleTimeout(w.op.ws.spec, cfg.idleTimeout);
            var ws := w.op.ws.(status := Stamped(w.op.ws.status, w.clock, idle));
            Finish(cfg, w) == Finish(cfg, w.(
              api := w.api.(cr := Some(ws), service := Some(Child(Ours, AsBuilt))),
              op := Working(ws, AfterCheck(w, w.op.next.pod, idle))))
  {
    hide Serving, WholeSeconds, PodReport, Finish, EffectiveIdleTimeout;
    var w1 := ServiceStep(cfg, w, Ok);
    FinishService(cfg, w);
    if w1.op.next.SeedLastAccessed? {
      FinishSeed(cfg, w1);
    } else if w1.op.next.JudgeIdle? {
      FinishJudgement(cfg, w1);
    }
  }

  // ------------------------------------------------------- whole Reconciles

  lemma ReconcileAddsFinalizer(cfg: Config, w: World)
    requires Startable(w) && !w.api.cr.value.finalizer
    ensures Reconciled(cfg, w) ==
            w.(api := w.api.(cr := Some(w.api.cr.value.(finalizer := true))), op := Resting(Settled(Some(0))))
  {
    hide Adoptable, AccessStep, PolicyStep, PvcStep, PodStep, ServiceStep, SeedStep, ReportStep;
    var w1 := Fetch(w, Ok);
    assert Finish(cfg, w1) == Finish(cfg, DecideStep(w1, Ok));
  }

  /** Every Reconcile with a finalizer first puts all guards in place. */
  lemma ReconcileGuards(cfg: Config, w: World)
    requires Admitted(w) && w.api.cr.value.finalizer
    ensures var ws := w.api.cr.value;
            Reconciled(cfg, w) == Finish(cfg, w.(api := Guarded(cfg, w.api, ws.spec), op := Working(ws, ReadPvc)))
  {
    hide AccessStep, PolicyStep, PvcStep, PodStep, ServiceStep, SeedStep, ReportStep, Guarded;
    var w1 := Fetch(w, Ok);
    var w2 := DecideStep(w1, Ok);
    assert Finish(cfg, w1) == Finish(cfg, w2);
    FinishGuards(cfg, w2);
  }

  lemma FinishPvcCheck(cfg: Config, w: World)
    requires w.op.Working? && w.op.next == ReadPvc && w.api.pvc.Some? && w.api.pvc.value.phase != ClaimLost
    ensures Finish(cfg, w) == Finish(cfg, w.(op := Working(w.op.ws, ReadPod)))
  {
    assert Finish(cfg, w) == Finish(cfg, PvcStep(w, Ok));
  }

  lemma FinishPodCheck(cfg: Config, w: World)
    requires w.op.Working? && w.op.next == ReadPod && w.api.pod.Some? && !Outdated(cfg, w.api.pod.value)
    ensures Finish(cfg, w) == Finish(cfg, w.(op := Working(w.op.ws, EnsureService(w.api.pod.value))))
  {
    assert Finish(cfg, w) == Finish(cfg, PodStep(cfg, w, Ok));
  }

  predicate PodUpToDate(cfg: Config, api: Cluster) {
    && api.pod.Some? && !Outdated(cfg, api.pod.value) && Serving(api.pod.value)
    && api.pvc.Some? && api.pvc.value.phase != ClaimLost
  }

  /** With the pod serving, a Reconcile leads to the idle check's verdict. */
  lemma ReconcileServing(cfg: Config, w: World)
    requires Startable(w) && w.api.cr.value.finalizer && PodUpToDate(cfg, w.api)
    ensures var idle := IdleWindow(cfg, w);
            var ws := w.api.cr.value;
            var stamped := ws.(status := Stamped(ws.status, w.clock, idle));
            var v := w.(api := Guarded(cfg, w.api, ws.spec).(cr := Some(stamped), service := Some(Child(Ours, AsBuilt))));
            Reconciled(cfg, w) == Finish(cfg, v.(op := Working(stamped,
              if Fresh(ws.status.lastAccessed, w.clock, idle) then PodReport(w.api.pod.value, idle) else DeleteIdle)))
  {
    hide WantedDenyAll, WantedEgress, WantedIngress, Finish, Reconciled, Serving, PodReport, Fresh, WholeSeconds;
    var ws := w.api.cr.value;
    ReconcileGuards(cfg, w);
    var v := w.(api := Guarded(cfg, w.api, ws.spec), op := Working(ws, ReadPvc));
    FinishPvcCheck(cfg, v);
    FinishPodCheck(cfg, v.(op := Working(ws, ReadPod)));
    FinishIdleCheck(cfg, v.(op := Working(ws, EnsureService(w.api.pod.value))));
  }

  /** With a serving pod and an open window, a Reconcile reports Running and asks
      to be called again after a quarter of the window. */
  lemma ReconcileToRunning(cfg: Config, w: World)
    requires Startable(w) && w.api.cr.value.finalizer && PodUpToDate(cfg, w.api)
    requires Fresh(w.api.cr.value.status.lastAccessed, w.clock, IdleWindow(cfg, w))
    ensures var idle, ws := IdleWindow(cfg, w), w.api.cr.value;
            var status := Summarised(Stamped(ws.status, w.clock, idle), RUNNING_SUMMARY, ws.generation, w.clock);
            Reconciled(cfg, w) == w.(
              api := Guarded(cfg, w.api, ws.spec).(
                cr := Some(ws.(status := status)), service := Some(Child(Ours, AsBuilt))),
              op := Resting(Settled(RequeueAfter(idle))))
  {
    hide WantedDenyAll, WantedEgress, WantedIngress, Finish, Reconciled, Summarised, Fresh, WholeSeconds, IsPodReady;
    ReconcileServing(cfg, w);
    var idle, ws := IdleWindow(cfg, w), w.api.cr.value;
    var stamped := ws.(status := Stamped(ws.status, w.clock, idle));
    FinishReport(cfg, w.(
      api := Guarded(cfg, w.api, ws.spec).(cr := Some(stamped), service := Some(Child(Ours, AsBuilt))),
      op := Working(stamped, PodReport(w.api.pod.value, idle))));
  }

  /** With a serving pod and a passed window, a Reconcile deletes the pod and
      reports Stopped. */
  lemma ReconcileToStopped(cfg: Config, w: World)
    requires Startable(w) && w.api.cr.value.finalizer && PodUpToDate(cfg, w.api)
    requires !Fresh(w.api.cr.value.status.lastAccessed, w.clock, IdleWindow(cfg, w))
    ensures var idle, ws := IdleWindow(cfg, w), w.api.cr.value;
            var status := Summarised(Stamped(ws.status, w.clock, idle), STOPPED_SUMMARY, ws.generation, w.clock);
            Reconciled(cfg, w) == w.(
              api := Guarded(cfg, w.api, ws.spec).(
                cr := Some(ws.(status := status)), service := Some(Child(Ours, AsBuilt)),
                pod := Some(w.api.pod.value.(terminating := true))),
              op := Resting(Settled(None)))
  {
    hide WantedDenyAll, WantedEgress, WantedIngress, Reconciled, Summarised, Fresh, WholeSeconds, IsPodReady, PodReport;
    ReconcileServing(cfg, w);
    var idle, ws := IdleWindow(cfg, w), w.api.cr.value;
    var stamped := ws.(status := Stamped(ws.status, w.clock, idle));
    var v := w.(
      api := Guarded(cfg, w.api, ws.spec).(cr := Some(stamped), service := Some(Child(Ours, AsBuilt))),
      op := Working(stamped, DeleteIdle));
    assert Finish(cfg, v) == Finish(cfg, DeleteIdleStep(v, Ok));
    FinishReport(cfg, DeleteIdleStep(v, Ok));
  }
}
