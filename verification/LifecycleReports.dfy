/**
 What Reconcile reports about a pod, and that it never leaves a workspace in
 progress without asking to be called again.
 */
module LifecycleReports {
  import opened Common
  import opened WorkspaceApi
  import opened Lifecycle
  import opened LifecycleStatus
  import LifecycleStops
  import opened LifecycleStabilise

  // ------------------------------------------------------ reading a pod's status

  /** isPodReady: the first Ready condition exists and is True. */
  lemma {:induction false} IsPodReadyMeaning(cs: seq<PodCondition>)
    ensures IsPodReady(cs) <==>
      exists i :: 0 <= i < |cs| && cs[i] == PodCondition(true, True) && forall j :: 0 <= j < i ==> !cs[j].aboutReady
  {
    if cs != [] && !cs[0].aboutReady {
      IsPodReadyMeaning(cs[1..]);
      if IsPodReady(cs[1..]) {
        var i :| 0 <= i < |cs[1..]| && cs[1..][i] == PodCondition(true, True) && forall j :: 0 <= j < i ==> !cs[1..][j].aboutReady;
        forall j | 0 <= j < i + 1 ensures !cs[j].aboutReady {
          if j > 0 { assert cs[j] == cs[1..][j - 1]; }
        }
        assert cs[i + 1] == PodCondition(true, True);
      }
    }
  }

  /** A reason is found exactly when some container waits for a failure reason, and it is
      the first such container's. */
  lemma {:induction false} FirstStuckMeaning(cs: seq<ContainerState>)
    ensures FirstStuck(cs).Some? <==> exists c :: c in cs && c.Waiting? && c.stuck
    ensures FirstStuck(cs).Some? ==>
      exists i :: 0 <= i < |cs| && cs[i] == Waiting(true, FirstStuck(cs).value)
                  && forall j :: 0 <= j < i ==> !(cs[j].Waiting? && cs[j].stuck)
  {
    if cs != [] {
      FirstStuckMeaning(cs[1..]);
      assert forall c :: c in cs <==> c == cs[0] || c in cs[1..];
      if !(cs[0].Waiting? && cs[0].stuck) && FirstStuck(cs).Some? {
        var rest := cs[1..];
        var i :| 0 <= i < |rest| && rest[i] == Waiting(true, FirstStuck(rest).value)
                 && forall j :: 0 <= j < i ==> !(rest[j].Waiting? && rest[j].stuck);
        forall j | 0 <= j < i + 1 ensures !(cs[j].Waiting? && cs[j].stuck) {
          if j > 0 { assert cs[j] == rest[j - 1]; }
        }
        assert cs[i + 1] == Waiting(true, FirstStuck(cs).value);
      }
    }
  }

  ghost predicate Broken(p: Pod) {
    p.status.phase in {PodFailed, PodLost} || exists c :: c in p.status.containers && c.Waiting? && c.stuck
  }

  /** The report in terms of the pod: Running for a running and ready pod, Failed for
      any other broken pod, Creating for the rest; and only Failed, or Running without
      a window to watch, asks for no further call. */
  lemma PodReportMeaning(p: Pod, idle: int)
    ensures var r := PodReport(p, idle);
      && r.sum.phase == (if Serving(p) then Running else if Broken(p) then WorkspaceApi.Failed else Creating)
      && r.sum.podName == PodRef
      && (r.sum.endpoint == EndpointRef <==> r.sum.phase != WorkspaceApi.Failed)
      && r.result.Settled?
      && (r.result.requeue.None? <==> r.sum.phase == WorkspaceApi.Failed || (r.sum.phase == Running && idle < 4))
      && (r.result.requeue.Some? ==> r.result.requeue.value == if r.sum.phase == Running then idle / 4 else 5 * SECOND)
      && (r.sum.phase == Running ==> SummaryMessage(r.sum) == r.sum.hint == NoText && r.sum.reason == BecauseRunning)
      && (r.sum.phase == Creating ==> SummaryMessage(r.sum).Note? && r.sum.hint == NoText && r.sum.reason == Progressing)
      && (r.sum.phase == WorkspaceApi.Failed ==>
          var about := if p.status.phase == PodFailed then PodFailure else if p.status.phase == PodLost then PodUnknown else PodStuck;
          SummaryMessage(r.sum).Note? && SummaryMessage(r.sum).about == about && r.sum.hint == SummaryMessage(r.sum)
          && r.sum.reason == Because(about, SummaryMessage(r.sum).detail))
  {
    hide Serving;
    FirstStuckMeaning(p.status.containers);
  }

  /** An undisturbed Reconcile over a pod that does not serve yet: everything else is
      put in place, and the stored status is the one the pod calls for. */
  lemma ReconcileReports(cfg: Config, w: World)
    requires Startable(w) && w.api.cr.value.finalizer
    requires w.api.pvc.Some? && w.api.pod.Some? && !Outdated(cfg, w.api.pod.value) && !Serving(w.api.pod.value)
    ensures var ws, report := w.api.cr.value, PodReport(w.api.pod.value, IdleWindow(cfg, w));
      Reconciled(cfg, w) == w.(
        api := Guarded(cfg, w.api, ws.spec).(
          cr := Some(ws.(status := Summarised(ws.status, report.sum, ws.generation, w.clock))),
          service := Some(Child(Ours, AsBuilt))),
        op := Resting(report.result))
  {
    hide WantedDenyAll, WantedEgress, WantedIngress, Finish, Reconciled, Serving, PodReport, Summarised, WholeSeconds;
    var ws := w.api.cr.value;
    ReconcileGuards(cfg, w);
    var v := w.(api := Guarded(cfg, w.api, ws.spec), op := Working(ws, ReadPvc));
    FinishPvcCheck(cfg, v);
    FinishPodCheck(cfg, v.(op := Working(ws, ReadPod)));
    var u := v.(op := Working(ws, EnsureService(w.api.pod.value)));
    FinishService(cfg, u);
    FinishReport(cfg, ServiceStep(cfg, u, Ok));
  }

  // -------------------------------------------- nothing in progress is forgotten

  /** A report that asks for no further call is not about a workspace in progress. */
  predicate FinalReport(c: Call) {
    c.Report? && c.result == Settled(None) ==> c.sum.phase in {Running, WorkspaceApi.Failed, Stopped}
  }

  predicate ReportInvariant(w: World) {
    w.op.Working? ==> FinalReport(w.op.next)
  }

  lemma GuardCallsReportFinally(cfg: Config, w: World, o: Outcome)
    requires w.op.Working? ==> Remaining(w.op.next) >= 8
    ensures ReportInvariant(OperatorStep(cfg, w, o))
  {
    hide WantedDenyAll, WantedEgress, WantedIngress, PvcStep, PodStep, ServiceStep, SeedStep, ReportStep;
  }

  lemma LaterCallsReportFinally(cfg: Config, w: World, o: Outcome)
    requires w.op.Working? && Remaining(w.op.next) < 8
    ensures ReportInvariant(OperatorStep(cfg, w, o))
  {
    hide IsPodReady, FirstStuck, ApplyPatch, Diff, Summarised, Decode, WholeSeconds, AccessStep, PolicyStep, DecideStep;
  }

  lemma {:induction false} ReportsAreFinal(cfg: Config, w: World, es: seq<Event>)
    requires w.op.Resting?
    ensures ReportInvariant(Run(cfg, w, es))
  {
    hide OperatorStep, Deliver, Collected;
    if es != [] {
      var n := |es| - 1;
      ReportsAreFinal(cfg, w, es[..n]);
      var before := Run(cfg, w, es[..n]);
      if es[n].Operate? {
        if before.op.Working? && Remaining(before.op.next) < 8 {
          LaterCallsReportFinally(cfg, before, es[n].outcome);
        } else {
          GuardCallsReportFinally(cfg, before, es[n].outcome);
        }
      } else {
        LifecycleStops.OutsideLeavesOperator(cfg, before, es[n]);
      }
    }
  }

  /** What a patch leaves in the phase, against a copy that is in step. */
  lemma ReportedPhase(stored: Status, held: Status, sum: Summary, generation: nat, now: nat)
    requires InStep(stored, held)
    ensures ApplyPatch(stored, Diff(held, Summarised(held, sum, generation, now))).phase in {sum.phase, NoPhase}
  {
  }

  lemma SettlesOnFinalPhase(cfg: Config, w: World, o: Outcome)
    requires StatusInvariant(w) && ReportInvariant(w)
    requires OperatorStep(cfg, w, o).op == Resting(Settled(None)) && OperatorStep(cfg, w, o).api.cr.Some?
    ensures OperatorStep(cfg, w, o).api.cr.value.status.phase in {Running, WorkspaceApi.Failed, Stopped, NoPhase}
  {
    hide ReadyAgrees, GatewayShaped, AccessStep, PolicyStep, Summarised, ApplyPatch, Diff, IsPodReady, FirstStuck, Decode;
    if w.op.Working? && w.op.next.Report? {
      ReportedPhase(w.api.cr.value.status, w.op.ws.status, w.op.next.sum, w.op.ws.generation, w.clock);
    } else if w.op.Working? && !w.op.next.Decide? {
      OnlyReportsSettle(cfg, w, o);
    }
  }

  lemma OnlyReportsSettle(cfg: Config, w: World, o: Outcome)
    requires w.op.Working? && !w.op.next.Decide? && !w.op.next.Report?
    ensures OperatorStep(cfg, w, o).op != Resting(Settled(None))
  {
    hide WantedDenyAll, WantedEgress, WantedIngress, ApplyPatch, Diff, Decode, WholeSeconds, IsPodReady, FirstStuck, DecideStep, ReportStep;
  }

  /** In every run, a Reconcile that ends without an error and asks for no further
      call leaves the Workspace Running, Failed, Stopped or just cleared by the
      gateway: a workspace in progress is never left without a next Reconcile. */
  lemma ProgressIsNeverForgotten(cfg: Config, w: World, es: seq<Event>, o: Outcome)
    requires Initial(w)
    requires var w' := OperatorStep(cfg, Run(cfg, w, es), o); w'.op == Resting(Settled(None)) && w'.api.cr.Some?
    ensures OperatorStep(cfg, Run(cfg, w, es), o).api.cr.value.status.phase in {Running, WorkspaceApi.Failed, Stopped, NoPhase}
  {
    hide Run, OperatorStep;
    PhaseAndReadyAgree(cfg, w, es);
    ReportsAreFinal(cfg, w, es);
    SettlesOnFinalPhase(cfg, Run(cfg, w, es), o);
  }
}
