/**
 The idle window in terms of the setting itself: "0" opts out for good, an empty
 setting follows the operator's default, anything else counts by itself.
 */
module LifecycleWindow {
  import opened Common
  import opened WorkspaceApi
  import opened Lifecycle
  import opened LifecycleStatus
  import opened LifecycleStops
  import opened LifecycleIdle
  import opened LifecycleStabilise

  /** Whether a ready workspace last used that long ago is to be stopped. */
  predicate ShouldStop(cfg: Config, setting: IdleSetting, unused: int) {
    match setting
    case Disabled => false
    case Lasting(d) => 0 < d < unused
    case Inherit => 0 < cfg.idleTimeout < unused
    case Malformed => 0 < cfg.idleTimeout < unused
  }

  lemma FreshMeaning(cfg: Config, spec: Spec, now: nat, t: nat)
    ensures Fresh(Some(t), now, EffectiveIdleTimeout(spec, cfg.idleTimeout)) <==> !ShouldStop(cfg, spec.idle, now - t)
  {
  }

  /** One undisturbed Reconcile over a serving pod with a known stamp stops it exactly
      when the setting says so, and reports Running otherwise. */
  lemma SettingDecides(cfg: Config, w: World, t: nat)
    requires Startable(w) && w.api.cr.value.finalizer && PodUpToDate(cfg, w.api)
    requires w.api.cr.value.status.lastAccessed == Some(t)
    ensures var stop := ShouldStop(cfg, w.api.cr.value.spec.idle, w.clock - t);
      && (PhaseIs(Reconciled(cfg, w), Stopped) <==> stop) && (PhaseIs(Reconciled(cfg, w), Running) <==> !stop)
      && Reconciled(cfg, w).api.pod == Some(if stop then w.api.pod.value.(terminating := true) else w.api.pod.value)
  {
    hide Reconciled, WantedDenyAll, WantedEgress, WantedIngress, Summarised, WholeSeconds, Serving, EffectiveIdleTimeout, ShouldStop;
    var ws := w.api.cr.value;
    var stamped := Stamped(ws.status, w.clock, IdleWindow(cfg, w));
    FreshMeaning(cfg, ws.spec, w.clock, t);
    if Fresh(Some(t), w.clock, IdleWindow(cfg, w)) {
      ReconcileToRunning(cfg, w);
      SummarisedFields(stamped, RUNNING_SUMMARY, ws.generation, w.clock);
    } else {
      ReconcileToStopped(cfg, w);
      SummarisedFields(stamped, STOPPED_SUMMARY, ws.generation, w.clock);
    }
  }

  /** The same from the service call on, whatever the spec: a setting that cannot be
      parsed falls back to the operator's default. */
  lemma SettingDecidesAtCheck(cfg: Config, w: World, t: nat)
    requires Undisturbed(w) && w.op.next.EnsureService? && Serving(w.op.next.pod) && Adoptable(w.api.service)
    requires w.op.ws.status.lastAccessed == Some(t)
    ensures var stop := ShouldStop(cfg, w.op.ws.spec.idle, w.clock - t);
      (PhaseIs(Finish(cfg, w), Stopped) <==> stop) && (PhaseIs(Finish(cfg, w), Running) <==> !stop)
  {
    hide Finish, Summarised, WholeSeconds, EffectiveIdleTimeout, ShouldStop, IsPodReady;
    var ws, idle := w.op.ws, EffectiveIdleTimeout(w.op.ws.spec, cfg.idleTimeout);
    FinishIdleCheck(cfg, w);
    FreshMeaning(cfg, ws.spec, w.clock, t);
    assert Stamped(ws.status, w.clock, idle) == ws.status;
    var v := w.(api := w.api.(cr := Some(ws), service := Some(Child(Ours, AsBuilt))));
    if Fresh(Some(t), w.clock, idle) {
      FinishReport(cfg, v.(op := Working(ws, PodReport(w.op.next.pod, idle))));
      SummarisedFields(ws.status, RUNNING_SUMMARY, ws.generation, w.clock);
    } else {
      var u := v.(op := Working(ws, DeleteIdle));
      FinishDeletion(cfg, u);
      FinishReport(cfg, DeleteIdleStep(u, Ok));
      SummarisedFields(ws.status, STOPPED_SUMMARY, ws.generation, w.clock);
    }
  }

  lemma FinishDeletion(cfg: Config, w: World)
    requires w.op.Working? && w.op.next.DeleteIdle?
    ensures Finish(cfg, w) == Finish(cfg, DeleteIdleStep(w, Ok))
  {
    hide DeleteIdleStep;
  }

  // ---------------------------------------------------------- opting out for good

  /** With this setting no lapse of time stops the workspace. */
  predicate NoWindow(cfg: Config, setting: IdleSetting) {
    match setting
    case Disabled => true
    case Lasting(d) => d <= 0
    case Inherit => cfg.idleTimeout <= 0
    case Malformed => true
  }

  predicate Unwatched(cfg: Config, w: World) {
    && (w.api.cr.Some? ==> NoWindow(cfg, w.api.cr.value.spec.idle))
    && (w.op.Working? ==>
        && NoWindow(cfg, w.op.ws.spec.idle)
        && (!w.op.next.Decide? && !w.op.next.Report? ==> w.op.ws.spec.idle != Malformed)
        && !w.op.next.JudgeIdle? && !w.op.next.SeedLastAccessed? && !StopPending(w))
  }

  lemma ServiceStaysUnwatched(cfg: Config, w: World, o: Outcome)
    requires Unwatched(cfg, w) && w.op.Working? && w.op.next.EnsureService?
    ensures Unwatched(cfg, OperatorStep(cfg, w, o))
  {
    hide DecideStep, AccessStep, PolicyStep, PvcStep, PodStep, ReportStep, SeedStep, WholeSeconds, IsPodReady, FirstStuck;
  }

  lemma DecideStaysUnwatched(cfg: Config, w: World, o: Outcome)
    requires Unwatched(cfg, w) && w.op.Working? && w.op.next.Decide?
    ensures Unwatched(cfg, OperatorStep(cfg, w, o))
  {
    hide AccessStep, PolicyStep, PvcStep, PodStep, ReportStep, SeedStep, ServiceStep;
  }

  lemma OperatorStaysUnwatched(cfg: Config, w: World, o: Outcome)
    requires Unwatched(cfg, w)
    ensures Unwatched(cfg, OperatorStep(cfg, w, o))
  {
    hide OperatorStep, NoWindow;
    if w.op.Working? && w.op.next.EnsureService? {
      ServiceStaysUnwatched(cfg, w, o);
    } else if w.op.Working? && w.op.next.Decide? {
      DecideStaysUnwatched(cfg, w, o);
    } else {
      EarlyCallsReportNothingRunning(cfg, w, o);
      EarlyCallsStopNothing(cfg, w, o);
      OperatorLeavesGateway(cfg, w, o);
      if w.op.Resting? {
        FetchedDecides(cfg, w, o);
      } else {
        CallsGoForward(cfg, w, o);
      }
    }
  }

  lemma FetchedDecides(cfg: Config, w: World, o: Outcome)
    requires w.op.Resting?
    ensures OperatorStep(cfg, w, o).op.Working? ==> OperatorStep(cfg, w, o).op.next == Decide
  {
  }

  lemma OutsideStaysUnwatched(cfg: Config, w: World, e: Event)
    requires Unwatched(cfg, w) && !e.Operate? && (e.EditSpec? ==> NoWindow(cfg, e.spec.idle))
    ensures Unwatched(cfg, Do(cfg, w, e))
  {
    hide Do, NoWindow;
    OutsideLeavesOperator(cfg, w, e);
    if Do(cfg, w, e).api.cr.Some? {
      OutsideAndSpec(cfg, w, e);
    }
  }

  /** Outside the operator only an edit changes the spec. */
  lemma OutsideAndSpec(cfg: Config, w: World, e: Event)
    requires !e.Operate? && Do(cfg, w, e).api.cr.Some?
    ensures w.api.cr.Some? && Do(cfg, w, e).api.cr.value.spec == if e.EditSpec? then e.spec else w.api.cr.value.spec
  {
    hide OperatorStep, ApplyPatch, Diff, WakeMessage, TouchMessage, Decode;
  }

  /** A workspace that is opted out is never stopped, in any run in which its setting
      stays so: not by any lapse of time, failure or interleaving. */
  lemma {:induction false} OptedOutIsNeverStopped(cfg: Config, w: World, es: seq<Event>)
    requires Initial(w) && !PhaseIs(w, Stopped)
    requires w.api.cr.Some? ==> NoWindow(cfg, w.api.cr.value.spec.idle)
    requires forall e :: e in es && e.EditSpec? ==> NoWindow(cfg, e.spec.idle)
    ensures Unwatched(cfg, Run(cfg, w, es)) && !PhaseIs(Run(cfg, w, es), Stopped)
  {
    hide OperatorStep, Deliver, Collected, NoWindow, ReadyAgrees, GatewayShaped, StatusInvariant;
    if es != [] {
      var n := |es| - 1;
      assert es[n] in es && forall e :: e in es[..n] ==> e in es;
      OptedOutIsNeverStopped(cfg, w, es[..n]);
      var before := Run(cfg, w, es[..n]);
      if es[n].Operate? {
        OperatorStaysUnwatched(cfg, before, es[n].outcome);
        if PhaseIs(Run(cfg, w, es), Stopped) {
          OnlyStopReportStops(cfg, before, es[n].outcome);
        }
      } else {
        OutsideStaysUnwatched(cfg, before, es[n]);
        PhaseAndReadyAgree(cfg, w, es[..n]);
        if PhaseIs(Run(cfg, w, es), Stopped) {
          OutsideAndPhase(cfg, before, es[n]);
        }
      }
    }
  }
}
