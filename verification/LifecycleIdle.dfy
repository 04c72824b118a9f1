/**
 Idle verdicts over whole runs. Once the idle window has passed, no Reconcile
 reports Running until lastAccessed is stamped again or the window changes.
 Waking a Stopped workspace does not stamp, so it does not help.
 */
module LifecycleIdle {
  import opened Common
  import opened WorkspaceApi
  import opened Lifecycle
  import opened LifecycleStatus
  import opened LifecycleStops

  /** The operator's view while the window `idle` after the stamp `t` has passed. */
  predicate OverdueInvariant(cfg: Config, w: World, t: nat, idle: int) {
    && w.clock - t > idle
    && (w.op.Working? ==>
        && w.op.ws.status.lastAccessed == Some(t)
        && EffectiveIdleTimeout(w.op.ws.spec, cfg.idleTimeout) == idle
        && !w.op.next.SeedLastAccessed?
        && (w.op.next.JudgeIdle? ==> w.op.next.idle == idle)
        && (w.op.next.Report? ==> w.op.next.sum.phase != Running))
  }

  /** The stored Workspace keeps this stamp and this window. */
  predicate StampStays(cfg: Config, w: World, t: nat, idle: int) {
    w.api.cr.Some? ==>
      && w.api.cr.value.status.lastAccessed == Some(t)
      && EffectiveIdleTimeout(w.api.cr.value.spec, cfg.idleTimeout) == idle
  }

  lemma OperatorStaysOverdue(cfg: Config, w: World, o: Outcome, t: nat, idle: int)
    requires OverdueInvariant(cfg, w, t, idle) && StampStays(cfg, w, t, idle) && idle > 0
    ensures OverdueInvariant(cfg, OperatorStep(cfg, w, o), t, idle)
  {
    if w.op.Working? && w.op.next.EnsureService? {
      hide DecideStep, AccessStep, PolicyStep, PvcStep, PodStep, ReportStep, SeedStep, WholeSeconds, IsPodReady, FirstStuck;
    } else if w.op.Working? && w.op.next.JudgeIdle? {
      hide DecideStep, AccessStep, PolicyStep, PvcStep, PodStep, ReportStep, SeedStep, ServiceStep;
    } else {
      EarlyCallsReportNothingRunning(cfg, w, o);
    }
  }

  /** The step neither judges nor reports Running next, and keeps clock and copy. */
  predicate NothingRunning(w: World, w': World) {
    && w'.clock == w.clock
    && (w'.op.Working? ==>
        && (w.op.Working? || w.api.cr.Some?)
        && !w'.op.next.JudgeIdle? && !w'.op.next.SeedLastAccessed?
        && (w'.op.next.Report? ==> w'.op.next.sum.phase != Running)
        && w'.op.ws == if w.op.Working? then w.op.ws else w.api.cr.value)
  }

  lemma GuardCallsReportNothingRunning(cfg: Config, w: World, o: Outcome)
    requires w.op.Working? ==>
      || w.op.next.Decide? || w.op.next.EnsureAccount? || w.op.next.EnsureRole? || w.op.next.EnsureBinding?
      || w.op.next.EnsureDenyAll? || w.op.next.EnsureEgress? || w.op.next.EnsureIngress?
    ensures NothingRunning(w, OperatorStep(cfg, w, o))
  {
    hide WantedDenyAll, WantedEgress, WantedIngress, PvcStep, PodStep, ServiceStep, SeedStep, ReportStep;
  }

  lemma ChildCallsReportNothingRunning(cfg: Config, w: World, o: Outcome)
    requires w.op.Working?
    requires
      || w.op.next.ReadPvc? || w.op.next.CreatePvc? || w.op.next.ReadPod? || w.op.next.CreatePod?
      || w.op.next.DeleteOutdated? || w.op.next.DeleteIdle? || w.op.next.Report?
    ensures NothingRunning(w, OperatorStep(cfg, w, o))
  {
    hide ApplyPatch, Diff, Summarised, DecideStep, AccessStep, PolicyStep, ServiceStep, SeedStep;
  }

  lemma EarlyCallsReportNothingRunning(cfg: Config, w: World, o: Outcome)
    requires w.op.Resting? || !(w.op.next.EnsureService? || w.op.next.SeedLastAccessed? || w.op.next.JudgeIdle?)
    ensures NothingRunning(w, OperatorStep(cfg, w, o))
  {
    hide NothingRunning, OperatorStep;
    if w.op.Resting? || w.op.next.Decide? || w.op.next.EnsureAccount? || w.op.next.EnsureRole? || w.op.next.EnsureBinding?
       || w.op.next.EnsureDenyAll? || w.op.next.EnsureEgress? || w.op.next.EnsureIngress? {
      GuardCallsReportNothingRunning(cfg, w, o);
    } else {
      ChildCallsReportNothingRunning(cfg, w, o);
    }
  }

  lemma {:induction false} OverdueThroughout(cfg: Config, w: World, es: seq<Event>, t: nat, idle: int)
    requires OverdueInvariant(cfg, w, t, idle) && idle > 0
    requires forall k :: 0 <= k <= |es| ==> StampStays(cfg, Run(cfg, w, es[..k]), t, idle)
    ensures OverdueInvariant(cfg, Run(cfg, w, es), t, idle)
  {
    hide StampStays, OperatorStep, Deliver, Collected;
    if es != [] {
      var init, e := es[..|es| - 1], es[|es| - 1];
      forall k | 0 <= k <= |init| ensures StampStays(cfg, Run(cfg, w, init[..k]), t, idle) {
        assert init[..k] == es[..k];
      }
      OverdueThroughout(cfg, w, init, t, idle);
      var before := Run(cfg, w, init);
      assert StampStays(cfg, before, t, idle) by { assert init[..|init|] == init; }
      if e.Operate? {
        OperatorStaysOverdue(cfg, before, e.outcome, t, idle);
      } else {
        OutsideLeavesOperator(cfg, before, e);
        OverdueDependsOn(cfg, before, Do(cfg, before, e), t, idle);
      }
    }
  }

  lemma RunningNeedsReport(cfg: Config, w: World, o: Outcome)
    requires !PhaseIs(w, Running) && PhaseIs(OperatorStep(cfg, w, o), Running)
    ensures w.op.Working? && w.op.next.Report? && w.op.next.sum.phase == Running
  {
    if w.op.Working? && !WritesWorkspace(w.op.next) {
      OtherCallsAreQuiet(cfg, w, o);
    }
  }

  /** Once a positive idle window has passed, no step makes the phase Running, in
      any run in which the stamp and the window stay: not across gateway
      wake-ups, pod recreation or failing calls, and whatever pod there is. A
      Reconcile may be running when the window passes, if it has read this stamp and
      this window; only one that is already about to report Running still does. */
  lemma IdleVerdictsAreStable(cfg: Config, w: World, es: seq<Event>, e: Event, t: nat, idle: int)
    requires StatusInvariant(w) && OverdueInvariant(cfg, w, t, idle) && idle > 0
    requires forall k :: 0 <= k <= |es| ==> StampStays(cfg, Run(cfg, w, es[..k]), t, idle)
    requires !PhaseIs(Run(cfg, w, es), Running)
    ensures !PhaseIs(Do(cfg, Run(cfg, w, es), e), Running)
  {
    hide StampStays, OperatorStep, Deliver, Collected, ReadyAgrees;
    OverdueThroughout(cfg, w, es, t, idle);
    StatusThroughout(cfg, w, es);
    var before := Run(cfg, w, es);
    if PhaseIs(Do(cfg, before, e), Running) {
      if e.Operate? {
        RunningNeedsReport(cfg, before, e.outcome);
      } else {
        OutsideAndPhase(cfg, before, e);
      }
      assert false;
    }
  }

  // ------------------------------------------------------ waking in vain

  /** No handler holds a session and no stamp is on its way. */
  predicate NoSessions(w: World) {
    && w.sessions == {}
    && (forall s :: s in w.copies ==> s.phase != Running)
    && (forall m :: m in w.inflight ==> GatewayShaped(m) && !m.touch)
  }

  predicate Dormant(cfg: Config, w: World, t: nat, idle: int) {
    && OverdueInvariant(cfg, w, t, idle)
    && StampStays(cfg, w, t, idle)
    && !PhaseIs(w, Running)
    && NoSessions(w)
  }

  lemma OperatorStaysDormant(cfg: Config, w: World, o: Outcome, t: nat, idle: int)
    requires Dormant(cfg, w, t, idle) && idle > 0
    ensures Dormant(cfg, OperatorStep(cfg, w, o), t, idle)
  {
    hide GatewayShaped, DecideStep, AccessStep, PolicyStep, PvcStep, PodStep, ReportStep, SeedStep, ServiceStep;
    var w' := OperatorStep(cfg, w, o);
    OperatorStaysOverdue(cfg, w, o, t, idle);
    OperatorLeavesGateway(cfg, w, o);
    if PhaseIs(w', Running) {
      RunningNeedsReport(cfg, w, o);
    }
    if w'.api.cr.Some? {
      OperatorStepKeepsLastAccessed(cfg, w, o);
    }
  }

  lemma OperatorLeavesGateway(cfg: Config, w: World, o: Outcome)
    ensures var w' := OperatorStep(cfg, w, o);
            && w'.copies == w.copies && w'.sessions == w.sessions && w'.inflight == w.inflight
            && (w'.api.cr.Some? ==> w.api.cr.Some? && w'.api.cr.value.spec == w.api.cr.value.spec)
  {
    if w.op.Working? && !WritesWorkspace(w.op.next) {
      OtherCallsAreQuiet(cfg, w, o);
    }
  }

  lemma DeliverStaysDormant(cfg: Config, w: World, m: Message, t: nat, idle: int)
    requires Dormant(cfg, w, t, idle)
    ensures Dormant(cfg, Deliver(w, m), t, idle)
  {
    hide OverdueInvariant;
    OverdueDependsOn(cfg, w, Deliver(w, m), t, idle);
  }

  lemma ReadStaysDormant(cfg: Config, w: World, e: Event, t: nat, idle: int)
    requires Dormant(cfg, w, t, idle)
    requires e.GatewayRead? || e.GatewayOpen? || e.GatewayTouch? || e.GatewayClose? || e.GatewayForget?
    ensures Dormant(cfg, Do(cfg, w, e), t, idle)
  {
    hide OverdueInvariant, OperatorStep, Collected, Deliver, TouchMessage, GatewayShaped, EffectiveIdleTimeout;
    OverdueDependsOn(cfg, w, Do(cfg, w, e), t, idle);
  }

  lemma SendStaysDormant(cfg: Config, w: World, e: Event, t: nat, idle: int)
    requires Dormant(cfg, w, t, idle)
    requires e.GatewayWake? || e.GatewayLose?
    ensures Dormant(cfg, Do(cfg, w, e), t, idle)
  {
    hide OverdueInvariant, OperatorStep, Collected, Deliver, WakeMessage, GatewayShaped, EffectiveIdleTimeout;
    OverdueDependsOn(cfg, w, Do(cfg, w, e), t, idle);
    if e.GatewayWake? {
      WakeIsShaped(e.copy);
    }
  }

  lemma OverdueDependsOn(cfg: Config, w: World, w': World, t: nat, idle: int)
    requires OverdueInvariant(cfg, w, t, idle) && w'.op == w.op && w'.clock >= w.clock
    ensures OverdueInvariant(cfg, w', t, idle)
  {
  }

  /** No one edits the window during the run. */
  predicate KeepsWindow(cfg: Config, es: seq<Event>, idle: int) {
    forall e :: e in es && e.EditSpec? ==> EffectiveIdleTimeout(e.spec, cfg.idleTimeout) == idle
  }

  lemma StepStaysDormant(cfg: Config, w: World, e: Event, t: nat, idle: int)
    requires Dormant(cfg, w, t, idle) && idle > 0
    requires e.EditSpec? ==> EffectiveIdleTimeout(e.spec, cfg.idleTimeout) == idle
    ensures Dormant(cfg, Do(cfg, w, e), t, idle)
  {
    hide OperatorStep, Deliver, Collected, GatewayShaped;
    match e
    case Operate(o) => OperatorStaysDormant(cfg, w, o, t, idle);
    case GatewayRead => ReadStaysDormant(cfg, w, e, t, idle);
    case GatewayClose(_) => ReadStaysDormant(cfg, w, e, t, idle);
    case GatewayForget(_) => ReadStaysDormant(cfg, w, e, t, idle);
    case GatewayWake(_) => SendStaysDormant(cfg, w, e, t, idle);
    case GatewayOpen(_) => ReadStaysDormant(cfg, w, e, t, idle);
    case GatewayTouch(_) => ReadStaysDormant(cfg, w, e, t, idle);
    case GatewayDeliver(m) => DeliverStaysDormant(cfg, w, m, t, idle);
    case GatewayLose(_) => SendStaysDormant(cfg, w, e, t, idle);
    case Collect(target) => CollectLeavesWorkspace(w.api, target);
    case _ =>
  }

  lemma CollectLeavesWorkspace(api: Cluster, t: Target)
    ensures Collected(api, t).cr == api.cr
  {
  }

  /** The wake path cannot restart an idle-stopped workspace: with no session
      open, the phase never becomes Running again, whatever the gateway, the
      kubelet and the operator do, unless the idle window is edited. */
  lemma {:induction false} WakingIsInVain(cfg: Config, w: World, es: seq<Event>, t: nat, idle: int)
    requires Dormant(cfg, w, t, idle) && idle > 0 && KeepsWindow(cfg, es, idle)
    ensures Dormant(cfg, Run(cfg, w, es), t, idle)
    ensures !PhaseIs(Run(cfg, w, es), Running)
  {
    hide Do, OverdueInvariant, StampStays, NoSessions, EffectiveIdleTimeout;
    if es != [] {
      var n := |es| - 1;
      assert es[n] in es && forall e :: e in es[..n] ==> e in es;
      WakingIsInVain(cfg, w, es[..n], t, idle);
      StepStaysDormant(cfg, Run(cfg, w, es[..n]), es[n], t, idle);
    }
  }
}
