/**
 Stop and wake safety: who may stop a workspace, who may wake it, and what
 happens to its volume meanwhile.
 */
module LifecycleStops {
  import opened Common
  import opened WorkspaceApi
  import opened Lifecycle
  import opened LifecycleStatus

  // ------------------------------------------------------ entering Stopped

  /** The operator is about to judge a ready pod whose idle window has passed. */
  predicate IdleVerdict(w: World) {
    && w.op.Working? && w.op.next.JudgeIdle?
    && Serving(w.op.next.pod) && w.op.next.idle > 0
    && w.op.ws.status.lastAccessed.Some?
    && w.clock - w.op.ws.status.lastAccessed.value > w.op.next.idle
  }

  /** The operator has been in one Reconcile from the k-th event to the last. */
  predicate BusySince(cfg: Config, w: World, es: seq<Event>, k: nat) {
    forall j :: k <= j <= |es| ==> Run(cfg, w, es[..j]).op.Working?
  }

  /** The Reconcile that is still running has reached an idle verdict. */
  ghost predicate VerdictReached(cfg: Config, w: World, es: seq<Event>) {
    exists k: nat :: k <= |es| && IdleVerdict(Run(cfg, w, es[..k])) && BusySince(cfg, w, es, k)
  }

  predicate StopPending(w: World) {
    w.op.Working? && (w.op.next.DeleteIdle? || (w.op.next.Report? && w.op.next.sum.phase == Stopped))
  }

  /** A pending judgement is always about a ready pod, a positive window and a known stamp. */
  predicate JudgementInvariant(w: World) {
    && (w.op.Working? && w.op.next.JudgeIdle? ==>
        Serving(w.op.next.pod) && w.op.next.idle > 0 && w.op.ws.status.lastAccessed.Some?)
    && (w.op.Working? && w.op.next.SeedLastAccessed? ==> Serving(w.op.next.pod) && w.op.next.idle > 0)
  }

  lemma EarlyCallsStopNothing(cfg: Config, w: World, o: Outcome)
    requires w.op.Resting? || !(w.op.next.EnsureService? || w.op.next.SeedLastAccessed? || w.op.next.JudgeIdle?
                                || w.op.next.DeleteIdle?)
    ensures var w' := OperatorStep(cfg, w, o);
            w'.op.Working? ==>
              && !w'.op.next.JudgeIdle? && !w'.op.next.SeedLastAccessed? && !StopPending(w')
  {
    hide WantedDenyAll, WantedEgress, WantedIngress, ApplyPatch, Diff, Summarised;
  }

  lemma OperatorStopsOnVerdict(cfg: Config, w: World, o: Outcome)
    requires JudgementInvariant(w) && SeedInvariant(w)
    ensures JudgementInvariant(OperatorStep(cfg, w, o))
    ensures StopPending(OperatorStep(cfg, w, o)) ==> StopPending(w) || IdleVerdict(w)
  {
    hide IsPodReady, FirstStuck, DecideStep, AccessStep, PolicyStep, PvcStep, PodStep, ReportStep, WholeSeconds;
    if w.op.Resting? || !(w.op.next.EnsureService? || w.op.next.SeedLastAccessed? || w.op.next.JudgeIdle?
                          || w.op.next.DeleteIdle?) {
      EarlyCallsStopNothing(cfg, w, o);
    }
  }

  lemma StepStopsOnVerdict(cfg: Config, w: World, e: Event)
    requires JudgementInvariant(w) && SeedInvariant(w)
    ensures JudgementInvariant(Do(cfg, w, e))
    ensures StopPending(Do(cfg, w, e)) ==> StopPending(w) || IdleVerdict(w)
  {
    hide OperatorStep, Serving, Deliver, Collected;
    if e.Operate? {
      OperatorStopsOnVerdict(cfg, w, e.outcome);
    } else {
      OutsideLeavesOperator(cfg, w, e);
    }
  }

  lemma OutsideLeavesOperator(cfg: Config, w: World, e: Event)
    requires !e.Operate?
    ensures Do(cfg, w, e).op == w.op && Do(cfg, w, e).clock >= w.clock
  {
    hide ApplyPatch, Diff, Decode, WakeMessage, TouchMessage;
  }

  /** Outside the operator only a delivered clear can change the phase. */
  lemma OutsideAndPhase(cfg: Config, w: World, e: Event)
    requires StatusInvariant(w) && !e.Operate?
    requires w.api.cr.Some? || Do(cfg, w, e).api.cr.Some?
    ensures w.api.cr.Some?
    ensures Do(cfg, w, e).api.cr.Some? ==>
      var before, after := w.api.cr.value.status.phase, Do(cfg, w, e).api.cr.value.status.phase;
      after == before
      || (after == NoPhase && e.GatewayDeliver? && !e.m.touch && e.m.patch.phase == Some(NoPhase))
  {
    hide ReadyAgrees, InStep;
  }

  lemma BusyOn(cfg: Config, w: World, es: seq<Event>, k: nat)
    requires es != [] && BusySince(cfg, w, es[..|es| - 1], k) && Run(cfg, w, es).op.Working?
    ensures BusySince(cfg, w, es, k)
  {
    hide Do, Run;
    var init := es[..|es| - 1];
    forall j | k <= j <= |es| ensures Run(cfg, w, es[..j]).op.Working? {
      if j == |es| {
        assert es[..j] == es;
      } else {
        assert init[..j] == es[..j];
      }
    }
  }

  lemma VerdictNow(cfg: Config, w: World, es: seq<Event>)
    requires IdleVerdict(Run(cfg, w, es))
    ensures VerdictReached(cfg, w, es)
  {
    hide Do, Run, Serving;
    assert es[..|es|] == es;
    assert BusySince(cfg, w, es, |es|);
  }

  lemma VerdictStays(cfg: Config, w: World, es: seq<Event>)
    requires es != [] && Run(cfg, w, es).op.Working? && VerdictReached(cfg, w, es[..|es| - 1])
    ensures VerdictReached(cfg, w, es)
  {
    hide Do, Run, IdleVerdict, BusySince;
    var init := es[..|es| - 1];
    var k: nat :| k <= |init| && IdleVerdict(Run(cfg, w, init[..k])) && BusySince(cfg, w, init, k);
    assert init[..k] == es[..k];
    BusyOn(cfg, w, es, k);
  }

  lemma {:induction false} StopsNeedVerdict(cfg: Config, w: World, es: seq<Event>)
    requires w.op.Resting?
    ensures JudgementInvariant(Run(cfg, w, es))
    ensures StopPending(Run(cfg, w, es)) ==> VerdictReached(cfg, w, es)
  {
    hide Do, IdleVerdict, VerdictReached;
    if es != [] {
      var init := es[..|es| - 1];
      StopsNeedVerdict(cfg, w, init);
      SeedsOnlyWhenMissing(cfg, w, init);
      StepStopsOnVerdict(cfg, Run(cfg, w, init), es[|es| - 1]);
      if StopPending(Run(cfg, w, es)) {
        if IdleVerdict(Run(cfg, w, init)) {
          VerdictNow(cfg, w, init);
        }
        VerdictStays(cfg, w, es);
      }
    }
  }

  predicate PhaseIs(w: World, p: Phase) {
    w.api.cr.Some? && w.api.cr.value.status.phase == p
  }

  lemma OnlyStopReportStops(cfg: Config, w: World, o: Outcome)
    requires !PhaseIs(w, Stopped) && PhaseIs(OperatorStep(cfg, w, o), Stopped)
    ensures StopPending(w)
  {
    if w.op.Working? && !WritesWorkspace(w.op.next) {
      OtherCallsAreQuiet(cfg, w, o);
    }
  }

  /** Stopped is entered only by the operator, each time by a Reconcile that has itself
      judged a ready pod whose idle window had passed. */
  lemma StoppedOnlyAfterVerdict(cfg: Config, w: World, es: seq<Event>, e: Event)
    requires Initial(w)
    requires !PhaseIs(Run(cfg, w, es), Stopped) && PhaseIs(Do(cfg, Run(cfg, w, es), e), Stopped)
    ensures e.Operate? && VerdictReached(cfg, w, es)
  {
    hide OperatorStep, VerdictReached, IdleVerdict, JudgementInvariant, Deliver, Collected, ReadyAgrees;
    var before := Run(cfg, w, es);
    PhaseAndReadyAgree(cfg, w, es);
    StopsNeedVerdict(cfg, w, es);
    if e.Operate? {
      OnlyStopReportStops(cfg, before, e.outcome);
    } else {
      OutsideAndPhase(cfg, before, e);
    }
  }

  // ------------------------------------------------------- leaving Stopped

  predicate ReportsInvalidSpec(c: Call) {
    c == Report(Failure(Validation, 0), Settled(None))
  }

  /** A Reconcile that goes past the Stopped check never runs over a Stopped status. */
  predicate AwakeInvariant(w: World) {
    w.api.cr.Some? && w.op.Working? && w.op.next != Decide && !ReportsInvalidSpec(w.op.next) ==>
      w.api.cr.value.status.phase != Stopped
  }

  lemma DecideKeepsAwake(w: World, o: Outcome)
    requires StatusInvariant(w) && w.op.Working? && w.op.next.Decide?
    ensures AwakeInvariant(DecideStep(w, o))
  {
  }

  lemma OperatorKeepsAwake(cfg: Config, w: World, o: Outcome)
    requires StatusInvariant(w) && AwakeInvariant(w)
    ensures AwakeInvariant(OperatorStep(cfg, w, o))
  {
    hide ReadyAgrees, GatewayShaped;
    if w.op.Working? && w.op.next.Decide? {
      DecideKeepsAwake(w, o);
    } else if w.op.Working? && !WritesWorkspace(w.op.next) {
      OtherCallsAreQuiet(cfg, w, o);
    }
  }

  lemma {:induction false} AwakeThroughout(cfg: Config, w: World, es: seq<Event>)
    requires Initial(w)
    ensures AwakeInvariant(Run(cfg, w, es))
  {
    hide OperatorStep, ReadyAgrees, ReportsInvalidSpec, Deliver, Collected, StatusInvariant;
    if es != [] {
      var init, e := es[..|es| - 1], es[|es| - 1];
      AwakeThroughout(cfg, w, init);
      PhaseAndReadyAgree(cfg, w, init);
      if e.Operate? {
        OperatorKeepsAwake(cfg, Run(cfg, w, init), e.outcome);
      } else {
        OutsideLeavesOperator(cfg, Run(cfg, w, init), e);
        if Run(cfg, w, es).api.cr.Some? {
          OutsideAndPhase(cfg, Run(cfg, w, init), e);
        }
      }
    }
  }

  lemma OperatorLeavesStopped(cfg: Config, w: World, o: Outcome)
    requires AwakeInvariant(w) && PhaseIs(w, Stopped)
    ensures var w' := OperatorStep(cfg, w, o);
            PhaseIs(w', Stopped) || w'.api.cr.None? || (w.op.Working? && ReportsInvalidSpec(w.op.next))
  {
    if w.op.Working? && !WritesWorkspace(w.op.next) {
      OtherCallsAreQuiet(cfg, w, o);
    }
  }

  /** Stopped is left only by a gateway clear, by the report of an invalid spec,
      or by the removal of the Workspace. */
  lemma StoppedLeftOnlyByWake(cfg: Config, w: World, es: seq<Event>, e: Event)
    requires Initial(w)
    requires PhaseIs(Run(cfg, w, es), Stopped) && !PhaseIs(Do(cfg, Run(cfg, w, es), e), Stopped)
    ensures var before := Run(cfg, w, es);
            || (e.GatewayDeliver? && !e.m.touch && e.m.patch.phase == Some(NoPhase))
            || (e.Operate? && before.op.Working? && ReportsInvalidSpec(before.op.next))
            || Do(cfg, before, e).api.cr.None?
  {
    hide OperatorStep, ReadyAgrees, Deliver, Collected, ReportsInvalidSpec;
    var before := Run(cfg, w, es);
    PhaseAndReadyAgree(cfg, w, es);
    AwakeThroughout(cfg, w, es);
    if e.Operate? {
      OperatorLeavesStopped(cfg, before, e.outcome);
    } else {
      OutsideAndPhase(cfg, before, e);
    }
  }

  // ------------------------------------------------------------ the volume

  /** No operator or gateway step deletes or rewrites an existing volume claim. */
  lemma StepKeepsPvc(cfg: Config, w: World, e: Event)
    requires w.api.pvc.Some?
    ensures !e.Collect? && !e.VolumeReports? ==> Do(cfg, w, e).api.pvc == w.api.pvc
    ensures e != Collect(ThePvc) ==>
      var pvc := Do(cfg, w, e).api.pvc;
      pvc.Some? && pvc.value.owner == w.api.pvc.value.owner && pvc.value.storage == w.api.pvc.value.storage
  {
    hide WantedDenyAll, WantedEgress, WantedIngress, IsPodReady, FirstStuck, Summarised, ApplyPatch, Diff, Decode;
  }

  /** A Workspace that is gone stays gone. */
  lemma GoneStaysGone(cfg: Config, w: World, e: Event)
    requires w.api.cr.None?
    ensures Do(cfg, w, e).api.cr.None?
  {
    hide WantedDenyAll, WantedEgress, WantedIngress, IsPodReady, FirstStuck, Summarised, ApplyPatch, Diff, Decode;
  }

  /** While the Workspace lives, the collector cannot take a claim of its own. */
  lemma CollectorSparesClaim(api: Cluster, t: Target)
    requires api.cr.Some? && api.pvc.Some? && api.pvc.value.owner != Other
    ensures Collected(api, t).pvc == api.pvc
  {
  }

  /** Across any number of stop and wake cycles, failures, edits and visits of the
      garbage collector, the volume claim stays for as long as the Workspace does,
      with its owner and size, unless it belongs to another owner. */
  lemma {:induction false} VolumeSurvives(cfg: Config, w: World, es: seq<Event>)
    requires w.api.pvc.Some? && w.api.pvc.value.owner != Other
    requires Run(cfg, w, es).api.cr.Some?
    ensures var pvc := Run(cfg, w, es).api.pvc;
            pvc.Some? && pvc.value.owner == w.api.pvc.value.owner && pvc.value.storage == w.api.pvc.value.storage
  {
    hide OperatorStep, Deliver, Collected;
    if es != [] {
      var n := |es| - 1;
      var before := Run(cfg, w, es[..n]);
      if before.api.cr.None? {
        GoneStaysGone(cfg, before, es[n]);
      }
      VolumeSurvives(cfg, w, es[..n]);
      StepKeepsPvc(cfg, before, es[n]);
      if es[n].Collect? {
        CollectorSparesClaim(before.api, es[n].target);
      }
    }
  }
}
