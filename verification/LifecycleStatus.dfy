/**
 The two writers of one status: phase and Ready never contradict each other,
 and neither writer overwrites the other's fields, in any interleaving.
 */
module LifecycleStatus {
  import opened Common
  import opened WorkspaceApi
  import opened Lifecycle

  /** The operator's copy against the stored status while a Reconcile runs: only
      the operator writes conditions, and only the gateway clears the phase. */
  predicate InStep(stored: Status, held: Status) {
    stored.conditions == held.conditions && (stored.phase == held.phase || stored.phase == NoPhase)
  }

  predicate ReportsPhase(c: Call) {
    c.Report? ==> c.sum.phase in {Creating, Running, Failed, Stopped}
  }

  predicate StatusInvariant(w: World) {
    && (w.api.cr.Some? ==> ReadyAgrees(w.api.cr.value.status))
    && (forall m :: m in w.inflight ==> GatewayShaped(m))
    && (w.op.Working? ==>
        && ReportsPhase(w.op.next)
        && ReadyAgrees(w.op.ws.status)
        && (w.api.cr.Some? ==> InStep(w.api.cr.value.status, w.op.ws.status)))
  }

  /** Whatever the stored copy has become meanwhile, the operator's patch leaves
      the stored conditions as intended and the phase as intended or cleared. */
  lemma OperatorPatch(stored: Status, held: Status, sum: Summary, generation: nat, now: nat)
    requires InStep(stored, held)
    requires sum.phase in {Creating, Running, Failed, Stopped}
    ensures ReadyAgrees(ApplyPatch(stored, Diff(held, Summarised(held, sum, generation, now))))
  {
    SummarisedAgrees(held, sum, generation, now);
  }

  lemma ReportKeepsStatus(w: World, o: Outcome)
    requires StatusInvariant(w) && w.op.Working? && w.op.next.Report?
    ensures StatusInvariant(ReportStep(w, o))
  {
    if w.api.cr.Some? {
      OperatorPatch(w.api.cr.value.status, w.op.ws.status, w.op.next.sum, w.op.ws.generation, w.clock);
    }
  }

  /** The calls that write the Workspace object. */
  predicate WritesWorkspace(c: Call) {
    c.Decide? || c.SeedLastAccessed? || c.Report?
  }

  /** The Workspace, the operator's copy and the gateway are left as they are. */
  predicate Quiet(w: World, w': World)
    requires w.op.Working?
  {
    && w'.api.cr == w.api.cr && w'.clock == w.clock
    && w'.copies == w.copies && w'.sessions == w.sessions && w'.inflight == w.inflight
    && (w'.op.Working? ==> w'.op.ws == w.op.ws && ReportsPhase(w'.op.next) && w'.op.next != Decide)
  }

  lemma AccessIsQuiet(w: World, o: Outcome)
    requires w.op.Working? && (w.op.next.EnsureAccount? || w.op.next.EnsureRole? || w.op.next.EnsureBinding?)
    ensures Quiet(w, AccessStep(w, o))
  {
  }

  lemma PolicyIsQuiet(cfg: Config, w: World, o: Outcome)
    requires w.op.Working? && (w.op.next.EnsureDenyAll? || w.op.next.EnsureEgress? || w.op.next.EnsureIngress?)
    ensures Quiet(w, PolicyStep(cfg, w, o))
  {
    hide WantedDenyAll, WantedEgress, WantedIngress;
  }

  lemma PvcIsQuiet(w: World, o: Outcome)
    requires w.op.Working? && (w.op.next.ReadPvc? || w.op.next.CreatePvc?)
    ensures Quiet(w, PvcStep(w, o))
  {
  }

  lemma PodIsQuiet(cfg: Config, w: World, o: Outcome)
    requires w.op.Working? && (w.op.next.ReadPod? || w.op.next.CreatePod? || w.op.next.DeleteOutdated?)
    ensures Quiet(w, PodStep(cfg, w, o))
  {
  }

  lemma IdleIsQuiet(cfg: Config, w: World, o: Outcome)
    requires w.op.Working? && (w.op.next.EnsureService? || w.op.next.JudgeIdle? || w.op.next.DeleteIdle?)
    ensures Quiet(w, OperatorStep(cfg, w, o))
  {
    hide IsPodReady, FirstStuck;
  }

  /** All calls of Reconcile but three kinds are quiet. */
  lemma OtherCallsAreQuiet(cfg: Config, w: World, o: Outcome)
    requires w.op.Working? && !WritesWorkspace(w.op.next)
    ensures Quiet(w, OperatorStep(cfg, w, o))
  {
    hide Quiet, AccessStep, PolicyStep, PvcStep, PodStep;
    match w.op.next
    case EnsureAccount => AccessIsQuiet(w, o);
    case EnsureRole => AccessIsQuiet(w, o);
    case EnsureBinding => AccessIsQuiet(w, o);
    case EnsureDenyAll => PolicyIsQuiet(cfg, w, o);
    case EnsureEgress => PolicyIsQuiet(cfg, w, o);
    case EnsureIngress => PolicyIsQuiet(cfg, w, o);
    case ReadPvc => PvcIsQuiet(w, o);
    case CreatePvc => PvcIsQuiet(w, o);
    case ReadPod => PodIsQuiet(cfg, w, o);
    case CreatePod => PodIsQuiet(cfg, w, o);
    case DeleteOutdated => PodIsQuiet(cfg, w, o);
    case EnsureService(_) => IdleIsQuiet(cfg, w, o);
    case JudgeIdle(_, _) => IdleIsQuiet(cfg, w, o);
    case DeleteIdle => IdleIsQuiet(cfg, w, o);
  }

  lemma DecideKeepsStatus(w: World, o: Outcome)
    requires StatusInvariant(w) && w.op.Working? && w.op.next.Decide?
    ensures StatusInvariant(DecideStep(w, o))
  {
  }

  lemma SeedKeepsStatus(w: World, o: Outcome)
    requires StatusInvariant(w) && w.op.Working? && w.op.next.SeedLastAccessed?
    ensures StatusInvariant(SeedStep(w, o))
  {
  }

  lemma OperatorKeepsStatus(cfg: Config, w: World, o: Outcome)
    requires StatusInvariant(w)
    ensures StatusInvariant(OperatorStep(cfg, w, o))
  {
    hide ReadyAgrees, GatewayShaped, PolicyStep, PodStep, PvcStep, AccessStep, ServiceStep;
    if w.op.Resting? {
    } else if !WritesWorkspace(w.op.next) {
      OtherCallsAreQuiet(cfg, w, o);
    } else if w.op.next.Report? {
      ReportKeepsStatus(w, o);
    } else if w.op.next.Decide? {
      DecideKeepsStatus(w, o);
    } else {
      SeedKeepsStatus(w, o);
    }
  }

  lemma DeliverKeepsStatus(w: World, m: Message)
    requires StatusInvariant(w)
    ensures StatusInvariant(Deliver(w, m))
  {
  }

  lemma WakeIsShaped(copy: Status)
    ensures GatewayShaped(WakeMessage(copy)) && !WakeMessage(copy).touch
  {
  }

  lemma TouchIsShaped(held: Status, now: nat)
    ensures GatewayShaped(TouchMessage(held, now))
  {
    hide WholeSeconds;
  }

  lemma SendKeepsStatus(cfg: Config, w: World, e: Event)
    requires StatusInvariant(w)
    requires e.GatewayWake? || e.GatewayTouch? || e.GatewayLose?
    ensures StatusInvariant(Do(cfg, w, e))
  {
    hide OperatorStep, Deliver, Collected, ReadyAgrees, GatewayShaped, WakeMessage, TouchMessage, WholeSeconds;
    if e.GatewayWake? {
      WakeIsShaped(e.copy);
    } else if e.GatewayTouch? {
      TouchIsShaped(e.held, w.clock);
    }
  }

  lemma StepKeepsStatus(cfg: Config, w: World, e: Event)
    requires StatusInvariant(w)
    ensures StatusInvariant(Do(cfg, w, e))
  {
    hide OperatorStep, Deliver, ReadyAgrees, GatewayShaped, WakeMessage, TouchMessage;
    match e
    case Operate(o) => OperatorKeepsStatus(cfg, w, o);
    case GatewayDeliver(m) => DeliverKeepsStatus(w, m);
    case GatewayWake(_) => SendKeepsStatus(cfg, w, e);
    case GatewayTouch(_) => SendKeepsStatus(cfg, w, e);
    case GatewayLose(_) => SendKeepsStatus(cfg, w, e);
    case _ =>
  }

  lemma {:induction false} StatusThroughout(cfg: Config, w: World, es: seq<Event>)
    requires StatusInvariant(w)
    ensures StatusInvariant(Run(cfg, w, es))
  {
    hide Do, StatusInvariant;
    if es != [] {
      StatusThroughout(cfg, w, es[..|es| - 1]);
      StepKeepsStatus(cfg, Run(cfg, w, es[..|es| - 1]), es[|es| - 1]);
    }
  }

  /** In every interleaving, phase Running means Ready is True, and phase
      Creating, Failed or Stopped means Ready is False; only the empty phase
      says nothing. */
  lemma PhaseAndReadyAgree(cfg: Config, w: World, es: seq<Event>)
    requires Initial(w)
    ensures StatusInvariant(Run(cfg, w, es))
    ensures Run(cfg, w, es).api.cr.Some? ==>
      var s := Run(cfg, w, es).api.cr.value.status;
      && (s.phase == Running ==> ReadyStatus(s.conditions) == Some(True))
      && (s.phase in {Creating, Failed, Stopped} ==> ReadyStatus(s.conditions) == Some(False))
      && s.phase != Pending
  {
    hide Do;
    StatusThroughout(cfg, w, es);
  }

  // ------------------------------------------------------ non-interference

  /** A seeding call is pending only when the copy that was read had no stamp. */
  predicate SeedInvariant(w: World) {
    w.op.Working? && w.op.next.SeedLastAccessed? ==> w.op.ws.status.lastAccessed.None?
  }

  lemma OperatorKeepsSeed(cfg: Config, w: World, o: Outcome)
    ensures SeedInvariant(OperatorStep(cfg, w, o))
  {
    hide WantedDenyAll, WantedEgress, WantedIngress, IsPodReady, FirstStuck, ApplyPatch, Diff, Summarised;
  }

  lemma {:induction false} SeedsOnlyWhenMissing(cfg: Config, w: World, es: seq<Event>)
    requires w.op.Resting?
    ensures SeedInvariant(Run(cfg, w, es))
  {
    hide OperatorStep;
    if es != [] {
      var n := |es| - 1;
      SeedsOnlyWhenMissing(cfg, w, es[..n]);
      if es[n].Operate? {
        OperatorKeepsSeed(cfg, Run(cfg, w, es[..n]), es[n].outcome);
      }
    }
  }

  /** No operator step changes a stored stamp, except the seed. */
  lemma OperatorStepKeepsLastAccessed(cfg: Config, w: World, o: Outcome)
    requires w.api.cr.Some? && OperatorStep(cfg, w, o).api.cr.Some?
    requires w.op.Resting? || !w.op.next.SeedLastAccessed?
    ensures OperatorStep(cfg, w, o).api.cr.value.status.lastAccessed == w.api.cr.value.status.lastAccessed
  {
    if w.op.Working? && !WritesWorkspace(w.op.next) {
      OtherCallsAreQuiet(cfg, w, o);
    }
  }

  /** The operator writes lastAccessed only in a seeding call, and only when the
      copy it read had none: in every run, whichever patches raced with it. */
  lemma OperatorKeepsLastAccessed(cfg: Config, w: World, es: seq<Event>, o: Outcome)
    requires w.op.Resting?
    requires var before := Run(cfg, w, es); before.api.cr.Some? && OperatorStep(cfg, before, o).api.cr.Some?
    ensures var before := Run(cfg, w, es);
            var old' := before.api.cr.value.status.lastAccessed;
            var new' := OperatorStep(cfg, before, o).api.cr.value.status.lastAccessed;
            new' != old' ==>
              before.op.Working? && before.op.next.SeedLastAccessed?
              && before.op.ws.status.lastAccessed.None? && new' == Some(before.op.next.stamp)
  {
    var before := Run(cfg, w, es);
    SeedsOnlyWhenMissing(cfg, w, es);
    if before.op.Working? && before.op.next.SeedLastAccessed? {
      assert OperatorStep(cfg, before, o) == SeedStep(before, o);
    } else {
      OperatorStepKeepsLastAccessed(cfg, before, o);
    }
  }

  /** Whatever copies the gateway computes its patches from, and whatever is stored
      when they arrive: a wake-up empties the phase and can otherwise only empty
      message and pod name, and a touch can only write its own stamp. */
  lemma GatewayChangesOnlyItsFields(stored: Status, copy: Status, now: nat)
    ensures GatewayShaped(WakeMessage(copy)) && GatewayShaped(TouchMessage(copy, now))
    ensures var s := ApplyPatch(stored, WakeMessage(copy).patch);
      && s == stored.(phase := s.phase, message := s.message, podName := s.podName)
      && s.phase == (if copy.phase == NoPhase then stored.phase else NoPhase)
      && s.message in {stored.message, NoText} && s.podName in {stored.podName, NoText}
    ensures var s := ApplyPatch(stored, TouchMessage(copy, now).patch);
      && s == stored.(lastAccessed := s.lastAccessed)
      && s.lastAccessed ==
         if copy.lastAccessed == Some(WholeSeconds(now)) then stored.lastAccessed else Some(WholeSeconds(now))
  {
  }

  /** Patches of the two writers commute, however stale their bases: a status
      report and a touch can reach the API server in either order. */
  lemma ReportAndTouchCommute(
    stored: Status, held: Status, sum: Summary, generation: nat, now: nat, session: Status, at: nat)
    ensures var report := Diff(held, Summarised(held, sum, generation, now));
            var touch := TouchMessage(session, at).patch;
            && ApplyPatch(ApplyPatch(stored, report), touch) == ApplyPatch(ApplyPatch(stored, touch), report)
            && ApplyPatch(ApplyPatch(stored, touch), report).lastAccessed == ApplyPatch(stored, touch).lastAccessed
  {
  }
}
