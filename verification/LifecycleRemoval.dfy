/**
 Removal of a Workspace: the finalizer holds it until the operator, having read the
 deletion mark, lets it go; and one undisturbed Reconcile does.
 */
module LifecycleRemoval {
  import opened Common
  import opened WorkspaceApi
  import opened Lifecycle
  import opened LifecycleStatus
  import opened LifecycleStabilise
  import LifecycleStops

  /** One undisturbed Reconcile lets a Workspace marked for deletion go, whatever else
      is wrong with it, touches nothing else and asks for no further call. */
  lemma ReconcileRemoves(cfg: Config, w: World)
    requires w.op.Resting? && w.api.cr.Some? && w.api.cr.value.deleting
    ensures Reconciled(cfg, w) == w.(api := w.api.(cr := None), op := Resting(Settled(None)))
  {
    hide AccessStep, PolicyStep, PvcStep, PodStep, ServiceStep, SeedStep, ReportStep;
    var w1 := w.(op := Working(w.api.cr.value, Decide));
    assert OperatorStep(cfg, w, Ok) == w1;
    assert Finish(cfg, w1) == Finish(cfg, OperatorStep(cfg, w1, Ok));
  }

  /** The operator has read the stored Workspace, with its deletion mark, and has not
      done anything yet. */
  predicate ReadDeleting(w: World) {
    w.op.Working? && w.op.next.Decide? && w.op.ws.deleting && w.api.cr == Some(w.op.ws)
  }

  /** A Workspace with a finalizer disappears exactly at an operator call that takes
      effect after it read the mark on the version still stored, and never otherwise. */
  lemma RemovedExactlyByOperator(cfg: Config, w: World, e: Event)
    requires w.api.cr.Some? && w.api.cr.value.finalizer
    ensures Do(cfg, w, e).api.cr.None? <==> e.Operate? && !e.outcome.Rejected? && ReadDeleting(w)
  {
    hide OperatorStep, Deliver, Collected, ReadDeleting;
    if e.Operate? {
      OperatorRemoves(cfg, w, e.outcome);
    } else {
      OutsideKeepsWorkspace(cfg, w, e);
    }
  }

  lemma OperatorRemoves(cfg: Config, w: World, o: Outcome)
    requires w.api.cr.Some?
    ensures OperatorStep(cfg, w, o).api.cr.None? <==> !o.Rejected? && ReadDeleting(w)
  {
    hide AccessStep, PolicyStep, PvcStep, PodStep, ServiceStep, ApplyPatch, Diff, Summarised, Decode;
    if w.op.Working? && !WritesWorkspace(w.op.next) {
      OtherCallsAreQuiet(cfg, w, o);
    }
  }

  lemma OutsideKeepsWorkspace(cfg: Config, w: World, e: Event)
    requires !e.Operate? && w.api.cr.Some? && w.api.cr.value.finalizer
    ensures Do(cfg, w, e).api.cr.Some? && Do(cfg, w, e).api.cr.value.finalizer
    ensures w.api.cr.value.deleting ==> Do(cfg, w, e).api.cr.value.deleting
  {
    hide OperatorStep, ApplyPatch, Diff, WakeMessage, TouchMessage, Decode;
  }

  /** Over runs: a Workspace that had its finalizer and is gone was let go by such a
      call, at some point of the run. */
  lemma {:induction false} RemovalHasItsCall(cfg: Config, w: World, es: seq<Event>) returns (k: nat)
    requires w.api.cr.Some? && w.api.cr.value.finalizer && Run(cfg, w, es).api.cr.None?
    ensures k < |es| && es[k].Operate? && !es[k].outcome.Rejected? && ReadDeleting(Run(cfg, w, es[..k]))
  {
    hide Do, ReadDeleting;
    var n := |es| - 1;
    var before := Run(cfg, w, es[..n]);
    if before.api.cr.None? {
      k := RemovalHasItsCall(cfg, w, es[..n]);
      assert es[..n][..k] == es[..k];
    } else {
      k := n;
      FinalizerStays(cfg, w, es[..n]);
      RemovedExactlyByOperator(cfg, before, es[n]);
    }
  }

  /** A finalizer, once there, stays as long as the Workspace does. */
  lemma {:induction false} FinalizerStays(cfg: Config, w: World, es: seq<Event>)
    requires w.api.cr.Some? && w.api.cr.value.finalizer && Run(cfg, w, es).api.cr.Some?
    ensures Run(cfg, w, es).api.cr.value.finalizer
  {
    hide Do;
    if es != [] {
      var n := |es| - 1;
      var before := Run(cfg, w, es[..n]);
      if before.api.cr.None? {
        LifecycleStops.GoneStaysGone(cfg, before, es[n]);
      }
      FinalizerStays(cfg, w, es[..n]);
      StepKeepsFinalizer(cfg, before, es[n]);
    }
  }

  lemma StepKeepsFinalizer(cfg: Config, w: World, e: Event)
    requires w.api.cr.Some? && w.api.cr.value.finalizer && Do(cfg, w, e).api.cr.Some?
    ensures Do(cfg, w, e).api.cr.value.finalizer
  {
    hide AccessStep, PolicyStep, PvcStep, PodStep, ServiceStep, Collected, ApplyPatch, Diff, Summarised, Decode;
    if e.Operate? && w.op.Working? && !WritesWorkspace(w.op.next) {
      OtherCallsAreQuiet(cfg, w, e.outcome);
    } else if !e.Operate? {
      OutsideKeepsWorkspace(cfg, w, e);
    }
  }
}
