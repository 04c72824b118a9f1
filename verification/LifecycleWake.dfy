/**
 Waking a stopped workspace. The gateway clears the phase but does not stamp
 lastAccessed, so a wake-up leads to Running exactly when the idle window that
 caused the stop is still open.
 */
module LifecycleWake {
  import opened Common
  import opened WorkspaceApi
  import opened Lifecycle
  import opened LifecycleStops
  import opened LifecycleStabilise
  import opened LifecycleRounds
  import opened LifecycleIdle

  // ---------------------------------------------- rounds are runs of events

  predicate NoEdits(es: seq<Event>) {
    forall e :: e in es ==> !e.EditSpec?
  }

  lemma {:induction false} FinishIsRun(cfg: Config, w: World) returns (es: seq<Event>)
    ensures Run(cfg, w, es) == Finish(cfg, w) && NoEdits(es)
    decreases if w.op.Resting? then 0 else Remaining(w.op.next)
  {
    hide OperatorStep, Remaining;
    if w.op.Resting? {
      es := [];
    } else {
      CallsGoForward(cfg, w, Ok);
      var rest := FinishIsRun(cfg, OperatorStep(cfg, w, Ok));
      es := [Operate(Ok)] + rest;
      SingleEvent(cfg, w, Operate(Ok));
      RunConcat(cfg, w, [Operate(Ok)], rest);
    }
  }

  lemma SingleEvent(cfg: Config, w: World, e: Event)
    ensures Run(cfg, w, [e]) == Do(cfg, w, e)
  {
    hide Do;
    assert [e][..0] == [];
  }

  lemma KubeletIsRun(cfg: Config, w: World) returns (es: seq<Event>)
    ensures Run(cfg, w, es) == Awaited(w, 0) && NoEdits(es)
  {
    hide OperatorStep, Deliver, Collected;
    if w.api.pod.None? {
      es := [];
    } else {
      es := [if w.api.pod.value.terminating then PodRemoved else KubeletReports(READY_POD)];
      SingleEvent(cfg, w, es[0]);
    }
  }

  lemma RoundIsRun(cfg: Config, w: World) returns (es: seq<Event>)
    requires w.op.Resting?
    ensures Run(cfg, w, es) == Round(cfg, w, 0) && NoEdits(es)
  {
    hide OperatorStep, Awaited;
    var kubelet := KubeletIsRun(cfg, w);
    var v := Awaited(w, 0);
    var rest := FinishIsRun(cfg, OperatorStep(cfg, v, Ok));
    SingleEvent(cfg, v, Operate(Ok));
    RunConcat(cfg, v, [Operate(Ok)], rest);
    RunConcat(cfg, w, kubelet, [Operate(Ok)] + rest);
    es := kubelet + ([Operate(Ok)] + rest);
  }

  lemma {:induction false} FinishRests(cfg: Config, w: World)
    ensures Finish(cfg, w).op.Resting?
    decreases if w.op.Resting? then 0 else Remaining(w.op.next)
  {
    hide OperatorStep, Remaining;
    if w.op.Working? {
      CallsGoForward(cfg, w, Ok);
      FinishRests(cfg, OperatorStep(cfg, w, Ok));
    }
  }

  lemma {:induction false} RoundsAreRun(cfg: Config, w: World, waits: seq<nat>) returns (es: seq<Event>)
    requires w.op.Resting? && forall i :: 0 <= i < |waits| ==> waits[i] == 0
    ensures Run(cfg, w, es) == Rounds(cfg, w, waits) && NoEdits(es)
    ensures Rounds(cfg, w, waits).op.Resting?
  {
    if waits == [] {
      es := [];
    } else {
      var n := |waits| - 1;
      var init := RoundsAreRun(cfg, w, waits[..n]);
      var before := Rounds(cfg, w, waits[..n]);
      var last := RoundIsRun(cfg, before);
      RunConcat(cfg, w, init, last);
      FinishRests(cfg, OperatorStep(cfg, Awaited(before, 0), Ok));
      es := init + last;
    }
  }

  lemma {:induction false} NoWaiting(waits: seq<nat>)
    requires forall i :: 0 <= i < |waits| ==> waits[i] == 0
    ensures Total(waits) == 0
  {
    if waits != [] { NoWaiting(waits[..|waits| - 1]); }
  }

  /** A startable workspace whose window is open can reach Running at once. */
  lemma StartableCanRun(cfg: Config, w: World) returns (es: seq<Event>)
    requires Startable(w)
    requires Fresh(w.api.cr.value.status.lastAccessed, w.clock, IdleWindow(cfg, w))
    ensures PhaseIs(Run(cfg, w, es), Running) && NoEdits(es)
  {
    hide Round, Converged, Fresh, IdleWindow, Distance;
    var n := Distance(cfg, w);
    var waits: seq<nat> := seq(n, i => 0);
    forall k | 0 < k <= |waits|
      ensures Fresh(w.api.cr.value.status.lastAccessed, w.clock + Total(waits[..k]), IdleWindow(cfg, w))
    {
      NoWaiting(waits[..k]);
    }
    SelfStabilises(cfg, w, waits);
    es := RoundsAreRun(cfg, w, waits);
  }

  // --------------------------------------------------------------- waking up

  /** A stopped workspace with nothing else in its way, and no session open. */
  predicate Asleep(cfg: Config, w: World, t: nat, idle: int) {
    && w.op.Resting? && w.api.cr.Some? && PhaseIs(w, Stopped)
    && Startable(w.(api := w.api.(cr := Some(w.api.cr.value.(status := Cleared(w.api.cr.value.status))))))
    && w.api.cr.value.status.lastAccessed == Some(t)
    && IdleWindow(cfg, w) == idle && idle > 0
    && NoSessions(w)
  }

  lemma WakeUp(cfg: Config, w: World, t: nat, idle: int) returns (es: seq<Event>)
    requires Asleep(cfg, w, t, idle)
    ensures NoEdits(es)
    ensures var w' := Run(cfg, w, es);
            && Startable(w') && w'.clock == w.clock && w'.api.cr.value.status.lastAccessed == Some(t)
            && IdleWindow(cfg, w') == idle
  {
    hide OperatorStep, Collected, Run, Decode;
    var s := w.api.cr.value.status;
    es := [GatewayRead] + [GatewayWake(s)] + [GatewayDeliver(WakeMessage(s))];
    var w1 := Do(cfg, w, GatewayRead);
    var w2 := Do(cfg, w1, GatewayWake(s));
    var w3 := Do(cfg, w2, GatewayDeliver(WakeMessage(s)));
    PatchRoundTrip(s, Cleared(s));
    assert w3.api == w.api.(cr := Some(w.api.cr.value.(status := Cleared(s))));
    WakeRun(cfg, w, s);
  }

  lemma WakeRun(cfg: Config, w: World, s: Status)
    ensures Run(cfg, w, [GatewayRead] + [GatewayWake(s)] + [GatewayDeliver(WakeMessage(s))]) ==
            Do(cfg, Do(cfg, Do(cfg, w, GatewayRead), GatewayWake(s)), GatewayDeliver(WakeMessage(s)))
  {
    hide Do;
    SingleEvent(cfg, w, GatewayRead);
    var w1 := Do(cfg, w, GatewayRead);
    SingleEvent(cfg, w1, GatewayWake(s));
    RunConcat(cfg, w, [GatewayRead], [GatewayWake(s)]);
    SingleEvent(cfg, Do(cfg, w1, GatewayWake(s)), GatewayDeliver(WakeMessage(s)));
    RunConcat(cfg, w, [GatewayRead] + [GatewayWake(s)], [GatewayDeliver(WakeMessage(s))]);
  }

  /** There is a run that brings a sleeping workspace back to Running if and only
      if its idle window has not passed: a user who returns after an idle stop
      finds the workspace stopped again after every wake-up. */
  lemma WakingWorksExactlyWhileOpen(cfg: Config, w: World, t: nat, idle: int)
    requires Asleep(cfg, w, t, idle)
    ensures (exists es :: KeepsWindow(cfg, es, idle) && PhaseIs(Run(cfg, w, es), Running)) <==> w.clock - t <= idle
  {
    if w.clock - t <= idle {
      var wake := WakeUp(cfg, w, t, idle);
      var rest := StartableCanRun(cfg, Run(cfg, w, wake));
      RunConcat(cfg, w, wake, rest);
      assert KeepsWindow(cfg, wake + rest, idle);
    } else {
      assert Dormant(cfg, w, t, idle);
      forall es | KeepsWindow(cfg, es, idle) ensures !PhaseIs(Run(cfg, w, es), Running) {
        WakingIsInVain(cfg, w, es, t, idle);
      }
    }
  }

  /** The stop and the failed wake-up together: after the Reconcile that stops an idle
      workspace without sessions, no run reaches Running again, however often the
      gateway wakes it, until the idle window is edited. */
  lemma IdleStopIsFinal(cfg: Config, w: World, es: seq<Event>)
    requires Startable(w) && w.api.cr.value.finalizer && PodUpToDate(cfg, w.api) && NoSessions(w)
    requires !Fresh(w.api.cr.value.status.lastAccessed, w.clock, IdleWindow(cfg, w))
    requires KeepsWindow(cfg, es, IdleWindow(cfg, w))
    ensures PhaseIs(Reconciled(cfg, w), Stopped)
    ensures !PhaseIs(Run(cfg, Reconciled(cfg, w), es), Running)
  {
    hide Run, Reconciled, WantedDenyAll, WantedEgress, WantedIngress, WholeSeconds, Summarised, KeepsWindow;
    var idle, ws := IdleWindow(cfg, w), w.api.cr.value;
    ReconcileToStopped(cfg, w);
    SummarisedFields(Stamped(ws.status, w.clock, idle), STOPPED_SUMMARY, ws.generation, w.clock);
    WakingIsInVain(cfg, Reconciled(cfg, w), es, StampAt(w, w.clock), idle);
  }
}
