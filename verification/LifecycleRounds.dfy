/**
 Rounds: a cooperative kubelet, then one undisturbed Reconcile. The lifecycle
 converges, stays converged, and stops idle workspaces in time.
 */
module LifecycleRounds {
  import opened Common
  import opened WorkspaceApi
  import opened Lifecycle
  import opened LifecycleStops
  import opened LifecycleStabilise

  // -------------------------------------------------------- the fixed point

  /** The status is what a Running report writes. */
  predicate Reported(ws: Workspace) {
    var s, c := ws.status, ReadyCondition(RUNNING_SUMMARY, ws.generation);
    var i := Find(s.conditions, Ready);
    && s.phase == Running && s.podName == PodRef && s.endpoint == EndpointRef && s.message == NoText && s.hint == NoText
    && i < |s.conditions| && s.conditions[i] == c.(transition := s.conditions[i].transition)
  }

  lemma ReportIsReported(ws: Workspace, s: Status, now: nat)
    ensures Reported(ws.(status := Summarised(s, RUNNING_SUMMARY, ws.generation, now)))
  {
    var c := ReadyCondition(RUNNING_SUMMARY, ws.generation);
    var ds := SetCondition(s.conditions, c, now);
    assert ds[Find(s.conditions, Ready)].kind == Ready;
    assert Find(ds, Ready) == Find(s.conditions, Ready);
  }

  lemma ReportedIsFixed(ws: Workspace, now: nat)
    requires Reported(ws)
    ensures Summarised(ws.status, RUNNING_SUMMARY, ws.generation, now) == ws.status
  {
    var c := ReadyCondition(RUNNING_SUMMARY, ws.generation);
    assert SetCondition(ws.status.conditions, c, now) == ws.status.conditions;
  }

  /** Everything as desired: RBAC, policies, service, volume, a ready current pod
      and a status that says so. */
  predicate Converged(cfg: Config, w: World) {
    && Startable(w) && w.api.cr.value.finalizer
    && w.api == Guarded(cfg, w.api, w.api.cr.value.spec)
    && w.api.service == Some(Child(Ours, AsBuilt))
    && PodUpToDate(cfg, w.api) && !w.api.pod.value.terminating && w.api.pod.value.status == READY_POD
    && Reported(w.api.cr.value)
    && (IdleWindow(cfg, w) > 0 ==> w.api.cr.value.status.lastAccessed.Some?)
  }

  /** The pod is up, is not going away, and runs no image but the configured one. */
  predicate RunsCurrentPod(cfg: Config, api: Cluster) {
    && api.pod.Some? && !api.pod.value.terminating
    && (api.pod.value.image == None || api.pod.value.image == Some(cfg.image))
    && api.pod.value.status.phase == PodRunning && api.pod.value.status.conditions == [PodCondition(true, True)]
  }

  // ---------------------------------------------------- progress per round

  /** Rounds still needed: add the finalizer, create the volume, replace or
      create the pod, report Running. */
  function Distance(cfg: Config, w: World): nat
    requires w.api.cr.Some?
  {
    var pod := KubeletDone(w.api.pod);
    (if w.api.cr.value.finalizer then 0 else 1)
    + (if w.api.pvc.Some? then 0 else 1)
    + (if pod.None? then 1 else if Outdated(cfg, pod.value) then 2 else 0)
    + 1
  }

  predicate AsksAgain(w: World) {
    w.op.Resting? && w.op.last.Settled? && w.op.last.requeue.Some?
  }

  /** What a round that does not finish leaves behind. */
  predicate Closer(cfg: Config, w: World, w': World, elapsed: nat) {
    && w.api.cr.Some?
    && Startable(w') && AsksAgain(w') && w'.clock == w.clock + elapsed
    && w'.api.cr.value.spec == w.api.cr.value.spec
    && w'.api.cr.value.status.lastAccessed == w.api.cr.value.status.lastAccessed
    && Distance(cfg, w') + 1 == Distance(cfg, w)
  }

  lemma RoundAddsFinalizer(cfg: Config, w: World, elapsed: nat)
    requires Startable(w) && !w.api.cr.value.finalizer
    ensures Closer(cfg, w, Round(cfg, w, elapsed), elapsed)
  {
    hide Reconciled;
    ReconcileAddsFinalizer(cfg, Awaited(w, elapsed));
  }

  lemma RoundCreatesVolume(cfg: Config, w: World, elapsed: nat)
    requires Startable(w) && w.api.cr.value.finalizer && w.api.pvc.None?
    ensures Closer(cfg, w, Round(cfg, w, elapsed), elapsed)
  {
    hide Reconciled, Finish, WantedDenyAll, WantedEgress, WantedIngress;
    var v := Awaited(w, elapsed);
    ReconcileGuards(cfg, v);
    var ws := v.api.cr.value;
    FinishNewVolume(cfg, v.(api := Guarded(cfg, v.api, ws.spec), op := Working(ws, ReadPvc)));
  }

  lemma RoundCreatesPod(cfg: Config, w: World, elapsed: nat)
    requires Startable(w) && w.api.cr.value.finalizer && w.api.pvc.Some? && KubeletDone(w.api.pod).None?
    ensures Closer(cfg, w, Round(cfg, w, elapsed), elapsed)
  {
    hide Reconciled, Finish, WantedDenyAll, WantedEgress, WantedIngress;
    var v := Awaited(w, elapsed);
    ReconcileGuards(cfg, v);
    var ws := v.api.cr.value;
    var v' := v.(api := Guarded(cfg, v.api, ws.spec), op := Working(ws, ReadPvc));
    FinishPvcCheck(cfg, v');
    FinishNewPod(cfg, v'.(op := Working(ws, ReadPod)));
  }

  lemma RoundDropsOutdatedPod(cfg: Config, w: World, elapsed: nat)
    requires Startable(w) && w.api.cr.value.finalizer && w.api.pvc.Some?
    requires KubeletDone(w.api.pod).Some? && Outdated(cfg, KubeletDone(w.api.pod).value)
    ensures Closer(cfg, w, Round(cfg, w, elapsed), elapsed)
  {
    hide Reconciled, Finish, WantedDenyAll, WantedEgress, WantedIngress;
    var v := Awaited(w, elapsed);
    ReconcileGuards(cfg, v);
    var ws := v.api.cr.value;
    var v' := v.(api := Guarded(cfg, v.api, ws.spec), op := Working(ws, ReadPvc));
    FinishPvcCheck(cfg, v');
    FinishOutdatedPod(cfg, v'.(op := Working(ws, ReadPod)));
  }

  lemma RoundGetsCloser(cfg: Config, w: World, elapsed: nat)
    requires Startable(w) && Distance(cfg, w) > 1
    ensures Closer(cfg, w, Round(cfg, w, elapsed), elapsed)
  {
    hide Round, Closer;
    if !w.api.cr.value.finalizer {
      RoundAddsFinalizer(cfg, w, elapsed);
    } else if w.api.pvc.None? {
      RoundCreatesVolume(cfg, w, elapsed);
    } else if KubeletDone(w.api.pod).None? {
      RoundCreatesPod(cfg, w, elapsed);
    } else {
      RoundDropsOutdatedPod(cfg, w, elapsed);
    }
  }

  /** The stamp an idle check at that time works with: the stored one, or the seed. */
  function StampAt(w: World, now: nat): nat
    requires w.api.cr.Some?
  {
    if w.api.cr.value.status.lastAccessed.Some? then w.api.cr.value.status.lastAccessed.value else WholeSeconds(now)
  }

  lemma LastRoundConverges(cfg: Config, w: World, elapsed: nat)
    requires Startable(w) && Distance(cfg, w) == 1
    requires Fresh(w.api.cr.value.status.lastAccessed, w.clock + elapsed, IdleWindow(cfg, w))
    ensures Converged(cfg, Round(cfg, w, elapsed))
    ensures var w' := Round(cfg, w, elapsed);
            && w'.clock == w.clock + elapsed && w'.api.cr.value.spec == w.api.cr.value.spec
            && (IdleWindow(cfg, w) > 0 ==> w'.api.cr.value.status.lastAccessed == Some(StampAt(w, w.clock + elapsed)))
  {
    hide Reconciled, Fresh, WantedDenyAll, WantedEgress, WantedIngress, WholeSeconds, Summarised, Reported;
    var v := Awaited(w, elapsed);
    ReconcileToRunning(cfg, v);
    var stamped := Stamped(v.api.cr.value.status, v.clock, IdleWindow(cfg, v));
    ReportIsReported(v.api.cr.value, stamped, v.clock);
    SummarisedFields(stamped, RUNNING_SUMMARY, v.api.cr.value.generation, v.clock);
  }

  // ------------------------------------------------------- self-stabilisation

  function Rounds(cfg: Config, w: World, waits: seq<nat>): World {
    if waits == [] then w
    else Round(cfg, Rounds(cfg, w, waits[..|waits| - 1]), waits[|waits| - 1])
  }

  function Total(waits: seq<nat>): nat {
    if waits == [] then 0 else Total(waits[..|waits| - 1]) + waits[|waits| - 1]
  }

  lemma {:induction false} RoundsGetCloser(cfg: Config, w: World, waits: seq<nat>)
    requires Startable(w) && |waits| < Distance(cfg, w)
    ensures var w' := Rounds(cfg, w, waits);
            && Startable(w') && (waits != [] ==> AsksAgain(w')) && w'.clock == w.clock + Total(waits)
            && w'.api.cr.value.spec == w.api.cr.value.spec
            && w'.api.cr.value.status.lastAccessed == w.api.cr.value.status.lastAccessed
            && Distance(cfg, w') + |waits| == Distance(cfg, w)
  {
    hide Round, Startable, Distance;
    if waits != [] {
      var n := |waits| - 1;
      RoundsGetCloser(cfg, w, waits[..n]);
      RoundGetsCloser(cfg, Rounds(cfg, w, waits[..n]), waits[n]);
    }
  }

  /** The idle window stays open at every round of the schedule. */
  predicate OpenThroughout(cfg: Config, w: World, waits: seq<nat>)
    requires w.api.cr.Some?
  {
    forall k :: 0 < k <= |waits| ==>
      Fresh(w.api.cr.value.status.lastAccessed, w.clock + Total(waits[..k]), IdleWindow(cfg, w))
  }

  /** From any mix of missing and outdated children, at most five rounds reach
      Running with everything as desired, and every earlier round asks to be
      called again. */
  lemma SelfStabilises(cfg: Config, w: World, waits: seq<nat>)
    requires Startable(w) && |waits| == Distance(cfg, w) && OpenThroughout(cfg, w, waits)
    ensures 1 <= |waits| <= 5
    ensures forall k :: 0 < k < |waits| ==> AsksAgain(Rounds(cfg, w, waits[..k]))
    ensures Converged(cfg, Rounds(cfg, w, waits))
    ensures PhaseIs(Rounds(cfg, w, waits), Running) && RunsCurrentPod(cfg, Rounds(cfg, w, waits).api)
  {
    hide Round, Startable, Fresh, Converged;
    forall k | 0 < k < |waits| ensures AsksAgain(Rounds(cfg, w, waits[..k])) {
      RoundsGetCloser(cfg, w, waits[..k]);
    }
    var n := |waits| - 1;
    RoundsGetCloser(cfg, w, waits[..n]);
    assert waits[..|waits|] == waits;
    LastRoundConverges(cfg, Rounds(cfg, w, waits[..n]), waits[n]);
    ConvergedFacts(cfg, Rounds(cfg, w, waits));
  }

  lemma ConvergedFacts(cfg: Config, w: World)
    requires Converged(cfg, w)
    ensures Startable(w) && PhaseIs(w, Running) && Distance(cfg, w) == 1
    ensures RunsCurrentPod(cfg, w.api)
  {
  }

  lemma ConvergedDependsOn(cfg: Config, w: World, w': World)
    requires Converged(cfg, w) && w'.api == w.api && w'.op.Resting?
    ensures Converged(cfg, w')
  {
    hide WantedDenyAll, WantedEgress, WantedIngress, ReadyCondition, Outdated, Serving;
  }

  /** A converged workspace stays exactly as it is while its window is open. */
  lemma ConvergedIsStable(cfg: Config, w: World, elapsed: nat)
    requires Converged(cfg, w)
    requires Fresh(w.api.cr.value.status.lastAccessed, w.clock + elapsed, IdleWindow(cfg, w))
    ensures Round(cfg, w, elapsed) ==
            w.(clock := w.clock + elapsed, op := Resting(Settled(RequeueAfter(IdleWindow(cfg, w)))))
  {
    hide Reconciled, Fresh, WantedDenyAll, WantedEgress, WantedIngress, WholeSeconds, Summarised, Reported;
    var v := Awaited(w, elapsed);
    assert v.api == w.api;
    ReconcileToRunning(cfg, v);
    assert Stamped(v.api.cr.value.status, v.clock, IdleWindow(cfg, v)) == v.api.cr.value.status;
    ReportedIsFixed(v.api.cr.value, v.clock);
  }

  // --------------------------------------------------------- idle stop latency

  lemma WindowDependsOn(cfg: Config, w: World, w': World)
    requires w.api.cr.Some? && w'.api.cr.Some? && w'.api.cr.value.spec == w.api.cr.value.spec
    ensures IdleWindow(cfg, w') == IdleWindow(cfg, w)
  {
  }

  lemma {:induction false} WatchWhileOpen(cfg: Config, w: World, waits: seq<nat>)
    requires Converged(cfg, w) && OpenThroughout(cfg, w, waits)
    ensures var w' := Rounds(cfg, w, waits);
            && w'.api == w.api && w'.clock == w.clock + Total(waits) && Converged(cfg, w')
            && (waits != [] ==> w'.op == Resting(Settled(RequeueAfter(IdleWindow(cfg, w)))))
  {
    hide Round, Fresh, Converged, IdleWindow;
    ConvergedFacts(cfg, w);
    if waits != [] {
      var n := |waits| - 1;
      forall k | 0 < k <= n
        ensures Fresh(w.api.cr.value.status.lastAccessed, w.clock + Total(waits[..n][..k]), IdleWindow(cfg, w))
      {
        assert waits[..n][..k] == waits[..k];
      }
      WatchWhileOpen(cfg, w, waits[..n]);
      assert waits[..|waits|] == waits;
      var before := Rounds(cfg, w, waits[..n]);
      assert IdleWindow(cfg, before) == IdleWindow(cfg, w) by { WindowDependsOn(cfg, w, before); }
      ConvergedIsStable(cfg, before, waits[n]);
      ConvergedDependsOn(cfg, w, Rounds(cfg, w, waits));
    }
  }

  lemma {:induction false} FirstOverdue(waits: seq<nat>, start: nat, limit: nat) returns (k: nat)
    requires start <= limit < start + Total(waits)
    ensures 0 < k <= |waits|
    ensures start + Total(waits[..k]) > limit
    ensures forall j :: 0 <= j < k ==> start + Total(waits[..j]) <= limit
  {
    k := 0;
    assert waits[..|waits|] == waits;
    while k < |waits| && start + Total(waits[..k]) <= limit
      invariant k <= |waits|
      invariant forall j :: 0 <= j < k ==> start + Total(waits[..j]) <= limit
    {
      k := k + 1;
    }
  }

  /** The latency for a workspace that has been reported Running. */
  lemma WatchedStopLatency(cfg: Config, w: World, waits: seq<nat>, t: nat) returns (k: nat)
    requires Converged(cfg, w) && w.api.cr.value.status.lastAccessed == Some(t)
    requires IdleWindow(cfg, w) >= 4 && waits != [] && w.clock <= t + IdleWindow(cfg, w)
    requires forall i :: 0 <= i < |waits| ==> waits[i] <= IdleWindow(cfg, w) / 4
    requires w.clock + Total(waits) > t + IdleWindow(cfg, w)
    ensures 0 < k <= |waits|
    ensures PhaseIs(Rounds(cfg, w, waits[..k]), Stopped)
    ensures forall j :: 0 <= j < k ==> Rounds(cfg, w, waits[..j]).api == w.api && Converged(cfg, Rounds(cfg, w, waits[..j]))
    ensures var stop, idle := w.clock + Total(waits[..k]), IdleWindow(cfg, w);
            t + idle < stop <= t + idle + idle / 4
  {
    hide Round, Converged, IdleWindow;
    ConvergedFacts(cfg, w);
    var idle := IdleWindow(cfg, w);
    k := FirstOverdue(waits, w.clock, t + idle);
    forall j | 0 <= j < k
      ensures Rounds(cfg, w, waits[..j]).api == w.api && Converged(cfg, Rounds(cfg, w, waits[..j]))
    {
      WatchBefore(cfg, w, waits, j, t);
    }
    var n := k - 1;
    WatchBefore(cfg, w, waits, n, t);
    assert waits[..k][..n] == waits[..n];
    assert Total(waits[..k]) == Total(waits[..n]) + waits[n];
    var before := Rounds(cfg, w, waits[..n]);
    assert IdleWindow(cfg, before) == idle by { WindowDependsOn(cfg, w, before); }
    ConvergedFacts(cfg, before);
    LateRoundStops(cfg, before, waits[n]);
  }

  /** A round that meets a serving pod and a passed window stops it. */
  lemma LateRoundStops(cfg: Config, w: World, elapsed: nat)
    requires Startable(w) && Distance(cfg, w) == 1
    requires !Fresh(w.api.cr.value.status.lastAccessed, w.clock + elapsed, IdleWindow(cfg, w))
    ensures PhaseIs(Round(cfg, w, elapsed), Stopped)
  {
    hide Reconciled, WantedDenyAll, WantedEgress, WantedIngress, WholeSeconds, Summarised, Fresh;
    var v := Awaited(w, elapsed);
    ReconcileToStopped(cfg, v);
    SummarisedFields(Stamped(v.api.cr.value.status, v.clock, IdleWindow(cfg, v)), STOPPED_SUMMARY,
                     v.api.cr.value.generation, v.clock);
  }

  lemma {:induction false} RoundsAfterFirst(cfg: Config, w: World, first: nat, waits: seq<nat>)
    ensures Rounds(cfg, w, [first] + waits) == Rounds(cfg, Round(cfg, w, first), waits)
    ensures Total([first] + waits) == first + Total(waits)
  {
    hide Round;
    if waits == [] {
      assert [first] + waits == [first] && [first][..0] == [];
      assert Rounds(cfg, w, [first][..0]) == w && Total([first][..0]) == 0;
    } else {
      var n := |waits| - 1;
      RoundsAfterFirst(cfg, w, first, waits[..n]);
      assert ([first] + waits)[..n + 1] == [first] + waits[..n];
    }
  }

  /** From the first reconcile that meets the ready pod, whatever the phase, the stamp
      and the other children are then: with honoured requeues the workspace is stopped
      strictly after its idle window, and no later than at that first reconcile or a
      quarter of the window after its end, whichever is later. In between it is
      Running with everything as desired. */
  lemma IdleStopLatency(cfg: Config, w: World, waits: seq<nat>) returns (k: nat)
    requires Startable(w) && Distance(cfg, w) == 1
    requires IdleWindow(cfg, w) >= 4 && waits != []
    requires forall i :: 1 <= i < |waits| ==> waits[i] <= RequeueAfter(IdleWindow(cfg, w)).value
    requires w.clock + Total(waits) > StampAt(w, w.clock + waits[0]) + IdleWindow(cfg, w)
    ensures 0 < k <= |waits|
    ensures PhaseIs(Rounds(cfg, w, waits[..k]), Stopped)
    ensures forall j :: 0 < j < k ==>
      Converged(cfg, Rounds(cfg, w, waits[..j])) && Rounds(cfg, w, waits[..j]).api == Rounds(cfg, w, waits[..1]).api
    ensures var stop, t, idle := w.clock + Total(waits[..k]), StampAt(w, w.clock + waits[0]), IdleWindow(cfg, w);
            t + idle < stop <= Max(w.clock + waits[0], t + idle + idle / 4)
  {
    hide Round, Distance, WholeSeconds, IdleWindow, Converged;
    var first, rest := waits[0], waits[1..];
    assert waits == [first] + rest;
    if w.clock + first > StampAt(w, w.clock + first) + IdleWindow(cfg, w) {
      k := 1;
      LateRoundStops(cfg, w, first);
      RoundsAfterFirst(cfg, w, first, []);
      assert waits[..1] == [first] + [];
    } else {
      LastRoundConverges(cfg, w, first);
      k := RunningStopLatency(cfg, w, waits, StampAt(w, w.clock + first));
    }
  }

  /** The case in which the first reconcile reports Running. */
  lemma RunningStopLatency(cfg: Config, w: World, waits: seq<nat>, t: nat) returns (k: nat)
    requires w.api.cr.Some? && IdleWindow(cfg, w) >= 4 && waits != []
    requires var w' := Round(cfg, w, waits[0]);
      && Converged(cfg, w') && w'.clock == w.clock + waits[0] && w'.api.cr.value.spec == w.api.cr.value.spec
      && w'.api.cr.value.status.lastAccessed == Some(t)
    requires forall i :: 1 <= i < |waits| ==> waits[i] <= IdleWindow(cfg, w) / 4
    requires w.clock + waits[0] <= t + IdleWindow(cfg, w) < w.clock + Total(waits)
    ensures 0 < k <= |waits|
    ensures PhaseIs(Rounds(cfg, w, waits[..k]), Stopped)
    ensures forall j :: 0 < j < k ==>
      Converged(cfg, Rounds(cfg, w, waits[..j])) && Rounds(cfg, w, waits[..j]).api == Rounds(cfg, w, waits[..1]).api
    ensures var stop, idle := w.clock + Total(waits[..k]), IdleWindow(cfg, w);
            t + idle < stop <= t + idle + idle / 4
  {
    hide Round, IdleWindow, Converged;
    var first, rest := waits[0], waits[1..];
    var w1 := Round(cfg, w, first);
    assert waits == [first] + rest;
    ConvergedFacts(cfg, w1);
    assert IdleWindow(cfg, w1) == IdleWindow(cfg, w) by { WindowDependsOn(cfg, w, w1); }
    RoundsAfterFirst(cfg, w, first, rest);
    var m := WatchedStopLatency(cfg, w1, rest, t);
    k := m + 1;
    RoundsAfterFirst(cfg, w, first, rest[..m]);
    assert waits[..k] == [first] + rest[..m];
    forall j | 0 < j < k
      ensures Converged(cfg, Rounds(cfg, w, waits[..j])) && Rounds(cfg, w, waits[..j]).api == w1.api
    {
      RoundsAfterFirst(cfg, w, first, rest[..j - 1]);
      assert waits[..j] == [first] + rest[..j - 1];
    }
    RoundsAfterFirst(cfg, w, first, []);
    assert waits[..1] == [first] + [];
  }

  lemma WatchBefore(cfg: Config, w: World, waits: seq<nat>, j: nat, t: nat)
    requires Converged(cfg, w) && w.api.cr.value.status.lastAccessed == Some(t) && j <= |waits|
    requires forall i :: 0 < i <= j ==> w.clock + Total(waits[..i]) <= t + IdleWindow(cfg, w)
    ensures var w' := Rounds(cfg, w, waits[..j]);
            w'.api == w.api && w'.clock == w.clock + Total(waits[..j]) && Converged(cfg, w')
  {
    hide Round, Converged;
    ConvergedFacts(cfg, w);
    forall i | 0 < i <= j
      ensures Fresh(Some(t), w.clock + Total(waits[..j][..i]), IdleWindow(cfg, w))
    {
      assert waits[..j][..i] == waits[..i];
    }
    WatchWhileOpen(cfg, w, waits[..j]);
  }
}
