/**
 Activity of an open session: the rate-limited callback of handleWS, and what its
 stamps guarantee against the operator's idle check.
 */
module Activity {
  import opened Common
  import opened WorkspaceApi
  import opened Lifecycle
  import opened LifecycleStatus
  import opened LifecycleStops
  import opened LifecycleIdle
  import opened StatusObjects

  // -------------------------------------------------- the callback and its times

  predicate Nondecreasing(ts: seq<nat>) {
    forall i, j :: 0 <= i <= j < |ts| ==> ts[i] <= ts[j]
  }

  /** A minute has passed since the last stamp, or there was none. */
  predicate Due(last: Option<nat>, now: nat) {
    last.None? || now - last.value >= MINUTE
  }

  function LastOf(ts: seq<nat>): Option<nat> {
    if ts == [] then None else Some(ts[|ts| - 1])
  }

  /** The frames, of those seen so far, that were stamped. */
  function Touches(frames: seq<nat>): (ts: seq<nat>)
    ensures frames != [] ==> ts != []
  {
    if frames == [] then []
    else
      var n := |frames| - 1;
      var earlier := Touches(frames[..n]);
      if Due(LastOf(earlier), frames[n]) then earlier + [frames[n]] else earlier
  }

  /** onActivity with the variables it captures. */
  class Session {
    const store: StatusStore
    const ws: StatusObject
    var lastTouch: Option<nat>

    constructor (store: StatusStore, ws: StatusObject)
      ensures this.store == store && this.ws == ws && lastTouch == None
    {
      this.store, this.ws, lastTouch := store, ws, None;
    }

    /** At most one stamp a minute; in between, nothing is sent. */
    method OnActivity(now: nat, o: Outcome)
      modifies this, store, ws
      ensures lastTouch == if Due(old(lastTouch), now) then Some(now) else old(lastTouch)
      ensures !Due(old(lastTouch), now) ==> store.stored == old(store.stored) && ws.View() == old(ws.View())
      ensures Due(old(lastTouch), now) && !o.Rejected? ==>
        store.stored == ApplyPatch(old(store.stored), TouchMessage(old(ws.View()), now).patch)
      ensures Due(old(lastTouch), now) ==>
        ws.View() == if o.Ok? then Decode(Touched(old(ws.View()), now), store.stored) else Touched(old(ws.View()), now)
      ensures ws.conditions == old(ws.conditions) || fresh(ws.conditions)
      ensures store.stored == old(store.stored).(lastAccessed := store.stored.lastAccessed)
    {
      if lastTouch.Some? && now - lastTouch.value < MINUTE {
        return;
      }
      lastTouch := Some(now);
      store.TouchLastAccessed(ws, now, o);
    }

    /** A session alone at the store, all stamps successful: after any frames, the
        store holds the last due stamp, and so does the session's own copy. */
    method Serve(frames: seq<nat>)
      requires lastTouch == None && ws.lastAccessed == store.stored.lastAccessed
      modifies this, store, ws
      ensures lastTouch == LastOf(Touches(frames))
      ensures frames == [] ==> store.stored == old(store.stored)
      ensures frames != [] ==> lastTouch.Some?
      ensures frames != [] ==>
        store.stored == old(store.stored).(lastAccessed := Some(WholeSeconds(lastTouch.value)))
    {
      hide WholeSeconds;
      for n := 0 to |frames|
        invariant lastTouch == LastOf(Touches(frames[..n])) && (lastTouch.None? <==> n == 0)
        invariant ws.lastAccessed == store.stored.lastAccessed
        invariant ws.conditions == old(ws.conditions) || fresh(ws.conditions)
        invariant store.stored == old(store.stored).(lastAccessed := store.stored.lastAccessed)
        invariant lastTouch.None? ==> store.stored == old(store.stored)
        invariant lastTouch.Some? ==> store.stored.lastAccessed == Some(WholeSeconds(lastTouch.value))
      {
        assert frames[..n + 1][..n] == frames[..n];
        OnActivity(frames[n], Ok);
      }
      assert frames[..|frames|] == frames;
    }
  }

  // ----------------------------------------------------- what the stamps cover

  predicate Spaced(ts: seq<nat>) {
    forall i, j :: 0 <= i < j < |ts| ==> ts[i] + MINUTE <= ts[j]
  }

  /** This frame comes less than a minute after some stamp. */
  predicate Covered(f: nat, ts: seq<nat>) {
    exists i :: 0 <= i < |ts| && ts[i] <= f < ts[i] + MINUTE
  }

  /** The last stamp is less than a minute older than the last frame. */
  lemma {:induction false} LastTouchIsRecent(frames: seq<nat>)
    requires Nondecreasing(frames) && frames != []
    ensures var t := LastOf(Touches(frames)).value; t in frames && t <= frames[|frames| - 1] < t + MINUTE
  {
    var n := |frames| - 1;
    if n > 0 {
      LastTouchIsRecent(frames[..n]);
    }
  }

  /** The callback is rate-limited: stamps are at least a minute apart. */
  lemma {:induction false} TouchesAreSpaced(frames: seq<nat>)
    requires Nondecreasing(frames)
    ensures Spaced(Touches(frames))
  {
    if frames != [] {
      var n := |frames| - 1;
      TouchesAreSpaced(frames[..n]);
    }
  }

  lemma CoveredByMore(f: nat, ts: seq<nat>, t: nat)
    requires Covered(f, ts)
    ensures Covered(f, ts + [t])
  {
    var k :| 0 <= k < |ts| && ts[k] <= f < ts[k] + MINUTE;
    assert (ts + [t])[k] == ts[k];
  }

  /** No activity is lost: every frame is covered by a stamp. */
  lemma {:induction false} TouchesCover(frames: seq<nat>, i: nat)
    requires Nondecreasing(frames) && i < |frames|
    ensures Covered(frames[i], Touches(frames))
  {
    hide Covered;
    var n := |frames| - 1;
    if i < n {
      TouchesCover(frames[..n], i);
      CoveredByMore(frames[i], Touches(frames[..n]), frames[n]);
    } else {
      LastFrameIsCovered(frames);
    }
  }

  lemma LastFrameIsCovered(frames: seq<nat>)
    requires Nondecreasing(frames) && frames != []
    ensures Covered(frames[|frames| - 1], Touches(frames))
  {
    hide Touches, Nondecreasing;
    LastTouchIsRecent(frames);
  }

  // ------------------------------------------- stamps against the idle check

  predicate AtLeast(lastAccessed: Option<nat>, x: nat) {
    lastAccessed.Some? && lastAccessed.value >= x
  }

  /** No Reconcile is about to seed a stamp older than x. */
  predicate NoOlderSeed(w: World, x: nat) {
    w.op.Working? && w.op.next.SeedLastAccessed? ==> w.op.next.stamp >= x
  }

  /** No stamp older than x is on its way to the server. */
  predicate NoOlderInFlight(w: World, x: nat) {
    forall m :: m in w.inflight && m.patch.lastAccessed.Some? ==> AtLeast(m.patch.lastAccessed.value, x)
  }

  /** No stamp older than x is stored, on its way, or about to be seeded. */
  predicate StampedSince(w: World, x: nat) {
    && x <= WholeSeconds(w.clock)
    && (w.api.cr.Some? ==> AtLeast(w.api.cr.value.status.lastAccessed, x))
    && NoOlderSeed(w, x) && NoOlderInFlight(w, x)
  }

  /** A running Reconcile has read no stamp older than x, and judges only by a stamp. */
  predicate HoldsNoOlder(w: World, x: nat) {
    w.op.Working? ==>
      && (w.op.ws.status.lastAccessed.Some? ==> w.op.ws.status.lastAccessed.value >= x)
      && (w.op.next.JudgeIdle? ==> w.op.ws.status.lastAccessed.Some?)
  }

  lemma WholeSecondsMonotone(a: nat, b: nat)
    requires a <= b
    ensures WholeSeconds(a) <= WholeSeconds(b)
  {
  }

  lemma ServiceReads(cfg: Config, w: World, o: Outcome, x: nat)
    requires StampedSince(w, x) && w.op.Working? && w.op.next.EnsureService?
    ensures NoOlderSeed(OperatorStep(cfg, w, o), x)
    ensures HoldsNoOlder(w, x) ==> HoldsNoOlder(OperatorStep(cfg, w, o), x)
  {
    hide DecideStep, AccessStep, PolicyStep, PvcStep, PodStep, ReportStep, SeedStep, WholeSeconds, Serving, PodReport, AtLeast, NoOlderInFlight;
  }

  /** A seed leaves its own stamp, or what was stored, and the Reconcile goes on with
      what the server answered. */
  lemma SeedStamps(cfg: Config, w: World, o: Outcome, x: nat)
    requires StampedSince(w, x) && w.op.Working? && w.op.next.SeedLastAccessed?
    ensures var w' := OperatorStep(cfg, w, o);
      && (w'.api.cr.Some? ==> AtLeast(w'.api.cr.value.status.lastAccessed, x))
      && NoOlderSeed(w', x) && HoldsNoOlder(w', x)
  {
    hide DecideStep, AccessStep, PolicyStep, PvcStep, PodStep, ReportStep, ServiceStep, WholeSeconds, NoOlderInFlight;
    assert OperatorStep(cfg, w, o) == SeedStep(w, o);
  }

  lemma JudgeReads(cfg: Config, w: World, o: Outcome, x: nat)
    requires StampedSince(w, x) && w.op.Working? && w.op.next.JudgeIdle?
    ensures NoOlderSeed(OperatorStep(cfg, w, o), x)
    ensures HoldsNoOlder(w, x) ==> HoldsNoOlder(OperatorStep(cfg, w, o), x)
  {
    hide DecideStep, AccessStep, PolicyStep, PvcStep, PodStep, ReportStep, SeedStep, ServiceStep, WholeSeconds, PodReport, NoOlderInFlight;
  }

  /** What a Reconcile holds and seeds once nothing older is stored. */
  lemma OperatorReads(cfg: Config, w: World, o: Outcome, x: nat)
    requires StampedSince(w, x)
    ensures NoOlderSeed(OperatorStep(cfg, w, o), x)
    ensures HoldsNoOlder(w, x) ==> HoldsNoOlder(OperatorStep(cfg, w, o), x)
  {
    hide OperatorStep, WholeSeconds, NoOlderInFlight;
    if w.op.Working? && w.op.next.EnsureService? {
      ServiceReads(cfg, w, o, x);
    } else if w.op.Working? && w.op.next.SeedLastAccessed? {
      SeedStamps(cfg, w, o, x);
    } else if w.op.Working? && w.op.next.JudgeIdle? {
      JudgeReads(cfg, w, o, x);
    } else {
      EarlyCallsReportNothingRunning(cfg, w, o);
    }
  }

  lemma OperatorStaysStamped(cfg: Config, w: World, o: Outcome, x: nat)
    requires StampedSince(w, x)
    ensures StampedSince(OperatorStep(cfg, w, o), x)
  {
    hide OperatorStep, WholeSeconds;
    var w' := OperatorStep(cfg, w, o);
    OperatorLeavesGateway(cfg, w, o);
    OperatorLeavesClock(cfg, w, o);
    OperatorReads(cfg, w, o, x);
    if w.op.Working? && w.op.next.SeedLastAccessed? {
      SeedStamps(cfg, w, o, x);
    } else if w'.api.cr.Some? {
      OperatorStepKeepsLastAccessed(cfg, w, o);
    }
  }

  lemma OperatorLeavesClock(cfg: Config, w: World, o: Outcome)
    ensures OperatorStep(cfg, w, o).clock == w.clock
  {
    hide ApplyPatch, Diff, Summarised, WantedDenyAll, WantedEgress, WantedIngress, IsPodReady, FirstStuck;
  }

  lemma DeliverStaysStamped(w: World, m: Message, x: nat)
    requires StampedSince(w, x)
    ensures StampedSince(Deliver(w, m), x)
  {
    hide WholeSeconds, Decode;
  }

  lemma SendStaysStamped(cfg: Config, w: World, e: Event, x: nat)
    requires StampedSince(w, x)
    requires e.GatewayWake? || e.GatewayTouch? || e.GatewayLose?
    ensures StampedSince(Do(cfg, w, e), x)
  {
    hide OperatorStep, Deliver, Collected, WholeSeconds;
  }

  /** Other steps leave the operator alone and bring in no older stamp. */
  lemma StampedDependsOn(w: World, w': World, x: nat)
    requires StampedSince(w, x) && w'.op == w.op && w'.inflight == w.inflight && w'.clock >= w.clock
    requires w'.api.cr.Some? ==> w.api.cr.Some? && w'.api.cr.value.status == w.api.cr.value.status
    ensures StampedSince(w', x)
  {
    hide WholeSeconds;
    WholeSecondsMonotone(w.clock, w'.clock);
  }

  lemma StepStaysStamped(cfg: Config, w: World, e: Event, x: nat)
    requires StampedSince(w, x)
    ensures StampedSince(Do(cfg, w, e), x)
  {
    hide OperatorStep, Deliver, Collected, WholeSeconds, StampedSince, WakeMessage, TouchMessage;
    match e
    case Operate(o) => OperatorStaysStamped(cfg, w, o, x);
    case GatewayDeliver(m) => DeliverStaysStamped(w, m, x);
    case GatewayWake(_) => SendStaysStamped(cfg, w, e, x);
    case GatewayTouch(_) => SendStaysStamped(cfg, w, e, x);
    case GatewayLose(_) => SendStaysStamped(cfg, w, e, x);
    case Collect(t) =>
      CollectLeavesWorkspace(w.api, t);
      StampedDependsOn(w, Do(cfg, w, e), x);
    case _ => StampedDependsOn(w, Do(cfg, w, e), x);
  }

  lemma {:induction false} StampedThroughout(cfg: Config, w: World, es: seq<Event>, x: nat)
    requires StampedSince(w, x)
    ensures StampedSince(Run(cfg, w, es), x)
  {
    hide Do, StampedSince;
    if es != [] {
      var n := |es| - 1;
      StampedThroughout(cfg, w, es[..n], x);
      StepStaysStamped(cfg, Run(cfg, w, es[..n]), es[n], x);
    }
  }

  /** A Reconcile that holds nothing older at some point of the run never does later. */
  lemma {:induction false} HeldThroughout(cfg: Config, w: World, es: seq<Event>, k: nat, x: nat)
    requires StampedSince(w, x) && k <= |es| && HoldsNoOlder(Run(cfg, w, es[..k]), x)
    ensures HoldsNoOlder(Run(cfg, w, es), x)
  {
    hide OperatorStep, Deliver, Collected, StampedSince;
    if k == |es| {
      assert es[..k] == es;
    } else {
      var n := |es| - 1;
      assert es[..n][..k] == es[..k];
      HeldThroughout(cfg, w, es[..n], k, x);
      StampedThroughout(cfg, w, es[..n], x);
      if es[n].Operate? {
        OperatorReads(cfg, Run(cfg, w, es[..n]), es[n].outcome, x);
      } else {
        OutsideLeavesOperator(cfg, Run(cfg, w, es[..n]), es[n]);
      }
    }
  }

  lemma JudgedActive(cfg: Config, v: World, x: nat, o: Outcome)
    requires HoldsNoOlder(v, x) && v.op.Working? && v.op.next.JudgeIdle? && v.clock - x <= v.op.next.idle
    ensures OperatorStep(cfg, v, o) == v.(op := Working(v.op.ws, PodReport(v.op.next.pod, v.op.next.idle)))
  {
    hide PodReport, WholeSeconds, DecideStep, AccessStep, PolicyStep, PvcStep, PodStep, ReportStep, SeedStep, ServiceStep;
  }

  // ------------------------------------------------------- a session in a run

  /** A stamp for the second x arrives and counts: its message is still there and so is
      the Workspace, its sender's copy did not already hold this second's stamp unless
      the store holds one as new, and nothing older is on its way or about to be seeded. */
  predicate Arrives(w: World, held: Status, m: Message, x: nat) {
    && w.api.cr.Some? && m in w.inflight
    && (held.lastAccessed == Some(x) ==> AtLeast(w.api.cr.value.status.lastAccessed, x))
    && NoOlderInFlight(w, x) && NoOlderSeed(w, x)
  }

  /** The stamp is sent in w, any run goes by, and then it is delivered. */
  function Stamping(cfg: Config, w: World, held: Status, transit: seq<Event>): World {
    Do(cfg, Run(cfg, Do(cfg, w, GatewayTouch(held)), transit), GatewayDeliver(TouchMessage(held, w.clock)))
  }

  lemma StepKeepsTime(cfg: Config, w: World, e: Event)
    ensures Do(cfg, w, e).clock >= w.clock
  {
    hide OperatorStep, Deliver, Collected;
    if e.Operate? {
      OperatorLeavesClock(cfg, w, e.outcome);
    } else {
      OutsideLeavesOperator(cfg, w, e);
    }
  }

  lemma {:induction false} TimeGoesOn(cfg: Config, w: World, es: seq<Event>)
    ensures Run(cfg, w, es).clock >= w.clock
  {
    hide Do;
    if es != [] {
      TimeGoesOn(cfg, w, es[..|es| - 1]);
      StepKeepsTime(cfg, Run(cfg, w, es[..|es| - 1]), es[|es| - 1]);
    }
  }

  /** However long a stamp is under way, and whatever happens meanwhile: when it arrives
      and counts, nothing older is stored, on its way or about to be seeded. */
  lemma TouchArrives(cfg: Config, w: World, held: Status, transit: seq<Event>)
    requires Arrives(Run(cfg, Do(cfg, w, GatewayTouch(held)), transit), held, TouchMessage(held, w.clock), WholeSeconds(w.clock))
    ensures StampedSince(Stamping(cfg, w, held, transit), WholeSeconds(w.clock))
  {
    hide Do, Run, WholeSeconds, TouchMessage, Arrives, StampedSince;
    var sent := Do(cfg, w, GatewayTouch(held));
    var mid := Run(cfg, sent, transit);
    StepKeepsTime(cfg, w, GatewayTouch(held));
    TimeGoesOn(cfg, sent, transit);
    WholeSecondsMonotone(w.clock, mid.clock);
    assert Stamping(cfg, w, held, transit) == Deliver(mid, TouchMessage(held, w.clock)) by { DeliverEvent(cfg, mid, TouchMessage(held, w.clock)); }
    DeliverTouch(mid, held, w.clock);
  }

  lemma DeliverEvent(cfg: Config, w: World, m: Message)
    ensures Do(cfg, w, GatewayDeliver(m)) == Deliver(w, m)
  {
    hide OperatorStep, Collected, Deliver;
  }

  lemma DeliverTouch(w: World, held: Status, at: nat)
    requires Arrives(w, held, TouchMessage(held, at), WholeSeconds(at)) && WholeSeconds(at) <= WholeSeconds(w.clock)
    ensures StampedSince(Deliver(w, TouchMessage(held, at)), WholeSeconds(at))
  {
    hide WholeSeconds, Decode;
  }

  /** Active sessions are not stopped. A session has seen frames, and the stamp of its
      last due frame is sent in w and arrives after any run. In every run from there, a
      Reconcile that held no older stamp at some point of it, because it began after the
      arrival or had read none before, and that judges within idle minus 61 seconds (plus
      two nanoseconds) of the last frame, does not take the idle branch. */
  lemma ActiveSessionIsNotStopped(
    cfg: Config, w: World, held: Status, transit: seq<Event>, frames: seq<nat>, es: seq<Event>, k: nat, o: Outcome)
    requires Nondecreasing(frames) && frames != [] && w.clock == LastOf(Touches(frames)).value
    requires Arrives(Run(cfg, Do(cfg, w, GatewayTouch(held)), transit), held, TouchMessage(held, w.clock), WholeSeconds(w.clock))
    requires var start := Stamping(cfg, w, held, transit);
      k <= |es| && HoldsNoOlder(Run(cfg, start, es[..k]), WholeSeconds(w.clock))
    requires var v := Run(cfg, Stamping(cfg, w, held, transit), es);
      && v.op.Working? && v.op.next.JudgeIdle?
      && v.clock + MARGIN <= frames[|frames| - 1] + v.op.next.idle
    ensures var v := Run(cfg, Stamping(cfg, w, held, transit), es);
      OperatorStep(cfg, v, o) == v.(op := Working(v.op.ws, PodReport(v.op.next.pod, v.op.next.idle)))
  {
    hide Do, Run, Touches, PodReport, StampedSince, OperatorStep, Nondecreasing, Arrives, Stamping, HoldsNoOlder;
    LastTouchIsRecent(frames);
    var x := WholeSeconds(w.clock);
    TouchArrives(cfg, w, held, transit);
    var start := Stamping(cfg, w, held, transit);
    HeldThroughout(cfg, start, es, k, x);
    JudgedActive(cfg, Run(cfg, start, es), x, o);
  }

  ghost predicate StampKept(cfg: Config, w: World, es: seq<Event>, x: nat) {
    var cr := Run(cfg, w, es).api.cr;
    cr.Some? ==> AtLeast(cr.value.status.lastAccessed, x)
  }

  /** A stored stamp never goes back, in any run, exactly when no older one is on its
      way and none is about to be seeded: a delayed patch of another session overwrites
      a newer stamp, and so does the seed of a Reconcile that had read none. */
  lemma StampsHoldExactly(cfg: Config, w: World, x: nat)
    requires x <= WholeSeconds(w.clock) && SeedInvariant(w)
    requires w.api.cr.Some? && AtLeast(w.api.cr.value.status.lastAccessed, x)
    ensures (forall es :: StampKept(cfg, w, es, x)) <==> NoOlderInFlight(w, x) && NoOlderSeed(w, x)
  {
    hide Run, WholeSeconds;
    if NoOlderInFlight(w, x) && NoOlderSeed(w, x) {
      forall es ensures StampKept(cfg, w, es, x) {
        StampedThroughout(cfg, w, es, x);
      }
    } else if !NoOlderSeed(w, x) {
      LateSeedArrives(cfg, w, x);
    } else {
      var m :| m in w.inflight && m.patch.lastAccessed.Some? && !AtLeast(m.patch.lastAccessed.value, x);
      LateStampArrives(cfg, w, m, x);
    }
  }

  lemma RunOne(cfg: Config, w: World, e: Event)
    ensures Run(cfg, w, [e]) == Do(cfg, w, e)
  {
    hide Do;
    assert [e][..0] == [];
    assert Run(cfg, w, [e][..0]) == w;
  }

  lemma LateStampArrives(cfg: Config, w: World, m: Message, x: nat)
    requires w.api.cr.Some? && m in w.inflight
    requires m.patch.lastAccessed.Some? && !AtLeast(m.patch.lastAccessed.value, x)
    ensures !StampKept(cfg, w, [GatewayDeliver(m)], x)
  {
    hide Run, OperatorStep, Collected, Decode;
    RunOne(cfg, w, GatewayDeliver(m));
  }

  lemma LateSeedArrives(cfg: Config, w: World, x: nat)
    requires w.api.cr.Some? && SeedInvariant(w) && !NoOlderSeed(w, x)
    ensures !StampKept(cfg, w, [Operate(Ok)], x)
  {
    hide Run, DecideStep, AccessStep, PolicyStep, PvcStep, PodStep, ReportStep, ServiceStep, Decode;
    RunOne(cfg, w, Operate(Ok));
    assert OperatorStep(cfg, w, Ok) == SeedStep(w, Ok);
  }

  // ------------------------------------------------------------- the margin

  /** A stamp can be a minute old, less one nanosecond, when a frame passes without
      a new one, and storing it drops up to a second, less one nanosecond. */
  const MARGIN: nat := MINUTE + SECOND - 2

  /** The margin is exact. A decision `gap` after the last frame is safe for every
      session exactly when the window leaves that margin. */
  lemma MarginIsExact(gap: nat, idle: int)
    ensures gap + MARGIN <= idle <==>
      forall frames: seq<nat> :: Nondecreasing(frames) && frames != [] ==>
        !Expired(Some(WholeSeconds(LastOf(Touches(frames)).value)), frames[|frames| - 1] + gap, idle)
  {
    hide Touches, Nondecreasing;
    if gap + MARGIN <= idle {
      forall frames: seq<nat> | Nondecreasing(frames) && frames != []
        ensures !Expired(Some(WholeSeconds(LastOf(Touches(frames)).value)), frames[|frames| - 1] + gap, idle)
      {
        LastTouchIsRecent(frames);
      }
    } else {
      WorstSession();
      var frames := [SECOND - 1, SECOND - 1 + MINUTE - 1];
      assert Expired(Some(WholeSeconds(LastOf(Touches(frames)).value)), frames[|frames| - 1] + gap, idle);
    }
  }

  /** Two frames: the second misses a new stamp by one nanosecond, and the stamp of
      the first is cut to the full second before it. */
  lemma WorstSession()
    ensures var frames := [SECOND - 1, SECOND - 1 + MINUTE - 1];
      && Nondecreasing(frames) && Touches(frames) == [SECOND - 1] && WholeSeconds(SECOND - 1) == 0
  {
    var frames: seq<nat> := [SECOND - 1, SECOND - 1 + MINUTE - 1];
    assert frames[..1] == [SECOND - 1];
    assert frames[..1][..0] == [];
    assert Touches(frames[..1]) == [SECOND - 1];
  }

  /** So a window less one minute, the rate limit alone, is not a safe margin: for
      every window of a minute or more a session can be judged idle that soon. */
  lemma OneMinuteIsNotEnough(idle: int)
    requires idle >= MINUTE
    ensures exists frames: seq<nat> ::
      && Nondecreasing(frames) && frames != []
      && Expired(Some(WholeSeconds(LastOf(Touches(frames)).value)), frames[|frames| - 1] + (idle - MINUTE), idle)
  {
    hide Touches, Nondecreasing;
    MarginIsExact(idle - MINUTE, idle);
  }
}
