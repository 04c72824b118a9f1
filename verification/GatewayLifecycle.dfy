/**
 The gateway's side of the lifecycle: waiting for a workspace to run, and the two
 entry points of a login. The API server and the clock answer through a script;
 what the gateway sends are the messages of the lifecycle machine.
 */
module GatewayLifecycle {
  import opened Common
  import opened WorkspaceApi
  import opened Lifecycle
  import LifecycleIdle

  const READY_TIMEOUT: nat := 60 * SECOND
  const READY_POLL: nat := 2 * SECOND

  /** What one turn of the polling loop meets: the status that was read, if any; the
      outcome of a wake-up patch; whether the request was cancelled during the
      wait; and how long the turn took. */
  datatype Poll = Poll(read: Option<Status>, patch: Outcome, cancelled: bool, elapsed: nat)

  datatype Answer =
    | Snapshot(status: Status)
    | GetFailed
    | CreateFailed
    | WorkspaceFailed(message: Text)
    | RestartFailed
    | Cancelled
    | NotReady

  predicate SawPhase(p: Poll, phase: Phase) {
    p.read.Some? && p.read.value.phase == phase
  }

  /** The answer a turn ends the wait with, if it does. */
  function Verdict(p: Poll): Option<Answer> {
    if p.read.None? then Some(GetFailed)
    else if p.read.value.phase == Running then Some(Snapshot(p.read.value))
    else if p.read.value.phase == WorkspaceApi.Failed then Some(WorkspaceFailed(p.read.value.message))
    else if p.read.value.phase == Stopped && !p.patch.Ok? then Some(RestartFailed)
    else if p.cancelled then Some(Cancelled)
    else None
  }

  /** Time since the wait began, when turn n is about to start. */
  function Time(script: nat -> Poll, lag: nat, n: nat): nat {
    if n == 0 then lag else Time(script, lag, n - 1) + script(n - 1).elapsed
  }

  /** The wake-up patches of the first n turns. */
  function Wakes(script: nat -> Poll, n: nat): seq<Message> {
    if n == 0 then []
    else Wakes(script, n - 1) + (if SawPhase(script(n - 1), Stopped) then [WakeMessage(script(n - 1).read.value)] else [])
  }

  /** time.After: a turn that is not cut short lasts at least one poll interval. */
  ghost predicate WaitsItsTurn(script: nat -> Poll) {
    forall n: nat :: Verdict(script(n)).None? ==> script(n).elapsed >= READY_POLL
  }

  /** What ends a wait, after how many turns, and with which answer: the first turn
      with a verdict, or else the first that would start after the deadline. */
  predicate WaitEnds(script: nat -> Poll, lag: nat, polls: nat, answer: Answer) {
    && (forall n :: 0 <= n < polls ==> Time(script, lag, n) < READY_TIMEOUT)
    && (forall n :: 0 <= n < polls - 1 ==> Verdict(script(n)).None?)
    && if polls > 0 && Verdict(script(polls - 1)).Some? then answer == Verdict(script(polls - 1)).value
       else answer == NotReady && Time(script, lag, polls) >= READY_TIMEOUT
  }

  // What the answers mean, in terms of what the turns meet.

  /** The turn read a workspace that is neither Running nor Failed, woke it up if it was
      Stopped, and was not cut short. */
  predicate Undecided(p: Poll) {
    && p.read.Some? && p.read.value.phase !in {Running, WorkspaceApi.Failed}
    && (p.read.value.phase == Stopped ==> p.patch.Ok?) && !p.cancelled
  }

  predicate UndecidedBefore(script: nat -> Poll, n: nat) {
    forall j :: 0 <= j < n ==> Undecided(script(j))
  }

  /** Turn n takes place: it starts before the deadline, after undecided turns only. */
  predicate TurnReached(script: nat -> Poll, lag: nat, n: nat) {
    Time(script, lag, n) < READY_TIMEOUT && UndecidedBefore(script, n)
  }

  ghost predicate RunningReached(script: nat -> Poll, lag: nat) {
    exists n: nat :: TurnReached(script, lag, n) && SawPhase(script(n), Running)
  }

  predicate Woken(p: Poll) {
    p.read.Some? && p.read.value.phase !in {Running, WorkspaceApi.Failed} && (p.read.value.phase == Stopped ==> p.patch.Ok?)
  }

  lemma {:induction false} TimeGrows(script: nat -> Poll, lag: nat, m: nat, n: nat)
    requires m <= n
    ensures Time(script, lag, m) <= Time(script, lag, n)
  {
    if m < n { TimeGrows(script, lag, m, n - 1); }
  }

  /** Only the last turn can take place and decide. */
  lemma DecidingTurnIsLast(script: nat -> Poll, lag: nat, polls: nat, answer: Answer, n: nat)
    requires WaitEnds(script, lag, polls, answer) && TurnReached(script, lag, n) && !Undecided(script(n))
    ensures polls == n + 1
  {
    hide Time;
    if n >= polls {
      TimeGrows(script, lag, polls, n);
    }
  }

  lemma NoTimeoutBefore(script: nat -> Poll, lag: nat, last: nat, n: nat)
    requires Time(script, lag, last) < READY_TIMEOUT <= Time(script, lag, n)
    ensures last < n
  {
    hide Time;
    if n <= last {
      TimeGrows(script, lag, n, last);
    }
  }

  lemma SnapshotMeaning(script: nat -> Poll, lag: nat, polls: nat, answer: Answer)
    requires WaitEnds(script, lag, polls, answer)
    ensures answer.Snapshot? <==> RunningReached(script, lag)
  {
    hide WaitEnds, RunningReached, TurnReached, UndecidedBefore, Time, Woken;
    WaitMeaning(script, lag, polls, answer);
  }

  /** Each answer comes exactly when a turn that takes place calls for it; a timeout
      exactly when the deadline passes over undecided turns. */
  lemma WaitMeaning(script: nat -> Poll, lag: nat, polls: nat, answer: Answer)
    requires WaitEnds(script, lag, polls, answer)
    ensures answer.Snapshot? <==> RunningReached(script, lag)
    ensures answer == GetFailed <==> exists n: nat :: TurnReached(script, lag, n) && script(n).read.None?
    ensures answer.WorkspaceFailed? <==> exists n: nat :: TurnReached(script, lag, n) && SawPhase(script(n), WorkspaceApi.Failed)
    ensures answer == RestartFailed <==>
      exists n: nat :: TurnReached(script, lag, n) && SawPhase(script(n), Stopped) && !script(n).patch.Ok?
    ensures answer == Cancelled <==> exists n: nat :: TurnReached(script, lag, n) && Woken(script(n)) && script(n).cancelled
    ensures answer == NotReady <==> exists n: nat :: Time(script, lag, n) >= READY_TIMEOUT && UndecidedBefore(script, n)
    ensures answer != CreateFailed
    ensures answer.Snapshot? || answer.WorkspaceFailed? ==> polls > 0 && script(polls - 1).read.Some?
    ensures answer.Snapshot? ==> answer.status == script(polls - 1).read.value
    ensures answer.WorkspaceFailed? ==> answer.message == script(polls - 1).read.value.message
  {
    hide Time;
    forall n: nat | TurnReached(script, lag, n) && !Undecided(script(n)) ensures polls == n + 1 {
      DecidingTurnIsLast(script, lag, polls, answer, n);
    }
    if polls > 0 && Verdict(script(polls - 1)).Some? {
      assert TurnReached(script, lag, polls - 1);
      forall n: nat | Time(script, lag, n) >= READY_TIMEOUT ensures !UndecidedBefore(script, n) {
        NoTimeoutBefore(script, lag, polls - 1, n);
      }
    } else {
      assert UndecidedBefore(script, polls);
    }
  }

  /** waitForRunning */
  method WaitForRunning(script: nat -> Poll, lag: nat)
    returns (answer: Answer, restarted: bool, polls: nat, sent: seq<Message>)
    requires WaitsItsTurn(script)
    ensures polls <= 30
    ensures WaitEnds(script, lag, polls, answer)
    ensures answer.Snapshot? <==> RunningReached(script, lag)
    ensures answer.Snapshot? ==> polls > 0 && SawPhase(script(polls - 1), Running) && script(polls - 1).read == Some(answer.status)
    ensures restarted <==> exists n :: 0 <= n < polls && SawPhase(script(n), Stopped)
    ensures sent == Wakes(script, polls)
  {
    hide WakeMessage, Time, Wakes, RunningReached;
    var now := lag;
    Unfold(script, lag, 0);
    answer, restarted, polls, sent := NotReady, false, 0, [];
    while now < READY_TIMEOUT
      invariant now == Time(script, lag, polls) && now >= polls * READY_POLL
      invariant polls <= 30 && answer == NotReady
      invariant forall n :: 0 <= n < polls ==> Time(script, lag, n) < READY_TIMEOUT && Verdict(script(n)).None?
      invariant restarted <==> sent != []
      invariant sent == Wakes(script, polls)
      decreases READY_TIMEOUT - now
    {
      var turn := script(polls);
      Unfold(script, lag, polls);
      polls := polls + 1;
      if turn.read.None? {
        answer := GetFailed;
        break;
      }
      var status := turn.read.value;
      if status.phase == Running {
        answer := Snapshot(status);
        break;
      }
      if status.phase == WorkspaceApi.Failed {
        answer := WorkspaceFailed(status.message);
        break;
      }
      if status.phase == Stopped {
        restarted := true;
        sent := sent + [WakeMessage(status)];
        if !turn.patch.Ok? {
          answer := RestartFailed;
          break;
        }
      }
      if turn.cancelled {
        answer := Cancelled;
        break;
      }
      now := now + turn.elapsed;
    }
    WakesTell(script, polls);
    SnapshotMeaning(script, lag, polls, answer);
  }

  lemma Unfold(script: nat -> Poll, lag: nat, n: nat)
    ensures Time(script, lag, 0) == lag && Wakes(script, 0) == []
    ensures Time(script, lag, n + 1) == Time(script, lag, n) + script(n).elapsed
    ensures Wakes(script, n + 1) ==
      Wakes(script, n) + if SawPhase(script(n), Stopped) then [WakeMessage(script(n).read.value)] else []
  {
  }

  /** A wake-up patch is sent exactly when a turn saw Stopped. */
  lemma {:induction false} WakesTell(script: nat -> Poll, n: nat)
    ensures Wakes(script, n) != [] <==> exists k :: 0 <= k < n && SawPhase(script(k), Stopped)
  {
    hide WakeMessage;
    if n > 0 {
      WakesTell(script, n - 1);
    }
  }

  // ------------------------------------------------------------- entry points

  /** The Get at the start of both entry points. */
  datatype Fetched = Found(status: Status) | Missing | Unreadable

  /** EnsureExists; `stored` is the status that the wake-up patch meets on the server.
      A caller never receives a Stopped workspace, and waking does not stamp. */
  method EnsureExists(got: Fetched, create: Outcome, patch: Outcome, stored: Status)
    returns (answer: Answer, created: bool, restarted: bool, sent: seq<Message>)
    ensures created <==> got.Missing?
    ensures restarted <==> got.Found? && got.status.phase == Stopped
    ensures answer.Snapshot? <==>
      (got.Missing? && create.Ok?) || (got.Found? && (got.status.phase == Stopped ==> patch.Ok?))
    ensures answer.Snapshot? ==> answer.status.phase != Stopped
    ensures answer.Snapshot? && got.Missing? ==> answer.status == EMPTY_STATUS
    ensures answer.Snapshot? && got.Found? ==>
      && answer.status.lastAccessed == (if restarted then stored.lastAccessed else got.status.lastAccessed)
      && answer.status == if restarted then Decode(Cleared(got.status), ApplyPatch(stored, WakeMessage(got.status).patch)) else got.status
    ensures !answer.Snapshot? ==>
      answer == if got.Unreadable? then GetFailed else if got.Missing? then CreateFailed else RestartFailed
    ensures sent == if restarted then [WakeMessage(got.status)] else []
    ensures forall m :: m in sent ==> GatewayShaped(m) && !m.touch
  {
    sent := [];
    created, restarted := got.Missing?, false;
    if got.Unreadable? {
      return GetFailed, created, restarted, sent;
    }
    if got.Missing? {
      return if create.Ok? then Snapshot(EMPTY_STATUS) else CreateFailed, created, restarted, sent;
    }
    if got.status.phase == Stopped {
      restarted := true;
      sent := [WakeMessage(got.status)];
      if !patch.Ok? {
        return RestartFailed, created, restarted, sent;
      }
      return Snapshot(Decode(Cleared(got.status), ApplyPatch(stored, WakeMessage(got.status).patch))), created, restarted, sent;
    }
    return Snapshot(got.status), created, restarted, sent;
  }

  /** EnsureWorkspace. The stamp is sent only after a snapshot in phase Running was
      read, and then exactly once, last; a login that fails sends no stamp. */
  method EnsureWorkspace(got: Fetched, create: Outcome, script: nat -> Poll, lag: nat, now: nat, patch: Outcome, stored: Status)
    returns (answer: Answer, created: bool, restarted: bool, polls: nat, sent: seq<Message>)
    requires WaitsItsTurn(script)
    ensures created <==> got.Missing?
    ensures polls <= 30
    ensures restarted <==> exists n :: 0 <= n < polls && SawPhase(script(n), Stopped)
    ensures got.Unreadable? ==> answer == GetFailed && polls == 0
    ensures got.Missing? && !create.Ok? ==> answer == CreateFailed && polls == 0
    ensures got.Found? || (got.Missing? && create.Ok?) ==>
      && (answer.Snapshot? <==> RunningReached(script, lag))
      && (!answer.Snapshot? ==> WaitEnds(script, lag, polls, answer))
    ensures answer.Snapshot? ==> polls > 0 && SawPhase(script(polls - 1), Running)
    ensures answer.Snapshot? ==>
      var read := script(polls - 1).read.value;
      answer.status ==
        if patch.Ok? then Decode(Touched(read, now), ApplyPatch(stored, TouchMessage(read, now).patch)) else Touched(read, now)
    ensures answer.Snapshot? ==> sent == Wakes(script, polls) + [TouchMessage(script(polls - 1).read.value, now)]
    ensures !answer.Snapshot? ==> sent == Wakes(script, polls)
  {
    hide WaitEnds, RunningReached, Time, Wakes, Decode, ApplyPatch, TouchMessage, Touched;
    Unfold(script, lag, 0);
    created, restarted, polls, sent := got.Missing?, false, 0, [];
    if got.Unreadable? {
      return GetFailed, created, restarted, polls, sent;
    }
    if got.Missing? && !create.Ok? {
      return CreateFailed, created, restarted, polls, sent;
    }
    answer, restarted, polls, sent := WaitForRunning(script, lag);
    if answer.Snapshot? {
      var read := answer.status;
      var m := TouchMessage(read, now);
      sent := sent + [m];
      read := Touched(read, now);
      if patch.Ok? {
        read := Decode(read, ApplyPatch(stored, m.patch));
      }
      answer := Snapshot(read);
    }
  }

  lemma {:induction false} WakesNeverStamp(script: nat -> Poll, n: nat)
    ensures forall m :: m in Wakes(script, n) ==> GatewayShaped(m) && !m.touch && m.patch.lastAccessed.None?
  {
    if n > 0 {
      WakesNeverStamp(script, n - 1);
    }
  }

  // ------------------------------------------------- turns as runs of the machine

  /** The machine's events for one turn that reads this status. */
  function TurnEvents(p: Poll): seq<Event>
    requires p.read.Some?
  {
    var m := WakeMessage(p.read.value);
    if p.read.value.phase != Stopped then [GatewayRead]
    else [GatewayRead, GatewayWake(p.read.value), if p.patch.Rejected? then GatewayLose(m) else GatewayDeliver(m)]
  }

  /** A turn of the wait is a run of the machine: it clears a Stopped workspace, keeps
      everything else that is stored, and leaves nothing of its own on the way. */
  lemma TurnIsARun(cfg: Config, w: World, p: Poll)
    requires w.api.cr.Some? && p.read == Some(w.api.cr.value.status)
    ensures var ws := w.api.cr.value;
      var cleared := p.read.value.phase == Stopped && !p.patch.Rejected?;
      Run(cfg, w, TurnEvents(p)) ==
        w.(copies := w.copies + {ws.status},
           api := w.api.(cr := Some(if cleared then ws.(status := Cleared(ws.status)) else ws)))
  {
    hide Do, WakeMessage, Run, Cleared;
    var s, m := p.read.value, WakeMessage(p.read.value);
    var read, wake, end := [GatewayRead], GatewayWake(s), if p.patch.Rejected? then GatewayLose(m) else GatewayDeliver(m);
    var w1 := w.(copies := w.copies + {s});
    var w2 := w1.(inflight := w1.inflight + multiset{m});
    RunLast(cfg, w, [], GatewayRead);
    assert [] + read == read;
    assert Do(cfg, w, GatewayRead) == w1 by { ReadAndWake(cfg, w, s); }
    if s.phase == Stopped {
      RunLast(cfg, w, read, wake);
      assert Do(cfg, w1, wake) == w2 by { ReadAndWake(cfg, w1, s); }
      RunLast(cfg, w, read + [wake], end);
      assert TurnEvents(p) == read + [wake] + [end];
      assert w2.inflight - multiset{m} == w.inflight;
      DeliverOrLose(cfg, w2, s);
    }
  }

  lemma ReadAndWake(cfg: Config, w: World, s: Status)
    requires w.api.cr.Some? && w.api.cr.value.status == s
    ensures Do(cfg, w, GatewayRead) == w.(copies := w.copies + {s})
    ensures s in w.copies && s.phase == Stopped ==>
      Do(cfg, w, GatewayWake(s)) == w.(inflight := w.inflight + multiset{WakeMessage(s)})
  {
    hide OperatorStep, Collected, Deliver, WakeMessage;
  }

  lemma RunLast(cfg: Config, w: World, es: seq<Event>, e: Event)
    ensures Run(cfg, w, []) == w && Run(cfg, w, es + [e]) == Do(cfg, Run(cfg, w, es), e)
  {
    hide Do;
    assert (es + [e])[..|es|] == es;
  }

  lemma DeliverOrLose(cfg: Config, w: World, s: Status)
    requires w.api.cr.Some? && w.api.cr.value.status == s && WakeMessage(s) in w.inflight
    ensures var rest := w.inflight - multiset{WakeMessage(s)};
      && Do(cfg, w, GatewayLose(WakeMessage(s))) == w.(inflight := rest)
      && Do(cfg, w, GatewayDeliver(WakeMessage(s))) ==
           w.(api := w.api.(cr := Some(w.api.cr.value.(status := Cleared(s)))), inflight := rest)
  {
    hide OperatorStep, Collected;
  }

  // --------------------------------------------------- logging in after an idle stop

  /** The poll reads a status that the Workspace has at some point of some run from w
      in which no one edits the idle window. */
  ghost predicate ReadsFrom(cfg: Config, w: World, idle: int, p: Poll) {
    p.read.Some? ==>
      exists es ::
        && LifecycleIdle.KeepsWindow(cfg, es, idle)
        && Run(cfg, w, es).api.cr.Some? && Run(cfg, w, es).api.cr.value.status == p.read.value
  }

  lemma LatePollSeesNoRunning(cfg: Config, w: World, t: nat, idle: int, p: Poll)
    requires LifecycleIdle.Dormant(cfg, w, t, idle) && idle > 0 && ReadsFrom(cfg, w, idle, p)
    ensures !SawPhase(p, Running)
  {
    hide Run, LifecycleIdle.KeepsWindow;
    if p.read.Some? {
      var es :| LifecycleIdle.KeepsWindow(cfg, es, idle)
        && Run(cfg, w, es).api.cr.Some? && Run(cfg, w, es).api.cr.value.status == p.read.value;
      LifecycleIdle.WakingIsInVain(cfg, w, es, t, idle);
    }
  }

  /** A login to an overdue workspace without sessions cannot succeed: whatever the
      other components do meanwhile, the whole wait, with all its wake-ups, ends in an
      error or a timeout. */
  lemma LateLoginFails(cfg: Config, w: World, t: nat, idle: int, script: nat -> Poll, lag: nat, polls: nat, answer: Answer)
    requires LifecycleIdle.Dormant(cfg, w, t, idle) && idle > 0
    requires forall n: nat :: n < polls ==> ReadsFrom(cfg, w, idle, script(n))
    requires WaitEnds(script, lag, polls, answer)
    ensures !answer.Snapshot?
    ensures forall n: nat :: n < polls ==> !SawPhase(script(n), Running)
  {
    hide ReadsFrom, LifecycleIdle.Dormant, Time;
    forall n: nat | n < polls ensures !SawPhase(script(n), Running) {
      LatePollSeesNoRunning(cfg, w, t, idle, script(n));
    }
  }
}
