/**
 Reconcile of controllers/workspace_controller.go in its own imperative form. A
 Reconcile that nothing interrupts performs exactly the steps of the state
 machine, for every pattern of failing API calls, so it is one of the machine's
 runs. Steps of others between its calls exist only in the machine.
 */
module Reconciler {
  import opened Common
  import opened WorkspaceApi
  import opened Lifecycle
  import opened LifecycleStabilise

  /** Consecutive operator steps; the k-th one meets outcome(k). */
  function Steps(cfg: Config, w: World, outcome: nat -> Outcome, n: nat): World {
    if n == 0 then w else OperatorStep(cfg, Steps(cfg, w, outcome, n - 1), outcome(n - 1))
  }

  /** Steps are a run of the lifecycle machine. */
  lemma {:induction false} StepsAreARun(cfg: Config, w: World, outcome: nat -> Outcome, n: nat)
    ensures Steps(cfg, w, outcome, n) == Run(cfg, w, seq(n, k requires 0 <= k => Operate(outcome(k))))
  {
    hide OperatorStep;
    if n > 0 {
      StepsAreARun(cfg, w, outcome, n - 1);
      var es := seq(n, k requires 0 <= k => Operate(outcome(k)));
      assert es[..n - 1] == seq(n - 1, k requires 0 <= k => Operate(outcome(k)));
    }
  }

  /** The machine after n steps: cluster, clock and operator are as given, and the
      gateway's part of the world is untouched. */
  predicate Reached(cfg: Config, w: World, outcome: nat -> Outcome, n: nat, api: Cluster, clock: nat, op: Operator) {
    Steps(cfg, w, outcome, n) == w.(api := api, clock := clock, op := op)
  }

  /** The machine is inside one Reconcile from step i up to, not including, step j. */
  predicate Busy(cfg: Config, w: World, outcome: nat -> Outcome, i: nat, j: nat) {
    forall k {:trigger Steps(cfg, w, outcome, k)} :: i <= k < j ==> Steps(cfg, w, outcome, k).op.Working?
  }

  /** Whatever fails, a Reconcile ends within fifteen steps. */
  lemma {:induction false} FewSteps(cfg: Config, w: World, outcome: nat -> Outcome, n: nat)
    requires w.op.Resting? && n > 0 && Busy(cfg, w, outcome, 1, n + 1)
    ensures Remaining(Steps(cfg, w, outcome, n).op.next) + n <= 15
  {
    hide OperatorStep;
    if n == 1 {
      assert Steps(cfg, w, outcome, 1) == OperatorStep(cfg, Steps(cfg, w, outcome, 0), outcome(0));
      FetchDecides(cfg, w, outcome(0));
    } else {
      FewSteps(cfg, w, outcome, n - 1);
      CallsGoForward(cfg, Steps(cfg, w, outcome, n - 1), outcome(n - 1));
    }
  }

  lemma FetchDecides(cfg: Config, w: World, o: Outcome)
    requires w.op.Resting?
    ensures OperatorStep(cfg, w, o).op.Working? ==> OperatorStep(cfg, w, o).op.next == Decide
  {
    hide DecideStep, AccessStep, PolicyStep, PvcStep, PodStep, ServiceStep, SeedStep, ReportStep;
  }

  /** Without failures the steps are the undisturbed Reconcile of self-stabilisation. */
  lemma {:induction false} StepsFinish(cfg: Config, w: World, outcome: nat -> Outcome, k: nat, n: nat)
    requires forall i :: outcome(i) == Ok
    requires k <= n && Busy(cfg, w, outcome, k, n) && Steps(cfg, w, outcome, n).op.Resting?
    ensures Finish(cfg, Steps(cfg, w, outcome, k)) == Steps(cfg, w, outcome, n)
    decreases n - k
  {
    hide OperatorStep;
    if k < n {
      assert Steps(cfg, w, outcome, k).op.Working?;
      StepsFinish(cfg, w, outcome, k + 1, n);
    }
  }

  lemma UndisturbedReconcile(cfg: Config, w: World, outcome: nat -> Outcome, n: nat)
    requires w.op.Resting? && (forall i :: outcome(i) == Ok)
    requires n > 0 && Busy(cfg, w, outcome, 1, n) && Steps(cfg, w, outcome, n).op.Resting?
    ensures Steps(cfg, w, outcome, n) == Reconciled(cfg, w)
  {
    hide OperatorStep, Finish;
    StepsFinish(cfg, w, outcome, 1, n);
    assert Steps(cfg, w, outcome, 1) == OperatorStep(cfg, Steps(cfg, w, outcome, 0), outcome(0));
  }

  class WorkspaceReconciler {
    const cfg: Config
    var api: Cluster
    var clock: nat

    constructor (cfg: Config, api: Cluster, clock: nat)
      ensures this.cfg == cfg && this.api == api && this.clock == clock
    {
      this.cfg, this.api, this.clock := cfg, api, clock;
    }

    /** After n steps the machine agrees with this object. */
    ghost predicate At(w: World, outcome: nat -> Outcome, n: nat, op: Operator)
      reads this
    {
      Reached(cfg, w, outcome, n, api, clock, op)
    }

    lemma Start(w: World, outcome: nat -> Outcome)
      requires w.api == api && w.clock == clock
      ensures At(w, outcome, 0, w.op)
    {
    }

    /** The machine's next step from here. */
    lemma Next(w: World, outcome: nat -> Outcome, n: nat, op: Operator)
      requires At(w, outcome, n, op)
      ensures Steps(cfg, w, outcome, n + 1) == OperatorStep(cfg, w.(api := api, clock := clock, op := op), outcome(n))
    {
      hide OperatorStep;
    }

    /** Reconcile: whatever the API calls answer, it takes the machine from rest to
        rest and leaves the cluster as the machine does. */
    method Reconcile(outcome: nat -> Outcome, ghost w: World) returns (calls: nat, answer: Result)
      requires w.op.Resting? && w.api == api && w.clock == clock
      modifies this`api
      ensures 0 < calls <= 15
      ensures At(w, outcome, calls, Resting(answer)) && Busy(cfg, w, outcome, 1, calls)
      ensures (forall i :: outcome(i) == Ok) ==> api == Reconciled(cfg, w).api && Resting(answer) == Reconciled(cfg, w).op
    {
      calls, answer := Attempt(outcome, w);
      hide OperatorStep, Finish, Reconciled;
      if calls > 1 {
        FewSteps(cfg, w, outcome, calls - 1);
      }
      if forall i :: outcome(i) == Ok {
        UndisturbedReconcile(cfg, w, outcome, calls);
      }
    }

    method Attempt(outcome: nat -> Outcome, ghost w: World) returns (calls: nat, answer: Result)
      requires w.op.Resting? && w.api == api && w.clock == clock
      modifies this`api
      ensures calls > 0 && At(w, outcome, calls, Resting(answer)) && Busy(cfg, w, outcome, 1, calls)
    {
      hide Steps, ApplyPatch, Diff, Failure, Setback;
      Start(w, outcome);
      Next(w, outcome, 0, w.op);
      var o := outcome(0);
      if !o.Ok? {
        return 1, Errored;
      }
      if api.cr.None? {
        return 1, Settled(None);
      }
      var ws := api.cr.value;
      assert At(w, outcome, 1, Working(ws, Decide));
      Next(w, outcome, 1, Working(ws, Decide));
      o := outcome(1);
      if ws.deleting {
        var ok := UpdateObject(ws, None, o);
        return 2, if ok then Settled(None) else Errored;
      }
      if !ValidSpec(ws.spec) {
        answer := UpdateStatus(ws, Failure(Validation, 0), Settled(None), outcome, 2, w);
        return 3, answer;
      }
      if !ws.finalizer {
        var ok := UpdateObject(ws, Some(ws.(finalizer := true)), o);
        return 2, if ok then Settled(Some(0)) else Errored;
      }
      if ws.status.phase == Stopped {
        return 2, Settled(None);
      }
      assert At(w, outcome, 2, Working(ws, EnsureAccount));
      calls, answer := Provision(ws, outcome, 2, w);
    }

    /** The part of Reconcile that builds and watches the workspace. */
    method Provision(ws: Workspace, outcome: nat -> Outcome, n: nat, ghost w: World)
      returns (calls: nat, answer: Result)
      requires At(w, outcome, n, Working(ws, EnsureAccount))
      modifies this`api
      ensures calls > n && At(w, outcome, calls, Resting(answer))
      ensures Busy(cfg, w, outcome, n, calls)
    {
      hide Steps, Setback;
      var failed: Option<nat>;
      calls, failed := EnsureRBAC(ws, outcome, n, w);
      if failed.Some? {
        answer := UpdateStatus(ws, Setback(ws, Access, failed.value), Errored, outcome, calls, w);
        return calls + 1, answer;
      }
      calls, failed := EnsureNetworkPolicies(ws, outcome, calls, w);
      if failed.Some? {
        answer := UpdateStatus(ws, Setback(ws, Policies, failed.value), Errored, outcome, calls, w);
        return calls + 1, answer;
      }
      var early: Option<Result>;
      calls, early := EnsurePVC(ws, outcome, calls, w);
      if early.Some? {
        return calls, early.value;
      }
      var pod: Option<Pod>;
      calls, early, pod := EnsurePod(ws, outcome, calls, w);
      if early.Some? {
        return calls, early.value;
      }
      calls, answer := Publish(ws, pod.value, outcome, calls, w);
    }

    /** ensureRBAC */
    method EnsureRBAC(ws: Workspace, outcome: nat -> Outcome, n: nat, ghost w: World)
      returns (calls: nat, failed: Option<nat>)
      requires At(w, outcome, n, Working(ws, EnsureAccount))
      modifies this`api
      ensures calls > n && Busy(cfg, w, outcome, n, calls)
      ensures failed.None? ==> At(w, outcome, calls, Working(ws, EnsureDenyAll))
      ensures failed.Some? ==>
        At(w, outcome, calls, Working(ws, Report(Setback(ws, Access, failed.value), Errored)))
    {
      hide Steps, Setback;
      var o := outcome(n);
      var ok := EnsureSucceeds(api.account, o);
      Next(w, outcome, n, Working(ws, EnsureAccount));
      api := api.(account := Ensured(api.account, AsBuilt, o));
      if !ok {
        return n + 1, Some(Code(o));
      }
      assert At(w, outcome, n + 1, Working(ws, EnsureRole));
      o := outcome(n + 1);
      ok := EnsureSucceeds(api.role, o);
      Next(w, outcome, n + 1, Working(ws, EnsureRole));
      api := api.(role := Ensured(api.role, AsBuilt, o));
      if !ok {
        return n + 2, Some(Code(o));
      }
      assert At(w, outcome, n + 2, Working(ws, EnsureBinding));
      o := outcome(n + 2);
      ok := EnsureSucceeds(api.binding, o);
      Next(w, outcome, n + 2, Working(ws, EnsureBinding));
      api := api.(binding := Ensured(api.binding, AsBuilt, o));
      return n + 3, if ok then None else Some(Code(o));
    }

    /** ensureNetworkPolicies */
    method EnsureNetworkPolicies(ws: Workspace, outcome: nat -> Outcome, n: nat, ghost w: World)
      returns (calls: nat, failed: Option<nat>)
      requires At(w, outcome, n, Working(ws, EnsureDenyAll))
      modifies this`api
      ensures calls > n && Busy(cfg, w, outcome, n, calls)
      ensures failed.None? ==> At(w, outcome, calls, Working(ws, ReadPvc))
      ensures failed.Some? ==>
        At(w, outcome, calls, Working(ws, Report(Setback(ws, Policies, failed.value), Errored)))
    {
      hide Steps, Setback, WantedDenyAll, WantedEgress, WantedIngress;
      var o := outcome(n);
      var ok := EnsureSucceeds(api.denyAll, o);
      Next(w, outcome, n, Working(ws, EnsureDenyAll));
      api := api.(denyAll := Ensured(api.denyAll, WantedDenyAll(cfg), o));
      if !ok {
        return n + 1, Some(Code(o));
      }
      assert At(w, outcome, n + 1, Working(ws, EnsureEgress));
      o := outcome(n + 1);
      ok := EnsureSucceeds(api.egress, o);
      Next(w, outcome, n + 1, Working(ws, EnsureEgress));
      api := api.(egress := Ensured(api.egress, WantedEgress(cfg, ws.spec), o));
      if !ok {
        return n + 2, Some(Code(o));
      }
      assert At(w, outcome, n + 2, Working(ws, EnsureIngress));
      o := outcome(n + 2);
      ok := EnsureSucceeds(api.ingress, o);
      Next(w, outcome, n + 2, Working(ws, EnsureIngress));
      api := api.(ingress := Ensured(api.ingress, WantedIngress(cfg), o));
      return n + 3, if ok then None else Some(Code(o));
    }

    /** The volume claim: create it if missing, give up if it is lost. */
    method EnsurePVC(ws: Workspace, outcome: nat -> Outcome, n: nat, ghost w: World)
      returns (calls: nat, answer: Option<Result>)
      requires At(w, outcome, n, Working(ws, ReadPvc))
      modifies this`api
      ensures calls > n && Busy(cfg, w, outcome, n, calls)
      ensures answer.None? ==> At(w, outcome, calls, Working(ws, ReadPod))
      ensures answer.Some? ==> At(w, outcome, calls, Resting(answer.value))
    {
      hide Steps, Setback, Failure;
      var o := outcome(n);
      Next(w, outcome, n, Working(ws, ReadPvc));
      if !o.Ok? {
        var r := UpdateStatus(ws, Setback(ws, PvcRead, Code(o)), Errored, outcome, n + 1, w);
        return n + 2, Some(r);
      }
      if api.pvc.None? {
        var r: Result;
        calls, r := CreateClaim(ws, outcome, n + 1, w);
        return calls, Some(r);
      }
      if api.pvc.value.phase == ClaimLost {
        var r := UpdateStatus(ws, Failure(PvcLost, 0), Settled(None), outcome, n + 1, w);
        return n + 2, Some(r);
      }
      return n + 1, None;
    }

    method CreateClaim(ws: Workspace, outcome: nat -> Outcome, n: nat, ghost w: World)
      returns (calls: nat, answer: Result)
      requires At(w, outcome, n, Working(ws, CreatePvc)) && api.pvc.None?
      modifies this`api
      ensures calls > n && Busy(cfg, w, outcome, n, calls)
      ensures At(w, outcome, calls, Resting(answer))
    {
      hide Steps, Setback, Failure;
      var o := outcome(n);
      Next(w, outcome, n, Working(ws, CreatePvc));
      if !o.Rejected? {
        api := api.(pvc := Some(Pvc(Ours, ws.spec.storage, ClaimPending)));
      }
      if !o.Ok? {
        answer := UpdateStatus(ws, Failure(WorkspaceApi.PvcCreate, Code(o)), Settled(None), outcome, n + 1, w);
        return n + 2, answer;
      }
      var sum := Summary(Creating, ws.status.podName, ws.status.endpoint, Note(PvcBinding, 0), NoText, NoText, Progressing);
      answer := UpdateStatus(ws, sum, Settled(Some(2 * SECOND)), outcome, n + 1, w);
      return n + 2, answer;
    }

    /** The pod: create it if missing, delete it if its image is outdated. */
    method EnsurePod(ws: Workspace, outcome: nat -> Outcome, n: nat, ghost w: World)
      returns (calls: nat, answer: Option<Result>, pod: Option<Pod>)
      requires At(w, outcome, n, Working(ws, ReadPod))
      modifies this`api
      ensures calls > n && Busy(cfg, w, outcome, n, calls)
      ensures answer.None? ==> pod.Some? && At(w, outcome, calls, Working(ws, EnsureService(pod.value)))
      ensures answer.Some? ==> At(w, outcome, calls, Resting(answer.value))
    {
      hide Steps, Setback, Failure;
      var o := outcome(n);
      Next(w, outcome, n, Working(ws, ReadPod));
      if !o.Ok? {
        var r := UpdateStatus(ws, Setback(ws, PodRead, Code(o)), Errored, outcome, n + 1, w);
        return n + 2, Some(r), None;
      }
      if api.pod.None? {
        var r: Result;
        calls, r := StartPod(ws, outcome, n + 1, w);
        return calls, Some(r), None;
      }
      var found := api.pod.value;
      if Outdated(cfg, found) {
        assert At(w, outcome, n + 1, Working(ws, DeleteOutdated));
        o := outcome(n + 1);
        Next(w, outcome, n + 1, Working(ws, DeleteOutdated));
        if !o.Rejected? {
          api := api.(pod := Some(found.(terminating := true)));
        }
        return n + 2, Some(if o.Ok? then Settled(Some(2 * SECOND)) else Errored), None;
      }
      return n + 1, None, Some(found);
    }

    method StartPod(ws: Workspace, outcome: nat -> Outcome, n: nat, ghost w: World)
      returns (calls: nat, answer: Result)
      requires At(w, outcome, n, Working(ws, CreatePod)) && api.pod.None?
      modifies this`api
      ensures calls > n && Busy(cfg, w, outcome, n, calls)
      ensures At(w, outcome, calls, Resting(answer))
    {
      hide Steps, Setback, Failure;
      var o := outcome(n);
      Next(w, outcome, n, Working(ws, CreatePod));
      if !o.Rejected? {
        api := api.(pod := Some(Pod(Ours, Some(cfg.image), false, NEW_POD_STATUS)));
      }
      if !o.Ok? {
        answer := UpdateStatus(ws, Failure(WorkspaceApi.PodCreate, Code(o)), Settled(None), outcome, n + 1, w);
        return n + 2, answer;
      }
      return n + 1, Settled(Some(2 * SECOND));
    }

    /** The service, the idle check with its seed, and the final report. */
    method Publish(ws: Workspace, pod: Pod, outcome: nat -> Outcome, n: nat, ghost w: World)
      returns (calls: nat, answer: Result)
      requires At(w, outcome, n, Working(ws, EnsureService(pod)))
      modifies this`api
      ensures calls > n && Busy(cfg, w, outcome, n, calls)
      ensures At(w, outcome, calls, Resting(answer))
    {
      hide Steps, Serving, PodReport, WholeSeconds, Failure;
      var o := outcome(n);
      var ok := EnsureSucceeds(api.service, o);
      Next(w, outcome, n, Working(ws, EnsureService(pod)));
      api := api.(service := Ensured(api.service, AsBuilt, o));
      if !ok {
        answer := UpdateStatus(ws, Failure(ServiceEnsure, Code(o)), Settled(None), outcome, n + 1, w);
        return n + 2, answer;
      }
      var idle := EffectiveIdleTimeout(ws.spec, cfg.idleTimeout);
      if !(Serving(pod) && idle > 0) {
        var report := PodReport(pod, idle);
        answer := UpdateStatus(ws, report.sum, report.result, outcome, n + 1, w);
        return n + 2, answer;
      }
      if ws.status.lastAccessed.Some? {
        calls, answer := Judge(ws, pod, idle, outcome, n + 1, w);
        return;
      }
      calls, answer := Seed(ws, pod, idle, outcome, n + 1, w);
    }

    /** Stamp lastAccessed when the copy that was read has none. */
    method Seed(ws: Workspace, pod: Pod, idle: int, outcome: nat -> Outcome, n: nat, ghost w: World)
      returns (calls: nat, answer: Result)
      requires At(w, outcome, n, Working(ws, SeedLastAccessed(pod, idle, WholeSeconds(clock))))
      modifies this`api
      ensures calls > n && Busy(cfg, w, outcome, n, calls)
      ensures At(w, outcome, calls, Resting(answer))
    {
      hide Steps, WholeSeconds, ApplyPatch, Diff, Decode;
      var o := outcome(n);
      Next(w, outcome, n, Working(ws, SeedLastAccessed(pod, idle, WholeSeconds(clock))));
      var base := ws.status;
      var held := base.(lastAccessed := Some(WholeSeconds(clock)));
      var ok := PatchObject(base, held, o);
      if !ok {
        return n + 1, Errored;
      }
      var refreshed := api.cr.value.(status := Decode(held, api.cr.value.status));
      calls, answer := Judge(refreshed, pod, idle, outcome, n + 1, w);
    }

    /** Stop an idle pod, or report what the pod's status says. */
    method Judge(ws: Workspace, pod: Pod, idle: int, outcome: nat -> Outcome, n: nat, ghost w: World)
      returns (calls: nat, answer: Result)
      requires At(w, outcome, n, Working(ws, JudgeIdle(pod, idle)))
      modifies this`api
      ensures calls > n && Busy(cfg, w, outcome, n, calls)
      ensures At(w, outcome, calls, Resting(answer))
    {
      hide Steps, PodReport;
      Next(w, outcome, n, Working(ws, JudgeIdle(pod, idle)));
      if !Expired(ws.status.lastAccessed, clock, idle) {
        var report := PodReport(pod, idle);
        answer := UpdateStatus(ws, report.sum, report.result, outcome, n + 1, w);
        return n + 2, answer;
      }
      assert At(w, outcome, n + 1, Working(ws, DeleteIdle));
      var o := outcome(n + 1);
      Next(w, outcome, n + 1, Working(ws, DeleteIdle));
      if !o.Rejected? && api.pod.Some? {
        api := api.(pod := Some(api.pod.value.(terminating := true)));
      }
      if !o.Ok? {
        return n + 2, Errored;
      }
      answer := UpdateStatus(ws, STOPPED_SUMMARY, Settled(None), outcome, n + 2, w);
      return n + 3, answer;
    }

    /** updateStatus and the return statement after it. */
    method UpdateStatus(ws: Workspace, sum: Summary, result: Result, outcome: nat -> Outcome, n: nat, ghost w: World)
      returns (answer: Result)
      requires At(w, outcome, n, Working(ws, Report(sum, result)))
      modifies this`api
      ensures At(w, outcome, n + 1, Resting(answer))
    {
      hide Steps, Summarised, ApplyPatch, Diff;
      Next(w, outcome, n, Working(ws, Report(sum, result)));
      var ok := PatchObject(ws.status, Summarised(ws.status, sum, ws.generation, clock), outcome(n));
      return if ok then result else Errored;
    }

    /** r.Status().Patch: the stored object is changed by the difference, unversioned. */
    method PatchObject(base: Status, edited: Status, o: Outcome) returns (ok: bool)
      modifies this`api
      ensures ok == (o.Ok? && old(api).cr.Some?)
      ensures o.Rejected? || old(api).cr.None? ==> api == old(api)
      ensures !o.Rejected? && old(api).cr.Some? ==>
        var stored := old(api).cr.value;
        api == old(api).(cr := Some(stored.(status := ApplyPatch(stored.status, Diff(base, edited)))))
    {
      hide ApplyPatch, Diff;
      ok := o.Ok? && api.cr.Some?;
      if !o.Rejected? && api.cr.Some? {
        var stored := api.cr.value;
        api := api.(cr := Some(stored.(status := ApplyPatch(stored.status, Diff(base, edited)))));
      }
    }

    /** r.Update of the whole object, guarded by its resource version. */
    method UpdateObject(ws: Workspace, updated: Option<Workspace>, o: Outcome) returns (ok: bool)
      modifies this`api
      ensures ok == (o.Ok? && old(api).cr == Some(ws))
      ensures api == if !o.Rejected? && old(api).cr == Some(ws) then old(api).(cr := updated) else old(api)
    {
      ok := o.Ok? && api.cr == Some(ws);
      if !o.Rejected? && api.cr == Some(ws) {
        api := api.(cr := updated);
      }
    }
  }
}
