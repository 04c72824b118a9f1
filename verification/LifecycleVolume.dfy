/**
 The volume guard is exact. Reconcile only checks that a claim of the right name
 exists, not whose it is: a pod can outlive its volume claim exactly when the claim
 it found belongs to another owner.
 */
module LifecycleVolume {
  import opened Common
  import opened WorkspaceApi
  import opened Lifecycle
  import opened LifecycleStabilise
  import opened LifecycleGuards
  import LifecycleWake

  /** The run `es` leads from w to w'. */
  predicate Leads(cfg: Config, w: World, es: seq<Event>, w': World) {
    Run(cfg, w, es) == w'
  }

  lemma LeadsOn(cfg: Config, w: World, es: seq<Event>, w': World, e: Event)
    requires Leads(cfg, w, es, w')
    ensures Leads(cfg, w, es + [e], Do(cfg, w', e))
  {
    hide Do;
    RunConcat(cfg, w, es, [e]);
    LifecycleWake.SingleEvent(cfg, w', e);
  }

  /** Six successful calls put all guards in place. */
  lemma GuardsInPlace(cfg: Config, w: World) returns (es: seq<Event>)
    requires w.op.Working? && w.op.next == EnsureAccount
    requires Adoptable(w.api.account) && Adoptable(w.api.role) && Adoptable(w.api.binding)
    requires Adoptable(w.api.denyAll) && Adoptable(w.api.egress) && Adoptable(w.api.ingress)
    ensures Leads(cfg, w, es, w.(api := Guarded(cfg, w.api, w.op.ws.spec), op := Working(w.op.ws, ReadPvc)))
  {
    hide WantedDenyAll, WantedEgress, WantedIngress, Leads;
    var w1 := AccessStep(w, Ok);
    var w2 := AccessStep(w1, Ok);
    var w3 := AccessStep(w2, Ok);
    var w4 := PolicyStep(cfg, w3, Ok);
    var w5 := PolicyStep(cfg, w4, Ok);
    var w6 := PolicyStep(cfg, w5, Ok);
    Start(cfg, w);
    LeadsOn(cfg, w, [], w, Operate(Ok));
    es := [] + [Operate(Ok)];
    LeadsOn(cfg, w, es, w1, Operate(Ok));
    es := es + [Operate(Ok)];
    LeadsOn(cfg, w, es, w2, Operate(Ok));
    es := es + [Operate(Ok)];
    LeadsOn(cfg, w, es, w3, Operate(Ok));
    es := es + [Operate(Ok)];
    LeadsOn(cfg, w, es, w4, Operate(Ok));
    es := es + [Operate(Ok)];
    LeadsOn(cfg, w, es, w5, Operate(Ok));
    es := es + [Operate(Ok)];
    assert w6 == w.(api := Guarded(cfg, w.api, w.op.ws.spec), op := Working(w.op.ws, ReadPvc));
  }

  lemma Start(cfg: Config, w: World)
    ensures Leads(cfg, w, [], w)
  {
  }

  lemma LeadsTogether(cfg: Config, w: World, es: seq<Event>, v: World, fs: seq<Event>, u: World)
    requires Leads(cfg, w, es, v) && Leads(cfg, v, fs, u)
    ensures Leads(cfg, w, es + fs, u)
  {
    hide Do;
    RunConcat(cfg, w, es, fs);
  }

  /** A startable Workspace that finds a volume claim and no pod. */
  predicate ClaimFound(w: World) {
    Newborn(w) && Startable(w) && w.api.cr.value.finalizer && w.api.pod.None? && w.api.pvc.Some?
  }

  lemma ReadAndDecide(cfg: Config, w: World) returns (es: seq<Event>)
    requires ClaimFound(w)
    ensures Leads(cfg, w, es, w.(op := Working(w.api.cr.value, EnsureAccount)))
  {
    hide Leads, AccessStep, PolicyStep, PvcStep, PodStep, ServiceStep, SeedStep, ReportStep, Adoptable;
    Start(cfg, w);
    LeadsOn(cfg, w, [], w, Operate(Ok));
    es := [] + [Operate(Ok)];
    LeadsOn(cfg, w, es, w.(op := Working(w.api.cr.value, Decide)), Operate(Ok));
    es := es + [Operate(Ok)];
  }

  /** The claim is read, then collected, then the pod is created. */
  lemma CollectBetween(cfg: Config, w: World) returns (es: seq<Event>)
    requires w.op.Working? && w.op.next == ReadPvc && w.api.pod.None?
    requires ForeignVolume(w.api) && w.api.pvc.value.phase != ClaimLost
    ensures Leads(cfg, w, es, w.(op := Resting(Settled(Some(2 * SECOND))),
      api := w.api.(pvc := None, pod := Some(Pod(Ours, Some(cfg.image), false, NEW_POD_STATUS)))))
  {
    hide Leads, AccessStep, PolicyStep, DecideStep, ServiceStep, SeedStep, ReportStep;
    Start(cfg, w);
    LeadsOn(cfg, w, [], w, Operate(Ok));
    es := [] + [Operate(Ok)];
    LeadsOn(cfg, w, es, w.(op := Working(w.op.ws, ReadPod)), Operate(Ok));
    es := es + [Operate(Ok)];
    var pending := w.(op := Working(w.op.ws, CreatePod));
    LeadsOn(cfg, w, es, pending, Collect(ThePvc));
    es := es + [Collect(ThePvc)];
    LeadsOn(cfg, w, es, pending.(api := w.api.(pvc := None)), Operate(Ok));
    es := es + [Operate(Ok)];
  }

  lemma ForeignVolumeVanishes(cfg: Config, w: World) returns (es: seq<Event>)
    requires ClaimFound(w) && ForeignVolume(w.api)
    ensures var api := Run(cfg, w, es).api; api.cr.Some? && OwnPod(api) && api.pvc.None?
  {
    hide WantedDenyAll, WantedEgress, WantedIngress, Leads;
    var first := ReadAndDecide(cfg, w);
    var v := w.(op := Working(w.api.cr.value, EnsureAccount));
    var second := GuardsInPlace(cfg, v);
    var u := v.(api := Guarded(cfg, w.api, w.api.cr.value.spec), op := Working(w.api.cr.value, ReadPvc));
    var third := CollectBetween(cfg, u);
    var t := u.(op := Resting(Settled(Some(2 * SECOND))),
      api := u.api.(pvc := None, pod := Some(Pod(Ours, Some(cfg.image), false, NEW_POD_STATUS))));
    LeadsTogether(cfg, w, first, v, second, u);
    LeadsTogether(cfg, w, first + second, u, third, t);
    es := first + second + third;
    assert Run(cfg, w, es) == t by { LeadsMeans(cfg, w, es, t); }
  }

  lemma LeadsMeans(cfg: Config, w: World, es: seq<Event>, w': World)
    requires Leads(cfg, w, es, w')
    ensures Run(cfg, w, es) == w'
  {
  }

  ghost predicate VolumeGuarded(cfg: Config, w: World, es: seq<Event>) {
    var api := Run(cfg, w, es).api;
    api.cr.Some? && OwnPod(api) ==> api.pvc.Some?
  }

  /** In every run the pod has its volume claim, exactly when the claim that was
      there at the start is not another owner's. */
  lemma VolumeGuardIsExact(cfg: Config, w: World)
    requires ClaimFound(w)
    ensures (forall es :: VolumeGuarded(cfg, w, es)) <==> !ForeignVolume(w.api)
  {
    hide Run, Startable;
    if ForeignVolume(w.api) {
      var es := ForeignVolumeVanishes(cfg, w);
      assert !VolumeGuarded(cfg, w, es);
    } else {
      forall es ensures VolumeGuarded(cfg, w, es) {
        var api := Run(cfg, w, es).api;
        if api.cr.Some? && OwnPod(api) {
          PodsAreGuarded(cfg, w, es);
        }
      }
    }
  }
}
