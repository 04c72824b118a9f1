/**
 The NetworkPolicy compiler of pkg/security/netpol.go, and the meaning of its
 output under the additive rules of the networking.k8s.io/v1 API.
 */
module NetworkPolicies {
  import opened Common
  import opened Text

  // ---------------------------------------------------------------- API types

  type Labels = map<string, string>

  datatype Protocol = TCP | UDP | SCTP
  datatype Direction = Ingress | Egress

  /** An IPv4 CIDR block: the network address and the prefix length. */
  datatype IpBlock = IpBlock(network: nat, prefix: nat)

  /** A label selector made of matchLabels alone is the map itself. */
  datatype Peer = Peer(pods: Option<Labels>, namespaces: Option<Labels>, block: Option<IpBlock>)
  datatype PortRule = PortRule(protocol: Protocol, port: int)
  datatype Rule = Rule(ports: seq<PortRule>, peers: seq<Peer>)
  datatype Policy = Policy(
    namespace: string,
    selector: Labels,
    types: set<Direction>,
    ingress: seq<Rule>,
    egress: seq<Rule>)

  // ------------------------------------------------- meaning of a policy set

  datatype IP = V4(bits: nat) | V6(bits: nat)
  datatype Workload = Workload(namespace: string, namespaceLabels: Labels, labels: Labels)

  /** The far end of a connection: an address and, when it is a pod, the pod. */
  datatype Endpoint = Endpoint(ip: IP, pod: Option<Workload>)

  datatype Flow = Flow(direction: Direction, far: Endpoint, protocol: Protocol, port: int)

  const NAME_LABEL := "kubernetes.io/metadata.name"

  /** Kubernetes labels every namespace with its own name. */
  ghost predicate WellLabelled(w: Workload) {
    NAME_LABEL in w.namespaceLabels && w.namespaceLabels[NAME_LABEL] == w.namespace
  }

  ghost predicate Selected(selector: Labels, labels: Labels) {
    forall k :: k in selector ==> k in labels && labels[k] == selector[k]
  }

  function Pow2(n: nat): (r: nat)
    ensures r > 0
  {
    if n == 0 then 1 else 2 * Pow2(n - 1)
  }

  /** Bit i of a 32-bit address, counted from the most significant. */
  function Bit(address: nat, i: nat): nat
    requires i < 32
  {
    address / Pow2(31 - i) % 2
  }

  /** An address is in a block when its first `prefix` bits are the network's. */
  ghost predicate InBlock(b: IpBlock, ip: IP) {
    ip.V4? && b.prefix <= 32 && forall i :: 0 <= i < b.prefix ==> Bit(ip.bits, i) == Bit(b.network, i)
  }

  /** A peer without a namespace selector means the policy's own namespace. */
  ghost predicate PeerMatches(policyNamespace: string, p: Peer, e: Endpoint) {
    match p.block
    case Some(b) => InBlock(b, e.ip)
    case None =>
      && e.pod.Some?
      && (p.pods.Some? || p.namespaces.Some?)
      && (match p.namespaces
          case Some(s) => Selected(s, e.pod.value.namespaceLabels)
          case None => e.pod.value.namespace == policyNamespace)
      && (p.pods.Some? ==> Selected(p.pods.value, e.pod.value.labels))
  }

  /** An empty list of ports or of peers matches everything. */
  ghost predicate RuleAllows(policyNamespace: string, r: Rule, f: Flow) {
    && (r.ports == [] || PortRule(f.protocol, f.port) in r.ports)
    && (r.peers == [] || exists p :: p in r.peers && PeerMatches(policyNamespace, p, f.far))
  }

  ghost predicate Applies(p: Policy, near: Workload, d: Direction) {
    p.namespace == near.namespace && Selected(p.selector, near.labels) && d in p.types
  }

  function RulesFor(p: Policy, d: Direction): seq<Rule> {
    if d == Ingress then p.ingress else p.egress
  }

  ghost predicate PolicyAllows(p: Policy, near: Workload, f: Flow) {
    && Applies(p, near, f.direction)
    && exists r :: r in RulesFor(p, f.direction) && RuleAllows(p.namespace, r, f)
  }

  /** A pod that no policy isolates in a direction is open in that direction;
      otherwise the union of the policies decides. */
  ghost predicate Permitted(policies: set<Policy>, near: Workload, f: Flow) {
    || (forall p :: p in policies ==> !Applies(p, near, f.direction))
    || (exists p :: p in policies && PolicyAllows(p, near, f))
  }

  // ------------------------------------------------------------- resolution

  const DEFAULT_EGRESS_PORTS: seq<int> := [22, 80, 443, 5000, 8000, 8080, 8081, 11434]
  const DEFAULT_LLM_NAMESPACE := "ai-system"

  function NonEmpty(ts: seq<string>): seq<string> {
    if ts == [] then []
    else
      var t := ts[|ts| - 1];
      NonEmpty(ts[..|ts| - 1]) + if t != [] then [t] else []
  }

  function TrimAll(input: seq<string>): seq<string> {
    seq(|input|, i requires 0 <= i < |input| => TrimSpace(input[i]))
  }

  /** Specification of CompactNonEmptyStrings. */
  function Compact(input: seq<string>): seq<string> {
    NonEmpty(TrimAll(input))
  }

  method CompactNonEmptyStrings(input: seq<string>) returns (out: seq<string>)
    ensures out == Compact(input)
  {
    out := [];
    for i := 0 to |input|
      invariant out == NonEmpty(TrimAll(input)[..i])
    {
      var t := TrimSpace(input[i]);
      assert TrimAll(input)[i] == t;
      assert TrimAll(input)[..i + 1][..i] == TrimAll(input)[..i];
      if t != [] {
        out := out + [t];
      }
    }
    assert TrimAll(input)[..|input|] == TrimAll(input);
  }

  lemma {:induction false} NonEmptyMembers(ts: seq<string>, x: string)
    ensures x in NonEmpty(ts) <==> x != [] && x in ts
  {
    if ts != [] {
      var n := |ts| - 1;
      NonEmptyMembers(ts[..n], x);
      assert ts == ts[..n] + [ts[n]];
    }
  }

  /** What survives compaction: exactly the trimmed forms of the non-blank entries. */
  lemma CompactMembers(input: seq<string>, x: string)
    ensures x in Compact(input) <==> x != [] && exists i :: 0 <= i < |input| && TrimSpace(input[i]) == x
  {
    var ts := TrimAll(input);
    NonEmptyMembers(ts, x);
    if i :| 0 <= i < |input| && TrimSpace(input[i]) == x {
      assert ts[i] == x;
    }
  }

  /** Compaction works entry by entry and keeps the order. */
  lemma CompactLaws(a: seq<string>, b: seq<string>, x: string)
    ensures Compact(a + b) == Compact(a) + Compact(b)
    ensures Compact([x]) == if TrimSpace(x) == [] then [] else [TrimSpace(x)]
  {
    hide TrimSpace, NonEmpty;
    assert TrimAll(a + b) == TrimAll(a) + TrimAll(b);
    NonEmptyConcat(TrimAll(a), TrimAll(b));
    assert TrimAll([x]) == [TrimSpace(x)];
    NonEmptyOne(TrimSpace(x));
  }

  lemma NonEmptyOne(t: string)
    ensures NonEmpty([t]) == if t == [] then [] else [t]
  {
    assert [t][..0] == [] && NonEmpty([]) == [];
  }

  lemma {:induction false} NonEmptyConcat(a: seq<string>, b: seq<string>)
    ensures NonEmpty(a + b) == NonEmpty(a) + NonEmpty(b)
  {
    if b == [] {
      assert a + b == a;
    } else {
      NonEmptyConcat(a, b[..|b| - 1]);
      assert (a + b)[..|a + b| - 1] == a + b[..|b| - 1];
    }
  }

  /** The entry list names x, up to blanks around it. */
  ghost predicate Offered(entries: seq<string>, x: string) {
    x != [] && exists i :: 0 <= i < |entries| && TrimSpace(entries[i]) == x
  }

  predicate AllBlank(entries: seq<string>) {
    forall i :: 0 <= i < |entries| ==> TrimSpace(entries[i]) == []
  }

  /** The namespaces a workspace may reach its models in: those of its spec, else those
      of the operator, else the one built in. */
  ghost predicate ModelNamespace(spec: seq<string>, operator: seq<string>, x: string) {
    || Offered(spec, x)
    || (AllBlank(spec) && Offered(operator, x))
    || (AllBlank(spec) && AllBlank(operator) && x == "ai-system")
  }

  lemma CompactOffers(entries: seq<string>)
    ensures forall x :: x in Compact(entries) <==> Offered(entries, x)
    ensures Compact(entries) == [] <==> AllBlank(entries)
  {
    forall x ensures x in Compact(entries) <==> Offered(entries, x) {
      CompactMembers(entries, x);
    }
    if Compact(entries) != [] {
      assert Offered(entries, Compact(entries)[0]);
    } else {
      forall i | 0 <= i < |entries| ensures TrimSpace(entries[i]) == [] {
        assert TrimSpace(entries[i]) != [] ==> Offered(entries, TrimSpace(entries[i]));
      }
    }
  }

  function ResolvedNamespaces(spec: seq<string>, operator: seq<string>): seq<string> {
    if Compact(spec) != [] then Compact(spec)
    else if Compact(operator) != [] then Compact(operator)
    else [DEFAULT_LLM_NAMESPACE]
  }

  /** The precedence in terms of the settings themselves. */
  lemma ResolvedNamespacesMeaning(spec: seq<string>, operator: seq<string>)
    ensures ResolvedNamespaces(spec, operator) != []
    ensures forall x :: x in ResolvedNamespaces(spec, operator) <==> ModelNamespace(spec, operator, x)
  {
    hide Compact, Offered, AllBlank;
    CompactOffers(spec);
    CompactOffers(operator);
    assert Compact(spec) != [] ==> Offered(spec, Compact(spec)[0]);
    NotBoth(spec);
    NotBoth(operator);
  }

  lemma NotBoth(entries: seq<string>)
    ensures AllBlank(entries) ==> forall x :: !Offered(entries, x)
  {
  }

  method ResolveLLMEgressNamespaces(spec: seq<string>, operator: seq<string>) returns (ns: seq<string>)
    ensures ns == ResolvedNamespaces(spec, operator)
    ensures ns != [] && forall x :: x in ns <==> ModelNamespace(spec, operator, x)
  {
    hide Compact, ModelNamespace;
    ResolvedNamespacesMeaning(spec, operator);
    ns := CompactNonEmptyStrings(spec);
    if ns != [] {
      return;
    }
    ns := CompactNonEmptyStrings(operator);
    if ns != [] {
      return;
    }
    ns := [DEFAULT_LLM_NAMESPACE];
  }

  function ResolvedPorts(spec: seq<int>, operator: seq<int>): seq<int> {
    if spec != [] then spec else if operator != [] then operator else DEFAULT_EGRESS_PORTS
  }

  // --------------------------------------------------------------- builders

  predicate ValidPort(p: int) {
    1 <= p <= 65535
  }

  function WorkspaceSelector(user: string): Labels {
    map["app" := "workspace", "user" := user]
  }

  /** The labels of the pods of this user's workspace. */
  predicate WorkspaceLabels(labels: Labels, user: string) {
    && "app" in labels && labels["app"] == "workspace"
    && "user" in labels && labels["user"] == user
  }

  lemma SelectorMeaning(labels: Labels, user: string)
    ensures Selected(WorkspaceSelector(user), labels) <==> WorkspaceLabels(labels, user)
  {
    assert "app" in WorkspaceSelector(user) && "user" in WorkspaceSelector(user);
  }

  function NamespacePeer(name: string): Peer {
    Peer(None, Some(map[NAME_LABEL := name]), None)
  }

  function DenyAllPolicy(namespace: string, user: string): Policy {
    Policy(namespace, WorkspaceSelector(user), {Ingress, Egress}, [], [])
  }

  function NamespacePeers(names: seq<string>): seq<Peer> {
    seq(|names|, i requires 0 <= i < |names| => NamespacePeer(names[i]))
  }

  function TcpRules(ports: seq<int>): seq<PortRule> {
    seq(|ports|, i requires 0 <= i < |ports| => PortRule(TCP, ports[i]))
  }

  function ValidPorts(ports: seq<int>): seq<int> {
    if ports == [] then []
    else
      var p := ports[|ports| - 1];
      ValidPorts(ports[..|ports| - 1]) + if ValidPort(p) then [p] else []
  }

  lemma {:induction false} ValidPortsMembers(ports: seq<int>, p: int)
    ensures p in ValidPorts(ports) <==> p in ports && ValidPort(p)
  {
    if ports != [] {
      var n := |ports| - 1;
      ValidPortsMembers(ports[..n], p);
      assert ports == ports[..n] + [ports[n]];
    }
  }

  function InternetPorts(ports: seq<int>): seq<int> {
    if ValidPorts(ports) == [] then DEFAULT_EGRESS_PORTS else ValidPorts(ports)
  }

  function EgressPolicy(namespace: string, user: string, llm: seq<string>, ports: seq<int>): Policy {
    Policy(namespace, WorkspaceSelector(user), {Egress}, [],
      [Rule([PortRule(UDP, 53), PortRule(TCP, 53)], [NamespacePeer("kube-system")])]
      + (if llm != [] then [Rule([], NamespacePeers(llm))] else [])
      + [Rule(TcpRules(InternetPorts(ports)), [Peer(None, None, Some(IpBlock(0, 0)))])])
  }

  /** BuildEgressNetworkPolicy: the peers, the port list and its fallback are
      each filled by a loop. */
  method BuildEgressNetworkPolicy(namespace: string, user: string, llm: seq<string>, ports: seq<int>)
    returns (np: Policy)
    ensures np == EgressPolicy(namespace, user, llm, ports)
  {
    var rules := [Rule([PortRule(UDP, 53), PortRule(TCP, 53)], [NamespacePeer("kube-system")])];
    if |llm| > 0 {
      var peers: seq<Peer> := [];
      for i := 0 to |llm|
        invariant |peers| == i && forall j :: 0 <= j < i ==> peers[j] == NamespacePeer(llm[j])
      {
        peers := peers + [NamespacePeer(llm[i])];
      }
      assert peers == NamespacePeers(llm);
      rules := rules + [Rule([], peers)];
    }
    var internet: seq<PortRule> := [];
    for i := 0 to |ports|
      invariant internet == TcpRules(ValidPorts(ports[..i]))
    {
      assert ports[..i + 1][..i] == ports[..i];
      if ports[i] < 1 || ports[i] > 65535 {
        continue;
      }
      internet := internet + [PortRule(TCP, ports[i])];
    }
    assert ports[..|ports|] == ports;
    if |internet| == 0 {
      for i := 0 to |DEFAULT_EGRESS_PORTS|
        invariant internet == TcpRules(DEFAULT_EGRESS_PORTS[..i])
      {
        internet := internet + [PortRule(TCP, DEFAULT_EGRESS_PORTS[i])];
      }
      assert DEFAULT_EGRESS_PORTS[..|DEFAULT_EGRESS_PORTS|] == DEFAULT_EGRESS_PORTS;
    }
    assert internet == TcpRules(InternetPorts(ports));
    rules := rules + [Rule(internet, [Peer(None, None, Some(IpBlock(0, 0)))])];
    np := Policy(namespace, WorkspaceSelector(user), {Egress}, [], rules);
  }

  function IngressPolicy(namespace: string, user: string, gatewayNamespace: string): Policy {
    var gatewayPods := map["app" := "workspace-gateway"];
    var from := if gatewayNamespace == [] then None else Some(map[NAME_LABEL := gatewayNamespace]);
    Policy(namespace, WorkspaceSelector(user), {Ingress},
      [Rule([PortRule(TCP, 7681)], [Peer(Some(gatewayPods), from, None)])], [])
  }

  function CompiledPolicies(namespace: string, user: string, llm: seq<string>, ports: seq<int>, gatewayNamespace: string)
    : set<Policy>
  {
    {DenyAllPolicy(namespace, user), EgressPolicy(namespace, user, llm, ports),
     IngressPolicy(namespace, user, gatewayNamespace)}
  }

  // --------------------------------------------- what the union really means

  ghost predicate PodIn(e: Endpoint, namespace: string) {
    e.pod.Some? && e.pod.value.namespace == namespace
  }

  /** The traffic the design promises, without reference to policies. */
  ghost predicate Intended(namespace: string, llm: seq<string>, ports: seq<int>, gatewayNamespace: string, f: Flow) {
    match f.direction
    case Egress =>
      || (PodIn(f.far, "kube-system") && f.port == 53 && f.protocol in {UDP, TCP})
      || (exists ns :: ns in llm && PodIn(f.far, ns))
      || (f.far.ip.V4? && f.protocol == TCP && ValidPort(f.port)
          && f.port in (if exists p :: p in ports && ValidPort(p) then ports else DEFAULT_EGRESS_PORTS))
    case Ingress =>
      && f.protocol == TCP && f.port == 7681
      && PodIn(f.far, if gatewayNamespace == [] then namespace else gatewayNamespace)
      && "app" in f.far.pod.value.labels && f.far.pod.value.labels["app"] == "workspace-gateway"
  }

  lemma NamespacePeerMeaning(policyNamespace: string, name: string, e: Endpoint)
    requires e.pod.Some? ==> WellLabelled(e.pod.value)
    ensures PeerMatches(policyNamespace, NamespacePeer(name), e) <==> PodIn(e, name)
  {
    var selector: Labels := map[NAME_LABEL := name];
    assert NAME_LABEL in selector;
  }

  lemma TcpRulesMembers(ports: seq<int>, r: PortRule)
    ensures r in TcpRules(ports) <==> r.protocol == TCP && r.port in ports
  {
    var rules := TcpRules(ports);
    if r.protocol == TCP && r.port in ports {
      var i :| 0 <= i < |ports| && ports[i] == r.port;
      assert rules[i] == r;
    }
  }

  lemma InternetPortsMeaning(ports: seq<int>, p: int)
    ensures InternetPorts(ports) != []
    ensures p in InternetPorts(ports) <==>
            ValidPort(p) && p in (if exists q :: q in ports && ValidPort(q) then ports else DEFAULT_EGRESS_PORTS)
  {
    ValidPortsMembers(ports, p);
    if ValidPorts(ports) == [] {
      forall q | q in ports ensures !ValidPort(q) { ValidPortsMembers(ports, q); }
    } else {
      var q := ValidPorts(ports)[0];
      ValidPortsMembers(ports, q);
    }
  }

  /** The egress policy alone, rule by rule. */
  lemma EgressRulesMeaning(namespace: string, user: string, llm: seq<string>, ports: seq<int>, f: Flow)
    requires f.direction == Egress
    requires f.far.pod.Some? ==> WellLabelled(f.far.pod.value)
    ensures (exists r :: r in EgressPolicy(namespace, user, llm, ports).egress && RuleAllows(namespace, r, f))
            <==> Intended(namespace, llm, ports, [], f)
  {
    var dns := Rule([PortRule(UDP, 53), PortRule(TCP, 53)], [NamespacePeer("kube-system")]);
    var models := Rule([], NamespacePeers(llm));
    var internet := Rule(TcpRules(InternetPorts(ports)), [Peer(None, None, Some(IpBlock(0, 0)))]);
    var rules := EgressPolicy(namespace, user, llm, ports).egress;
    assert forall r :: r in rules <==> r == dns || r == internet || (llm != [] && r == models);
    assert RuleAllows(namespace, dns, f) <==>
           PodIn(f.far, "kube-system") && f.port == 53 && f.protocol in {UDP, TCP} by {
      NamespacePeerMeaning(namespace, "kube-system", f.far);
      assert dns.peers[0] == NamespacePeer("kube-system");
    }
    if llm != [] {
      ModelsRuleMeaning(namespace, llm, f);
    }
    assert RuleAllows(namespace, internet, f) <==>
           f.far.ip.V4? && f.protocol == TCP && f.port in InternetPorts(ports) by {
      TcpRulesMembers(InternetPorts(ports), PortRule(f.protocol, f.port));
      InternetPortsMeaning(ports, f.port);
      var anywhere := internet.peers[0];
      assert PeerMatches(namespace, anywhere, f.far) <==> f.far.ip.V4?;
      assert |internet.ports| == |InternetPorts(ports)| > 0;
    }
    InternetPortsMeaning(ports, f.port);
  }

  lemma ModelsRuleMeaning(namespace: string, llm: seq<string>, f: Flow)
    requires llm != []
    requires f.far.pod.Some? ==> WellLabelled(f.far.pod.value)
    ensures RuleAllows(namespace, Rule([], NamespacePeers(llm)), f) <==> exists ns :: ns in llm && PodIn(f.far, ns)
  {
    var peers := NamespacePeers(llm);
    forall i | 0 <= i < |llm| ensures PeerMatches(namespace, peers[i], f.far) <==> PodIn(f.far, llm[i]) {
      NamespacePeerMeaning(namespace, llm[i], f.far);
    }
    if exists ns :: ns in llm && PodIn(f.far, ns) {
      var ns :| ns in llm && PodIn(f.far, ns);
      var i :| 0 <= i < |llm| && llm[i] == ns;
      assert peers[i] in peers;
    }
  }

  lemma IngressRuleMeaning(namespace: string, user: string, gatewayNamespace: string, f: Flow)
    requires f.direction == Ingress
    requires f.far.pod.Some? ==> WellLabelled(f.far.pod.value)
    ensures (exists r :: r in IngressPolicy(namespace, user, gatewayNamespace).ingress && RuleAllows(namespace, r, f))
            <==> Intended(namespace, [], [], gatewayNamespace, f)
  {
    var rule := IngressPolicy(namespace, user, gatewayNamespace).ingress[0];
    var peer := rule.peers[0];
    assert forall r :: r in IngressPolicy(namespace, user, gatewayNamespace).ingress <==> r == rule;
    var gatewayPods: Labels := map["app" := "workspace-gateway"];
    assert "app" in gatewayPods;
    if gatewayNamespace != [] {
      var selector: Labels := map[NAME_LABEL := gatewayNamespace];
      assert NAME_LABEL in selector;
    }
    assert PeerMatches(namespace, peer, f.far) <==>
           PodIn(f.far, if gatewayNamespace == [] then namespace else gatewayNamespace)
           && Selected(gatewayPods, f.far.pod.value.labels);
    assert rule.ports == [PortRule(TCP, 7681)] && rule.peers == [peer];
    assert PortRule(f.protocol, f.port) in rule.ports <==> f.protocol == TCP && f.port == 7681;
    assert RuleAllows(namespace, rule, f) <==>
           f.protocol == TCP && f.port == 7681 && PeerMatches(namespace, peer, f.far);
    assert f.far.pod.Some? ==>
      (Selected(gatewayPods, f.far.pod.value.labels) <==>
       "app" in f.far.pod.value.labels && f.far.pod.value.labels["app"] == "workspace-gateway");
  }

  /** Main theorem: for the workspace's own pod the three generated policies
      permit exactly the intended traffic, in both directions. */
  lemma UnionIsIntended(
    namespace: string, user: string, llm: seq<string>, ports: seq<int>, gatewayNamespace: string,
    near: Workload, f: Flow)
    requires near.namespace == namespace && WorkspaceLabels(near.labels, user)
    requires f.far.pod.Some? ==> WellLabelled(f.far.pod.value)
    ensures Permitted(CompiledPolicies(namespace, user, llm, ports, gatewayNamespace), near, f)
            <==> Intended(namespace, llm, ports, gatewayNamespace, f)
  {
    SelectorMeaning(near.labels, user);
    var all := CompiledPolicies(namespace, user, llm, ports, gatewayNamespace);
    var deny := DenyAllPolicy(namespace, user);
    var egress := EgressPolicy(namespace, user, llm, ports);
    var ingress := IngressPolicy(namespace, user, gatewayNamespace);
    assert deny in all && egress in all && ingress in all;
    assert f.direction == Ingress || f.direction == Egress;
    assert Applies(deny, near, f.direction);
    assert !PolicyAllows(deny, near, f);
    if f.direction == Egress {
      EgressRulesMeaning(namespace, user, llm, ports, f);
      assert PolicyAllows(egress, near, f) <==> Intended(namespace, llm, ports, gatewayNamespace, f);
      assert !PolicyAllows(ingress, near, f);
    } else {
      IngressRuleMeaning(namespace, user, gatewayNamespace, f);
      assert PolicyAllows(ingress, near, f) <==> Intended(namespace, llm, ports, gatewayNamespace, f);
      assert !PolicyAllows(egress, near, f);
    }
  }

  /** No other pod is touched: what is not this user's workspace stays as open as it was. */
  lemma OtherPodsAreUntouched(
    namespace: string, user: string, llm: seq<string>, ports: seq<int>, gatewayNamespace: string,
    near: Workload, f: Flow)
    requires near.namespace != namespace || !WorkspaceLabels(near.labels, user)
    ensures Permitted(CompiledPolicies(namespace, user, llm, ports, gatewayNamespace), near, f)
  {
    SelectorMeaning(near.labels, user);
  }

  // ------------------------------------------------ from settings to traffic

  /** What a configured port list opens: its valid ports, or the built-in ones if it
      has none. */
  ghost predicate ListOpens(ports: seq<int>, p: int) {
    1 <= p <= 65535 &&
    if exists q :: q in ports && 1 <= q <= 65535 then p in ports else p in {22, 80, 443, 5000, 8000, 8080, 8081, 11434}
  }

  ghost predicate PortOpen(spec: seq<int>, operator: seq<int>, p: int) {
    || (spec != [] && ListOpens(spec, p))
    || (spec == [] && ListOpens(operator, p))
  }

  /** The traffic promised for these settings of the Workspace and of the operator. */
  ghost predicate IntendedFor(
    namespace: string, specNamespaces: seq<string>, operatorNamespaces: seq<string>,
    specPorts: seq<int>, operatorPorts: seq<int>, gatewayNamespace: string, f: Flow)
  {
    match f.direction
    case Egress =>
      || (PodIn(f.far, "kube-system") && f.port == 53 && f.protocol in {UDP, TCP})
      || (exists ns :: ModelNamespace(specNamespaces, operatorNamespaces, ns) && PodIn(f.far, ns))
      || (f.far.ip.V4? && f.protocol == TCP && PortOpen(specPorts, operatorPorts, f.port))
    case Ingress =>
      && f.protocol == TCP && f.port == 7681
      && PodIn(f.far, if gatewayNamespace == [] then namespace else gatewayNamespace)
      && "app" in f.far.pod.value.labels && f.far.pod.value.labels["app"] == "workspace-gateway"
  }

  /** The resolved ports open what the settings say. */
  lemma ResolvedPortsMeaning(spec: seq<int>, operator: seq<int>, p: int)
    ensures
      ValidPort(p) && p in (if exists q :: q in ResolvedPorts(spec, operator) && ValidPort(q)
                            then ResolvedPorts(spec, operator) else DEFAULT_EGRESS_PORTS)
      <==> PortOpen(spec, operator, p)
  {
    assert ValidPort(22) && 22 in DEFAULT_EGRESS_PORTS;
    assert p in DEFAULT_EGRESS_PORTS <==> p in {22, 80, 443, 5000, 8000, 8080, 8081, 11434};
  }

  lemma IntendedMeaning(
    namespace: string, specNamespaces: seq<string>, operatorNamespaces: seq<string>,
    specPorts: seq<int>, operatorPorts: seq<int>, gatewayNamespace: string, f: Flow)
    ensures
      Intended(namespace, ResolvedNamespaces(specNamespaces, operatorNamespaces),
               ResolvedPorts(specPorts, operatorPorts), gatewayNamespace, f)
      <==> IntendedFor(namespace, specNamespaces, operatorNamespaces, specPorts, operatorPorts, gatewayNamespace, f)
  {
    hide ResolvedNamespaces, ResolvedPorts, PortOpen, ModelNamespace;
    ResolvedNamespacesMeaning(specNamespaces, operatorNamespaces);
    ResolvedPortsMeaning(specPorts, operatorPorts, f.port);
  }
}
