/**
 The comma-separated operator settings LLM_NAMESPACES and EGRESS_PORTS as main.go
 reads them, and as the Helm chart writes them.
 */
module Settings {
  import opened Common
  import opened Text
  import NP = NetworkPolicies

  /** What one entry of EGRESS_PORTS contributes. */
  function PortEntry(entry: string): seq<int> {
    var raw := TrimSpace(entry);
    var p := ParseInt32(raw);
    if raw == [] || p.None? || p.value < 1 || p.value > 65535 then [] else [p.value]
  }

  function PortEntries(entries: seq<string>): seq<int> {
    if entries == [] then []
    else PortEntries(entries[..|entries| - 1]) + PortEntry(entries[|entries| - 1])
  }

  function PortsOf(setting: string): seq<int> {
    if setting == [] then [] else PortEntries(Split(setting, ','))
  }

  method ParseEgressPorts(setting: string) returns (ports: seq<int>)
    ensures ports == PortsOf(setting)
    ensures forall p :: p in ports ==> NP.ValidPort(p)
  {
    hide TrimSpace, ParseInt32, Split;
    ports := [];
    if setting != [] {
      var entries := Split(setting, ',');
      for i := 0 to |entries|
        invariant ports == PortEntries(entries[..i])
      {
        assert entries[..i + 1][..i] == entries[..i];
        var raw := TrimSpace(entries[i]);
        if raw == [] {
          continue;
        }
        var p := ParseInt32(raw);
        if p.None? || p.value < 1 || p.value > 65535 {
          continue;
        }
        ports := ports + [p.value];
      }
      assert entries[..|entries|] == entries;
      OnlyValidPorts(entries);
    }
  }

  function NamespacesOf(setting: string): seq<string> {
    if setting == [] then [] else NP.Compact(Split(setting, ','))
  }

  method ParseLLMNamespaces(setting: string) returns (namespaces: seq<string>)
    ensures namespaces == NamespacesOf(setting)
    ensures forall x :: x in namespaces ==> x != [] && Trimmed(x)
  {
    namespaces := [];
    if setting != [] {
      var entries := Split(setting, ',');
      var trimmed := NP.TrimAll(entries);
      for i := 0 to |entries|
        invariant namespaces == NP.NonEmpty(trimmed[..i])
      {
        assert trimmed[..i + 1][..i] == trimmed[..i];
        var ns := TrimSpace(entries[i]);
        if ns != [] {
          namespaces := namespaces + [ns];
        }
      }
      assert trimmed[..|entries|] == trimmed;
    }
    OnlyPlainNamespaces(setting);
  }

  /** Whatever the setting holds, only trimmed, non-blank names come out. */
  lemma OnlyPlainNamespaces(setting: string)
    ensures forall x :: x in NamespacesOf(setting) ==> x != [] && Trimmed(x)
  {
    hide NP.Compact, TrimSpace, Split;
    var entries := Split(setting, ',');
    forall x | x in NP.Compact(entries) ensures x != [] && Trimmed(x) {
      NP.CompactMembers(entries, x);
      var i :| 0 <= i < |entries| && TrimSpace(entries[i]) == x;
      TrimSpaceMeaning(entries[i]);
    }
  }

  // ------------------------------------------------------------------ round trips

  /** The chart's rendering of a port list. */
  function RenderPorts(ports: seq<int>): string {
    Join(RenderAll(ports), ',')
  }

  function RenderAll(ports: seq<int>): seq<string> {
    seq(|ports|, i requires 0 <= i < |ports| => DecimalInt(ports[i]))
  }

  lemma RenderedPort(p: int)
    requires NP.ValidPort(p)
    ensures ',' !in DecimalInt(p) && PortEntry(DecimalInt(p)) == [p]
  {
    hide TrimSpace, ParseInt32, Decimal;
    var s := DecimalInt(p);
    forall i | 0 <= i < |s| ensures s[i] != ',' && !IsSpace(s[i]) { assert IsDigit(s[i]); }
    assert TrimSpace(s) == s by { TrimSpaceMeaning(s); }
    assert ParseInt32(s) == Some(p) by { ParseDecimal(p); }
  }

  lemma {:induction false} RenderedPorts(ports: seq<int>)
    requires forall i :: 0 <= i < |ports| ==> NP.ValidPort(ports[i])
    ensures forall s :: s in RenderAll(ports) ==> ',' !in s
    ensures PortEntries(RenderAll(ports)) == ports
  {
    hide DecimalInt, PortEntry;
    if ports != [] {
      var n := |ports| - 1;
      RenderedPorts(ports[..n]);
      RenderedPort(ports[n]);
      assert RenderAll(ports)[..n] == RenderAll(ports[..n]);
      assert RenderAll(ports) == RenderAll(ports[..n]) + [DecimalInt(ports[n])];
      assert ports == ports[..n] + [ports[n]];
    }
  }

  lemma {:induction false} JoinNonEmpty(parts: seq<string>, sep: char)
    requires parts != [] && parts[0] != []
    ensures Join(parts, sep) != []
  {
  }

  /** Parsing the comma-joined rendering of valid ports returns them. */
  lemma PortsRoundTrip(ports: seq<int>)
    requires forall i :: 0 <= i < |ports| ==> NP.ValidPort(ports[i])
    ensures PortsOf(RenderPorts(ports)) == ports
  {
    hide Join, Split, PortEntries, DecimalInt;
    if ports != [] {
      RenderedPorts(ports);
      assert RenderAll(ports)[0] == DecimalInt(ports[0]);
      JoinNonEmpty(RenderAll(ports), ',');
      SplitJoin(RenderAll(ports), ',');
    } else {
      assert RenderAll(ports) == [];
      JoinNothing(',');
    }
  }

  lemma JoinNothing(sep: char)
    ensures Join([], sep) == []
  {
  }

  /** Whatever the setting holds, only valid ports come out. */
  lemma {:induction false} OnlyValidPorts(entries: seq<string>)
    ensures forall p :: p in PortEntries(entries) ==> NP.ValidPort(p)
  {
    if entries != [] { OnlyValidPorts(entries[..|entries| - 1]); }
  }

  /** Parsing works entry by entry and keeps the order: an entry gives its port if it is
      a number in range, blanks aside, and nothing otherwise, whatever stands around it. */
  lemma {:induction false} PortsLaws(a: seq<string>, b: seq<string>, entry: string)
    ensures PortEntries(a + b) == PortEntries(a) + PortEntries(b)
    ensures forall p :: NP.ValidPort(p) && ParseInt32(TrimSpace(entry)) == Some(p) ==> PortEntries([entry]) == [p]
    ensures (forall p :: NP.ValidPort(p) ==> ParseInt32(TrimSpace(entry)) != Some(p)) ==> PortEntries([entry]) == []
  {
    hide TrimSpace, ParseInt32;
    assert [entry][..0] == [] && PortEntries([entry][..0]) == [];
    assert ParseInt32([]) == None by { NothingParses(); }
    if b == [] {
      assert a + b == a;
    } else {
      PortsLaws(a, b[..|b| - 1], entry);
      assert (a + b)[..|a + b| - 1] == a + b[..|b| - 1];
    }
  }

  lemma NothingParses()
    ensures ParseInt32([]) == None
  {
  }

  predicate PlainNamespaces(ns: seq<string>) {
    forall i :: 0 <= i < |ns| ==> ns[i] != [] && Trimmed(ns[i]) && ',' !in ns[i]
  }

  lemma {:induction false} NonEmptyKeeps(ts: seq<string>)
    requires forall i :: 0 <= i < |ts| ==> ts[i] != []
    ensures NP.NonEmpty(ts) == ts
  {
    if ts != [] {
      NonEmptyKeeps(ts[..|ts| - 1]);
      assert ts == ts[..|ts| - 1] + [ts[|ts| - 1]];
    }
  }

  /** Comma-free, trimmed, non-blank namespaces come back unchanged. */
  lemma NamespacesRoundTrip(ns: seq<string>)
    requires PlainNamespaces(ns)
    ensures NamespacesOf(Join(ns, ',')) == ns
  {
    hide Split, TrimSpace;
    if ns != [] {
      JoinNonEmpty(ns, ',');
      SplitJoin(ns, ',');
      forall i | 0 <= i < |ns| ensures TrimSpace(ns[i]) == ns[i] { TrimSpaceMeaning(ns[i]); }
      assert NP.TrimAll(ns) == ns;
      NonEmptyKeeps(ns);
    }
  }
}
