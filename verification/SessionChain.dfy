/**
 Chain uniqueness: with an injective hash, no log but the recorded one passes the
 replay check with the recorded final hash.
 */
module SessionChain {
  import opened Common
  import opened Text
  import opened SessionRecorder

  /** The hash is a hexadecimal digest: injective, never empty, free of bars. */
  ghost predicate GoodHash(h: Hash) {
    && (forall x, y :: h(x) == h(y) ==> x == y)
    && (forall x :: h(x) != "" && '|' !in h(x))
  }

  /** The text fields of a record hold no separator. */
  predicate BarFree(r: Record) {
    '|' !in r.direction && '|' !in r.payloadHash && '|' !in r.time
  }

  predicate AllBarFree(log: seq<Record>) {
    forall i :: 0 <= i < |log| ==> BarFree(log[i])
  }

  /** The hashed text as a list of fields. */
  function Fields(r: Record): seq<string> {
    [r.prev, Decimal(r.number), r.direction, DecimalInt(r.messageType), r.payloadHash, r.time]
  }

  lemma TextJoinsFields(r: Record)
    ensures RecordText(r) == Join(Fields(r), '|')
  {
    var fs := Fields(r);
    assert fs[1..] == [fs[1], fs[2], fs[3], fs[4], fs[5]];
    assert fs[1..][1..] == [fs[2], fs[3], fs[4], fs[5]];
    assert fs[1..][1..][1..] == [fs[3], fs[4], fs[5]];
    assert fs[1..][1..][1..][1..] == [fs[4], fs[5]];
    assert fs[1..][1..][1..][1..][1..] == [fs[5]];
    var j5 := fs[5];
    var j4 := fs[4] + "|" + j5;
    assert Join([fs[4], fs[5]], '|') == j4;
    var j3 := fs[3] + "|" + j4;
    assert Join([fs[3], fs[4], fs[5]], '|') == j3;
    var j2 := fs[2] + "|" + j3;
    assert Join([fs[2], fs[3], fs[4], fs[5]], '|') == j2;
    var j1 := fs[1] + "|" + j2;
    assert Join([fs[1], fs[2], fs[3], fs[4], fs[5]], '|') == j1;
    assert Join(fs, '|') == fs[0] + "|" + j1;
    assert RecordText(r) == fs[0] + "|" + j1;
  }

  lemma DecimalBarFree(n: int)
    ensures '|' !in DecimalInt(n)
  {
    var d := Decimal(if n < 0 then -n else n);
    forall i | 0 <= i < |d| ensures d[i] != '|' { assert IsDigit(d[i]); }
  }

  // ------------------------------------------------------------- counting bars

  function Bars(s: string): nat {
    if s == [] then 0 else (if s[0] == '|' then 1 else 0) + Bars(s[1..])
  }

  lemma {:induction false} BarsAdd(s: string, t: string)
    ensures Bars(s + t) == Bars(s) + Bars(t)
  {
    if s == [] {
      assert s + t == t;
    } else {
      BarsAdd(s[1..], t);
      assert (s + t)[1..] == s[1..] + t;
    }
  }

  lemma {:induction false} NoBars(s: string)
    ensures Bars(s) == 0 <==> '|' !in s
  {
    if s != [] { NoBars(s[1..]); }
  }

  /** Joining n parts adds n - 1 bars to those of the parts. */
  lemma {:induction false} BarsOfJoin(parts: seq<string>)
    requires parts != []
    ensures Bars(Join(parts, '|')) == |parts| - 1 + BarsWithin(parts)
  {
    if |parts| > 1 {
      var rest := Join(parts[1..], '|');
      BarsOfJoin(parts[1..]);
      BarsAdd(parts[0] + ['|'], rest);
      BarsAdd(parts[0], ['|']);
    } else {
      assert parts[1..] == [];
    }
  }

  function BarsWithin(parts: seq<string>): nat {
    if parts == [] then 0 else Bars(parts[0]) + BarsWithin(parts[1..])
  }

  lemma {:induction false} NoBarsWithin(parts: seq<string>)
    ensures BarsWithin(parts) == 0 <==> forall p :: p in parts ==> '|' !in p
  {
    if parts != [] {
      NoBars(parts[0]);
      NoBarsWithin(parts[1..]);
      assert forall p :: p in parts <==> p == parts[0] || p in parts[1..];
    }
  }

  /** A list of as many parts that joins to the same text is bar-free as well. */
  lemma SameTextSameBars(parts: seq<string>, others: seq<string>)
    requires parts != [] && |parts| == |others| && Join(parts, '|') == Join(others, '|')
    requires forall p :: p in parts ==> '|' !in p
    ensures forall p :: p in others ==> '|' !in p
  {
    hide Join, BarsWithin, Bars;
    BarsOfJoin(parts);
    BarsOfJoin(others);
    NoBarsWithin(parts);
    NoBarsWithin(others);
  }

  /** No other record whatever renders to the text of a record without bars in its
      fields: the rendering can be read in one way only. */
  lemma TextDeterminesFields(r: Record, q: Record)
    requires BarFree(r) && '|' !in r.prev
    requires RecordText(r) == RecordText(q)
    ensures r.(entry := q.entry) == q
  {
    hide RecordText, Join, Split;
    TextJoinsFields(r);
    TextJoinsFields(q);
    FieldsSeparate(r);
    assert forall p :: p in Fields(r) ==> '|' !in p by { FieldsBarFree(r); }
    SameTextSameBars(Fields(r), Fields(q));
    SplitJoin(Fields(q), '|');
    assert Fields(r) == Fields(q);
    assert Fields(r)[0] == Fields(q)[0] && Fields(r)[1] == Fields(q)[1] && Fields(r)[2] == Fields(q)[2]
      && Fields(r)[3] == Fields(q)[3] && Fields(r)[4] == Fields(q)[4] && Fields(r)[5] == Fields(q)[5];
    DecimalInjective(r.number, q.number);
    DecimalInjective(r.messageType, q.messageType);
  }

  lemma FieldsBarFree(r: Record)
    requires BarFree(r) && '|' !in r.prev
    ensures forall p :: p in Fields(r) ==> '|' !in p
  {
    DecimalBarFree(r.number);
    DecimalBarFree(r.messageType);
  }

  lemma FieldsSeparate(r: Record)
    requires BarFree(r) && '|' !in r.prev
    ensures Split(Join(Fields(r), '|'), '|') == Fields(r)
  {
    hide Join, Split;
    FieldsBarFree(r);
    SplitJoin(Fields(r), '|');
  }

  lemma FinalHashBarFree(h: Hash, log: seq<Record>)
    requires GoodHash(h) && Replays(h, log)
    ensures '|' !in FinalHash(log)
    ensures log != [] ==> FinalHash(log) != ""
  {
    hide RecordText;
  }

  /** A log of bar-free records is the only log of any records that replays to its
      final hash. By induction from the end: equal final hashes force equal last
      records, hence equal predecessors. */
  lemma {:induction false} ChainIsUnique(h: Hash, a: seq<Record>, b: seq<Record>)
    requires GoodHash(h)
    requires Replays(h, a) && Replays(h, b) && AllBarFree(a)
    requires FinalHash(a) == FinalHash(b)
    ensures a == b
  {
    hide RecordText, GoodHash;
    FinalHashBarFree(h, a);
    FinalHashBarFree(h, b);
    if a != [] && b != [] {
      var m, n := |a| - 1, |b| - 1;
      var r, q := a[m], b[n];
      FinalHashBarFree(h, a[..m]);
      HashDeterminesText(h, r, q);
      TextDeterminesFields(r, q);
      ChainIsUnique(h, a[..m], b[..n]);
      assert a == a[..m] + [r] && b == b[..n] + [q];
    }
  }

  lemma HashDeterminesText(h: Hash, r: Record, q: Record)
    requires GoodHash(h) && h(RecordText(r)) == h(RecordText(q))
    ensures RecordText(r) == RecordText(q)
  {
  }

  predicate FramesBarFree(cs: seq<Call>) {
    forall i :: 0 <= i < |cs| && cs[i].RecordFrame? ==>
      '|' !in cs[i].f.direction && '|' !in cs[i].f.payloadHash && '|' !in cs[i].f.time
  }

  lemma {:induction false} RecordedBarFree(h: Hash, cs: seq<Call>)
    requires FramesBarFree(cs)
    ensures AllBarFree(Run(h, cs).log)
  {
    if cs != [] {
      RecordedBarFree(h, cs[..|cs| - 1]);
    }
  }

  /** Tamper evidence, end to end: whatever a session recorded, under whichever
      write failures, any log at all that replays and ends in the manifest's hash is
      the recorded log. */
  lemma ManifestPinsTheLog(h: Hash, cs: seq<Call>, other: seq<Record>)
    requires GoodHash(h) && FramesBarFree(cs) && Run(h, cs).manifest.Some?
    requires Replays(h, other) && FinalHash(other) == Run(h, cs).manifest.value.final
    ensures other == Run(h, cs).log
  {
    hide GoodHash;
    ChainIsValid(h, cs);
    RecordedBarFree(h, cs);
    ChainIsUnique(h, Run(h, cs).log, other);
  }

  /** With separators in the fields of both, the rendering is ambiguous: two different
      records render to one text. */
  lemma BarsAreAmbiguous()
    ensures Rendered("", 1, "a|1|b", 1, "c", "d") == Rendered("", 1, "a", 1, "b|1|c", "d")
  {
    assert Decimal(1) == "1" && DecimalInt(1) == "1";
  }
}
