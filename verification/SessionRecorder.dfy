/**
 The hash-chained session recorder of pkg/gateway/session_recording.go. The hash
 is an abstract function; it is assumed injective only where stated.
 */
module SessionRecorder {
  import opened Common
  import opened Text

  type Hash = string -> string

  /** The hashed fields of a record, and the two hashes. */
  datatype Record = Record(
    prev: string,
    number: nat,
    direction: string,
    messageType: int,
    payloadHash: string,
    time: string,
    entry: string)

  datatype Manifest = Manifest(frames: nat, final: string)

  /** The text that is hashed: six fields separated by bars. */
  function Rendered(prev: string, number: nat, direction: string, messageType: int, payloadHash: string, time: string): string {
    prev + "|" + Decimal(number) + "|" + direction + "|" + DecimalInt(messageType) + "|" + payloadHash + "|" + time
  }

  function RecordText(r: Record): string {
    Rendered(r.prev, r.number, r.direction, r.messageType, r.payloadHash, r.time)
  }

  function FinalHash(log: seq<Record>): string {
    if log == [] then "" else log[|log| - 1].entry
  }

  /** The documented replay check: every entry hash matches its fields, and every
      entry names its predecessor's hash. */
  predicate Replays(h: Hash, log: seq<Record>) {
    log == [] ||
    (var r := log[|log| - 1];
     Replays(h, log[..|log| - 1]) && r.prev == FinalHash(log[..|log| - 1]) && r.entry == h(RecordText(r)))
  }

  predicate Increasing(log: seq<Record>) {
    forall i, j :: 0 <= i < j < |log| ==> log[i].number < log[j].number
  }

  // -------------------------------------------------------------- recorder state

  /** What the recorder holds and what it has written. */
  datatype State = State(
    number: nat,
    prev: string,
    open: bool,
    log: seq<Record>,
    manifest: Option<Manifest>)

  const NEW := State(0, "", true, [], None)

  datatype Frame = Frame(direction: string, messageType: int, payloadHash: string, time: string)

  /** RecordFrame. The write succeeds only on an open file. */
  function Recorded(h: Hash, s: State, f: Frame, writes: bool): State {
    var n := s.number + 1;
    var entry := h(Rendered(s.prev, n, f.direction, f.messageType, f.payloadHash, f.time));
    if writes && s.open then
      s.(number := n, prev := entry,
         log := s.log + [Record(s.prev, n, f.direction, f.messageType, f.payloadHash, f.time, entry)])
    else s.(number := n)
  }

  /** Close. The manifest is written if its file can be created. */
  function Closed(s: State, creates: bool): State {
    if !s.open then s
    else s.(open := false, manifest := if creates then Some(Manifest(s.number, s.prev)) else s.manifest)
  }

  /** The recorder object. */
  class Recorder {
    const hash: Hash
    var number: nat
    var prev: string
    var open: bool
    var log: seq<Record>
    var manifest: Option<Manifest>

    ghost function Snapshot(): State
      reads this
    {
      State(number, prev, open, log, manifest)
    }

    constructor (hash: Hash)
      ensures this.hash == hash && Snapshot() == NEW && Chained(hash, Snapshot())
    {
      this.hash := hash;
      number, prev, open, log, manifest := 0, "", true, [], None;
    }

    method RecordFrame(f: Frame, writes: bool)
      requires Chained(hash, Snapshot())
      modifies this
      ensures Snapshot() == Recorded(hash, old(Snapshot()), f, writes)
      ensures Chained(hash, Snapshot())
      ensures !old(open) || !writes ==> log == old(log)
    {
      RecordedIsChained(hash, Snapshot(), f, writes);
      number := number + 1;
      var sumInput := prev + "|" + Decimal(number) + "|" + f.direction + "|" + DecimalInt(f.messageType)
                      + "|" + f.payloadHash + "|" + f.time;
      var entry := hash(sumInput);
      var rec := Record(prev, number, f.direction, f.messageType, f.payloadHash, f.time, entry);
      if !(open && writes) {
        return;
      }
      log := log + [rec];
      prev := entry;
    }

    method Close(creates: bool)
      requires Chained(hash, Snapshot())
      modifies this
      ensures Snapshot() == Closed(old(Snapshot()), creates)
      ensures Chained(hash, Snapshot()) && !open && log == old(log)
      ensures !old(open) ==> manifest == old(manifest)
    {
      if !open {
        return;
      }
      if creates {
        manifest := Some(Manifest(number, prev));
      }
      open := false;
    }
  }

  // ----------------------------------------------------------------- chain validity

  /** What every call keeps, whichever writes fail: the log replays, sequence
      numbers increase up to the frame count, and the manifest ends the chain. */
  predicate Chained(h: Hash, s: State) {
    && Replays(h, s.log) && Increasing(s.log) && s.prev == FinalHash(s.log)
    && (forall r :: r in s.log ==> 0 < r.number <= s.number)
    && |s.log| <= s.number
    && (s.manifest.Some? ==>
        && !s.open && s.manifest.value.final == FinalHash(s.log)
        && |s.log| <= s.manifest.value.frames <= s.number)
  }

  lemma RecordedIsChained(h: Hash, s: State, f: Frame, writes: bool)
    requires Chained(h, s)
    ensures Chained(h, Recorded(h, s, f, writes))
  {
    if writes && s.open {
      var t := Recorded(h, s, f, writes);
      var r := t.log[|t.log| - 1];
      assert t.log[..|t.log| - 1] == s.log;
      forall i | 0 <= i < |s.log| ensures s.log[i].number < r.number {
        assert s.log[i] in s.log;
      }
    }
  }

  datatype Call = RecordFrame(f: Frame, writes: bool) | Close(creates: bool)

  function Do(h: Hash, s: State, c: Call): State {
    match c
    case RecordFrame(f, writes) => Recorded(h, s, f, writes)
    case Close(creates) => Closed(s, creates)
  }

  function Run(h: Hash, cs: seq<Call>): State {
    if cs == [] then NEW else Do(h, Run(h, cs[..|cs| - 1]), cs[|cs| - 1])
  }

  function Frames(cs: seq<Call>): nat {
    if cs == [] then 0
    else Frames(cs[..|cs| - 1]) + if cs[|cs| - 1].RecordFrame? then 1 else 0
  }

  predicate WritesSucceed(cs: seq<Call>) {
    forall i :: 0 <= i < |cs| && cs[i].RecordFrame? ==> cs[i].writes
  }

  /** For every sequence of calls and every pattern of failing writes the written
      records form a valid chain, and the manifest names its last hash. */
  lemma {:induction false} ChainIsValid(h: Hash, cs: seq<Call>)
    ensures Chained(h, Run(h, cs))
    ensures Run(h, cs).number == Frames(cs)
    ensures Run(h, cs).open && WritesSucceed(cs) ==> |Run(h, cs).log| == Frames(cs)
  {
    if cs != [] {
      var n := |cs| - 1;
      ChainIsValid(h, cs[..n]);
      if WritesSucceed(cs) {
        assert WritesSucceed(cs[..n]);
      }
      if cs[n].RecordFrame? {
        RecordedIsChained(h, Run(h, cs[..n]), cs[n].f, cs[n].writes);
      }
    }
  }

  /** After a Close nothing that was written changes any more. */
  lemma {:induction false} ClosedIsFinal(h: Hash, cs: seq<Call>, ds: seq<Call>)
    requires !Run(h, cs).open
    ensures var s, t := Run(h, cs), Run(h, cs + ds); t.log == s.log && t.manifest == s.manifest && !t.open
  {
    if ds == [] {
      assert cs + ds == cs;
    } else {
      ClosedIsFinal(h, cs, ds[..|ds| - 1]);
      assert (cs + ds)[..|cs + ds| - 1] == cs + ds[..|ds| - 1];
    }
  }

  /** If no write fails, the manifest's frame count is the number of records. */
  lemma ManifestCountsRecords(h: Hash, cs: seq<Call>)
    requires Run(h, cs).open && WritesSucceed(cs)
    ensures var s := Run(h, cs + [Close(true)]);
            s.manifest == Some(Manifest(|s.log|, FinalHash(s.log)))
  {
    ChainIsValid(h, cs);
    assert (cs + [Close(true)])[..|cs|] == cs;
  }

  // ------------------------------------------------------ records against frames

  datatype Numbered = Numbered(number: nat, frame: Frame)

  predicate HasClose(cs: seq<Call>) {
    exists i :: 0 <= i < |cs| && cs[i].Close?
  }

  /** Reference: the frames that reach the file, each with its place among all frames. */
  function Written(cs: seq<Call>): seq<Numbered> {
    if cs == [] then []
    else
      var n := |cs| - 1;
      Written(cs[..n])
      + if cs[n].RecordFrame? && cs[n].writes && !HasClose(cs[..n]) then [Numbered(Frames(cs), cs[n].f)] else []
  }

  predicate Describes(r: Record, x: Numbered) {
    && r.number == x.number && r.direction == x.frame.direction && r.messageType == x.frame.messageType
    && r.payloadHash == x.frame.payloadHash && r.time == x.frame.time
  }

  lemma HasCloseExtends(cs: seq<Call>)
    requires cs != []
    ensures HasClose(cs) <==> HasClose(cs[..|cs| - 1]) || cs[|cs| - 1].Close?
  {
    var init := cs[..|cs| - 1];
    if HasClose(init) {
      var i :| 0 <= i < |init| && init[i].Close?;
      assert cs[i].Close?;
    }
  }

  /** The log tells exactly the frames that were written before Close, in order and
      field by field, and the recorder is open exactly until the first Close. */
  lemma {:induction false} RecordsAreFrames(h: Hash, cs: seq<Call>)
    ensures Run(h, cs).open <==> !HasClose(cs)
    ensures |Run(h, cs).log| == |Written(cs)|
    ensures forall i :: 0 <= i < |Written(cs)| ==> Describes(Run(h, cs).log[i], Written(cs)[i])
  {
    if cs != [] {
      var n := |cs| - 1;
      RecordsAreFrames(h, cs[..n]);
      HasCloseExtends(cs);
      ChainIsValid(h, cs[..n]);
    }
  }

  /** The first Close writes the manifest of the session as it is: all frames seen, and
      the hash of the last record written, whichever writes failed. */
  lemma ManifestTellsSession(h: Hash, cs: seq<Call>)
    requires !HasClose(cs)
    ensures var s := Run(h, cs + [Close(true)]);
            s.log == Run(h, cs).log && s.manifest == Some(Manifest(Frames(cs), FinalHash(s.log)))
  {
    RecordsAreFrames(h, cs);
    ChainIsValid(h, cs);
    assert (cs + [Close(true)])[..|cs|] == cs;
  }
}
