/**
 The cache run sequentially, one Validate at a time: list and index are in exact
 bijection, the list is in order of recency whatever expires or is swept, and
 without sweeps the keys held are exactly the most recently used ones up to capacity.
 */
module TokenCacheLru {
  import opened Common
  import opened TokenCache

  /** Validate of a token the verifier accepts. */
  function Validated(c: Cache, key: Key, claims: Claims, asked: int, answered: int): Cache {
    var d := Looked(c, key, asked);
    if Hit(c, key, asked).Some? then d else Stored(d, key, claims, answered)
  }

  /** Every list element is indexed, and every index entry is listed. */
  predicate Exact(c: Cache) {
    Sound(c) && forall e :: e in c.lru ==> e.key in c.index && c.index[e.key] == e
  }

  // ------------------------------------------------------- bijection is kept

  lemma LookedIsExact(c: Cache, key: Key, now: int)
    requires Exact(c)
    ensures Exact(Looked(c, key, now))
    ensures Hit(c, key, now).None? ==> key !in Looked(c, key, now).index
  {
    LookedIsSound(c, key, now);
    if key in c.index {
      WithoutDistinct(c.lru, c.index[key]);
    }
  }

  /** The cache without its least recently used entry. */
  function OldestGone(c: Cache): Cache
    requires c.lru != []
  {
    c.(lru := c.lru[..|c.lru| - 1], index := c.index - {c.lru[|c.lru| - 1].key})
  }

  lemma OldestGoneIsExact(c: Cache)
    requires Exact(c) && c.lru != []
    ensures Exact(OldestGone(c))
  {
    var n, d := |c.lru| - 1, OldestGone(c);
    forall e | e in d.lru ensures e.key in d.index && d.index[e.key] == e {
      var i :| 0 <= i < n && c.lru[i] == e;
      assert c.lru[i].id != c.lru[n].id;
      assert c.lru[n] in c.lru;
    }
    forall k | k in d.index ensures d.index[k] in d.lru {
      var i :| 0 <= i < |c.lru| && c.lru[i] == c.index[k];
      assert i != n;
      assert d.lru[i] == c.index[k];
    }
  }

  /** In an exact cache the eviction loop turns at most once. */
  lemma EvictedIsExact(c: Cache)
    requires Exact(c)
    ensures Evicted(c) == if |c.lru| < CAPACITY then c else OldestGone(c)
    ensures Exact(Evicted(c))
  {
    if |c.lru| >= CAPACITY {
      OldestGoneIsExact(c);
      assert Evicted(c) == Evicted(OldestGone(c));
    }
  }

  /** An insertion under this key would leave a second list element for it: the key is
      indexed, and not as the very entry that makes room. */
  predicate Clashes(c: Cache, key: Key) {
    key in c.index && (|c.lru| < CAPACITY || c.lru[|c.lru| - 1].key != key)
  }

  lemma ClashMeaning(c: Cache, key: Key)
    requires Exact(c)
    ensures Clashes(c, key) <==> key in Evicted(c).index
  {
    hide Exact, Evicted;
    EvictedIsExact(c);
  }

  /** An insertion keeps the bijection exactly when it does not clash. */
  lemma StoredIsExact(c: Cache, key: Key, claims: Claims, now: int)
    requires Exact(c)
    ensures Exact(Stored(c, key, claims, now)) <==> !Clashes(c, key)
  {
    hide Evicted, Clashes;
    EvictedIsExact(c);
    ClashMeaning(c, key);
    StoredIsSound(c, key, claims, now);
    var d, s := Evicted(c), Stored(c, key, claims, now);
    if key in d.index {
      var other := d.index[key];
      assert other in d.lru && other.key == key && other.id < d.nextId;
      assert other in s.lru && s.index[key] != other;
    }
  }

  /** Sequential use keeps list and index in exact bijection. */
  lemma ValidatedIsExact(c: Cache, key: Key, claims: Claims, asked: int, answered: int)
    requires Exact(c)
    ensures Exact(Validated(c, key, claims, asked, answered))
    ensures |c.index| == |c.lru|
  {
    hide Looked, Stored, Exact;
    LookedIsExact(c, key, asked);
    if Hit(c, key, asked).None? {
      StoredIsExact(Looked(c, key, asked), key, claims, answered);
    }
    ExactSizes(c);
  }

  lemma SweptIsExact(c: Cache, now: int)
    requires Exact(c)
    ensures Exact(Swept(c, now))
  {
    SweptIsSound(c, now);
  }

  function Keys(lru: seq<Entry>): seq<Key> {
    seq(|lru|, i requires 0 <= i < |lru| => lru[i].key)
  }

  lemma KeysDistinct(c: Cache)
    requires Exact(c)
    ensures Distinct(Keys(c.lru))
  {
    forall i, j | 0 <= i < j < |c.lru| ensures c.lru[i].key != c.lru[j].key {
      assert c.lru[i] in c.lru && c.lru[j] in c.lru && c.lru[i].id != c.lru[j].id;
    }
  }

  lemma ExactSizes(c: Cache)
    requires Exact(c)
    ensures |c.index| == |c.lru|
  {
    IndexFitsList(c);
    KeysDistinct(c);
    DistinctFit(Keys(c.lru), c.index.Keys);
  }

  lemma {:induction false} DistinctFit(ks: seq<Key>, all: set<Key>)
    requires Distinct(ks)
    requires forall k :: k in ks ==> k in all
    ensures |ks| <= |all|
  {
    if ks != [] {
      var rest := ks[1..];
      forall k | k in rest ensures k in all - {ks[0]} {
        var i :| 0 <= i < |rest| && rest[i] == k;
        assert ks[0] != ks[i + 1];
      }
      DistinctFit(rest, all - {ks[0]});
    }
  }

  // ------------------------------------------------------ recency, by reference

  function Drop(ks: seq<Key>, k: Key): seq<Key> {
    if ks == [] then [] else if ks[0] == k then ks[1..] else [ks[0]] + Drop(ks[1..], k)
  }

  /** Reference: the distinct keys of a history, the latest use first. */
  function Recent(start: seq<Key>, history: seq<Key>): seq<Key> {
    if history == [] then start
    else
      var k := history[|history| - 1];
      [k] + Drop(Recent(start, history[..|history| - 1]), k)
  }

  function Take(ks: seq<Key>): seq<Key> {
    if |ks| <= CAPACITY then ks else ks[..CAPACITY]
  }

  lemma {:induction false} DropAbsent(ks: seq<Key>, k: Key)
    requires k !in ks
    ensures Drop(ks, k) == ks
  {
    if ks != [] { DropAbsent(ks[1..], k); }
  }

  lemma {:induction false} DropPrefix(ks: seq<Key>, k: Key, n: nat)
    requires n <= |ks|
    ensures k in ks[..n] ==> |Drop(ks, k)| == |ks| - 1 && Drop(ks[..n], k) == Drop(ks, k)[..n - 1]
    ensures k !in ks[..n] ==> |Drop(ks, k)| >= n && Drop(ks, k)[..n] == ks[..n]
  {
    if n > 0 && ks[0] != k {
      DropPrefix(ks[1..], k, n - 1);
      assert ks[..n] == [ks[0]] + ks[1..][..n - 1];
      assert ks[..n][1..] == ks[1..][..n - 1];
    } else if n > 0 {
      assert ks[..n][1..] == ks[1..][..n - 1];
      assert ks[..n][0] == k;
    } else {
      DropLength(ks, k);
    }
  }

  lemma {:induction false} DropLength(ks: seq<Key>, k: Key)
    ensures |Drop(ks, k)| <= |ks|
  {
    if ks != [] { DropLength(ks[1..], k); }
  }

  /** Keeping the first CAPACITY keys before or after a use makes no difference. */
  lemma TakeUse(ks: seq<Key>, k: Key)
    ensures var kept := Take(ks);
            Take([k] + Drop(ks, k)) ==
            if k in kept then [k] + Drop(kept, k)
            else [k] + if |kept| < CAPACITY then kept else kept[..CAPACITY - 1]
  {
    var n := |Take(ks)|;
    assert Take(ks) == ks[..n];
    DropPrefix(ks, k, n);
    if n < CAPACITY {
      assert ks[..n] == ks;
      if k !in ks { DropAbsent(ks, k); }
    } else if k in ks[..n] {
      assert ([k] + Drop(ks, k))[..CAPACITY] == [k] + Drop(ks, k)[..CAPACITY - 1];
      assert Take([k] + Drop(ks, k)) == [k] + Drop(ks, k)[..CAPACITY - 1];
    } else {
      assert ([k] + Drop(ks, k))[..CAPACITY] == [k] + Drop(ks, k)[..CAPACITY - 1];
      assert Drop(ks, k)[..CAPACITY - 1] == Drop(ks, k)[..CAPACITY][..CAPACITY - 1];
    }
  }

  // -------------------------------------------------------- the cache follows it

  lemma {:induction false} KeysWithout(lru: seq<Entry>, e: Entry)
    requires e in lru && forall x :: x in lru && x.key == e.key ==> x == e
    ensures Keys(Without(lru, e)) == Drop(Keys(lru), e.key)
  {
    assert Keys(lru)[1..] == Keys(lru[1..]);
    if lru[0] != e {
      assert e in lru[1..];
      KeysWithout(lru[1..], e);
      assert lru[0] in lru && lru[0].key != e.key;
      assert Keys([lru[0]] + Without(lru[1..], e)) == [lru[0].key] + Keys(Without(lru[1..], e));
    }
  }

  lemma KeyListed(c: Cache, key: Key)
    requires Exact(c)
    ensures key in Keys(c.lru) <==> key in c.index
  {
    if key in c.index {
      var i :| 0 <= i < |c.lru| && c.lru[i] == c.index[key];
      assert Keys(c.lru)[i] == key;
    }
    if key in Keys(c.lru) {
      var i :| 0 <= i < |c.lru| && Keys(c.lru)[i] == key;
      assert c.lru[i] in c.lru;
    }
  }

  lemma EvictedKeys(c: Cache)
    requires Sound(c)
    ensures Evicted(c).lru == if |c.lru| < CAPACITY then c.lru else c.lru[..CAPACITY - 1]
  {
    if |c.lru| >= CAPACITY {
      var d := c.(lru := c.lru[..|c.lru| - 1], index := c.index - {c.lru[|c.lru| - 1].key});
      assert Evicted(c) == Evicted(d);
    }
  }

  lemma HitKeys(c: Cache, key: Key, claims: Claims, asked: int, answered: int)
    requires Exact(c) && key in c.index && asked < c.index[key].expiry
    ensures Keys(Validated(c, key, claims, asked, answered).lru) == [key] + Drop(Keys(c.lru), key)
  {
    hide Stored, Sound, Drop, Without;
    var e := c.index[key];
    assert e in c.lru && e.key == key by { Pointer(c, key); }
    KeysWithout(c.lru, e);
    assert Validated(c, key, claims, asked, answered).lru == [e] + Without(c.lru, e);
    assert Keys([e] + Without(c.lru, e)) == [key] + Keys(Without(c.lru, e));
  }

  lemma Pointer(c: Cache, key: Key)
    requires Sound(c) && key in c.index
    ensures c.index[key] in c.lru && c.index[key].key == key
  {
  }

  lemma MissKeys(c: Cache, key: Key, claims: Claims, asked: int, answered: int)
    requires Exact(c) && key !in c.index
    ensures Keys(Validated(c, key, claims, asked, answered).lru) ==
            [key] + if |c.lru| < CAPACITY then Keys(c.lru) else Keys(c.lru)[..CAPACITY - 1]
  {
    hide Sound, Evicted, Without;
    EvictedKeys(c);
    var rest := Evicted(c).lru;
    var e := Entry(Evicted(c).nextId, key, claims, answered + TTL);
    assert Validated(c, key, claims, asked, answered).lru == [e] + rest;
    assert Keys([e] + rest) == [key] + Keys(rest);
    assert Keys(rest) == if |c.lru| < CAPACITY then Keys(c.lru) else Keys(c.lru)[..CAPACITY - 1];
  }

  /** An expired entry is dropped and stored anew in front; nothing is evicted. */
  lemma ExpiredKeys(c: Cache, key: Key, claims: Claims, asked: int, answered: int)
    requires Exact(c) && key in c.index && asked >= c.index[key].expiry
    ensures Keys(Validated(c, key, claims, asked, answered).lru) == [key] + Drop(Keys(c.lru), key)
  {
    hide Drop, Without;
    var e := c.index[key];
    assert e in c.lru && e.key == key by { Pointer(c, key); }
    WithoutDistinct(c.lru, e);
    KeysWithout(c.lru, e);
    var rest := Without(c.lru, e);
    var e' := Entry(c.nextId, key, claims, answered + TTL);
    assert Validated(c, key, claims, asked, answered).lru == [e'] + rest;
    assert Keys([e'] + rest) == [key] + Keys(rest);
  }

  /** One use of a key, whether it is cached, expired or new. */
  lemma ValidatedKeys(c: Cache, key: Key, claims: Claims, asked: int, answered: int)
    requires Exact(c)
    ensures Keys(Validated(c, key, claims, asked, answered).lru) ==
            if key in Keys(c.lru) then [key] + Drop(Keys(c.lru), key)
            else [key] + if |c.lru| < CAPACITY then Keys(c.lru) else Keys(c.lru)[..CAPACITY - 1]
  {
    hide Exact, Validated, Drop, Keys;
    KeyListed(c, key);
    if key !in c.index {
      MissKeys(c, key, claims, asked, answered);
    } else if asked < c.index[key].expiry {
      HitKeys(c, key, claims, asked, answered);
    } else {
      ExpiredKeys(c, key, claims, asked, answered);
    }
  }

  datatype Use = Use(key: Key, claims: Claims, asked: int, answered: int)

  function RunUses(c: Cache, us: seq<Use>): Cache {
    if us == [] then c
    else
      var u := us[|us| - 1];
      Validated(RunUses(c, us[..|us| - 1]), u.key, u.claims, u.asked, u.answered)
  }

  function UsedKeys(us: seq<Use>): seq<Key> {
    seq(|us|, i requires 0 <= i < |us| => us[i].key)
  }

  /** One use keeps the cache in line with the reference list. */
  lemma UseFollowsRecent(c: Cache, u: Use, recent: seq<Key>)
    requires Exact(c) && Keys(c.lru) == Take(recent)
    ensures var d := Validated(c, u.key, u.claims, u.asked, u.answered);
            Exact(d) && Keys(d.lru) == Take([u.key] + Drop(recent, u.key))
  {
    hide Validated, Exact, Drop;
    ValidatedIsExact(c, u.key, u.claims, u.asked, u.answered);
    ValidatedKeys(c, u.key, u.claims, u.asked, u.answered);
    TakeUse(recent, u.key);
  }

  /** Without sweeps the cache holds exactly the most recently used keys, in order,
      up to capacity, whatever the history and whatever expires during it. */
  lemma {:induction false} SurvivorsAreMostRecent(c: Cache, us: seq<Use>)
    requires Exact(c)
    ensures Exact(RunUses(c, us))
    ensures Keys(RunUses(c, us).lru) == Take(Recent(Keys(c.lru), UsedKeys(us)))
  {
    hide Validated, Exact, Drop, Keys, Take;
    if us == [] {
      SmallList(c);
    } else {
      var n := |us| - 1;
      SurvivorsAreMostRecent(c, us[..n]);
      assert UsedKeys(us)[..n] == UsedKeys(us[..n]);
      UseFollowsRecent(RunUses(c, us[..n]), us[n], Recent(Keys(c.lru), UsedKeys(us[..n])));
    }
  }

  lemma SmallList(c: Cache)
    requires Exact(c)
    ensures Take(Keys(c.lru)) == Keys(c.lru)
  {
  }

  // -------------------------------------------- the reference means recency

  /** Position of the last use of a key, or -1. */
  function LastUse(history: seq<Key>, k: Key): (i: int)
    ensures -1 <= i < |history| && (i >= 0 <==> k in history)
    ensures i >= 0 ==> history[i] == k && forall j :: i < j < |history| ==> history[j] != k
  {
    if history == [] then -1
    else if history[|history| - 1] == k then |history| - 1
    else LastUse(history[..|history| - 1], k)
  }

  predicate Distinct(ks: seq<Key>) {
    forall i, j :: 0 <= i < j < |ks| ==> ks[i] != ks[j]
  }

  predicate ByLastUse(ks: seq<Key>, history: seq<Key>) {
    forall i, j :: 0 <= i < j < |ks| ==> LastUse(history, ks[i]) > LastUse(history, ks[j])
  }

  lemma {:induction false} DropMembers(ks: seq<Key>, k: Key)
    requires Distinct(ks)
    ensures forall x :: x in Drop(ks, k) <==> x in ks && x != k
    ensures Distinct(Drop(ks, k))
  {
    if ks != [] {
      assert forall x :: x in ks <==> x == ks[0] || x in ks[1..];
      assert forall j :: 0 <= j < |ks[1..]| ==> ks[0] != ks[1..][j];
      if ks[0] != k {
        DropMembers(ks[1..], k);
        var rest := Drop(ks[1..], k);
        forall j | 0 <= j < |rest| ensures rest[j] != ks[0] {
          assert rest[j] in rest;
        }
      }
    }
  }

  lemma {:induction false} DropOrder(ks: seq<Key>, k: Key, history: seq<Key>)
    requires ByLastUse(ks, history)
    ensures ByLastUse(Drop(ks, k), history)
  {
    hide ByLastUse, LastUse;
    if ks != [] {
      OrderTail(ks, history);
      if ks[0] != k {
        DropOrder(ks[1..], k, history);
        var rest := Drop(ks[1..], k);
        forall x | x in rest ensures LastUse(history, ks[0]) > LastUse(history, x) {
          DropSubset(ks[1..], k, x);
        }
        OrderCons(ks[0], rest, history);
      }
    }
  }

  lemma OrderTail(ks: seq<Key>, history: seq<Key>)
    requires ks != [] && ByLastUse(ks, history)
    ensures ByLastUse(ks[1..], history)
    ensures forall x :: x in ks[1..] ==> LastUse(history, ks[0]) > LastUse(history, x)
  {
    hide LastUse;
  }

  lemma OrderCons(k: Key, ks: seq<Key>, history: seq<Key>)
    requires ByLastUse(ks, history) && forall x :: x in ks ==> LastUse(history, k) > LastUse(history, x)
    ensures ByLastUse([k] + ks, history)
  {
    hide LastUse;
    var all := [k] + ks;
    forall i, j | 0 <= i < j < |all| ensures LastUse(history, all[i]) > LastUse(history, all[j]) {
      assert all[j] == ks[j - 1] && all[j] in ks;
      if i > 0 {
        assert all[i] == ks[i - 1];
      }
    }
  }

  lemma {:induction false} DropSubset(ks: seq<Key>, k: Key, x: Key)
    requires x in Drop(ks, k)
    ensures x in ks
  {
    if ks[0] != k && x != ks[0] { DropSubset(ks[1..], k, x); }
  }

  function Reversed(ks: seq<Key>): seq<Key> {
    if ks == [] then [] else Reversed(ks[1..]) + [ks[0]]
  }

  /** A list of distinct keys is what using them from its end to its front leaves. */
  lemma {:induction false} StartAsHistory(start: seq<Key>)
    requires Distinct(start)
    ensures Recent([], Reversed(start)) == start
  {
    if start != [] {
      var rest, k := start[1..], start[0];
      StartAsHistory(rest);
      assert (Reversed(rest) + [k])[..|Reversed(rest)|] == Reversed(rest);
      assert k !in rest;
      DropAbsent(rest, k);
    }
  }

  lemma {:induction false} RecentConcat(start: seq<Key>, before: seq<Key>, history: seq<Key>)
    ensures Recent(start, before + history) == Recent(Recent(start, before), history)
  {
    hide Drop;
    if history == [] {
      assert before + history == before;
    } else {
      var n := |history| - 1;
      RecentConcat(start, before, history[..n]);
      assert (before + history)[..|before + history| - 1] == before + history[..n];
    }
  }

  /** The reference list, from any list of distinct keys: it holds exactly the keys of
      the start and of the history, once each, ordered by their last use, where the
      start counts as used from its end to its front before the history. */
  lemma RecentMeaning(start: seq<Key>, history: seq<Key>)
    requires Distinct(start)
    ensures var all := Reversed(start) + history;
      && (forall k :: k in Recent(start, history) <==> k in all)
      && Distinct(Recent(start, history)) && ByLastUse(Recent(start, history), all)
  {
    hide Distinct, ByLastUse, Recent;
    StartAsHistory(start);
    RecentConcat([], Reversed(start), history);
    RecentOfUses(Reversed(start) + history);
  }

  lemma {:induction false} RecentOfUses(history: seq<Key>)
    ensures forall k :: k in Recent([], history) <==> k in history
    ensures Distinct(Recent([], history)) && ByLastUse(Recent([], history), history)
  {
    hide Distinct, ByLastUse, Drop;
    if history == [] {
      NothingUsed();
    } else {
      var n := |history| - 1;
      var init, k := history[..n], history[n];
      RecentOfUses(init);
      var before := Recent([], init);
      DropMembers(before, k);
      DropOrder(before, k, init);
      assert history == init + [k];
      assert forall x :: x in history <==> x in init || x == k;
      UseInFront(Drop(before, k), init, k);
    }
  }

  lemma NothingUsed()
    ensures Distinct([]) && ByLastUse([], [])
  {
  }

  lemma UseInFront(ks: seq<Key>, history: seq<Key>, k: Key)
    requires Distinct(ks) && ByLastUse(ks, history) && k !in ks
    ensures Distinct([k] + ks) && ByLastUse([k] + ks, history + [k])
  {
    var h := history + [k];
    assert h[..|h| - 1] == history;
    assert LastUse(h, k) == |history|;
    forall j | 0 <= j < |ks| ensures LastUse(h, ks[j]) == LastUse(history, ks[j]) < |history| && ks[j] != k {
      assert ks[j] in ks;
    }
  }

  // --------------------------------- recency with expiries, rejections and sweeps

  /** A sequential request, with the verifier's answer should it be asked, or a sweep. */
  datatype Step = Request(key: Key, verified: Option<Claims>, asked: int, answered: int) | Sweep(now: int)

  /** Validate as the method states it, or one round of evictExpired. */
  function Took(c: Cache, s: Step): Cache {
    match s
    case Request(key, verified, asked, answered) =>
      if verified.None? then Looked(c, key, asked) else Validated(c, key, verified.value, asked, answered)
    case Sweep(now) => Swept(c, now)
  }

  function RunSteps(ss: seq<Step>): Cache {
    if ss == [] then EMPTY else Took(RunSteps(ss[..|ss| - 1]), ss[|ss| - 1])
  }

  /** The keys asked for, in order. */
  function Asked(ss: seq<Step>): seq<Key> {
    if ss == [] then []
    else Asked(ss[..|ss| - 1]) + if ss[|ss| - 1].Request? then [ss[|ss| - 1].key] else []
  }

  lemma {:induction false} FreshOrder(lru: seq<Entry>, index: map<Key, Entry>, now: int, history: seq<Key>)
    requires ByLastUse(Keys(lru), history)
    ensures ByLastUse(Keys(Fresh(lru, index, now)), history)
  {
    hide ByLastUse, LastUse;
    if lru != [] {
      OrderTail(Keys(lru), history);
      assert Keys(lru)[1..] == Keys(lru[1..]);
      FreshOrder(lru[1..], index, now, history);
      var rest := Fresh(lru[1..], index, now);
      if Stale(index, lru[0], now) {
        assert Fresh(lru, index, now) == rest;
      } else {
        forall x | x in Keys(rest) ensures LastUse(history, lru[0].key) > LastUse(history, x) {
          FreshKey(lru[1..], index, now, x);
        }
        OrderCons(lru[0].key, Keys(rest), history);
        assert Keys([lru[0]] + rest) == [lru[0].key] + Keys(rest);
      }
    }
  }

  lemma FreshKey(lru: seq<Entry>, index: map<Key, Entry>, now: int, x: Key)
    requires x in Keys(Fresh(lru, index, now))
    ensures x in Keys(lru)
  {
    var r := Fresh(lru, index, now);
    var i :| 0 <= i < |r| && Keys(r)[i] == x;
    assert r[i] in r;
    var j :| 0 <= j < |lru| && lru[j] == r[i];
    assert Keys(lru)[j] == x;
  }

  /** A list that begins, or not, with the key just asked for, and goes on with others
      in order, is in order after that request. */
  lemma AskedInFront(ks: seq<Key>, rest: seq<Key>, history: seq<Key>, k: Key)
    requires Distinct(rest) && ByLastUse(rest, history) && k !in rest && (ks == rest || ks == [k] + rest)
    ensures ByLastUse(ks, history + [k])
  {
    hide ByLastUse, LastUse;
    UseInFront(rest, history, k);
    OrderTail([k] + rest, history + [k]);
    assert ([k] + rest)[1..] == rest;
  }

  lemma PrefixOrder(ks: seq<Key>, n: nat, history: seq<Key>)
    requires n <= |ks| && Distinct(ks) && ByLastUse(ks, history)
    ensures Distinct(ks[..n]) && ByLastUse(ks[..n], history)
  {
    hide LastUse;
  }

  /** What a refused request leaves: a hit moves to the front, an expired entry goes. */
  lemma LookedKeys(c: Cache, key: Key, now: int)
    requires Exact(c)
    ensures var ks := Keys(Looked(c, key, now).lru);
      if key !in Keys(c.lru) then ks == Keys(c.lru)
      else ks == Drop(Keys(c.lru), key) || ks == [key] + Drop(Keys(c.lru), key)
  {
    hide Drop, Without, Sound;
    KeyListed(c, key);
    if key in c.index {
      var e := c.index[key];
      assert e in c.lru && e.key == key by { Pointer(c, key); }
      KeysWithout(c.lru, e);
      assert Keys([e] + Without(c.lru, e)) == [key] + Keys(Without(c.lru, e));
    }
  }

  lemma RequestOrder(c: Cache, s: Step, history: seq<Key>)
    requires Exact(c) && s.Request? && ByLastUse(Keys(c.lru), history)
    ensures ByLastUse(Keys(Took(c, s).lru), history + [s.key])
  {
    hide ByLastUse, Distinct, Exact, Drop, Looked, Validated;
    var ks, after := Keys(c.lru), Keys(Took(c, s).lru);
    KeysDistinct(c);
    if s.verified.None? {
      LookedKeys(c, s.key, s.asked);
    } else {
      ValidatedKeys(c, s.key, s.verified.value, s.asked, s.answered);
    }
    if s.key in ks {
      DropMembers(ks, s.key);
      DropOrder(ks, s.key, history);
      AskedInFront(after, Drop(ks, s.key), history, s.key);
    } else {
      var n := if s.verified.None? || |ks| < CAPACITY then |ks| else CAPACITY - 1;
      PrefixOrder(ks, n, history);
      assert ks[..|ks|] == ks;
      AskedInFront(after, ks[..n], history, s.key);
    }
  }

  /** In every sequential history, with expiries, rejected tokens, evictions and sweeps,
      list and index are in bijection and the list is in order of last request. */
  lemma {:induction false} ListIsInOrder(ss: seq<Step>)
    ensures Exact(RunSteps(ss)) && ByLastUse(Keys(RunSteps(ss).lru), Asked(ss))
  {
    hide ByLastUse, Exact, Looked, Validated, Swept;
    if ss == [] {
      EmptyIsExact();
    } else {
      var n := |ss| - 1;
      ListIsInOrder(ss[..n]);
      var c, s, history := RunSteps(ss[..n]), ss[n], Asked(ss[..n]);
      match s
      case Request(key, verified, asked, answered) =>
        RequestOrder(c, s, history);
        LookedIsExact(c, key, asked);
        if verified.Some? {
          ValidatedIsExact(c, key, verified.value, asked, answered);
        }
      case Sweep(now) =>
        SweptIsExact(c, now);
        SweptOrder(c, now, history);
        assert Asked(ss) == history;
    }
  }

  lemma SweptOrder(c: Cache, now: int, history: seq<Key>)
    requires ByLastUse(Keys(c.lru), history)
    ensures ByLastUse(Keys(Swept(c, now).lru), history)
  {
    FreshOrder(c.lru, c.index, now, history);
  }

  lemma EmptyIsExact()
    ensures Exact(EMPTY) && ByLastUse(Keys(EMPTY.lru), [])
  {
  }
}
