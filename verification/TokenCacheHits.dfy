/**
 When the cache must answer. A key whose latest insertion is younger than the TTL hits,
 unless as many other keys as the cache can hold were used since, or two insertions of
 one key have clashed.
 */
module TokenCacheHits {
  import opened Common
  import opened TokenCache
  import opened TokenCacheLru
  import opened TokenCacheRaces

  // ------------------------------------------------ what lies ahead of an entry

  /** The keys of the elements in front of an entry. */
  function Ahead(lru: seq<Entry>, e: Entry): set<Key> {
    if lru == [] || lru[0] == e then {} else {lru[0].key} + Ahead(lru[1..], e)
  }

  lemma AheadCons(x: Entry, lru: seq<Entry>, e: Entry)
    ensures Ahead([x] + lru, e) == if x == e then {} else {x.key} + Ahead(lru, e)
  {
    assert ([x] + lru)[1..] == lru;
  }

  lemma {:induction false} AheadWithout(lru: seq<Entry>, x: Entry, e: Entry)
    requires x != e
    ensures Ahead(Without(lru, x), e) <= Ahead(lru, e)
  {
    if lru != [] && lru[0] != x {
      AheadWithout(lru[1..], x, e);
      AheadCons(lru[0], Without(lru[1..], x), e);
    }
  }

  lemma {:induction false} AheadPrefix(lru: seq<Entry>, n: nat, e: Entry)
    requires n <= |lru|
    ensures Ahead(lru[..n], e) <= Ahead(lru, e)
  {
    if n > 0 && lru[0] != e {
      AheadPrefix(lru[1..], n - 1, e);
      assert lru[..n][1..] == lru[1..][..n - 1];
    }
  }

  lemma {:induction false} AheadFresh(lru: seq<Entry>, index: map<Key, Entry>, now: int, e: Entry)
    requires !Stale(index, e, now)
    ensures Ahead(Fresh(lru, index, now), e) <= Ahead(lru, e)
  {
    if lru != [] {
      AheadFresh(lru[1..], index, now, e);
      var rest := Fresh(lru[1..], index, now);
      if Stale(index, lru[0], now) {
        assert [] + rest == rest;
      } else {
        AheadCons(lru[0], rest, e);
      }
    }
  }

  lemma {:induction false} AheadListed(lru: seq<Entry>, e: Entry, k: Key)
    requires k in Ahead(lru, e)
    ensures k in Keys(lru)
  {
    assert Keys(lru)[0] == lru[0].key;
    if k != lru[0].key {
      AheadListed(lru[1..], e, k);
      assert Keys(lru)[1..] == Keys(lru[1..]);
    }
  }

  lemma HeadKeyOnce(lru: seq<Entry>)
    requires lru != [] && Distinct(Keys(lru))
    ensures lru[0].key !in Keys(lru[1..]) && Distinct(Keys(lru[1..]))
  {
    var ks, rest := Keys(lru), Keys(lru[1..]);
    assert ks[1..] == rest;
    forall i | 0 <= i < |rest| ensures rest[i] != lru[0].key {
      assert rest[i] == ks[i + 1] && ks[0] == lru[0].key;
    }
  }

  /** Everything else is ahead of the last entry. */
  lemma {:induction false} AheadOfLast(lru: seq<Entry>, e: Entry)
    requires lru != [] && Distinct(Keys(lru)) && lru[|lru| - 1] == e
    ensures |Ahead(lru, e)| == |lru| - 1
  {
    if |lru| > 1 {
      HeadKeyOnce(lru);
      assert Keys(lru[1..])[|lru| - 2] == e.key;
      AheadOfLast(lru[1..], e);
      forall k | k in Ahead(lru[1..], e) ensures k in Keys(lru[1..]) {
        AheadListed(lru[1..], e, k);
      }
    }
  }

  // ----------------------------------------------------- steps keep a live entry

  lemma LookupKeeps(c: Cache, k: Key, now: int, e: Entry)
    requires Exact(c) && e.key in c.index && c.index[e.key] == e && now < e.expiry
    ensures var d := Looked(c, k, now);
      && e.key in d.index && d.index[e.key] == e
      && Ahead(d.lru, e) <= if k == e.key then {} else Ahead(c.lru, e) + {k}
  {
    hide Without, Ahead;
    if k in c.index {
      var x := c.index[k];
      assert x in c.lru && x.key == k by { Pointer(c, k); }
      AheadCons(x, Without(c.lru, x), e);
      if x != e {
        AheadWithout(c.lru, x, e);
      }
    }
    assert k != e.key || k in c.index;
  }

  lemma InsertKeeps(c: Cache, k: Key, claims: Claims, now: int, e: Entry)
    requires Exact(c) && e.key in c.index && c.index[e.key] == e && k != e.key && !Clashes(c, k)
    requires |Ahead(c.lru, e) + {k}| < CAPACITY
    ensures var d := Stored(c, k, claims, now);
      e.key in d.index && d.index[e.key] == e && Ahead(d.lru, e) <= Ahead(c.lru, e) + {k}
  {
    hide Ahead, Sound, Evicted;
    assert e in c.lru && |c.lru| <= CAPACITY && e.id < c.nextId by { EntryFacts(c, e.key); }
    EvictedIsExact(c);
    var d, x := Evicted(c), Entry(Evicted(c).nextId, k, claims, now + TTL);
    AheadCons(x, d.lru, e);
    if |c.lru| == CAPACITY {
      NotLast(c, k, e);
      AheadPrefix(c.lru, CAPACITY - 1, e);
    }
  }

  lemma EntryFacts(c: Cache, key: Key)
    requires Sound(c) && key in c.index
    ensures c.index[key] in c.lru && |c.lru| <= CAPACITY && c.index[key].id < c.nextId
  {
  }

  /** An entry with fewer than CAPACITY - 1 keys ahead is not the one evicted. */
  lemma NotLast(c: Cache, k: Key, e: Entry)
    requires Exact(c) && e.key in c.index && c.index[e.key] == e && k != e.key && !Clashes(c, k)
    requires |c.lru| == CAPACITY && |Ahead(c.lru, e) + {k}| < CAPACITY
    ensures c.lru[CAPACITY - 1].key != e.key
  {
    hide Ahead;
    var last := c.lru[CAPACITY - 1];
    if last.key == e.key {
      assert last in c.lru;
      KeysDistinct(c);
      AheadOfLast(c.lru, e);
      if k in Ahead(c.lru, e) {
        AheadListed(c.lru, e, k);
        KeyListed(c, k);
      }
      assert false;
    }
  }

  lemma SweepKeeps(c: Cache, now: int, e: Entry)
    requires e.key in c.index && c.index[e.key] == e && now < e.expiry
    ensures var d := Swept(c, now);
      e.key in d.index && d.index[e.key] == e && Ahead(d.lru, e) <= Ahead(c.lru, e)
  {
    hide Ahead;
    AheadFresh(c.lru, c.index, now, e);
  }

  // ------------------------------------------------------------------ over runs

  /** Event i stores claims under this key. */
  predicate InsertsAt(hash: string -> Key, es: seq<Event>, i: nat, key: Key) {
    i < |es| && es[i].Insert? && es[i].p in Run(hash, es[..i]).pending && es[i].p.key == key
  }

  predicate LastInsertion(hash: string -> Key, es: seq<Event>, j: nat, key: Key) {
    InsertsAt(hash, es, j, key) && forall i :: j < i < |es| ==> !InsertsAt(hash, es, i, key)
  }

  function KeysUsed(hash: string -> Key, e: Event): set<Key> {
    match e
    case Lookup(token) => {hash(token)}
    case Insert(p) => {p.key}
    case _ => {}
  }

  /** The keys looked up or inserted after event j. */
  function UsedSince(hash: string -> Key, es: seq<Event>, j: nat): set<Key>
    requires j < |es|
  {
    if |es| == j + 1 then {} else UsedSince(hash, es[..|es| - 1], j) + KeysUsed(hash, es[|es| - 1])
  }

  function Age(hash: string -> Key, es: seq<Event>, j: nat): int
    requires j <= |es|
  {
    Run(hash, es).clock - Run(hash, es[..j]).clock
  }

  /** The entry of event j is indexed, and only keys used since lie ahead of it. */
  predicate Alive(hash: string -> Key, es: seq<Event>, j: nat, key: Key)
    requires j < |es| && es[j].Insert?
  {
    var c := Run(hash, es).cache;
    && key in c.index && c.index[key].key == key
    && c.index[key].claims == es[j].p.claims && c.index[key].expiry == Run(hash, es[..j]).clock + TTL
    && Ahead(c.lru, c.index[key]) <= UsedSince(hash, es, j) - {key}
  }

  lemma JustInserted(hash: string -> Key, es: seq<Event>, key: Key)
    requires es != [] && InsertsAt(hash, es, |es| - 1, key)
    ensures Alive(hash, es, |es| - 1, key)
  {
    hide Evicted;
  }

  lemma PrefixLast(hash: string -> Key, es: seq<Event>, j: nat, key: Key)
    requires LastInsertion(hash, es, j, key) && j + 1 < |es|
    ensures LastInsertion(hash, es[..|es| - 1], j, key)
    ensures es[..|es| - 1][..j] == es[..j] && Age(hash, es[..|es| - 1], j) <= Age(hash, es, j)
  {
    hide Looked, Stored, Swept;
    var n := |es| - 1;
    forall i: nat | i < n ensures InsertsAt(hash, es[..n], i, key) <==> InsertsAt(hash, es, i, key) {
      assert es[..n][..i] == es[..i];
    }
  }

  lemma SmallerPart(a: set<Key>, b: set<Key>)
    requires a <= b
    ensures |a| <= |b|
  {
    assert b == a + (b - a);
  }

  /** The entry lives on over one event. */
  predicate Kept(c: Cache, d: Cache, e: Entry, used: set<Key>) {
    e.key in d.index && d.index[e.key] == e && Ahead(d.lru, e) <= (Ahead(c.lru, e) + used) - {e.key}
  }

  lemma EventKeepsEntry(hash: string -> Key, w: World, ev: Event, e: Entry, bound: set<Key>)
    requires Exact(w.cache) && e.key in w.cache.index && w.cache.index[e.key] == e && w.clock < e.expiry
    requires e.key !in Ahead(w.cache.lru, e)
    requires ev.Insert? && ev.p in w.pending ==> ev.p.key != e.key && !Clashes(w.cache, ev.p.key)
    requires Ahead(w.cache.lru, e) + KeysUsed(hash, ev) - {e.key} <= bound && |bound| < CAPACITY
    ensures Kept(w.cache, Do(hash, w, ev).cache, e, KeysUsed(hash, ev))
  {
    hide Looked, Stored, Swept, Exact, Clashes, Ahead;
    match ev
    case Lookup(token) => LookupKeeps(w.cache, hash(token), w.clock, e);
    case Insert(p) =>
      if p in w.pending {
        SmallerPart(Ahead(w.cache.lru, e) + {p.key}, bound);
        InsertKeeps(w.cache, p.key, p.claims, w.clock, e);
      }
    case Sweep => SweepKeeps(w.cache, w.clock, e);
    case _ =>
  }

  /** One more event keeps the entry alive. */
  lemma EventKeeps(hash: string -> Key, es: seq<Event>, j: nat, key: Key)
    requires LastInsertion(hash, es, j, key) && j + 1 < |es| && Alive(hash, es[..|es| - 1], j, key)
    requires Exact(Run(hash, es[..|es| - 1]).cache) && !ClashAt(hash, es, |es| - 1)
    requires Age(hash, es, j) < TTL && |UsedSince(hash, es, j) - {key}| < CAPACITY
    ensures Alive(hash, es, j, key)
  {
    hide Do, Exact, Clashes, Ahead, KeysUsed;
    var n := |es| - 1;
    var w := Run(hash, es[..n]);
    PrefixLast(hash, es, j, key);
    assert !InsertsAt(hash, es, n, key);
    EventKeepsEntry(hash, w, es[n], w.cache.index[key], UsedSince(hash, es, j) - {key});
  }

  lemma {:induction false} StaysAlive(hash: string -> Key, es: seq<Event>, j: nat, key: Key)
    requires LastInsertion(hash, es, j, key) && NoClash(hash, es)
    requires Age(hash, es, j) < TTL && |UsedSince(hash, es, j) - {key}| < CAPACITY
    ensures Alive(hash, es, j, key)
  {
    hide Do, Run, Exact, ClashAt, Alive, InsertsAt, KeysUsed;
    var n := |es| - 1;
    assert j <= n && es[j].Insert? by { InsertionFacts(hash, es, j, key); }
    if j == n {
      JustInserted(hash, es, key);
    } else {
      PrefixLast(hash, es, j, key);
      NoClashExtends(hash, es);
      BijectionIffNoClash(hash, es[..n]);
      assert es[..n][..n] == es[..n];
      SmallerPart(UsedSince(hash, es[..n], j) - {key}, UsedSince(hash, es, j) - {key});
      StaysAlive(hash, es[..n], j, key);
      EventKeeps(hash, es, j, key);
    }
  }

  lemma InsertionFacts(hash: string -> Key, es: seq<Event>, j: nat, key: Key)
    requires InsertsAt(hash, es, j, key)
    ensures j < |es| && es[j].Insert?
  {
  }

  /** The cache answers for the verifier: in every interleaving without a clash, across
      sweeps, a lookup returns the claims of the key's latest insertion if that is less
      than the TTL ago and fewer than CAPACITY other keys were used since. */
  lemma LiveEntriesHit(hash: string -> Key, es: seq<Event>, j: nat, token: string)
    requires LastInsertion(hash, es, j, hash(token)) && NoClash(hash, es)
    requires Age(hash, es, j) < TTL && |UsedSince(hash, es, j) - {hash(token)}| < CAPACITY
    ensures Hit(Run(hash, es).cache, hash(token), Run(hash, es).clock) == Some(es[j].p.claims)
  {
    hide Run, UsedSince, Ahead, NoClash, InsertsAt;
    InsertionFacts(hash, es, j, hash(token));
    StaysAlive(hash, es, j, hash(token));
  }

  /** In every interleaving, a key that is indexed hits exactly while its insertion is
      less than the TTL ago, and a sweep removes it exactly when it is more. */
  lemma HeldHitsWhileYoung(hash: string -> Key, es: seq<Event>, token: string) returns (i: nat, j: nat)
    requires hash(token) in Run(hash, es).cache.index
    ensures i < j < |es| && es[i].Verified? && hash(es[i].token) == hash(token)
    ensures es[j] == Insert(Pending(hash(token), es[i].claims))
    ensures Hit(Run(hash, es).cache, hash(token), Run(hash, es).clock).Some? <==> Age(hash, es, j) < TTL
    ensures hash(token) in Run(hash, es + [Event.Sweep]).cache.index <==> Age(hash, es, j) <= TTL
  {
    hide Run;
    var w := Run(hash, es);
    SoundUnderRaces(hash, es);
    EntriesAreBacked(hash, es);
    var e := w.cache.index[hash(token)];
    i, j :| Backs(hash, es, i, j, e.key, e.claims, e.expiry);
    assert Run(hash, es + [Event.Sweep]) == Do(hash, w, Event.Sweep) by { RunLast(hash, es, Event.Sweep); }
  }

  lemma RunLast(hash: string -> Key, es: seq<Event>, e: Event)
    ensures Run(hash, es + [e]) == Do(hash, Run(hash, es), e)
  {
    hide Do;
    assert (es + [e])[..|es|] == es;
  }

  // ------------------------------------------------ with clashes on other keys

  /** The number of elements in front of an entry. */
  function Place(lru: seq<Entry>, e: Entry): (n: nat)
    ensures n <= |lru|
  {
    if lru == [] || lru[0] == e then 0 else 1 + Place(lru[1..], e)
  }

  /** No other list element holds this entry's key. */
  predicate Alone(lru: seq<Entry>, e: Entry) {
    forall x :: x in lru && x.key == e.key ==> x == e
  }

  lemma PlaceCons(x: Entry, lru: seq<Entry>, e: Entry)
    ensures Place([x] + lru, e) == if x == e then 0 else 1 + Place(lru, e)
  {
    assert ([x] + lru)[1..] == lru;
  }

  lemma {:induction false} PlaceWithout(lru: seq<Entry>, x: Entry, e: Entry)
    requires x != e
    ensures Place(Without(lru, x), e) <= Place(lru, e)
  {
    if lru != [] && lru[0] != x {
      PlaceWithout(lru[1..], x, e);
      PlaceCons(lru[0], Without(lru[1..], x), e);
    }
  }

  lemma {:induction false} PlacePrefix(lru: seq<Entry>, n: nat, e: Entry)
    requires n <= |lru| && Place(lru, e) < n && e in lru
    ensures Place(lru[..n], e) == Place(lru, e) && e in lru[..n]
  {
    if lru[0] != e {
      PlacePrefix(lru[1..], n - 1, e);
      assert lru[..n][1..] == lru[1..][..n - 1];
    } else {
      assert lru[..n][0] == e;
    }
  }

  lemma {:induction false} PlaceFresh(lru: seq<Entry>, index: map<Key, Entry>, now: int, e: Entry)
    requires !Stale(index, e, now)
    ensures Place(Fresh(lru, index, now), e) <= Place(lru, e)
  {
    if lru != [] {
      PlaceFresh(lru[1..], index, now, e);
      var rest := Fresh(lru[1..], index, now);
      if Stale(index, lru[0], now) {
        assert [] + rest == rest;
      } else {
        PlaceCons(lru[0], rest, e);
      }
    }
  }

  /** Lookups and insertions move an entry back by one place at most. */
  predicate Moved(c: Cache, d: Cache, e: Entry, places: nat) {
    && e.key in d.index && d.index[e.key] == e && Alone(d.lru, e) && Place(d.lru, e) <= Place(c.lru, e) + places
  }

  lemma LookupMoves(c: Cache, k: Key, now: int, e: Entry)
    requires Sound(c) && e.key in c.index && c.index[e.key] == e && Alone(c.lru, e) && now < e.expiry
    ensures Moved(c, Looked(c, k, now), e, 1)
  {
    hide Without, Place;
    if k in c.index {
      var x := c.index[k];
      PlaceCons(x, Without(c.lru, x), e);
      if x != e {
        PlaceWithout(c.lru, x, e);
      }
    }
  }

  lemma EvictionSpares(c: Cache, e: Entry)
    requires Sound(c) && e.key in c.index && c.index[e.key] == e && Alone(c.lru, e)
    requires Place(c.lru, e) + 1 < CAPACITY
    ensures Moved(c, Evicted(c), e, 0)
  {
    hide Place, Sound, Evicted;
    assert e in c.lru && |c.lru| <= CAPACITY by { EntryFacts(c, e.key); }
    EvictedOnce(c);
    if |c.lru| == CAPACITY {
      var n := CAPACITY - 1;
      PlacePrefix(c.lru, n, e);
      assert c.lru[n] != e by { LaterDiffers(c, n, e); }
      assert c.lru[n] in c.lru;
    }
  }

  lemma EvictedOnce(c: Cache)
    requires |c.lru| <= CAPACITY
    ensures Evicted(c) == if |c.lru| < CAPACITY then c else OldestGone(c)
  {
    if |c.lru| == CAPACITY {
      assert Evicted(c) == Evicted(OldestGone(c));
    }
  }

  lemma LaterDiffers(c: Cache, n: nat, e: Entry)
    requires Sound(c) && n < |c.lru| && e in c.lru[..n]
    ensures c.lru[n] != e
  {
    var i :| 0 <= i < n && c.lru[..n][i] == e;
    assert c.lru[i].id != c.lru[n].id;
  }

  lemma InsertMoves(c: Cache, k: Key, claims: Claims, now: int, e: Entry)
    requires Sound(c) && e.key in c.index && c.index[e.key] == e && Alone(c.lru, e) && k != e.key
    requires Place(c.lru, e) + 1 < CAPACITY
    ensures Moved(c, Stored(c, k, claims, now), e, 1)
  {
    hide Place, Sound, Evicted;
    EvictionSpares(c, e);
    var d := Evicted(c);
    PlaceCons(Entry(d.nextId, k, claims, now + TTL), d.lru, e);
  }

  lemma SweepMoves(c: Cache, now: int, e: Entry)
    requires e.key in c.index && c.index[e.key] == e && Alone(c.lru, e) && now < e.expiry
    ensures Moved(c, Swept(c, now), e, 0)
  {
    hide Place;
    PlaceFresh(c.lru, c.index, now, e);
  }

  /** The number of lookups and insertions after event j. */
  function UsesSince(es: seq<Event>, j: nat): nat
    requires j < |es|
  {
    if |es| == j + 1 then 0
    else UsesSince(es[..|es| - 1], j) + if es[|es| - 1].Lookup? || es[|es| - 1].Insert? then 1 else 0
  }

  /** Event j finds no element with its key. */
  predicate InsertsAlone(hash: string -> Key, es: seq<Event>, j: nat, key: Key)
    requires j < |es|
  {
    forall x :: x in Run(hash, es[..j]).cache.lru ==> x.key != key
  }

  predicate InPlace(hash: string -> Key, es: seq<Event>, j: nat, key: Key)
    requires j < |es| && es[j].Insert?
  {
    var c := Run(hash, es).cache;
    && key in c.index && c.index[key].key == key
    && c.index[key].claims == es[j].p.claims && c.index[key].expiry == Run(hash, es[..j]).clock + TTL
    && Alone(c.lru, c.index[key]) && Place(c.lru, c.index[key]) <= UsesSince(es, j)
  }

  lemma FirstInPlace(hash: string -> Key, es: seq<Event>, key: Key)
    requires es != [] && InsertsAt(hash, es, |es| - 1, key) && InsertsAlone(hash, es, |es| - 1, key)
    ensures InPlace(hash, es, |es| - 1, key)
  {
    hide Evicted;
    var c := Run(hash, es[..|es| - 1]).cache;
    forall x | x in Evicted(c).lru ensures x in c.lru {
      EvictedShrinks(c, x);
    }
  }

  lemma EventMoves(hash: string -> Key, w: World, ev: Event, e: Entry)
    requires Sound(w.cache) && e.key in w.cache.index && w.cache.index[e.key] == e && Alone(w.cache.lru, e)
    requires w.clock < e.expiry && (ev.Insert? ==> Place(w.cache.lru, e) + 1 < CAPACITY)
    requires ev.Insert? && ev.p in w.pending ==> ev.p.key != e.key
    ensures Moved(w.cache, Do(hash, w, ev).cache, e, if ev.Lookup? || ev.Insert? then 1 else 0)
  {
    hide Looked, Stored, Swept, Sound, Place;
    match ev
    case Lookup(token) => LookupMoves(w.cache, hash(token), w.clock, e);
    case Insert(p) => if p in w.pending { InsertMoves(w.cache, p.key, p.claims, w.clock, e); }
    case Sweep => SweepMoves(w.cache, w.clock, e);
    case _ =>
  }

  lemma {:induction false} StaysInPlace(hash: string -> Key, es: seq<Event>, j: nat, key: Key)
    requires LastInsertion(hash, es, j, key) && InsertsAlone(hash, es, j, key)
    requires Age(hash, es, j) < TTL && UsesSince(es, j) < CAPACITY
    ensures InPlace(hash, es, j, key)
  {
    hide Do, Sound, Place;
    var n := |es| - 1;
    if j == n {
      FirstInPlace(hash, es, key);
    } else {
      PrefixLast(hash, es, j, key);
      assert !InsertsAt(hash, es, n, key);
      StaysInPlace(hash, es[..n], j, key);
      SoundUnderRaces(hash, es[..n]);
      var w := Run(hash, es[..n]);
      EventMoves(hash, w, es[n], w.cache.index[key]);
    }
  }

  /** In every interleaving, whatever clashes there are on other keys: a key that was
      stored where no element held it, less than the TTL ago and with fewer than
      CAPACITY lookups and insertions since, hits with those claims. */
  lemma RecentEntriesHit(hash: string -> Key, es: seq<Event>, j: nat, token: string)
    requires LastInsertion(hash, es, j, hash(token)) && InsertsAlone(hash, es, j, hash(token))
    requires Age(hash, es, j) < TTL && UsesSince(es, j) < CAPACITY
    ensures Hit(Run(hash, es).cache, hash(token), Run(hash, es).clock) == Some(es[j].p.claims)
  {
    hide Run, Place, Alone;
    StaysInPlace(hash, es, j, hash(token));
  }

  // -------------------------------------------------------- what a clash can cost

  /** The cache while two elements hold one key, the older one last: the index knows
      the newer one. */
  predicate Doubled(c: Cache, key: Key, n: nat) {
    && |c.lru| == n >= 2 && c.nextId == n
    && c.lru[n - 1].key == key && c.lru[n - 1].id == 0
    && key in c.index && c.index[key].id == 1 && c.index[key].key == key && c.index[key] in c.lru
  }

  /** Requests look up their tokens before any of them has stored anything. */
  function Misses(a: string, b: string, n: nat): seq<Event> {
    if n == 0 then [Lookup(a)] + [Lookup(a)] else Misses(a, b, n - 1) + [Lookup(b)]
  }

  /** After those lookups, two requests for token a have it verified and store it, then
      m of the requests for token b do, one after the other. */
  function Crowd(hash: string -> Key, a: string, b: string, claims: Claims, n: nat, m: nat): seq<Event> {
    var p, q := Pending(hash(a), claims), Pending(hash(b), claims);
    if m == 0 then Misses(a, b, n) + [Verified(a, claims)] + [Insert(p)] + [Verified(a, claims)] + [Insert(p)]
    else Crowd(hash, a, b, claims, n, m - 1) + [Verified(b, claims)] + [Insert(q)]
  }

  lemma {:induction false} MissesDoNothing(hash: string -> Key, a: string, b: string, n: nat)
    ensures Run(hash, Misses(a, b, n)) == START
  {
    hide Run;
    if n == 0 {
      RunLast(hash, [], Lookup(a));
      RunLast(hash, [Lookup(a)], Lookup(a));
      assert [] + [Lookup(a)] == [Lookup(a)];
      assert Run(hash, []) == START by { RunNothing(hash); }
    } else {
      MissesDoNothing(hash, a, b, n - 1);
      RunLast(hash, Misses(a, b, n - 1), Lookup(b));
    }
  }

  lemma RunNothing(hash: string -> Key)
    ensures Run(hash, []) == START
  {
  }

  /** A request that has missed goes on to store its claims. */
  lemma RequestStores(hash: string -> Key, es: seq<Event>, token: string, claims: Claims)
    ensures var w, q := Run(hash, es), Pending(hash(token), claims);
      Run(hash, es + [Verified(token, claims)] + [Insert(q)]) == w.(cache := Stored(w.cache, q.key, claims, w.clock))
  {
    hide Run, Stored;
    var w, q := Run(hash, es), Pending(hash(token), claims);
    RunLast(hash, es, Verified(token, claims));
    RunLast(hash, es + [Verified(token, claims)], Insert(q));
    assert w.pending + multiset{q} - multiset{q} == w.pending;
  }

  lemma StoreKeepsDoubled(c: Cache, key: Key, n: nat, k: Key, claims: Claims, now: int)
    requires Doubled(c, key, n) && n < CAPACITY && k != key
    ensures var d := Stored(c, k, claims, now); Doubled(d, key, n + 1) && d.index[key] == c.index[key]
  {
    var d := Stored(c, k, claims, now);
    assert d.lru[n] == c.lru[n - 1];
  }

  lemma {:induction false} CrowdDoubles(hash: string -> Key, a: string, b: string, claims: Claims, n: nat, m: nat)
    requires hash(a) != hash(b) && m + 2 <= CAPACITY
    ensures var w := Run(hash, Crowd(hash, a, b, claims, n, m));
      && Doubled(w.cache, hash(a), m + 2) && w.clock == 0
      && w.cache.index[hash(a)] == Entry(1, hash(a), claims, TTL)
  {
    hide Run, Stored;
    if m == 0 {
      hide Doubled;
      var es, p := Misses(a, b, n), Pending(hash(a), claims);
      MissesDoNothing(hash, a, b, n);
      RequestStores(hash, es, a, claims);
      RequestStores(hash, es + [Verified(a, claims)] + [Insert(p)], a, claims);
      StoredTwice(hash(a), claims);
    } else {
      CrowdDoubles(hash, a, b, claims, n, m - 1);
      var es := Crowd(hash, a, b, claims, n, m - 1);
      RequestStores(hash, es, b, claims);
      StoreKeepsDoubled(Run(hash, es).cache, hash(a), m + 1, hash(b), claims, 0);
    }
  }

  lemma StoredTwice(key: Key, claims: Claims)
    ensures var c := Stored(Stored(EMPTY, key, claims, 0), key, claims, 0);
      Doubled(c, key, 2) && c.index[key] == Entry(1, key, claims, TTL)
  {
    var e0, e1 := Entry(0, key, claims, TTL), Entry(1, key, claims, TTL);
    assert Stored(EMPTY, key, claims, 0) == Cache([e0], map[key := e0], 1);
    assert Stored(Cache([e0], map[key := e0], 1), key, claims, 0) == Cache([e1, e0], map[key := e1], 2);
  }

  /** A clash can make the cache forget a live entry: once the older of two elements for
      a key is evicted, the index loses the key, although its newer element was stored
      just now, is still listed, and only one other key was ever used. */
  lemma ClashForgetsLiveEntry(hash: string -> Key, a: string, b: string, claims: Claims)
    requires hash(a) != hash(b)
    ensures var w := Run(hash, Crowd(hash, a, b, claims, CAPACITY - 1, CAPACITY - 1));
      && Entry(1, hash(a), claims, TTL) in w.cache.lru && w.clock == 0
      && Hit(w.cache, hash(a), w.clock).None?
  {
    hide Run, Stored;
    var n := CAPACITY - 1;
    CrowdDoubles(hash, a, b, claims, n, n - 1);
    var es := Crowd(hash, a, b, claims, n, n - 1);
    RequestStores(hash, es, b, claims);
    OrphanEvicted(Run(hash, es).cache, hash(b), claims, hash(a));
  }

  lemma OrphanEvicted(c: Cache, k: Key, claims: Claims, key: Key)
    requires Doubled(c, key, CAPACITY) && k != key
    ensures var d := Stored(c, k, claims, 0); key !in d.index && c.index[key] in d.lru
  {
    var n := CAPACITY - 1;
    var d := c.(lru := c.lru[..n], index := c.index - {key});
    assert Evicted(c) == Evicted(d) == d;
    var i :| 0 <= i < |c.lru| && c.lru[i] == c.index[key];
    assert i != n && d.lru[i] == c.index[key];
  }

  // ---------------------------------------------------------------- sequentially

  lemma TookStores(c: Cache, s: Step, key: Key)
    requires key in Took(c, s).index
    ensures
      || (key in c.index && Took(c, s).index[key] == c.index[key])
      || (s.Request? && s.key == key && s.verified.Some?
          && Took(c, s).index[key].claims == s.verified.value && Took(c, s).index[key].expiry == s.answered + TTL)
  {
    if s.Request? && s.verified.Some? {
      EvictedKeepsEntries(Looked(c, s.key, s.asked), key);
    }
  }

  lemma {:induction false} EvictedKeepsEntries(c: Cache, key: Key)
    ensures key in Evicted(c).index ==> key in c.index && Evicted(c).index[key] == c.index[key]
    decreases |c.lru|
  {
    if |c.lru| >= CAPACITY {
      EvictedKeepsEntries(c.(lru := c.lru[..|c.lru| - 1], index := c.index - {c.lru[|c.lru| - 1].key}), key);
    }
  }

  /** Sequentially, a key that is held was stored by one of its requests, and hits at
      any time exactly while that is less than the TTL ago. */
  lemma {:induction false} HeldHitsSequentially(ss: seq<Step>, key: Key) returns (j: nat)
    requires key in RunSteps(ss).index
    ensures j < |ss| && ss[j].Request? && ss[j].key == key && ss[j].verified.Some?
    ensures RunSteps(ss).index[key].expiry == ss[j].answered + TTL
    ensures forall now: int :: Hit(RunSteps(ss), key, now) == if now - ss[j].answered < TTL then ss[j].verified else None
  {
    hide Took;
    var n := |ss| - 1;
    TookStores(RunSteps(ss[..n]), ss[n], key);
    if key in RunSteps(ss[..n]).index && RunSteps(ss).index[key] == RunSteps(ss[..n]).index[key] {
      j := HeldHitsSequentially(ss[..n], key);
      var t := RunSteps(ss[..n]);
      assert Hit(t, key, ss[j].answered) == ss[j].verified;
    } else {
      j := n;
    }
  }
}
