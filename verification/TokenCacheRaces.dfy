/**
 The cache under every interleaving of lookups, verifications, insertions and
 sweeps by any number of concurrent requests.
 */
module TokenCacheRaces {
  import opened Common
  import opened TokenCache
  import opened TokenCacheLru

  /** The verifier accepted `token` with these claims; the insertion is still to come. */
  datatype Pending = Pending(key: Key, claims: Claims)

  datatype World = World(cache: Cache, clock: nat, pending: multiset<Pending>)

  datatype Event =
    | Lookup(token: string)
    | Verified(token: string, claims: Claims)
    | Insert(p: Pending)
    | Sweep
    | Tick(elapsed: nat)

  const START := World(EMPTY, 0, multiset{})

  function Do(hash: string -> Key, w: World, e: Event): World {
    match e
    case Lookup(token) => w.(cache := Looked(w.cache, hash(token), w.clock))
    case Verified(token, claims) => w.(pending := w.pending + multiset{Pending(hash(token), claims)})
    case Insert(p) =>
      if p !in w.pending then w
      else World(Stored(w.cache, p.key, p.claims, w.clock), w.clock, w.pending - multiset{p})
    case Sweep => w.(cache := Swept(w.cache, w.clock))
    case Tick(elapsed) => w.(clock := w.clock + elapsed)
  }

  function Run(hash: string -> Key, es: seq<Event>): World {
    if es == [] then START else Do(hash, Run(hash, es[..|es| - 1]), es[|es| - 1])
  }

  /** In every interleaving each index entry points to a live list element with
      its key, the index is no larger than the list, and the list is bounded. */
  lemma {:induction false} SoundUnderRaces(hash: string -> Key, es: seq<Event>)
    ensures var c := Run(hash, es).cache; Sound(c) && |c.index| <= |c.lru| <= CAPACITY
  {
    hide Looked, Stored, Swept, Sound;
    if es == [] {
      assert Sound(EMPTY) by { SoundEmpty(); }
    } else {
      SoundUnderRaces(hash, es[..|es| - 1]);
      var w := Run(hash, es[..|es| - 1]);
      match es[|es| - 1]
      case Lookup(token) => LookedIsSound(w.cache, hash(token), w.clock);
      case Insert(p) => StoredIsSound(w.cache, p.key, p.claims, w.clock);
      case Sweep => SweptIsSound(w.cache, w.clock);
      case _ =>
    }
    IndexFitsList(Run(hash, es).cache);
  }

  lemma SoundEmpty()
    ensures Sound(EMPTY)
  {
  }

  // --------------------------------------------------------- what a hit returns

  /** Events i and j of the run verified a token with this key and stored the claims. */
  predicate Backs(hash: string -> Key, es: seq<Event>, i: nat, j: nat, key: Key, claims: Claims, expiry: int) {
    && i < j < |es|
    && es[i].Verified? && hash(es[i].token) == key && es[i].claims == claims
    && es[j] == Insert(Pending(key, claims))
    && expiry == Run(hash, es[..j]).clock + TTL
  }

  ghost predicate Backed(hash: string -> Key, es: seq<Event>, e: Entry) {
    exists i: nat, j: nat :: Backs(hash, es, i, j, e.key, e.claims, e.expiry)
  }

  ghost predicate Announced(hash: string -> Key, es: seq<Event>, p: Pending) {
    exists i: nat :: i < |es| && es[i].Verified? && hash(es[i].token) == p.key && es[i].claims == p.claims
  }

  ghost predicate AllBacked(hash: string -> Key, es: seq<Event>) {
    && (forall e :: e in Run(hash, es).cache.lru ==> Backed(hash, es, e))
    && (forall p :: p in Run(hash, es).pending ==> Announced(hash, es, p))
  }

  lemma BackedLater(hash: string -> Key, es: seq<Event>, e: Entry)
    requires es != [] && Backed(hash, es[..|es| - 1], e)
    ensures Backed(hash, es, e)
  {
    var init := es[..|es| - 1];
    var i: nat, j: nat :| Backs(hash, init, i, j, e.key, e.claims, e.expiry);
    assert init[..j] == es[..j];
    assert Backs(hash, es, i, j, e.key, e.claims, e.expiry);
  }

  lemma AnnouncedLater(hash: string -> Key, es: seq<Event>, p: Pending)
    requires es != [] && Announced(hash, es[..|es| - 1], p)
    ensures Announced(hash, es, p)
  {
    var init := es[..|es| - 1];
    var i: nat :| i < |init| && init[i].Verified? && hash(init[i].token) == p.key && init[i].claims == p.claims;
    assert es[i] == init[i];
  }

  /** No step puts an entry into the list except its own insertion. */
  lemma NewEntries(hash: string -> Key, w: World, ev: Event, e: Entry)
    requires Sound(w.cache) && e in Do(hash, w, ev).cache.lru && e !in w.cache.lru
    ensures ev.Insert? && ev.p in w.pending && e.key == ev.p.key && e.claims == ev.p.claims && e.expiry == w.clock + TTL
  {
    if ev.Insert? && ev.p in w.pending && e in Evicted(w.cache).lru {
      EvictedShrinks(w.cache, e);
    }
  }

  lemma {:induction false} EvictedShrinks(c: Cache, e: Entry)
    requires e in Evicted(c).lru
    ensures e in c.lru
    decreases |c.lru|
  {
    if |c.lru| >= CAPACITY {
      EvictedShrinks(c.(lru := c.lru[..|c.lru| - 1], index := c.index - {c.lru[|c.lru| - 1].key}), e);
    }
  }

  lemma {:induction false} EntriesAreBacked(hash: string -> Key, es: seq<Event>)
    ensures AllBacked(hash, es)
  {
    hide Looked, Stored, Swept, Sound, Backed, Announced;
    if es != [] {
      var n := |es| - 1;
      var w := Run(hash, es[..n]);
      EntriesAreBacked(hash, es[..n]);
      SoundUnderRaces(hash, es[..n]);
      forall e | e in Run(hash, es).cache.lru ensures Backed(hash, es, e) {
        if e in w.cache.lru {
          BackedLater(hash, es, e);
        } else {
          NewEntries(hash, w, es[n], e);
          InsertionBacks(hash, es, e);
        }
      }
      forall p | p in Run(hash, es).pending ensures Announced(hash, es, p) {
        if p in w.pending {
          AnnouncedLater(hash, es, p);
        } else {
          VerificationAnnounces(hash, es, p);
        }
      }
    }
  }

  lemma InsertionBacks(hash: string -> Key, es: seq<Event>, e: Entry)
    requires es != [] && es[|es| - 1] == Insert(Pending(e.key, e.claims))
    requires Announced(hash, es[..|es| - 1], Pending(e.key, e.claims))
    requires e.expiry == Run(hash, es[..|es| - 1]).clock + TTL
    ensures Backed(hash, es, e)
  {
    var n := |es| - 1;
    var init := es[..n];
    var i: nat :| i < |init| && init[i].Verified? && hash(init[i].token) == e.key && init[i].claims == e.claims;
    assert Backs(hash, es, i, n, e.key, e.claims, e.expiry);
  }

  lemma VerificationAnnounces(hash: string -> Key, es: seq<Event>, p: Pending)
    requires es != [] && p in Run(hash, es).pending && p !in Run(hash, es[..|es| - 1]).pending
    ensures Announced(hash, es, p)
  {
    hide Looked, Stored, Swept;
    var n := |es| - 1;
    assert es[n].Verified? && hash(es[n].token) == p.key && es[n].claims == p.claims;
  }

  /** Whatever races took place, a hit returns claims that the verifier produced
      earlier in the run for a token with the same hash, and that were stored
      less than the TTL ago. */
  lemma HitsAreVerified(hash: string -> Key, es: seq<Event>, token: string) returns (i: nat, j: nat)
    requires Hit(Run(hash, es).cache, hash(token), Run(hash, es).clock).Some?
    ensures i < j < |es|
    ensures es[i].Verified? && hash(es[i].token) == hash(token)
    ensures Hit(Run(hash, es).cache, hash(token), Run(hash, es).clock) == Some(es[i].claims)
    ensures es[j] == Insert(Pending(hash(token), es[i].claims))
    ensures Run(hash, es).clock - Run(hash, es[..j]).clock < TTL
  {
    hide Run;
    var w := Run(hash, es);
    SoundUnderRaces(hash, es);
    EntriesAreBacked(hash, es);
    var e := w.cache.index[hash(token)];
    i, j :| Backs(hash, es, i, j, e.key, e.claims, e.expiry);
  }

  // ------------------------------------------ what the races do break

  /** Event k inserts a key that another insertion has indexed meanwhile. */
  predicate ClashAt(hash: string -> Key, es: seq<Event>, k: nat)
    requires k < |es|
  {
    var w := Run(hash, es[..k]);
    es[k].Insert? && es[k].p in w.pending && Clashes(w.cache, es[k].p.key)
  }

  predicate NoClash(hash: string -> Key, es: seq<Event>) {
    forall k :: 0 <= k < |es| ==> !ClashAt(hash, es, k)
  }

  predicate ExactThroughout(hash: string -> Key, es: seq<Event>) {
    forall k :: 0 <= k <= |es| ==> Exact(Run(hash, es[..k]).cache)
  }

  lemma StepIsExact(hash: string -> Key, w: World, e: Event)
    requires Exact(w.cache)
    ensures Exact(Do(hash, w, e).cache) <==> !(e.Insert? && e.p in w.pending && Clashes(w.cache, e.p.key))
  {
    hide Looked, Stored, Swept, Exact, Clashes;
    match e
    case Lookup(token) => LookedIsExact(w.cache, hash(token), w.clock);
    case Insert(p) => StoredIsExact(w.cache, p.key, p.claims, w.clock);
    case Sweep => SweptIsExact(w.cache, w.clock);
    case _ =>
  }

  /** The exact condition: list and index are in bijection throughout a run, with any
      concurrency, if and only if no insertion meets its key already indexed. */
  lemma {:induction false} BijectionIffNoClash(hash: string -> Key, es: seq<Event>)
    ensures ExactThroughout(hash, es) <==> NoClash(hash, es)
  {
    hide Do, Exact, Clashes;
    assert es[..|es|] == es;
    if es == [] {
      assert Run(hash, es) == START;
      EmptyIsExact();
    } else {
      var n := |es| - 1;
      var init := es[..n];
      BijectionIffNoClash(hash, init);
      ThroughoutExtends(hash, es);
      NoClashExtends(hash, es);
      if Exact(Run(hash, init).cache) {
        StepIsExact(hash, Run(hash, init), es[n]);
      } else {
        assert init[..n] == init;
      }
    }
  }

  lemma ThroughoutExtends(hash: string -> Key, es: seq<Event>)
    requires es != []
    ensures ExactThroughout(hash, es) <==> ExactThroughout(hash, es[..|es| - 1]) && Exact(Run(hash, es).cache)
  {
    hide Run, Exact;
    var init := es[..|es| - 1];
    assert es[..|es|] == es;
    assert forall k :: 0 <= k <= |init| ==> init[..k] == es[..k];
    if ExactThroughout(hash, init) && Exact(Run(hash, es).cache) {
      forall k | 0 <= k <= |es| ensures Exact(Run(hash, es[..k]).cache) {
        if k < |es| { assert init[..k] == es[..k]; }
      }
    }
  }

  lemma NoClashExtends(hash: string -> Key, es: seq<Event>)
    requires es != []
    ensures NoClash(hash, es) <==> NoClash(hash, es[..|es| - 1]) && !ClashAt(hash, es, |es| - 1)
  {
    hide Run, Clashes;
    var init := es[..|es| - 1];
    forall k | 0 <= k < |init| ensures ClashAt(hash, es, k) <==> ClashAt(hash, init, k) {
      assert init[..k] == es[..k];
    }
  }

  /** A run that clashes: two requests look up one token and miss, both have it
      verified, both insert. Two list elements for one key remain, of which the index
      knows one. */
  lemma RaceLeavesDuplicate(hash: string -> Key, token: string, claims: Claims)
    ensures var p := Pending(hash(token), claims);
            var es := [Lookup(token), Lookup(token), Verified(token, claims), Verified(token, claims), Insert(p), Insert(p)];
            var c := Run(hash, es).cache;
            && |c.lru| == 2 && |c.index| == 1 && c.lru[0].key == c.lru[1].key == hash(token)
            && Hit(Run(hash, es[..1]).cache, hash(token), 0).None?
  {
    hide Run;
    var p := Pending(hash(token), claims);
    var es := [Lookup(token), Lookup(token), Verified(token, claims), Verified(token, claims), Insert(p), Insert(p)];
    var entry := Entry(0, p.key, claims, TTL);
    RunAt(hash, es, 0);
    assert Run(hash, es[..1]) == START;
    RunAt(hash, es, 1);
    RunAt(hash, es, 2);
    RunAt(hash, es, 3);
    assert Run(hash, es[..4]) == World(EMPTY, 0, multiset{p, p});
    RunAt(hash, es, 4);
    assert Run(hash, es[..5]) == World(Cache([entry], map[p.key := entry], 1), 0, multiset{p});
    RunAt(hash, es, 5);
    assert es[..6] == es;
  }

  lemma RunAt(hash: string -> Key, es: seq<Event>, k: nat)
    requires k < |es|
    ensures Run(hash, es[..0]) == START && Run(hash, es[..k + 1]) == Do(hash, Run(hash, es[..k]), es[k])
  {
    hide Do;
    assert es[..k + 1][..k] == es[..k];
  }
}
