/**
 The token cache of pkg/gateway/auth.go: an LRU list with an index into it. The
 lock is released between the lookup and the insertion, so the two critical
 sections and the sweep are separate operations.
 */
module TokenCache {
  import opened Common

  const TTL: nat := 5 * MINUTE
  const CAPACITY: nat := 10_000

  type Key = string
  datatype Claims = Claims(subject: string, email: string, userID: string)

  /** A list element. Two elements can hold equal data, so each has an identity. */
  datatype Entry = Entry(id: nat, key: Key, claims: Claims, expiry: int)

  datatype Cache = Cache(lru: seq<Entry>, index: map<Key, Entry>, nextId: nat)

  const EMPTY := Cache([], map[], 0)

  // ------------------------------------------------------------ list operations

  /** list.Remove: nothing happens when the element is not in the list. */
  function Without(lru: seq<Entry>, e: Entry): (r: seq<Entry>)
    ensures |r| <= |lru|
    ensures forall x :: x in r ==> x in lru
    ensures forall x :: x in lru && x != e ==> x in r
  {
    if lru == [] then []
    else if lru[0] == e then lru[1..]
    else [lru[0]] + Without(lru[1..], e)
  }

  predicate DistinctIds(lru: seq<Entry>) {
    forall i, j :: 0 <= i < j < |lru| ==> lru[i].id != lru[j].id
  }

  lemma {:induction false} WithoutDistinct(lru: seq<Entry>, e: Entry)
    requires DistinctIds(lru)
    ensures DistinctIds(Without(lru, e)) && e !in Without(lru, e)
    ensures e in lru ==> |Without(lru, e)| == |lru| - 1
  {
    if lru != [] && lru[0] != e {
      WithoutDistinct(lru[1..], e);
      var rest := Without(lru[1..], e);
      forall x | x in rest ensures x.id != lru[0].id {
        var i :| 0 <= i < |lru[1..]| && lru[1..][i] == x;
        assert lru[i + 1] == x;
      }
    }
  }

  // ------------------------------------------------- the three critical sections

  /** First critical section of Validate. */
  function Looked(c: Cache, key: Key, now: int): Cache {
    if key !in c.index then c
    else
      var e := c.index[key];
      if now < e.expiry then
        if e in c.lru then c.(lru := [e] + Without(c.lru, e)) else c
      else c.(lru := Without(c.lru, e), index := c.index - {key})
  }

  function Hit(c: Cache, key: Key, now: int): Option<Claims> {
    if key in c.index && now < c.index[key].expiry then Some(c.index[key].claims) else None
  }

  /** The eviction loop before an insertion. */
  function Evicted(c: Cache): Cache
    decreases |c.lru|
  {
    if |c.lru| < CAPACITY then c
    else
      var oldest := c.lru[|c.lru| - 1];
      Evicted(c.(lru := c.lru[..|c.lru| - 1], index := c.index - {oldest.key}))
  }

  /** Second critical section of Validate. */
  function Stored(c: Cache, key: Key, claims: Claims, now: int): Cache {
    var d := Evicted(c);
    var e := Entry(d.nextId, key, claims, now + TTL);
    Cache([e] + d.lru, d.index[key := e], d.nextId + 1)
  }

  predicate Stale(index: map<Key, Entry>, e: Entry, now: int) {
    e.key in index && index[e.key] == e && now > e.expiry
  }

  function Fresh(lru: seq<Entry>, index: map<Key, Entry>, now: int): (r: seq<Entry>)
    ensures forall x :: x in r <==> x in lru && !Stale(index, x, now)
    ensures |r| <= |lru|
  {
    if lru == [] then []
    else (if Stale(index, lru[0], now) then [] else [lru[0]]) + Fresh(lru[1..], index, now)
  }

  /** One round of evictExpired: it visits the index only. */
  function Swept(c: Cache, now: int): Cache {
    c.(lru := Fresh(c.lru, c.index, now),
       index := map k | k in c.index && now <= c.index[k].expiry :: c.index[k])
  }

  // ----------------------------------------------- invariant of every interleaving

  /** Index entries point to live list elements with that key; the list is bounded. */
  predicate Sound(c: Cache) {
    && DistinctIds(c.lru)
    && (forall e :: e in c.lru ==> e.id < c.nextId)
    && (forall k :: k in c.index ==> c.index[k].key == k && c.index[k] in c.lru)
    && |c.lru| <= CAPACITY
  }

  lemma SubsequenceDistinct(lru: seq<Entry>, e: Entry)
    requires DistinctIds(lru) && forall x :: x in lru ==> x.id != e.id
    ensures DistinctIds([e] + lru)
  {
    forall j | 0 <= j < |lru| ensures lru[j].id != e.id {}
  }

  lemma LookedIsSound(c: Cache, key: Key, now: int)
    requires Sound(c)
    ensures Sound(Looked(c, key, now))
  {
    if key in c.index {
      var e := c.index[key];
      WithoutDistinct(c.lru, e);
      var rest := Without(c.lru, e);
      forall x | x in rest ensures x.id != e.id {
        var i :| 0 <= i < |c.lru| && c.lru[i] == x;
        var j :| 0 <= j < |c.lru| && c.lru[j] == e;
        assert i != j;
      }
      SubsequenceDistinct(rest, e);
    }
  }

  lemma {:induction false} EvictedIsSound(c: Cache)
    requires DistinctIds(c.lru)
    requires forall e :: e in c.lru ==> e.id < c.nextId
    requires forall k :: k in c.index ==> c.index[k].key == k && c.index[k] in c.lru
    ensures Sound(Evicted(c)) && |Evicted(c).lru| < CAPACITY
    decreases |c.lru|
  {
    if |c.lru| >= CAPACITY {
      var n := |c.lru| - 1;
      var d := c.(lru := c.lru[..n], index := c.index - {c.lru[n].key});
      forall k | k in d.index ensures d.index[k] in d.lru {
        var i :| 0 <= i < |c.lru| && c.lru[i] == c.index[k];
        assert i != n;
        assert d.lru[i] == c.index[k];
      }
      EvictedIsSound(d);
    }
  }

  lemma StoredIsSound(c: Cache, key: Key, claims: Claims, now: int)
    requires Sound(c)
    ensures Sound(Stored(c, key, claims, now))
  {
    EvictedIsSound(c);
    var d := Evicted(c);
    var e := Entry(d.nextId, key, claims, now + TTL);
    SubsequenceDistinct(d.lru, e);
  }

  lemma {:induction false} FreshDistinct(lru: seq<Entry>, index: map<Key, Entry>, now: int)
    requires DistinctIds(lru)
    ensures DistinctIds(Fresh(lru, index, now))
  {
    if lru != [] {
      FreshDistinct(lru[1..], index, now);
      var rest := Fresh(lru[1..], index, now);
      forall x | x in rest ensures x.id != lru[0].id {
        var i :| 0 <= i < |lru[1..]| && lru[1..][i] == x;
        assert lru[i + 1] == x;
      }
      SubsequenceDistinct(rest, lru[0]);
    }
  }

  lemma SweptIsSound(c: Cache, now: int)
    requires Sound(c)
    ensures Sound(Swept(c, now))
  {
    FreshDistinct(c.lru, c.index, now);
  }

  /** A sound cache never indexes more entries than it lists. */
  lemma IndexFitsList(c: Cache)
    requires Sound(c)
    ensures |c.index| <= |c.lru| <= CAPACITY
  {
    PointersInjective(c.index, c.lru);
  }

  lemma {:induction false} PointersInjective(index: map<Key, Entry>, lru: seq<Entry>)
    requires forall k :: k in index ==> index[k].key == k && index[k] in lru
    ensures |index| <= |lru|
  {
    if lru != [] {
      var k := lru[0].key;
      var smaller := if k in index && index[k] == lru[0] then index - {k} else index;
      forall k' | k' in smaller ensures smaller[k'] in lru[1..] {
        var i :| 0 <= i < |lru| && lru[i] == index[k'];
        assert i > 0 && lru[1..][i - 1] == index[k'];
      }
      PointersInjective(smaller, lru[1..]);
      if smaller != index {
        assert index.Keys == smaller.Keys + {k};
        assert |index.Keys| == |smaller.Keys| + 1;
        assert |index| == |index.Keys| && |smaller| == |smaller.Keys|;
      }
    } else {
      assert index == map[];
    }
  }

  // ------------------------------------------------------------------- the object

  /** The Validator's cache as the mutable object it is. */
  class Validator {
    var lru: seq<Entry>
    var index: map<Key, Entry>
    var nextId: nat

    ghost function State(): Cache
      reads this
    {
      Cache(lru, index, nextId)
    }

    constructor ()
      ensures State() == EMPTY && Sound(State())
    {
      lru, index, nextId := [], map[], 0;
    }

    method Lookup(key: Key, now: int) returns (hit: Option<Claims>)
      requires Sound(State())
      modifies this
      ensures hit == Hit(old(State()), key, now)
      ensures State() == Looked(old(State()), key, now) && Sound(State())
    {
      LookedIsSound(State(), key, now);
      hit := None;
      if key in index {
        var entry := index[key];
        if now < entry.expiry {
          lru := [entry] + Without(lru, entry);
          hit := Some(entry.claims);
          return;
        }
        lru := Without(lru, entry);
        index := index - {key};
      }
    }

    method Store(key: Key, claims: Claims, now: int)
      requires Sound(State())
      modifies this
      ensures State() == Stored(old(State()), key, claims, now) && Sound(State())
    {
      StoredIsSound(State(), key, claims, now);
      while |lru| >= CAPACITY
        invariant Evicted(State()) == Evicted(old(State())) && nextId == old(nextId)
        decreases |lru|
      {
        var oldest := lru[|lru| - 1];
        lru := lru[..|lru| - 1];
        index := index - {oldest.key};
      }
      var entry := Entry(nextId, key, claims, now + TTL);
      lru := [entry] + lru;
      index := index[key := entry];
      nextId := nextId + 1;
    }

    /** Validate with no other request in between; `verified` is the verifier's
        answer, which is asked for only on a miss. */
    method Validate(key: Key, verified: Option<Claims>, asked: int, answered: int) returns (claims: Option<Claims>)
      requires Sound(State())
      modifies this
      ensures claims == if Hit(old(State()), key, asked).Some? then Hit(old(State()), key, asked) else verified
      ensures var looked := Looked(old(State()), key, asked);
              State() == if Hit(old(State()), key, asked).Some? || verified.None? then looked
                         else Stored(looked, key, verified.value, answered)
      ensures Sound(State())
    {
      claims := Lookup(key, asked);
      if claims.Some? || verified.None? {
        return;
      }
      claims := verified;
      Store(key, verified.value, answered);
    }

    /** Visits the index in any order. */
    method EvictExpired(now: int)
      requires Sound(State())
      modifies this
      ensures State() == Swept(old(State()), now) && Sound(State())
    {
      hide Sound, Fresh, Without;
      var keys := index.Keys;
      while keys != {}
        invariant Sound(State()) && nextId == old(nextId)
        invariant keys <= index.Keys
        invariant forall k :: k in index <==> k in old(index) && (k in keys || now <= old(index)[k].expiry)
        invariant forall k :: k in index ==> index[k] == old(index)[k]
        invariant Fresh(lru, index, now) == Fresh(old(lru), old(index), now)
        decreases keys
      {
        var key :| key in keys;
        var elem := index[key];
        if now > elem.expiry {
          DropStale(State(), key, now);
          lru := Without(lru, elem);
          index := index - {key};
        }
        keys := keys - {key};
      }
      NothingStale(lru, index, now);
      assert index == Swept(old(State()), now).index;
    }
  }

  /** One removal of the sweep. */
  lemma DropStale(c: Cache, key: Key, now: int)
    requires Sound(c) && key in c.index && now > c.index[key].expiry
    ensures var d := c.(lru := Without(c.lru, c.index[key]), index := c.index - {key});
            Sound(d) && Fresh(d.lru, d.index, now) == Fresh(c.lru, c.index, now)
  {
    SweepOne(c.lru, c.index, c.index[key], now);
    WithoutDistinct(c.lru, c.index[key]);
  }

  lemma {:induction false} NothingStale(lru: seq<Entry>, index: map<Key, Entry>, now: int)
    requires forall k :: k in index ==> now <= index[k].expiry
    ensures Fresh(lru, index, now) == lru
  {
    if lru != [] { NothingStale(lru[1..], index, now); }
  }

  /** Removing one stale element, from list and index, changes nothing for the rest. */
  lemma {:induction false} SweepOne(lru: seq<Entry>, index: map<Key, Entry>, e: Entry, now: int)
    requires DistinctIds(lru) && Stale(index, e, now)
    ensures Fresh(Without(lru, e), index - {e.key}, now) == Fresh(lru, index, now)
  {
    if lru == [] {
    } else if lru[0] == e {
      WithoutDistinct(lru, e);
      SweepRest(lru[1..], index, e, now);
    } else {
      SweepOne(lru[1..], index, e, now);
      var rest := Without(lru[1..], e);
      assert ([lru[0]] + rest)[1..] == rest;
      assert Stale(index - {e.key}, lru[0], now) <==> Stale(index, lru[0], now);
    }
  }

  lemma {:induction false} SweepRest(lru: seq<Entry>, index: map<Key, Entry>, e: Entry, now: int)
    requires Stale(index, e, now) && e !in lru
    ensures Fresh(lru, index - {e.key}, now) == Fresh(lru, index, now)
  {
    if lru != [] { SweepRest(lru[1..], index, e, now); }
  }
}
