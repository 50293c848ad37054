/**
 The cache of remote users' public keys (server/go/internal/federation/keys.go).
 What the remote would answer now is a parameter of a lookup.
 */
module KeyCache {

  /** Clock ticks are nanoseconds. */
  const SECOND := 1_000_000_000

  const KEY_CACHE_TTL := 60 * SECOND
  const SWEEP_SIZE := 4096

  datatype RemoteKeys = RemoteKeys(kem: string, sig: string)

  datatype Fetched = Found(keys: RemoteKeys) | RemoteNotFound | Unreachable

  datatype Cached = Cached(keys: RemoteKeys, at: nat)

  type Cache = map<string, Cached>

  predicate Young(c: Cached, now: nat) { now as int - c.at < KEY_CACHE_TTL }

  /** Expired entries go once the cache gets large. */
  function Swept(cache: Cache, now: nat): Cache {
    if |cache| < SWEEP_SIZE then cache
    else map id | id in cache && Young(cache[id], now) :: cache[id]
  }

  function Looked(cache: Cache, id: string, fresh_: bool, answer: Fetched, now: nat): (Cache, Fetched) {
    if !fresh_ && id in cache && Young(cache[id], now) then (cache, Found(cache[id].keys))
    else
      match answer
      case Found(keys) => (Swept(cache, now)[id := Cached(keys, now)], answer)
      case _ => (cache, answer)
  }

  class Keys {
    var cache: Cache

    constructor ()
      ensures cache == map[]
    {
      cache := map[];
    }

    method Lookup(id: string, fresh_: bool, answer: Fetched, now: nat) returns (r: Fetched)
      modifies this
      ensures (cache, r) == Looked(old(cache), id, fresh_, answer, now)
    {
      if !fresh_ {
        if id in cache && Young(cache[id], now) {
          return Found(cache[id].keys);
        }
      }
      if answer.Found? {
        Sweep(now);
        cache := cache[id := Cached(answer.keys, now)];
      }
      return answer;
    }

    method Sweep(now: nat)
      modifies this
      ensures cache == Swept(old(cache), now)
    {
      if |cache| < SWEEP_SIZE {
        return;
      }
      ghost var before := cache;
      var todo := cache.Keys;
      while todo != {}
        invariant todo <= cache.Keys <= before.Keys
        invariant forall id :: id in cache ==> cache[id] == before[id]
        invariant forall id :: id in before && id !in todo ==> (id in cache <==> Young(before[id], now))
      {
        var id :| id in todo;
        if !Young(cache[id], now) {
          cache := cache - {id};
        }
        todo := todo - {id};
      }
    }
  }

  /** A lookup tells what the remote answers now, or what it answered within the
      last minute; a fresh one only the former. */
  lemma LookedIsRecent(cache: Cache, id: string, fresh_: bool, answer: Fetched, now: nat)
    ensures var r := Looked(cache, id, fresh_, answer, now).1;
            r == answer || (!fresh_ && id in cache && Young(cache[id], now) && r == Found(cache[id].keys))
  {
  }

  /** What a lookup leaves: an answer is kept and serves every ordinary lookup of
      the next minute, a failure is not, and no other recent entry is lost. */
  lemma LookedIsKept(cache: Cache, id: string, fresh_: bool, answer: Fetched, now: nat,
                     other: string, later: nat, answer': Fetched)
    requires now <= later
    ensures var (cache', r) := Looked(cache, id, fresh_, answer, now);
            && (r.Found? && later - now < 60_000_000_000 && (fresh_ || id !in cache || now - cache[id].at >= 60_000_000_000) ==>
                  Looked(cache', id, false, answer', later) == (cache', r))
            && (!r.Found? ==> cache' == cache)
            && (other != id && other in cache && now - cache[other].at < 60_000_000_000 ==>
                  other in cache' && cache'[other] == cache[other])
            && (other != id && other in cache' ==> other in cache && cache'[other] == cache[other])
  {
  }

  /** The network is asked exactly when a fresh answer is wanted or no recent one is
      known, and then its answer is what is told. */
  lemma AskedWhen(cache: Cache, id: string, fresh_: bool, answer: Fetched, now: nat)
    ensures Looked(cache, id, fresh_, answer, now).1
         == if fresh_ || id !in cache || now - cache[id].at >= 60_000_000_000 then answer else Found(cache[id].keys)
  {
  }

  /** Old entries stay until there are 4096 entries; then all of them go, at the next
      answer. */
  lemma OldGoTogether(cache: Cache, id: string, keys: RemoteKeys, now: nat, other: string)
    requires other != id && other in cache
    ensures var cache' := Looked(cache, id, true, Found(keys), now).0;
            other in cache' <==> |cache| < 4096 || now - cache[other].at < 60_000_000_000
  {
  }
}
