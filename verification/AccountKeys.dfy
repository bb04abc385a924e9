/**
 * The data key of an account: one lookup at a time, a cache that an eviction wipes, and a copy of its own for every
 * caller. Ciphers are left abstract: what was sealed is what opens.
 */
module AccountKeys {
  import opened Wrappers

  type Bytes = seq<int>

  datatype Entry = Entry(dek: array<int>, keyId: nat, passwordHash: Option<nat>)

  datatype Lookup = Hit(copy: array<int>) | WrongPassword | Joined(other: nat) | Started(token: nat)

  datatype Resolved = Key(dek: array<int>) | NoKey | Unavailable

  method Copy(from: array<int>) returns (copy: array<int>)
    ensures fresh(copy) && Holds(copy, from[..])
  {
    copy := new int[from.Length](i requires 0 <= i < from.Length reads from => from[i]);
    assert forall i :: 0 <= i < from.Length ==> copy[i] == from[i];
  }

  method Filled(bytes: Bytes) returns (buffer: array<int>)
    ensures fresh(buffer) && Holds(buffer, bytes)
  {
    buffer := new int[|bytes|](i requires 0 <= i < |bytes| => bytes[i]);
    assert forall i :: 0 <= i < |bytes| ==> buffer[i] == bytes[i];
  }

  method Wipe(buffer: array<int>)
    modifies buffer
    ensures Zeroed(buffer)
  {
    for i := 0 to buffer.Length
      invariant forall k :: 0 <= k < i ==> buffer[k] == 0
    {
      buffer[i] := 0;
    }
  }

  predicate Zeroed(buffer: array<int>)
    reads buffer
  {
    forall i :: 0 <= i < buffer.Length ==> buffer[i] == 0
  }

  /** A password is compared only when one is given and one was given for the entry. */
  predicate PasswordPasses(cached: Option<nat>, given: Option<nat>) {
    given.None? || cached.None? || cached == given
  }

  predicate Holds(buffer: array<int>, bytes: Bytes)
    reads buffer
  {
    buffer[..] == bytes
  }

  class KeyStore {
    var cache: map<nat, Entry>
    /** The lookup under way for an account, by its token. */
    var inflight: map<nat, nat>
    var nextToken: nat
    /** The account of every lookup. */
    var owner: map<nat, nat>
    /** What a finished lookup gave. Its buffer is shared by all who joined it, and is never handed out. */
    var results: map<nat, Resolved>
    /** The key in the database. It is inserted once and never replaced; sealing it again does not change it. */
    var persisted: map<nat, Bytes>
    /** Lookups whose account was evicted while they ran. */
    ghost var evicted: set<nat>
    /** The lookup that filled each cache entry. */
    ghost var cachedBy: map<nat, nat>
    /** Every buffer that was ever cached, and every one that was ever shared. */
    ghost var cachedBuffers: set<array<int>>
    ghost var sharedBuffers: set<array<int>>

    /** Cached buffers are separate and hold the persisted keys. */
    ghost predicate CacheOk()
      reads this, cachedBuffers
    {
      && (forall a :: a in cache ==> cache[a].dek in cachedBuffers && a in persisted && Holds(cache[a].dek, persisted[a]))
      && (forall a, b :: a in cache && b in cache && a != b ==> cache[a].dek != cache[b].dek)
    }

    /** Shared buffers hold the persisted key of the account that was looked up, and are not in the cache. */
    ghost predicate ResultsOk()
      reads this, sharedBuffers
    {
      && cachedBuffers !! sharedBuffers
      && (forall t :: t in results ==> t in owner)
      && (forall t :: t in results && results[t].Key? ==>
            results[t].dek in sharedBuffers && owner[t] in persisted && Holds(results[t].dek, persisted[owner[t]]))
    }

    /** No lookup under way was overtaken by an eviction. */
    ghost predicate InflightOk()
      reads this
    {
      && (forall t :: t in owner ==> t < nextToken) && evicted <= owner.Keys
      && (forall a :: a in inflight ==> inflight[a] in owner && owner[inflight[a]] == a && inflight[a] !in evicted)
    }

    /** No cache entry comes from a lookup that an eviction overtook. */
    ghost predicate FilledOk()
      reads this
    {
      && cachedBy.Keys == cache.Keys
      && (forall a :: a in cache ==> cachedBy[a] in owner && owner[cachedBy[a]] == a && cachedBy[a] !in evicted)
    }

    ghost predicate Valid()
      reads this, cachedBuffers, sharedBuffers
    {
      CacheOk() && ResultsOk() && InflightOk() && FilledOk()
    }

    ghost predicate Separate(buffer: array<int>)
      reads this
    {
      buffer !in cachedBuffers && buffer !in sharedBuffers
    }

    /** A key given is the persisted one, in a buffer that is neither cached nor shared. */
    ghost predicate Gives(a: nat, r: Resolved)
      reads this, if r.Key? then {r.dek} else {}
    {
      r.Key? ==> a in persisted && Holds(r.dek, persisted[a]) && Separate(r.dek)
    }

    constructor ()
      ensures Valid() && cache == map[] && inflight == map[] && persisted == map[] && results == map[]
      ensures cachedBuffers == {} && sharedBuffers == {}
    {
      cache, inflight, nextToken, results, persisted := map[], map[], 0, map[], map[];
      evicted, owner, cachedBy, cachedBuffers, sharedBuffers := {}, map[], map[], {}, {};
    }

    /** What never changes while others run: keys and results stay, and a lookup once overtaken stays so. */
    twostate predicate Advanced()
      reads this
    {
      && (forall a :: a in old(persisted) ==> a in persisted && persisted[a] == old(persisted)[a])
      && (forall t :: t in old(results) ==> t in results && results[t] == old(results)[t])
      && old(evicted) <= evicted && old(nextToken) <= nextToken
      && (forall t :: t in old(owner) ==> t in owner && owner[t] == old(owner)[t])
    }

    /** Whatever was cached or shared meanwhile is a buffer made meanwhile. */
    twostate predicate NewBuffers()
      reads this
    {
      fresh(cachedBuffers - old(cachedBuffers)) && fresh(sharedBuffers - old(sharedBuffers))
    }

    ghost predicate CacheOkBut(a: nat)
      reads this, cachedBuffers
    {
      && (forall b :: b in cache && b != a ==> cache[b].dek in cachedBuffers && b in persisted && Holds(cache[b].dek, persisted[b]))
      && (forall b, c :: b in cache && c in cache && b != c ==> cache[b].dek != cache[c].dek)
    }

    method WipeEntry(a: nat)
      requires Valid() && a in cache
      modifies cache[a].dek
      ensures CacheOkBut(a) && ResultsOk() && Zeroed(cache[a].dek)
    {
      Wipe(cache[a].dek);
    }

    method DropEntry(a: nat)
      requires Valid()
      modifies this`cache, this`cachedBy, cachedBuffers
      ensures Valid() && cache == old(cache) - {a}
      ensures a in old(cache) ==> Zeroed(old(cache)[a].dek)
    {
      if a in cache {
        WipeEntry(a);
        cache, cachedBy := cache - {a}, cachedBy - {a};
      }
    }

    /** Wipes the cached key, and keeps a lookup under way from caching its result. */
    method Evict(a: nat)
      requires Valid()
      modifies this`cache, this`cachedBy, this`inflight, this`evicted, cachedBuffers
      ensures Valid() && old(evicted) <= evicted
      ensures cache == old(cache) - {a} && a !in inflight
      ensures a in old(cache) ==> Zeroed(old(cache)[a].dek)
      ensures a in old(inflight) ==> old(inflight)[a] in evicted
    {
      DropEntry(a);
      Cancel(a);
    }

    method Cancel(a: nat)
      requires Valid() && a !in cache
      modifies this`inflight, this`evicted
      ensures Valid() && old(evicted) <= evicted && a !in inflight
      ensures a in old(inflight) ==> old(inflight)[a] in evicted
    {
      if a in inflight {
        evicted := evicted + {inflight[a]};
      }
      inflight := inflight - {a};
    }

    /** A cached key, the lookup under way, or a new lookup. */
    method Begin(a: nat, activeId: nat, passwordHash: Option<nat>) returns (found: Lookup)
      requires Valid()
      modifies this`inflight, this`nextToken, this`owner
      ensures Valid() && Advanced()
      ensures found.Hit? || found.WrongPassword? <==> a in cache && cache[a].keyId == activeId
      ensures found.WrongPassword? <==>
        a in cache && cache[a].keyId == activeId && passwordHash.Some? && cache[a].passwordHash.Some? && cache[a].passwordHash != passwordHash
      ensures found.Hit? ==> fresh(found.copy) && a in persisted && Holds(found.copy, persisted[a])
      ensures found.Started? ==> found.token == old(nextToken) && a in inflight && inflight[a] == found.token
      ensures found.Started? ==> found.token in owner && owner[found.token] == a && found.token !in results
      ensures found.Joined? <==> !(a in cache && cache[a].keyId == activeId) && a in old(inflight)
      ensures found.Joined? ==> a in old(inflight) && found.other == old(inflight)[a] && inflight == old(inflight)
    {
      if a in cache && cache[a].keyId == activeId {
        var entry := cache[a];
        if !PasswordPasses(entry.passwordHash, passwordHash) {
          return WrongPassword;
        }
        var copy := Copy(entry.dek);
        return Hit(copy);
      }
      if a in inflight {
        return Joined(inflight[a]);
      }
      var token := Start(a);
      found := Started(token);
    }

    method Start(a: nat) returns (token: nat)
      requires Valid() && a !in inflight
      modifies this`inflight, this`nextToken, this`owner
      ensures Valid() && Advanced()
      ensures token == old(nextToken) && inflight == old(inflight)[a := token]
      ensures token in owner && owner[token] == a && token !in results
    {
      token := nextToken;
      owner, inflight, nextToken := owner[token := a], inflight[a := token], token + 1;
    }

    /** Caches the key if the lookup is still current; otherwise wipes the buffer it is given. */
    method StoreDek(a: nat, dek: array<int>, keyId: nat, passwordHash: Option<nat>, token: nat)
      requires Valid() && Separate(dek)
      requires a in persisted && Holds(dek, persisted[a]) && token in owner && owner[token] == a
      modifies this`cache, this`cachedBy, this`cachedBuffers, dek
      ensures Valid() && old(cachedBuffers) <= cachedBuffers <= old(cachedBuffers) + {dek}
      ensures if a in inflight && inflight[a] == token
        then cache == old(cache)[a := Entry(dek, keyId, passwordHash)] && cachedBy[a] == token
        else cache == old(cache)
      ensures token in evicted ==> cache == old(cache)
      ensures cache == old(cache) && dek !in cachedBuffers ==> Zeroed(dek)
    {
      if a !in inflight || inflight[a] != token {
        Wipe(dek);
        return;
      }
      cache, cachedBy := cache[a := Entry(dek, keyId, passwordHash)], cachedBy[a := token];
      cachedBuffers := cachedBuffers + {dek};
    }

    /** The lookup is over. It is dropped from the ones under way, unless another one has taken its place. */
    method Finish(token: nat, result: Resolved)
      requires Valid() && token in owner && token !in results
      requires result.Key? ==> owner[token] in persisted && Holds(result.dek, persisted[owner[token]])
      requires result.Key? ==> result.dek !in cachedBuffers
      modifies this`inflight, this`results, this`sharedBuffers
      ensures Valid() && results == old(results)[token := result]
      ensures sharedBuffers == old(sharedBuffers) + if result.Key? then {result.dek} else {}
      ensures forall a :: a in inflight <==> a in old(inflight) && old(inflight)[a] != token
    {
      results := results[token := result];
      if result.Key? { sharedBuffers := sharedBuffers + {result.dek}; }
      inflight := map a | a in inflight && inflight[a] != token :: inflight[a];
    }

    /** The unique account column lets one creator through. */
    method Insert(a: nat, dek: Bytes) returns (inserted: bool)
      requires Valid()
      modifies this`persisted
      ensures Valid() && Advanced() && inserted == (a !in old(persisted))
      ensures persisted == if inserted then old(persisted)[a := dek] else old(persisted)
    {
      if a in persisted {
        return false;
      }
      persisted := persisted[a := dek];
      inserted := true;
    }

    /** Offers the key to the cache, and ends the lookup with a copy to share. */
    method Deliver(token: nat, dek: array<int>, copy: array<int>, keyId: nat, passwordHash: Option<nat>)
      requires Valid() && token in owner && token !in results && owner[token] in persisted
      requires Separate(dek) && Holds(dek, persisted[owner[token]])
      requires copy != dek && Separate(copy) && Holds(copy, persisted[owner[token]])
      modifies this`cache, this`cachedBy, this`cachedBuffers, this`inflight, this`results, this`sharedBuffers, dek
      ensures Valid() && results == old(results)[token := Key(copy)]
      ensures old(cachedBuffers) <= cachedBuffers <= old(cachedBuffers) + {dek}
      ensures sharedBuffers == old(sharedBuffers) + {copy}
    {
      StoreDek(owner[token], dek, keyId, passwordHash, token);
      Finish(token, Key(copy));
    }

    /** Another lookup than `mine` ends: with the key it found or created, without one, or with an error. */
    method OtherEnds(token: nat, mine: Option<nat>)
      requires Valid() && token in owner && token !in results && mine != Some(token)
      modifies this
      ensures Valid() && Advanced() && NewBuffers() && persisted == old(persisted)
      ensures mine.Some? ==> (mine.value in results <==> mine.value in old(results))
    {
      var found: bool, keyId: nat, passwordHash: Option<nat> := *, *, *;
      if found && owner[token] in persisted {
        var dek := Filled(persisted[owner[token]]);
        var copy := Copy(dek);
        Deliver(token, dek, copy, keyId, passwordHash);
      } else {
        var unavailable: bool := *;
        Finish(token, if unavailable then Unavailable else NoKey);
      }
    }

    /** What happens at a wait: others evict accounts, create keys, begin lookups, and end them into the cache. */
    method Others(mine: Option<nat>)
      requires Valid()
      modifies this, cachedBuffers
      ensures Valid() && Advanced() && NewBuffers()
      ensures mine.Some? ==> (mine.value in results <==> mine.value in old(results))
    {
      var a: nat, token: nat, choice: nat, passwordHash: Option<nat>, dek: Bytes := *, *, *, *, *;
      if choice == 0 {
        Evict(a);
      } else if choice == 1 {
        var _ := Insert(a, dek);
      } else if choice == 2 {
        var _ := Begin(a, token, passwordHash);
      } else if token in owner && token !in results && mine != Some(token) {
        OtherEnds(token, mine);
      }
    }

    // ---- A whole lookup -------------------------------------------------------

    /** Reads the row, which takes a wait. */
    method ReadRow(a: nat, mine: Option<nat>) returns (row: Option<Bytes>)
      requires Valid()
      modifies this, cachedBuffers
      ensures Valid() && Advanced() && NewBuffers()
      ensures mine.Some? ==> (mine.value in results <==> mine.value in old(results))
      ensures row == if a in persisted then Some(persisted[a]) else None
    {
      Others(mine);
      row := if a in persisted then Some(persisted[a]) else None;
    }

    /** Opens the sealed key of a row and brings older seals up to date, which takes another wait. */
    method Open(a: nat, row: Bytes, opens: bool, mine: Option<nat>) returns (dek: Resolved)
      requires Valid() && a in persisted && persisted[a] == row
      modifies this, cachedBuffers
      ensures Valid() && Advanced() && NewBuffers()
      ensures mine.Some? ==> (mine.value in results <==> mine.value in old(results))
      ensures if opens then dek.Key? else dek == Unavailable
      ensures Gives(a, dek) && (dek.Key? ==> fresh(dek.dek))
    {
      if !opens {
        return Unavailable;
      }
      var buffer := Filled(row);
      dek := Key(buffer);
      var reseals: bool := *;
      if reseals {
        Others(mine);
      }
    }

    /** The insert, and the wait for its answer. */
    method SendInsert(a: nat, dek: Bytes, mine: Option<nat>) returns (inserted: bool)
      requires Valid()
      modifies this, cachedBuffers
      ensures Valid() && Advanced() && NewBuffers() && a in persisted && (inserted ==> persisted[a] == dek)
      ensures mine.Some? ==> (mine.value in results <==> mine.value in old(results))
    {
      inserted := Insert(a, dek);
      Others(mine);
    }

    /**
     * A new key, sealed and inserted with a wait on either side. When another creator was first, the random key is
     * wiped and there is none.
     */
    method Create(a: nat, random: Bytes, mine: Option<nat>) returns (dek: Option<array<int>>)
      requires Valid()
      modifies this, cachedBuffers
      ensures Valid() && Advanced() && NewBuffers() && a in persisted
      ensures mine.Some? ==> (mine.value in results <==> mine.value in old(results))
      ensures dek.Some? ==> persisted[a] == random
      ensures dek.Some? ==> fresh(dek.value) && Separate(dek.value) && Holds(dek.value, persisted[a])
    {
      var buffer := Filled(random);
      var inserted := SendInsert(a, buffer[..], mine);
      if !inserted {
        Wipe(buffer);
        return None;
      }
      dek := Some(buffer);
    }

    /** The key this caller created, or else the one of the creator that was first. */
    method CreateOrRead(a: nat, opens: bool, random: Bytes, mine: Option<nat>) returns (dek: Resolved)
      requires Valid()
      modifies this, cachedBuffers
      ensures Valid() && Advanced() && NewBuffers() && a in persisted
      ensures mine.Some? ==> (mine.value in results <==> mine.value in old(results))
      ensures Gives(a, dek) && (dek.Key? ==> fresh(dek.dek))
      ensures !dek.NoKey? && (dek.Unavailable? ==> !opens)
    {
      var created := Create(a, random, mine);
      if created.Some? {
        return Key(created.value);
      }
      dek := ReadAndOpen(a, opens, mine);
    }

    /** A row that is known to be there, read again and opened. */
    method ReadAndOpen(a: nat, opens: bool, mine: Option<nat>) returns (dek: Resolved)
      requires Valid() && a in persisted
      modifies this, cachedBuffers
      ensures Valid() && Advanced() && NewBuffers()
      ensures mine.Some? ==> (mine.value in results <==> mine.value in old(results))
      ensures if opens then dek.Key? else dek == Unavailable
      ensures Gives(a, dek) && (dek.Key? ==> fresh(dek.dek))
    {
      var row := ReadRow(a, mine);
      dek := Open(a, row.value, opens, mine);
    }

    /** The stored key, or a new one. */
    method FindOrCreate(a: nat, passwordHash: Option<nat>, create: bool, opens: bool, random: Bytes, mine: Option<nat>)
      returns (dek: Resolved)
      requires Valid()
      modifies this, cachedBuffers
      ensures Valid() && Advanced() && NewBuffers()
      ensures mine.Some? ==> (mine.value in results <==> mine.value in old(results))
      ensures Gives(a, dek) && (dek.Key? ==> fresh(dek.dek))
      ensures dek.NoKey? ==> a !in old(persisted) && (!create || passwordHash.None?)
      ensures dek.Unavailable? ==> !opens && a in persisted
    {
      var row := ReadRow(a, mine);
      if row.Some? {
        dek := Open(a, row.value, opens, mine);
      } else if !create || passwordHash.None? {
        dek := NoKey;
      } else {
        Others(mine);
        dek := CreateOrRead(a, opens, random, mine);
      }
    }

    /** Ends a lookup, with its key offered to the cache. */
    method End(token: nat, dek: Resolved, keyId: nat, passwordHash: Option<nat>)
      requires Valid() && token in owner && token !in results
      requires Gives(owner[token], dek)
      modifies this`cache, this`cachedBy, this`cachedBuffers, this`inflight, this`results, this`sharedBuffers, if dek.Key? then {dek.dek} else {}
      ensures Valid() && Advanced() && token in results && results[token].Key? == dek.Key? && (!dek.Key? ==> results[token] == dek)
      ensures cachedBuffers <= old(cachedBuffers) + if dek.Key? then {dek.dek} else {}
      ensures fresh(sharedBuffers - old(sharedBuffers))
    {
      if dek.Key? {
        var copy := Copy(dek.dek);
        Deliver(token, dek.dek, copy, keyId, passwordHash);
      } else {
        Finish(token, dek);
      }
    }

    /** The lookup itself. Its result is the persisted key, also when two creators race. */
    method ResolveUncached(a: nat, token: nat, keyId: nat, passwordHash: Option<nat>, create: bool, opens: bool, random: Bytes)
      requires Valid() && token in owner && owner[token] == a && token !in results
      modifies this, cachedBuffers
      ensures Valid() && Advanced() && NewBuffers() && token in results
      ensures results[token].NoKey? ==> a !in old(persisted) && (!create || passwordHash.None?)
      ensures results[token].Unavailable? ==> !opens && a in persisted
    {
      var dek := FindOrCreate(a, passwordHash, create, opens, random, Some(token));
      End(token, dek, keyId, passwordHash);
    }

    /** The lookup joined ends while this caller waits, whatever its own arguments were. */
    method Await(a: nat, token: nat, random: Bytes)
      requires Valid() && token in owner && owner[token] == a
      modifies this, cachedBuffers
      ensures Valid() && Advanced() && NewBuffers() && token in results
    {
      Others(None);
      if token !in results {
        var keyId: nat, passwordHash: Option<nat>, create: bool, opens: bool := *, *, *, *;
        ResolveUncached(a, token, keyId, passwordHash, create, opens, random);
      }
    }

    /** A copy of a result, made once the caller runs on. */
    method TakeCopy(a: nat, token: nat) returns (result: Resolved)
      requires Valid() && token in owner && owner[token] == a && token in results
      modifies this, cachedBuffers
      ensures Valid() && Advanced() && NewBuffers()
      ensures Gives(a, result) && (result.Key? ==> fresh(result.dek))
      ensures result.Key? == old(results)[token].Key? && (!result.Key? ==> result == old(results)[token])
    {
      Others(None);
      result := results[token];
      if result.Key? {
        var copy := Copy(result.dek);
        result := Key(copy);
      }
    }

    /** The lookup under way for the account, or a new one, to its end. */
    method Pending(a: nat, found: Lookup, activeId: nat, passwordHash: Option<nat>, create: bool, opens: bool, random: Bytes)
      returns (token: nat)
      requires Valid() && (found.Joined? || found.Started?)
      requires found.Joined? ==> found.other in owner && owner[found.other] == a
      requires found.Started? ==> found.token in owner && owner[found.token] == a && found.token !in results
      modifies this, cachedBuffers
      ensures Valid() && Advanced() && NewBuffers()
      ensures token in owner && owner[token] == a && token in results
      ensures token == if found.Joined? then found.other else found.token
      ensures found.Started? && results[token].NoKey? ==> a !in old(persisted) && (!create || passwordHash.None?)
      ensures found.Started? && results[token].Unavailable? ==> !opens && a in persisted
    {
      if found.Joined? {
        token := found.other;
        Await(a, token, random);
      } else {
        token := found.token;
        ResolveUncached(a, token, activeId, passwordHash, create, opens, random);
      }
    }

    /** What the lookup that was joined gave, as a copy if it is a key. */
    predicate SharedResult(token: nat, result: Resolved)
      reads this
    {
      token in results && results[token].Key? == result.Key? && (!result.Key? ==> result == results[token])
    }

    /** The account's key is cached under the active seal. */
    predicate Cached(a: nat, activeId: nat)
      reads this
    {
      a in cache && cache[a].keyId == activeId
    }

    /**
     * Cached, joined or looked up: a key returned is the persisted one, in a buffer that neither the cache nor anyone
     * else holds. With the key cached there is one unless the password differs; a caller who joins a lookup gets what
     * that gives; and a lookup of its own gives none only when none is stored and none is to be made, or it cannot be opened.
     */
    method ResolveAccountDek(a: nat, activeId: nat, passwordHash: Option<nat>, create: bool, opens: bool, random: Bytes)
      returns (result: Resolved)
      requires Valid()
      modifies this, cachedBuffers
      ensures Valid() && Advanced() && NewBuffers()
      ensures Gives(a, result) && (result.Key? ==> fresh(result.dek))
      ensures old(Cached(a, activeId)) ==> !result.NoKey?
      ensures old(Cached(a, activeId)) ==>
        (result.Key? <==> passwordHash.None? || old(cache)[a].passwordHash.None? || old(cache)[a].passwordHash == passwordHash)
      ensures !old(Cached(a, activeId)) && a in old(inflight) ==> SharedResult(old(inflight)[a], result)
      ensures !old(Cached(a, activeId)) && a !in old(inflight) && result.NoKey? ==> a !in old(persisted) && (!create || passwordHash.None?)
      ensures !old(Cached(a, activeId)) && a !in old(inflight) && result.Unavailable? ==> !opens && a in persisted
    {
      var found := Begin(a, activeId, passwordHash);
      if found.Hit? {
        return Key(found.copy);
      }
      if found.WrongPassword? {
        return Unavailable;
      }
      result := Ended(a, found, activeId, passwordHash, create, opens, random);
    }

    method Ended(a: nat, found: Lookup, activeId: nat, passwordHash: Option<nat>, create: bool, opens: bool, random: Bytes)
      returns (result: Resolved)
      requires Valid() && (found.Joined? || found.Started?)
      requires found.Joined? ==> found.other in owner && owner[found.other] == a
      requires found.Started? ==> found.token in owner && owner[found.token] == a && found.token !in results
      modifies this, cachedBuffers
      ensures Valid() && Advanced() && NewBuffers()
      ensures Gives(a, result) && (result.Key? ==> fresh(result.dek))
      ensures found.Joined? ==> SharedResult(found.other, result)
      ensures found.Started? && result.NoKey? ==> a !in old(persisted) && (!create || passwordHash.None?)
      ensures found.Started? && result.Unavailable? ==> !opens && a in persisted
    {
      var token := Pending(a, found, activeId, passwordHash, create, opens, random);
      result := TakeCopy(a, token);
    }

    /** A caller's key, all that matters to it being that it is the account's. */
    method TakeKey(a: nat, activeId: nat, passwordHash: Option<nat>, create: bool, opens: bool, random: Bytes)
      returns (result: Resolved)
      requires Valid()
      modifies this, cachedBuffers
      ensures Valid() && Advanced() && NewBuffers()
      ensures Gives(a, result) && (result.Key? ==> fresh(result.dek))
    {
      result := ResolveAccountDek(a, activeId, passwordHash, create, opens, random);
    }

    /** One caller wipes the key it was given: the cache, results to be shared and the key of another caller stay intact. */
    method CallerWipes(a: nat, activeId: nat, passwordHash: Option<nat>, create: bool, opens: bool, random: Bytes)
      returns (first: Resolved, second: Resolved)
      requires Valid()
      modifies this, cachedBuffers
      ensures Valid() && Advanced() && NewBuffers()
      ensures second.Key? ==> a in persisted && Holds(second.dek, persisted[a])
      ensures first.Key? ==> Zeroed(first.dek)
    {
      first := TakeKey(a, activeId, passwordHash, create, opens, random);
      second := TakeKey(a, activeId, passwordHash, create, opens, random);
      Others(None);
      if first.Key? {
        Wipe(first.dek);
      }
    }
  }

  /** A store whose one account was looked up without a password. */
  method LookedUpWithout(a: nat, activeId: nat, key: Bytes) returns (store: KeyStore)
    ensures fresh(store) && fresh(store.cachedBuffers) && store.Valid()
    ensures a in store.cache && store.cache[a].keyId == activeId && store.cache[a].passwordHash.None?
    ensures a in store.persisted && store.persisted[a] == key
  {
    store := new KeyStore();
    var inserted := store.Insert(a, key);
    var token := store.Start(a);
    var dek := Filled(key);
    store.StoreDek(a, dek, activeId, None, token);
  }

  /** The key cached there is handed to a caller with any password. */
  method UntestedPassword(a: nat, activeId: nat, key: Bytes, given: nat) returns (found: Lookup)
    ensures found.Hit? && found.copy[..] == key
  {
    var store := LookedUpWithout(a, activeId, key);
    found := store.Begin(a, activeId, Some(given));
  }
}
