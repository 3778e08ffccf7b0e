/**
 * A dictionary of named entries that expire `ttl` time units after they are
 * stored. The clock is read by every operation; here its reading is the
 * `now` argument.
 */
module TtlCache {
  import opened Types

  datatype Entry<T> = Entry(name: string, data: T, expires: int)

  /**
   * What `get` yields: the data, `undefined` for an expired entry, or the
   * TypeError thrown when no entry was ever stored under the name (the
   * expiry test then reads a field of `undefined`).
   */
  datatype Read<T> = Value(data: T) | Undefined | TypeError

  /** An entry is expired once its expiry time is not after `now`. */
  predicate IsExpired<T>(entry: Entry<T>, now: int) {
    entry.expires <= now
  }

  /** The dictionary after storing `data` under `name` at time `now`. */
  function Stored<T>(m: map<string, Entry<T>>, name: string, data: T, now: int, ttl: int)
    : (m': map<string, Entry<T>>)
    ensures m'.Keys == m.Keys + {name}
    ensures m'[name] == Entry(name, data, now + ttl)
    ensures forall k :: k in m && k != name ==> m'[k] == m[k]
  {
    m[name := Entry(name, data, now + ttl)]
  }

  /** What `get(name)` returns at time `now`. */
  function Lookup<T>(m: map<string, Entry<T>>, name: string, now: int): (r: Read<T>)
    ensures r.TypeError? <==> name !in m
    ensures r.Value? <==> name in m && now < m[name].expires
    ensures r.Value? ==> r.data == m[name].data
  {
    if name !in m then TypeError
    else if !IsExpired(m[name], now) then Value(m[name].data)
    else Undefined
  }

  /**
   * The dictionary after `take(name)` or `del(name)` at time `now`: a present
   * entry keeps its data and now expires at `now`; nothing else changes.
   */
  function Expired<T>(m: map<string, Entry<T>>, name: string, now: int): (m': map<string, Entry<T>>)
    ensures m'.Keys == m.Keys
    ensures name in m ==> m'[name] == Entry(m[name].name, m[name].data, now)
    ensures forall k :: k in m && k != name ==> m'[k] == m[k]
    ensures name !in m ==> m' == m
  {
    if name in m then m[name := m[name].(expires := now)] else m
  }

  /** After `put(k, d)` at time `t`, `get(k)` sees `d` exactly until `t + ttl`. */
  lemma PutThenGet<T>(m: map<string, Entry<T>>, name: string, data: T, t: int, ttl: int, now: int)
    ensures Lookup(Stored(m, name, data, t, ttl), name, now) ==
            if now < t + ttl then Value(data) else Undefined
  {
  }

  /** Storing under one name does not change what `get` sees under another. */
  lemma PutKeepsOthers<T>(m: map<string, Entry<T>>, name: string, data: T, t: int, ttl: int,
                          other: string, now: int)
    requires other != name
    ensures Lookup(Stored(m, name, data, t, ttl), other, now) == Lookup(m, other, now)
  {
  }

  /** After `take` or `del` at time `t`, `get` at `t` or later sees `undefined`. */
  lemma ExpiredThenGet<T>(m: map<string, Entry<T>>, name: string, t: int, now: int)
    requires name in m
    requires t <= now
    ensures Lookup(Expired(m, name, t), name, now) == Undefined
  {
  }

  class Cache<T> {
    const ttl: int
    var entries: map<string, Entry<T>>

    constructor (ttl: int)
      ensures this.ttl == ttl && entries == map[]
    {
      this.ttl := ttl;
      entries := map[];
    }

    /** `put`: stores the entry with expiry `now + ttl` and returns the data. */
    method Put(name: string, data: T, now: int) returns (r: T)
      modifies this
      ensures r == data
      ensures entries == Stored(old(entries), name, data, now, ttl)
    {
      entries := entries[name := Entry(name, data, now + ttl)];
      r := data;
    }

    /** `get`: the data of a live entry, `undefined` for an expired one. */
    method Get(name: string, now: int) returns (r: Read<T>)
      ensures r.TypeError? <==> name !in entries
      ensures r.Value? <==> name in entries && now < entries[name].expires
      ensures r.Value? ==> r.data == entries[name].data
    {
      if name !in entries {
        return TypeError;
      }
      var entry := entries[name];
      if !IsExpired(entry, now) {
        r := Value(entry.data);
      } else {
        r := Undefined;
      }
    }

    /** `take`: returns the data of a present entry, live or not, and expires it. */
    method Take(name: string, now: int) returns (r: Option<T>)
      modifies this
      ensures r.Some? <==> name in old(entries)
      ensures r.Some? ==> r.value == old(entries)[name].data
      ensures entries == Expired(old(entries), name, now)
    {
      if name in entries {
        entries := entries[name := entries[name].(expires := now)];
        r := Some(entries[name].data);
      } else {
        r := None;
      }
    }

    /** `del`: expires a present entry without removing its data. */
    method Del(name: string, now: int)
      modifies this
      ensures entries == Expired(old(entries), name, now)
    {
      if name in entries {
        entries := entries[name := entries[name].(expires := now)];
      }
    }

    /**
     * `getOrFetch`: any stored entry, expired or not, is returned without
     * calling `fetch`; otherwise `fetch()` is stored and returned. `fetch`
     * either returns a value or throws (`Err`); a throw reaches the caller
     * and nothing is stored.
     */
    method GetOrFetch<E>(name: string, fetch: () -> Result<T, E>, now: int)
      returns (r: Result<T, E>, fetched: bool)
      modifies this
      ensures fetched <==> name !in old(entries)
      ensures !fetched ==> r == Ok(old(entries)[name].data) && entries == old(entries)
      ensures fetched ==> r == fetch()
      ensures fetched && r.Ok? ==> entries == Stored(old(entries), name, r.value, now, ttl)
      ensures fetched && r.Err? ==> entries == old(entries)
    {
      if name in entries {
        return Ok(entries[name].data), false;
      }
      fetched := true;
      r := fetch();
      if r.Ok? {
        var data := Put(name, r.value, now);
      }
    }
  }
}
