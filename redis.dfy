/**
 * The Redis client configuration and the cache helpers built on it: the
 * reconnect back-off, the `get`/`setex`/`del`/`keys` commands the helpers
 * issue, and the list commands the chat history uses.
 */
module Redis {
  import opened Wrappers

  const RetryStep := 50
  const MaxRetryDelay := 2000
  /** `cacheSet`'s TTL when the caller gives none, in seconds. */
  const DefaultTtl := 3600

  /** Milliseconds to wait before reconnect attempt number `times`. */
  function RetryStrategy(times: nat): (delay: nat)
    ensures delay <= MaxRetryDelay
    ensures times <= 40 ==> delay == RetryStep * times
    ensures times >= 40 ==> delay == MaxRetryDelay
  {
    if times * RetryStep < MaxRetryDelay then times * RetryStep else MaxRetryDelay
  }

  /** Later attempts never wait less. */
  lemma RetryStrategyMonotone(a: nat, b: nat)
    requires a <= b
    ensures RetryStrategy(a) <= RetryStrategy(b)
  {
  }

  // ------------------------------------------------------------ key patterns

  /**
   * Redis glob-style key matching as `KEYS` applies it: `*` matches any run of
   * characters, `?` any one character, `\x` the character `x`; every other
   * character matches itself.
   */
  function Matches(pattern: string, key: string): (m: bool)
    ensures Literal(pattern) ==> (m <==> key == pattern)
    decreases |pattern| + |key|
  {
    if pattern == [] then key == []
    else if pattern[0] == '*' then Matches(pattern[1..], key) || (key != [] && Matches(pattern, key[1..]))
    else if pattern[0] == '?' then key != [] && Matches(pattern[1..], key[1..])
    else if pattern[0] == '\\' && |pattern| >= 2 then
      key != [] && key[0] == pattern[1] && Matches(pattern[2..], key[1..])
    else
      assert key != [] ==> key == [key[0]] + key[1..];
      assert pattern == [pattern[0]] + pattern[1..];
      key != [] && key[0] == pattern[0] && Matches(pattern[1..], key[1..])
  }

  predicate IsMeta(c: char) {
    c == '*' || c == '?' || c == '\\' || c == '['
  }

  /** A pattern without special characters. */
  predicate Literal(p: string) {
    forall i :: 0 <= i < |p| ==> !IsMeta(p[i])
  }

  /** `*` alone matches every key. */
  lemma {:induction false} StarMatchesAll(key: string)
    ensures Matches("*", key)
    decreases |key|
  {
    if key != [] {
      StarMatchesAll(key[1..]);
    }
  }

  /** `prefix*` matches every key that starts with `prefix`. */
  lemma {:induction false} MatchesPrefixStar(prefix: string, rest: string)
    requires Literal(prefix)
    ensures Matches(prefix + "*", prefix + rest)
    decreases |prefix|
  {
    if prefix == [] {
      assert prefix + "*" == "*" && prefix + rest == rest;
      StarMatchesAll(rest);
    } else {
      assert !IsMeta(prefix[0]);
      MatchesPrefixStar(prefix[1..], rest);
      assert (prefix + "*")[1..] == prefix[1..] + "*";
      assert (prefix + rest)[1..] == prefix[1..] + rest;
    }
  }

  // ------------------------------------------------------------------ cache

  /**
   * What a key holds: the empty string (written by some other client), or the
   * JSON text of a value, which `JSON.parse` turns back into that value.
   */
  datatype Stored<V> = Blank | Json(value: V)

  /** A key's value and the expiry it was written with, in seconds. */
  datatype Entry<V> = Entry(data: Stored<V>, ttl: nat)

  /** What `cacheGet(key)` yields: `null` for a missing key or an empty string. */
  function Read<V>(store: map<string, Entry<V>>, key: string): (r: Option<V>)
    ensures r.None? <==> key !in store || store[key].data.Blank?
    ensures r.Some? ==> key in store && store[key].data == Json(r.value)
  {
    if key in store && store[key].data.Json? then Some(store[key].data.value) else None
  }

  /** What `cacheGet` reads right after `cacheSet` wrote the same key. */
  lemma ReadAfterWrite<V>(store: map<string, Entry<V>>, key: string, value: V, ttl: nat)
    ensures Read(store[key := Entry(Json(value), ttl)], key) == Some(value)
  {
  }

  /** The keys `KEYS pattern` returns: every stored key the pattern matches, and no other. */
  function MatchingKeys<V>(store: map<string, Entry<V>>, pattern: string): (keys: set<string>)
    ensures forall k :: k in keys <==> k in store && Matches(pattern, k)
  {
    set k | k in store && Matches(pattern, k)
  }

  /** The Redis key space as the cache helpers see it; expiry is not modelled. */
  class Cache<V> {
    var store: map<string, Entry<V>>

    constructor ()
      ensures store == map[]
    {
      store := map[];
    }

    /** `cacheGet(key)` */
    method Get(key: string) returns (r: Option<V>)
      ensures r == Read(store, key)
    {
      if key in store && store[key].data.Json? {
        r := Some(store[key].data.value);
      } else {
        r := None;
      }
    }

    /** `cacheSet(key, value, ttl)`: `SETEX key ttl JSON.stringify(value)`. */
    method Set(key: string, value: V, ttl: nat := DefaultTtl)
      requires ttl > 0
      modifies this
      ensures store == old(store)[key := Entry(Json(value), ttl)]
    {
      store := store[key := Entry(Json(value), ttl)];
    }

    /** `cacheDelete(key)`: `DEL key`, the key taken literally. */
    method Delete(key: string)
      modifies this
      ensures store == old(store) - {key}
    {
      store := store - {key};
    }

    /**
     * `cacheDeletePattern(pattern)`: `KEYS pattern`, then one `DEL` of the
     * keys found, issued only when there are some.
     */
    method DeletePattern(pattern: string) returns (issued: bool)
      modifies this
      ensures issued <==> MatchingKeys(old(store), pattern) != {}
      ensures store == old(store) - MatchingKeys(old(store), pattern)
    {
      var keys := MatchingKeys(store, pattern);
      issued := keys != {};
      if issued {
        store := store - keys;
      }
    }
  }

  // ------------------------------------------------------------------ lists

  /** `LPUSH key v`: the new value becomes the head of the list. */
  function LPush<T>(list: seq<T>, v: T): (r: seq<T>)
    ensures |r| == |list| + 1 && r[0] == v
    ensures forall i :: 0 <= i < |list| ==> r[i + 1] == list[i]
  {
    [v] + list
  }

  /** `LTRIM key start stop` for non-negative indices: keep elements `start..stop` inclusive. */
  function LTrim<T>(list: seq<T>, start: nat, stop: nat): (r: seq<T>)
    ensures start <= stop && start < |list| ==> |r| == (if stop < |list| then stop + 1 else |list|) - start
    ensures |r| <= |list| && (start > stop ==> r == [])
    ensures forall i :: 0 <= i < |r| ==> start + i <= stop && start + i < |list| && r[i] == list[start + i]
  {
    if start >= |list| || start > stop then []
    else list[start..if stop + 1 < |list| then stop + 1 else |list|]
  }
}
