/**
 * The Redis-backed cache shared by the services (`CacheManager`).
 *
 * The backend is abstracted as a map from key to decoded value: `set`
 * stores `json.dumps(value)` and `get` returns `json.loads` of it, which for
 * the values the services store is the value itself.  Every backend call may
 * raise; the manager swallows the exception, so each operation takes a
 * `fault` flag saying whether the backend call raised.  A cache whose
 * startup ping failed is disabled for the life of the process.
 */
module CacheManager {
  import opened Common

  datatype Cache<V> = Cache(enabled: bool, entries: map<string, V>)

  /** `CacheManager()`: enabled exactly when the startup ping succeeded. */
  function Connect<V>(pingOk: bool, stored: map<string, V>): (c: Cache<V>)
    ensures c.enabled <==> pingOk
    ensures c.entries == stored
  {
    Cache(pingOk, stored)
  }

  /** `get(key)`: the stored value, or `None` when disabled, absent or on a fault. */
  function Get<V>(c: Cache<V>, key: string, fault: bool): (r: Option<V>)
    ensures !c.enabled || fault ==> r.None?
    ensures c.enabled && !fault ==> (r.Some? <==> key in c.entries)
    ensures r.Some? ==> key in c.entries && r.value == c.entries[key]
  {
    if !c.enabled || fault then None
    else if key in c.entries then Some(c.entries[key])
    else None
  }

  /** Outcome of a write: the new cache and the boolean the method returns. */
  datatype Write<V> = Write(cache: Cache<V>, ok: bool)

  /** `set(key, value)`: true and stored when enabled and the backend accepts it. */
  function Set<V>(c: Cache<V>, key: string, value: V, fault: bool): (w: Write<V>)
    ensures w.ok <==> c.enabled && !fault
    ensures w.ok ==> w.cache == Cache(true, c.entries[key := value])
    ensures !w.ok ==> w.cache == c
  {
    if !c.enabled || fault then Write(c, false)
    else Write(Cache(true, c.entries[key := value]), true)
  }

  /** `delete(key)`: true when enabled and the backend call did not raise. */
  function Delete<V>(c: Cache<V>, key: string, fault: bool): (w: Write<V>)
    ensures w.ok <==> c.enabled && !fault
    ensures w.ok ==> w.cache == Cache(true, c.entries - {key})
    ensures !w.ok ==> w.cache == c
  {
    if !c.enabled || fault then Write(c, false)
    else Write(Cache(true, c.entries - {key}), true)
  }

  /** A value written and read back is the value written. */
  lemma SetThenGet<V>(c: Cache<V>, key: string, value: V, fault: bool)
    requires c.enabled && !fault
    ensures Get(Set(c, key, value, fault).cache, key, false) == Some(value)
  {
  }

  /** A write to one key leaves every other key's reading as it was. */
  lemma SetKeepsOtherKeys<V>(c: Cache<V>, key: string, other: string, value: V, fault: bool)
    requires other != key
    ensures Get(Set(c, key, value, fault).cache, other, false) == Get(c, other, false)
  {
  }

  /** After a successful delete the key reads as a miss. */
  lemma DeleteThenGet<V>(c: Cache<V>, key: string, fault: bool)
    requires Delete(c, key, fault).ok
    ensures Get(Delete(c, key, fault).cache, key, false).None?
  {
  }

  // ---------------------------------------------------------------------
  // clear_pattern: a SCAN loop that deletes each returned batch
  // ---------------------------------------------------------------------

  /**
   * One reply of the backend to `scan(cursor, match=pattern)`: the next
   * cursor with a batch of keys, or an exception raised by the scan or by
   * the `delete` of the batch.
   */
  datatype ScanStep = Batch(cursor: nat, keys: seq<string>) | ScanFault

  /** The step ends the loop: the cursor came back to 0, or the call raised. */
  predicate Final(s: ScanStep)
  {
    s.ScanFault? || s.cursor == 0
  }

  /** The backend eventually brings the cursor back to 0 (or fails). */
  predicate Terminates(steps: seq<ScanStep>)
  {
    exists i | 0 <= i < |steps| :: Final(steps[i])
  }

  /** What the scan loop did: remaining entries, keys counted, whether it raised. */
  datatype ScanRun<V> = ScanRun(entries: map<string, V>, count: nat, faulted: bool)

  /** Keys returned by the batches the loop processes before it stops. */
  function ScannedKeys(steps: seq<ScanStep>): set<string>
  {
    if |steps| == 0 || steps[0].ScanFault? then {}
    else
      var here := set k | k in steps[0].keys;
      if steps[0].cursor == 0 then here else here + ScannedKeys(steps[1..])
  }

  /** Reference semantics of the scan loop, one reply at a time. */
  function RunScan<V>(entries: map<string, V>, steps: seq<ScanStep>): (r: ScanRun<V>)
    requires Terminates(steps)
    ensures r.entries == entries - ScannedKeys(steps)
    decreases |steps|
  {
    match steps[0]
    case ScanFault => ScanRun(entries, 0, true)
    case Batch(cursor, keys) =>
      var rest := entries - (set k | k in keys);
      if cursor == 0 then ScanRun(rest, |keys|, false)
      else
        assert Terminates(steps[1..]) by {
          var i :| 0 <= i < |steps| && Final(steps[i]);
          assert i > 0 && Final(steps[1..][i - 1]);
        }
        var tail := RunScan(rest, steps[1..]);
        ScanRun(tail.entries, |keys| + tail.count, tail.faulted)
  }

  datatype Cleared<V> = Cleared(cache: Cache<V>, count: nat)

  /**
   * `clear_pattern(pattern)`: deletes every batch the scan returns and
   * reports how many keys it counted; 0 when disabled or when a call raised
   * (keys deleted before the fault stay deleted).
   */
  method ClearPattern<V>(c: Cache<V>, pattern: string, steps: seq<ScanStep>) returns (r: Cleared<V>)
    requires Terminates(steps)
    ensures !c.enabled ==> r == Cleared(c, 0)
    ensures c.enabled ==> r.cache.enabled && r.cache.entries == c.entries - ScannedKeys(steps)
    ensures c.enabled ==> r.count == (if RunScan(c.entries, steps).faulted then 0 else RunScan(c.entries, steps).count)
  {
    if !c.enabled {
      return Cleared(c, 0);
    }
    var entries := c.entries;
    var count := 0;
    var i := 0;
    while true
      invariant 0 <= i < |steps|
      invariant Terminates(steps[i..])
      invariant RunScan(c.entries, steps).entries == RunScan(entries, steps[i..]).entries
      invariant RunScan(c.entries, steps).faulted == RunScan(entries, steps[i..]).faulted
      invariant RunScan(c.entries, steps).count == count + RunScan(entries, steps[i..]).count
      decreases |steps| - i
    {
      var step := steps[i];
      if step.ScanFault? {
        return Cleared(Cache(true, entries), 0);
      }
      var keys := step.keys;
      assert steps[i..][1..] == steps[i + 1..];
      if |keys| > 0 {
        entries := entries - (set k | k in keys);
        count := count + |keys|;
      } else {
        assert (set k | k in keys) == {};
        assert entries - (set k | k in keys) == entries;
      }
      if step.cursor == 0 {
        return Cleared(Cache(true, entries), count);
      }
      i := i + 1;
    }
  }

  /** Redis glob matching for `*` (any run) and `?` (any one character). */
  predicate Glob(pattern: string, key: string)
    decreases |pattern| + |key|
  {
    if |pattern| == 0 then |key| == 0
    else if pattern[0] == '*' then Glob(pattern[1..], key) || (|key| > 0 && Glob(pattern, key[1..]))
    else |key| > 0 && (pattern[0] == '?' || pattern[0] == key[0]) && Glob(pattern[1..], key[1..])
  }

  lemma {:induction false} StarMatchesAll(key: string)
    ensures Glob("*", key)
    decreases |key|
  {
    if |key| > 0 {
      StarMatchesAll(key[1..]);
    } else {
      assert "*"[1..] == "";
    }
  }

  /** A literal prefix followed by `*` matches exactly the keys with that prefix. */
  lemma {:induction false} PrefixGlob(prefix: string, key: string)
    requires forall i | 0 <= i < |prefix| :: prefix[i] != '*' && prefix[i] != '?'
    ensures Glob(prefix + "*", key) <==> |prefix| <= |key| && key[..|prefix|] == prefix
    decreases |prefix|
  {
    if |prefix| == 0 {
      assert prefix + "*" == "*";
      StarMatchesAll(key);
    } else {
      var p := prefix + "*";
      assert p[0] == prefix[0];
      assert p[1..] == prefix[1..] + "*";
      if |key| > 0 {
        PrefixGlob(prefix[1..], key[1..]);
        if |prefix| <= |key| && key[..|prefix|] == prefix {
          assert key[1..][..|prefix| - 1] == prefix[1..];
        }
        if |prefix| - 1 <= |key| - 1 && key[1..][..|prefix| - 1] == prefix[1..] && key[0] == prefix[0] {
          assert key[..|prefix|] == [key[0]] + key[1..][..|prefix| - 1];
        }
      }
    }
  }

  /**
   * When the scan covered every matching key and did not raise, no matching
   * key is left; when every returned key matches, no other key is touched.
   */
  lemma ClearPatternEffect<V>(c: Cache<V>, pattern: string, steps: seq<ScanStep>)
    requires Terminates(steps)
    ensures var after := c.entries - ScannedKeys(steps);
      && ((forall k | k in c.entries && Glob(pattern, k) :: k in ScannedKeys(steps))
          ==> forall k | k in after :: !Glob(pattern, k))
      && ((forall k | k in ScannedKeys(steps) :: Glob(pattern, k))
          ==> forall k | k in c.entries && !Glob(pattern, k) :: k in after && after[k] == c.entries[k])
  {
  }
}
