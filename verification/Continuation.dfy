/**
 * The file-backed continuation store (packages/provider-codex/src/continuation.ts):
 * one record per session and one shard per (session, account), kept in a cache that a
 * timer copies to disk.
 */
module Continuation {
  import opened Util

  datatype Rec = Rec(id: Option<string>, len: Option<nat>, account: Option<string>)

  const EMPTY := Rec(None, None, None)

  /** A partial record: the fields given replace those of the record, absent or not. */
  datatype Patch = Patch(id: Option<Option<string>>, len: Option<Option<nat>>, account: Option<Option<string>>)

  function Patched(r: Rec, p: Patch): Rec {
    Rec(p.id.GetOr(r.id), p.len.GetOr(r.len), p.account.GetOr(r.account))
  }

  type Store = map<string, Rec>

  function Get(store: Store, key: string): Rec {
    if key in store then store[key] else EMPTY
  }

  function Cleared(r: Rec): Rec {
    r.(id := None, len := None)
  }

  predicate InFamily(key: string, sid: string) {
    key == sid || sid + ":" <= key
  }

  function ShardKey(sid: string, account: string): string {
    sid + ":" + account
  }

  function Invalidate(store: Store, key: string): Store {
    if key in store then store[key := Cleared(store[key])] else store
  }

  function InvalidateFamily(store: Store, sid: string): Store {
    map k | k in store :: if InFamily(k, sid) then Cleared(store[k]) else store[k]
  }

  /** Two stores that differ at most inside the family of `sid`. */
  ghost predicate SameOutsideFamily(s: Store, t: Store, sid: string) {
    && s.Keys <= t.Keys
    && forall k :: !InFamily(k, sid) ==> Get(s, k) == Get(t, k) && (k in s <==> k in t)
  }

  /** A key in two families means one session id is a colon-extension of the other. */
  lemma FamiliesOverlap(s: string, t: string, key: string)
    requires InFamily(key, s) && InFamily(key, t)
    ensures s == t || s + ":" <= t || t + ":" <= s
  {
    assert s == key[..|s|] && t == key[..|t|];
    if |s| < |t| {
      assert s + ":" == key[..|s| + 1] == t[..|s| + 1];
    } else if |t| < |s| {
      assert t + ":" == key[..|t| + 1] == s[..|t| + 1];
    }
  }

  /** The module's variables `_cache` and `_dirty`, with the file it writes. */
  class ContinuationStore {
    var cache: Store
    var disk: Store
    var dirty: bool

    constructor ()
      ensures cache == map[] && disk == map[] && !dirty
    {
      cache := map[];
      disk := map[];
      dirty := false;
    }

    method GetContinuation(key: string) returns (r: Rec)
      ensures r == Get(cache, key)
    {
      if key in cache {
        r := cache[key];
      } else {
        r := EMPTY;
      }
    }

    method UpdateContinuation(key: string, update: Patch)
      modifies this
      ensures cache == old(cache)[key := Patched(Get(old(cache), key), update)] && dirty && disk == old(disk)
    {
      var r := if key in cache then cache[key] else EMPTY;
      if update.id.Some? { r := r.(id := update.id.value); }
      if update.len.Some? { r := r.(len := update.len.value); }
      if update.account.Some? { r := r.(account := update.account.value); }
      cache := cache[key := r];
      dirty := true;
    }

    method InvalidateContinuation(key: string)
      modifies this
      ensures cache == Invalidate(old(cache), key) && disk == old(disk)
      ensures dirty == (old(dirty) || key in old(cache))
    {
      if key in cache {
        cache := cache[key := cache[key].(id := None, len := None)];
        dirty := true;
      }
    }

    method InvalidateContinuationFamily(sid: string)
      modifies this
      ensures cache == InvalidateFamily(old(cache), sid) && disk == old(disk)
      ensures dirty == (old(dirty) || exists k :: k in old(cache) && InFamily(k, sid))
    {
      var keys := cache.Keys;
      var changed := false;
      while keys != {}
        invariant keys <= cache.Keys == old(cache).Keys
        invariant forall k :: k in cache ==>
                    cache[k] == if k !in keys && InFamily(k, sid) then Cleared(old(cache)[k]) else old(cache)[k]
        invariant changed == exists k :: k in old(cache) && k !in keys && InFamily(k, sid)
        invariant disk == old(disk) && dirty == old(dirty)
        decreases |keys|
      {
        var key :| key in keys;
        if key == sid || sid + ":" <= key {
          cache := cache[key := cache[key].(id := None, len := None)];
          changed := true;
          assert InFamily(key, sid);
        }
        keys := keys - {key};
      }
      assert cache == InvalidateFamily(old(cache), sid);
      if changed {
        dirty := true;
      }
    }

    /** The flush timer; `ok` says whether the write succeeded. */
    method Flush(ok: bool)
      modifies this
      ensures cache == old(cache) && !dirty
      ensures disk == if old(dirty) && ok then cache else old(disk)
    {
      if dirty {
        dirty := false;
        if ok {
          disk := cache;
        }
      }
    }

    /** A new process reads the file, or starts fresh when it is missing or corrupted. */
    method Restart(readable: bool)
      modifies this
      ensures disk == old(disk) && !dirty
      ensures cache == if readable then disk else map[]
    {
      dirty := false;
      if readable {
        cache := disk;
      } else {
        cache := map[];
      }
    }
  }
}
