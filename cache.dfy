/**
 * `adapters.CacheFizzbuzz`: where the service looks up and stores finished
 * outputs under the canonical key of their request. `NoOp` is
 * `CacheFizzbuzzNoOp`, which stores nothing and always misses; `Backed` is
 * a key-value cache on a networked store whose every call may fail.
 */
module Cache {
  import opened Maybe
  import opened Model
  import Remote

  /** What a `Get` answered: a value (`""` on a miss) and an optional error. */
  datatype CacheReply = CacheReply(value: string, err: Option<Error>)

  /** The value a `GET` finds for `key`; a missing key reads as the empty string with no error. */
  function Lookup(entries: map<string, string>, key: string): string {
    if key in entries then entries[key] else ""
  }

  /** A key-value cache on a networked store: `GET` and `SET` without expiry. */
  class KeyValueCache {
    var entries: map<string, string>

    constructor (initial: map<string, string>)
      ensures entries == initial
    {
      entries := initial;
    }

    /** On success the stored value, or `""` for a missing key; on failure `""` and a backend error. */
    method Get(key: string) returns (value: string, err: Option<Error>)
      ensures err.None? ==> value == Lookup(entries, key)
      ensures err.Some? ==> err.value.Backend? && value == ""
    {
      err := Remote.Call();
      if err.None? {
        value := Lookup(entries, key);
      } else {
        value := "";
      }
    }

    method Set(key: string, value: string) returns (err: Option<Error>)
      modifies this
      ensures err.None? ==> entries == old(entries)[key := value]
      ensures err.Some? ==> err.value.Backend? && entries == old(entries)
    {
      err := Remote.Call();
      if err.None? {
        entries := entries[key := value];
      }
    }
  }

  datatype CacheFizzbuzz = NoOp | Backed(kv: KeyValueCache)
  {
    ghost function Repr(): set<object> {
      if NoOp? then {} else {kv}
    }

    /** What a `Get` can see: nothing at all for the no-op cache. */
    ghost function Contents(): map<string, string>
      reads Repr()
    {
      if NoOp? then map[] else kv.entries
    }

    /** The contents after a successful `Set`: unchanged for the no-op cache. */
    function Stored(contents: map<string, string>, key: string, value: string): map<string, string> {
      if NoOp? then contents else contents[key := value]
    }

    /**
     * The replies a `Get` of `key` may give in the current state, as the
     * interface allows them: an error may come with any value beside it.
     */
    ghost predicate Replies(key: string, got: CacheReply)
      reads Repr()
    {
      && (got.err.None? ==> got.value == Lookup(Contents(), key))
      && (got.err.Some? ==> Backed? && got.err.value.Backend?)
    }

    /** `Get`: the no-op cache answers `""` and no error for every key. */
    method Get(key: string) returns (value: string, err: Option<Error>)
      ensures Replies(key, CacheReply(value, err))
      ensures NoOp? ==> value == "" && err.None?
    {
      if NoOp? {
        return "", None;
      }
      value, err := kv.Get(key);
    }

    /** `Set`: the no-op cache accepts every write and keeps none. */
    method Set(key: string, value: string) returns (err: Option<Error>)
      modifies Repr()
      ensures err.None? ==> Contents() == Stored(old(Contents()), key, value)
      ensures err.Some? ==> Backed? && err.value.Backend? && Contents() == old(Contents())
      ensures NoOp? ==> err.None?
    {
      if NoOp? {
        return None;
      }
      err := kv.Set(key, value);
    }

    /**
     * A `Set` followed by a `Get` of the same key: the no-op cache still
     * misses, a backed cache whose two calls succeed gives the value back.
     */
    method SetThenGet(key: string, value: string) returns (setErr: Option<Error>, got: CacheReply)
      modifies Repr()
      ensures NoOp? ==> setErr.None? && got == CacheReply("", None)
      ensures Backed? && setErr.None? && got.err.None? ==> got.value == value
    {
      setErr := Set(key, value);
      var v, e := Get(key);
      got := CacheReply(v, e);
    }
  }
}
