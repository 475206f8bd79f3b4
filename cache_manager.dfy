/**
 * The two-tier cache: a memory map and a directory of `<key>.cache` files,
 * both holding a value with the time it was stored. Expiry is lazy: an entry
 * older than the TTL is deleted when it is read. A memory miss is refilled
 * from a still-fresh file.
 *
 * The directory is a map from file name to content; the clock is `now`.
 * Cached values are JSON documents, of which `null` is Python's None.
 */
module CacheManager {
  import Text

  datatype Json = Null | Doc(text: string)

  /** A file in the cache directory: a readable record, or one that fails to parse. */
  datatype FileEntry = Record(value: Json, timestamp: real) | Unreadable

  datatype Entry = Entry(value: Json, timestamp: real)

  datatype Store = Store(memory: map<string, Entry>, files: map<string, FileEntry>)

  /** The file that holds `key`. */
  function FileName(key: string): (name: string)
    ensures Text.EndsWith(name, ".cache")
  {
    key + ".cache"
  }

  /** An entry read at `now` is still fresh when it is younger than the TTL. */
  predicate Fresh(timestamp: real, now: real, ttl: real)
  {
    now - timestamp < ttl
  }

  /**
   * `get`: a fresh memory entry is returned; a stale one is deleted and the
   * file is tried. A fresh file record is copied into memory with its own
   * timestamp and returned; a stale or unreadable file is deleted. A miss
   * reads as None.
   */
  function Lookup(st: Store, key: string, now: real, ttl: real): (Json, Store)
  {
    if key in st.memory && Fresh(st.memory[key].timestamp, now, ttl) then (st.memory[key].value, st)
    else
      var memory := st.memory - {key};
      var name := FileName(key);
      if name !in st.files then (Null, Store(memory, st.files))
      else
        match st.files[name]
        case Record(value, ts) =>
          if Fresh(ts, now, ttl) then (value, Store(memory[key := Entry(value, ts)], st.files))
          else (Null, Store(memory, st.files - {name}))
        case Unreadable => (Null, Store(memory, st.files - {name}))
  }

  /**
   * `get` never returns a stale value: whatever it returns comes from an
   * entry for the key, in memory or on file, younger than the TTL.
   */
  lemma GetNeverStale(st: Store, key: string, now: real, ttl: real)
    ensures var (v, _) := Lookup(st, key, now, ttl);
      v != Null ==>
        (key in st.memory && st.memory[key].value == v && Fresh(st.memory[key].timestamp, now, ttl)) ||
        (exists ts :: FileName(key) in st.files && st.files[FileName(key)] == Record(v, ts) && Fresh(ts, now, ttl))
  {
    var (v, _) := Lookup(st, key, now, ttl);
    if v != Null && !(key in st.memory && Fresh(st.memory[key].timestamp, now, ttl)) {
      var ts := st.files[FileName(key)].timestamp;
      assert st.files[FileName(key)] == Record(v, ts);
    }
  }

  /**
   * After `get`, the memory entry for the key, if any, is fresh; when memory
   * did not answer, the file for the key, if still there, is a fresh
   * record (a memory hit leaves the file unread, stale or not). Entries for
   * other keys and other files are untouched.
   */
  lemma GetDropsStale(st: Store, key: string, now: real, ttl: real)
    ensures var (_, st') := Lookup(st, key, now, ttl);
      && (key in st'.memory ==> Fresh(st'.memory[key].timestamp, now, ttl))
      && (!(key in st.memory && Fresh(st.memory[key].timestamp, now, ttl)) && FileName(key) in st'.files ==>
            st'.files[FileName(key)].Record? && Fresh(st'.files[FileName(key)].timestamp, now, ttl))
      && (forall k :: k != key ==> (k in st'.memory <==> k in st.memory))
      && (forall k :: k != key && k in st.memory ==> st'.memory[k] == st.memory[k])
      && (forall n :: n != FileName(key) ==> (n in st'.files <==> n in st.files))
      && (forall n :: n != FileName(key) && n in st.files ==> st'.files[n] == st.files[n])
  {
  }

  /** A memory miss answered from a fresh file leaves the file's value and original timestamp in memory. */
  lemma GetBackfills(st: Store, key: string, now: real, ttl: real, value: Json, ts: real)
    requires key !in st.memory
    requires FileName(key) in st.files && st.files[FileName(key)] == Record(value, ts) && Fresh(ts, now, ttl)
    ensures Lookup(st, key, now, ttl) == (value, Store(st.memory[key := Entry(value, ts)], st.files))
  {
    assert st.memory - {key} == st.memory;
  }

  /** `set`: both tiers get the value with the current time; a failed file write leaves only memory updated. */
  function Put(st: Store, key: string, value: Json, now: real, writeOk: bool): Store
  {
    Store(st.memory[key := Entry(value, now)],
          if writeOk then st.files[FileName(key) := Record(value, now)] else st.files)
  }

  /**
   * A value that was set is read back for as long as it is fresh, whether
   * or not its file was written, and the read changes nothing.
   */
  lemma SetThenGet(st: Store, key: string, value: Json, stored: real, now: real, ttl: real, writeOk: bool)
    requires Fresh(stored, now, ttl)
    ensures var st' := Put(st, key, value, stored, writeOk);
      Lookup(st', key, now, ttl) == (value, st')
  {
  }

  /**
   * Once the memory entry has gone stale, a written file gives the same
   * value with the same timestamp, so it is stale too: the file tier
   * never outlives the memory tier for the same `set`.
   */
  lemma SetExpiresInBothTiers(st: Store, key: string, value: Json, stored: real, now: real, ttl: real)
    requires !Fresh(stored, now, ttl)
    ensures var st' := Put(st, key, value, stored, true);
      var (v, st'') := Lookup(st', key, now, ttl);
      v == Null && key !in st''.memory && FileName(key) !in st''.files
  {
  }

  /** `invalidate`: the key is gone from both tiers; nothing else changes. */
  function Evict(st: Store, key: string): (r: Store)
    ensures key !in r.memory && FileName(key) !in r.files
    ensures forall k :: k in st.memory && k != key ==> k in r.memory && r.memory[k] == st.memory[k]
    ensures forall n :: n in st.files && n != FileName(key) ==> n in r.files && r.files[n] == st.files[n]
    ensures r.memory.Keys <= st.memory.Keys && r.files.Keys <= st.files.Keys
  {
    Store(st.memory - {key}, st.files - {FileName(key)})
  }

  /** An invalidated key reads as a miss until it is set again. */
  lemma InvalidateThenGet(st: Store, key: string, now: real, ttl: real)
    ensures Lookup(Evict(st, key), key, now, ttl).0 == Null
  {
  }

  /** The directory after `clear`: every `.cache` file is gone, every other file stays. */
  function WithoutCacheFiles(files: map<string, FileEntry>): map<string, FileEntry>
  {
    map n | n in files && !Text.EndsWith(n, ".cache") :: files[n]
  }

  /** The files left while `clear` works through `listing`: the unlisted `.cache` files are gone. */
  function Remaining(files: map<string, FileEntry>, listing: set<string>): map<string, FileEntry>
  {
    map n | n in files && (n in listing || !Text.EndsWith(n, ".cache")) :: files[n]
  }

  /** Taking one name off the listing removes that file when it is a `.cache` file. */
  lemma RemainingStep(files: map<string, FileEntry>, listing: set<string>, name: string)
    requires name in listing
    ensures Remaining(files, listing - {name})
         == if Text.EndsWith(name, ".cache") then Remaining(files, listing) - {name} else Remaining(files, listing)
  {
  }

  /** After `clear`, every key reads as a miss. */
  lemma ClearThenGet(files: map<string, FileEntry>, key: string, now: real, ttl: real)
    ensures Lookup(Store(map[], WithoutCacheFiles(files)), key, now, ttl).0 == Null
  {
  }

  class Cache {
    var ttl: int
    var memory: map<string, Entry>
    var files: map<string, FileEntry>

    function State(): Store
      reads this
    {
      Store(memory, files)
    }

    constructor (ttl: int, files: map<string, FileEntry>)
      ensures this.ttl == ttl && memory == map[] && this.files == files
    {
      this.ttl := ttl;
      memory := map[];
      this.files := files;
    }

    method Get(key: string, now: real) returns (v: Json)
      modifies this`memory, this`files
      ensures (v, State()) == Lookup(old(State()), key, now, ttl as real)
    {
      var limit := ttl as real;
      if key in memory {
        if Fresh(memory[key].timestamp, now, limit) {
          return memory[key].value;
        }
        memory := memory - {key};
      }
      assert memory == old(memory) - {key};
      var name := FileName(key);
      if name in files {
        match files[name]
        case Record(value, ts) =>
          if Fresh(ts, now, limit) {
            memory := memory[key := Entry(value, ts)];
            assert memory == (old(memory) - {key})[key := Entry(value, ts)];
            return value;
          }
          files := files - {name};
        case Unreadable =>
          files := files - {name};
      }
      return Null;
    }

    method Set(key: string, value: Json, now: real, writeOk: bool)
      modifies this`memory, this`files
      ensures State() == Put(old(State()), key, value, now, writeOk)
    {
      memory := memory[key := Entry(value, now)];
      if writeOk {
        files := files[FileName(key) := Record(value, now)];
      }
    }

    method Invalidate(key: string)
      modifies this`memory, this`files
      ensures State() == Evict(old(State()), key)
    {
      if key in memory {
        memory := memory - {key};
      }
      var name := FileName(key);
      if name in files {
        files := files - {name};
      }
    }

    /** `clear`: empties memory, then removes the `.cache` files of the directory one by one. */
    method Clear()
      modifies this`memory, this`files
      ensures memory == map[] && files == WithoutCacheFiles(old(files))
    {
      memory := map[];
      var listing := files.Keys;
      ghost var before := files;
      while listing != {}
        invariant memory == map[]
        invariant files == Remaining(before, listing)
        decreases |listing|
      {
        var name :| name in listing;
        RemainingStep(before, listing, name);
        if Text.EndsWith(name, ".cache") {
          files := files - {name};
        }
        listing := listing - {name};
      }
      assert files == WithoutCacheFiles(before);
    }

    /**
     * The `cache_result` wrapper around one call: a cached value other than
     * None is returned and the function is not run; otherwise `computed` (the
     * function's result) is stored and returned. The wrapper's own TTL is put
     * in place around `set`, which never reads it, so the expiry of what it
     * stores depends only on the TTL in force when it is next read.
     */
    method CacheResult(functionName: string, argumentsKey: string, callTtl: int, computed: Json,
                       now: real, writeOk: bool)
      returns (r: Json, ran: bool)
      modifies this
      ensures ttl == old(ttl)
      ensures var key := functionName + ":" + argumentsKey;
        var (cached, afterGet) := Lookup(old(State()), key, now, old(ttl) as real);
        && ran == (cached == Null)
        && r == (if ran then computed else cached)
        && State() == (if ran then Put(afterGet, key, computed, now, writeOk) else afterGet)
    {
      var cacheTtl := if callTtl != 0 then callTtl else ttl;
      var key := functionName + ":" + argumentsKey;
      var cached := Get(key, now);
      if cached != Null {
        return cached, false;
      }
      var originalTtl := ttl;
      ttl := cacheTtl;
      Set(key, computed, now, writeOk);
      ttl := originalTtl;
      return computed, true;
    }
  }
}
