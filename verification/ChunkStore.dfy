/** The two-level chunk cache: an in-memory LRU over a directory of chunk files with its own LRU index.
    Each method is one critical section, or the sequence of critical sections the caller goes through. */
module ChunkStore {
  import opened Arithmetic
  import opened Content
  import opened Naming
  import opened Lru

  type MemoryEntry = Entry<ChunkKey, Bytes>

  /** The value is the path of the file. */
  type DiskEntry = Entry<ChunkKey, string>

  /** What the operating system refuses this time. */
  datatype Faults = Faults(unwritable: bool, unreadable: set<string>, stuck: set<string>)

  /** The keys whose file name gives the key back. */
  predicate Plain(key: ChunkKey)
  {
    key.version != "" && Sanitize(key.version) == key.version && key.index >= 0
  }

  lemma PlainPathsDiffer(a: ChunkKey, b: ChunkKey)
    requires Plain(a) && Plain(b) && ChunkFileName(a) == ChunkFileName(b)
    ensures a == b
  {
    FileNameRoundTrip(a);
    FileNameRoundTrip(b);
  }

  /** The memory list after a put. */
  function MemoryAfterPut(s: seq<MemoryEntry>, key: ChunkKey, data: Bytes, limit: int): seq<MemoryEntry>
  {
    if limit <= 0 || |data| > limit then s else Evict(Push(s, Entry(key, data, |data|)), limit)
  }

  /** A chunk is put into memory exactly if it fits the limit on its own; of the others as few as possible go. */
  lemma MemoryPutLaw(s: seq<MemoryEntry>, key: ChunkKey, data: Bytes, limit: int) returns (k: nat)
    ensures limit <= 0 || |data| > limit ==> MemoryAfterPut(s, key, data, limit) == s
    ensures limit > 0 && |data| <= limit ==>
      var pushed := Remove(s, key) + [Entry(key, data, |data|)];
      && k < |pushed| && MemoryAfterPut(s, key, data, limit) == pushed[k..]
      && Total(pushed[k..]) <= limit && forall j :: 0 <= j < k ==> Total(pushed[j..]) > limit
  {
    k := 0;
    if limit > 0 && |data| <= limit {
      var e := Entry(key, data, |data|);
      k := PutShortest(s, e, limit);
      var last := |Remove(s, key)|;
      assert (Remove(s, key) + [e])[last..] == [e];
      assert Total([e]) == |data|;
    }
  }

  lemma RemoveAbsentKey<K, V>(m: map<K, Entry<K, V>>, s: seq<Entry<K, V>>, key: K)
    requires Mirrors(m, s) && key !in m
    ensures Remove(s, key) == s
  {
    MirrorsRemove(m, s, key);
  }

  /** Every chunk file in the list is named as its key would be. */
  ghost predicate Canonical(names: seq<string>)
  {
    forall name :: name in names && ParseChunkFileName(name).Some? ==> ChunkFileName(ParseChunkFileName(name).value) == name
  }

  /** The index of a directory: its chunk files in the given order; a name with a key seen before replaces that. */
  function Loaded(names: seq<string>, files: map<string, Bytes>): seq<DiskEntry>
  {
    if names == [] then []
    else LoadOne(Loaded(names[..|names| - 1], files), names[|names| - 1], files)
  }

  lemma LoadedNext(names: seq<string>, files: map<string, Bytes>, i: nat)
    requires i < |names|
    ensures Loaded(names[..i + 1], files) == LoadOne(Loaded(names[..i], files), names[i], files)
  {
    assert names[..i + 1][..i] == names[..i];
  }

  predicate Loadable(name: string, files: map<string, Bytes>) { ParseChunkFileName(name).Some? && name in files }

  function LoadOne(s: seq<DiskEntry>, name: string, files: map<string, Bytes>): seq<DiskEntry>
  {
    if Loadable(name, files) then Push(s, Entry(ParseChunkFileName(name).value, name, |files[name]|)) else s
  }

  ghost predicate LaterName(names: seq<string>, i: int, name: string)
  {
    exists j :: 0 <= i < j < |names| && names[j] == name
  }

  /** The entry of name i is at this place, and behind it are only files named later. */
  ghost predicate LoadedAt(names: seq<string>, files: map<string, Bytes>, i: nat, s: seq<DiskEntry>, place: nat)
    requires i < |names| && Loadable(names[i], files)
  {
    && place < |s| && s[place] == Entry(ParseChunkFileName(names[i]).value, names[i], |files[names[i]]|)
    && forall k :: place < k < |s| ==> LaterName(names, i, s[k].value)
  }

  lemma LoadedFurther(names: seq<string>, files: map<string, Bytes>, i: nat, s: seq<DiskEntry>, place: nat, name: string)
    returns (q: nat)
    requires i < |names| && Loadable(names[i], files) && LoadedAt(names, files, i, s, place)
    requires Loadable(name, files) ==> ParseChunkFileName(name) != ParseChunkFileName(names[i])
    ensures LoadedAt(names + [name], files, i, LoadOne(s, name, files), q)
  {
    forall x | LaterName(names, i, x) ensures LaterName(names + [name], i, x) {
      var j :| 0 <= i < j < |names| && names[j] == x;
      assert (names + [name])[j] == x;
    }
    q := place;
    if Loadable(name, files) {
      var e := Entry(ParseChunkFileName(name).value, name, |files[name]|);
      q := RemoveKeepsPlace(s, e.key, place);
      var r := LoadOne(s, name, files);
      forall k | q < k < |r| ensures LaterName(names + [name], i, r[k].value) {
        if k < |r| - 1 {
          assert Behind(s, place, r[k]);
        } else {
          assert (names + [name])[|names|] == r[k].value;
        }
      }
    }
  }

  /** Every parsable file is in the index, under its key and with its length, unless a later one has its key; and
      the index is in the order of the names. */
  lemma {:induction false} LoadedHas(names: seq<string>, files: map<string, Bytes>, i: nat) returns (place: nat)
    requires i < |names| && Loadable(names[i], files)
    requires forall j :: i < j < |names| && Loadable(names[j], files) ==>
      ParseChunkFileName(names[j]) != ParseChunkFileName(names[i])
    ensures LoadedAt(names, files, i, Loaded(names, files), place)
  {
    var last := |names| - 1;
    var rest := names[..last];
    if i == last {
      place := |Loaded(names, files)| - 1;
    } else {
      forall j | i < j < |rest| && Loadable(rest[j], files)
        ensures ParseChunkFileName(rest[j]) != ParseChunkFileName(rest[i]) {
        assert rest[j] == names[j];
      }
      assert rest[i] == names[i] && rest + [names[last]] == names;
      var p := LoadedHas(rest, files, i);
      place := LoadedFurther(rest, files, i, Loaded(rest, files), p, names[last]);
    }
  }

  ghost predicate ParsedFrom(names: seq<string>, key: ChunkKey)
  {
    exists name :: name in names && ParseChunkFileName(name) == Some(key)
  }

  ghost predicate Written(name: string) { exists k :: Plain(k) && WrittenAs(k, name) }

  predicate WrittenAs(k: ChunkKey, name: string) { name == ChunkFileName(k) }

  /** Files this store wrote under plain keys are such a list. */
  lemma WrittenNamesAreCanonical(names: seq<string>)
    requires forall name :: name in names ==> Written(name)
    ensures Canonical(names)
  {
    forall name | name in names && ParseChunkFileName(name).Some?
      ensures ChunkFileName(ParseChunkFileName(name).value) == name {
      assert Written(name);
      var k :| Plain(k) && WrittenAs(k, name);
      FileNameRoundTrip(k);
    }
  }

  function KeyRange(version: string, start: int, end: int): set<ChunkKey>
  {
    set i | start <= i < end :: ChunkKey(version, i)
  }

  /** The entries but chunks start..end-1 of a version, in the same order. */
  ghost function OutsideRange(s: seq<MemoryEntry>, version: string, start: int, end: int): seq<MemoryEntry>
  {
    Without(s, KeyRange(version, start, end))
  }

  lemma WithoutRange(s: seq<MemoryEntry>, version: string, start: int, end: int)
    requires start <= end
    ensures Remove(OutsideRange(s, version, start, end), ChunkKey(version, end)) == OutsideRange(s, version, start, end + 1)
  {
    var keys := KeyRange(version, start, end);
    WithoutMore(s, keys, ChunkKey(version, end));
    assert KeyRange(version, start, end + 1) == keys + {ChunkKey(version, end)};
  }

  lemma RangeKeeps(s: seq<MemoryEntry>, version: string, start: int, end: int)
    ensures forall e :: e in OutsideRange(s, version, start, end) ==> e in s
  {
    forall e | e in OutsideRange(s, version, start, end) ensures e in s { WithoutHas(s, KeyRange(version, start, end), e); }
  }

  lemma EmptyRange(s: seq<MemoryEntry>, version: string, start: int, end: int)
    requires end <= start
    ensures OutsideRange(s, version, start, end) == s
  {
    assert KeyRange(version, start, end) == {};
    WithoutNone(s);
  }

  predicate Outside(k: ChunkKey, version: string, start: int, end: int)
  {
    k.version == version && (k.index < start || k.index > end)
  }

  /** The files of the entries that are no longer listed. */
  function PathsGone(before: seq<DiskEntry>, s: seq<DiskEntry>): set<string>
  {
    set e | e in before && e !in s :: e.value
  }

  lemma PathsGoneGrow(before: seq<DiskEntry>, s: seq<DiskEntry>)
    requires Distinct(s) && s != [] && forall e :: e in s ==> e in before
    ensures PathsGone(before, s[1..]) == PathsGone(before, s) + {s[0].value}
    ensures forall e :: e in s[1..] ==> e in before
  {
    var t := s[1..];
    assert s == [s[0]] + t;
    forall e | e in t ensures e != s[0] {
      var i :| 0 <= i < |t| && t[i] == e;
      assert s[i + 1] == e;
    }
    forall p ensures p in PathsGone(before, t) <==> p in PathsGone(before, s) + {s[0].value} {
      if p in PathsGone(before, t) {
        var e :| e in before && e !in t && e.value == p;
        assert e == s[0] || e !in s;
      }
      if p in PathsGone(before, s) {
        var e :| e in before && e !in s && e.value == p;
        assert e !in t;
      }
      assert s[0] in before;
    }
  }

  /** The index, the entries and their order hold the same keys and sizes; the byte count is exact. */
  ghost predicate DiskShaped(ready: map<ChunkKey, int>, entries: map<ChunkKey, DiskEntry>, s: seq<DiskEntry>, bytes: int)
  {
    && Mirrors(entries, s) && bytes == Total(s) && ready.Keys == entries.Keys
    && forall k :: k in ready ==> ready[k] == entries[k].size
  }

  lemma DiskAdd(ready: map<ChunkKey, int>, entries: map<ChunkKey, DiskEntry>, s: seq<DiskEntry>, bytes: int, e: DiskEntry)
    requires DiskShaped(ready, entries, s, bytes)
    ensures DiskShaped(ready[e.key := e.size], entries[e.key := e], Push(s, e),
                       bytes - (if e.key in entries then entries[e.key].size else 0) + e.size)
    ensures e.key !in entries ==> Push(s, e) == s + [e]
  {
    MirrorsPush(entries, s, e);
    if e.key !in entries { RemoveAbsentKey(entries, s, e.key); }
  }

  lemma DiskDrop(ready: map<ChunkKey, int>, entries: map<ChunkKey, DiskEntry>, s: seq<DiskEntry>, bytes: int, key: ChunkKey)
    requires DiskShaped(ready, entries, s, bytes)
    ensures DiskShaped(ready - {key}, entries - {key}, Remove(s, key), bytes - (if key in entries then entries[key].size else 0))
    ensures key !in entries ==> Remove(s, key) == s
  {
    MirrorsRemove(entries, s, key);
    SizesWithout(ready, entries, key);
  }

  lemma NothingToRemove<V>(m: map<ChunkKey, V>, key: ChunkKey)
    ensures key !in m ==> m - {key} == m
  {
  }

  lemma SizesWithout(ready: map<ChunkKey, int>, entries: map<ChunkKey, DiskEntry>, key: ChunkKey)
    requires ready.Keys == entries.Keys && forall k :: k in ready ==> ready[k] == entries[k].size
    ensures (ready - {key}).Keys == (entries - {key}).Keys
    ensures forall k :: k in ready - {key} ==> (ready - {key})[k] == (entries - {key})[k].size
  {
  }

  lemma DiskUse(ready: map<ChunkKey, int>, entries: map<ChunkKey, DiskEntry>, s: seq<DiskEntry>, bytes: int, key: ChunkKey)
    requires DiskShaped(ready, entries, s, bytes) && key in entries
    ensures DiskShaped(ready, entries, Push(s, entries[key]), bytes)
    ensures entries[key].key == key && Remove(Push(s, entries[key]), key) == Remove(s, key)
  {
    var e := entries[key];
    MirrorsPush(entries, s, e);
    RemovePushed(s, e);
    assert entries[key := e] == entries;
  }

  /** From `before` some least recent entries are gone, and from `kept` their files. */
  ghost predicate TrimmedTo(before: seq<DiskEntry>, kept: map<string, Bytes>, s: seq<DiskEntry>, files: map<string, Bytes>, limit: int)
  {
    (forall e :: e in s ==> e in before) && files == kept - PathsGone(before, s) && Evict(s, limit) == Evict(before, limit)
  }

  lemma TrimStep(before: seq<DiskEntry>, kept: map<string, Bytes>, s: seq<DiskEntry>, files: map<string, Bytes>, limit: int)
    requires TrimmedTo(before, kept, s, files, limit) && Distinct(s) && s != [] && Total(s) > limit
    ensures TrimmedTo(before, kept, s[1..], files - {s[0].value}, limit)
  {
    PathsGoneGrow(before, s);
  }

  class Store {
    const memoryLimit: int
    const diskLimit: int
    const hasPath: bool
    /** What the remote file system holds under a key. */
    ghost const truth: (ChunkKey, Bytes) -> bool

    var memoryBytes: int
    var memory: map<ChunkKey, MemoryEntry>
    var lru: seq<MemoryEntry>
    var diskBytes: int
    var diskReady: map<ChunkKey, int>
    var diskEntries: map<ChunkKey, DiskEntry>
    var diskLRU: seq<DiskEntry>
    /** The chunk files of the cache directory. */
    var files: map<string, Bytes>

    constructor (memoryLimit: int, hasPath: bool, diskLimit: int, files: map<string, Bytes>, ghost truth: (ChunkKey, Bytes) -> bool)
      requires memoryLimit >= 0 && diskLimit >= 0
      ensures Valid() && this.files == files && lru == [] && diskLRU == [] && this.truth == truth
      ensures this.memoryLimit == memoryLimit && this.diskLimit == diskLimit && this.hasPath == hasPath
    {
      this.memoryLimit, this.diskLimit, this.hasPath, this.truth := memoryLimit, diskLimit, hasPath, truth;
      memoryBytes, memory, lru := 0, map[], [];
      diskBytes, diskReady, diskEntries, diskLRU, this.files := 0, map[], map[], [], files;
    }

    // ---------- what every method keeps ----------

    ghost predicate MemoryOk()
      reads this`memory, this`lru, this`memoryBytes
    {
      && Mirrors(memory, lru)
      && memoryBytes == Total(lru) <= memoryLimit
      && forall e :: e in lru ==> e.size == |e.value|
    }

    ghost predicate DiskOk()
      reads this`diskReady, this`diskEntries, this`diskLRU, this`diskBytes
    {
      DiskShaped(diskReady, diskEntries, diskLRU, diskBytes)
    }

    ghost predicate Valid()
      reads this
    {
      MemoryOk() && DiskOk() && diskLimit >= 0
    }

    ghost predicate MemoryTrue()
      reads this`lru
    {
      forall e :: e in lru ==> truth(e.key, e.value)
    }

    /** A chunk file holds the bytes of the key it names. */
    ghost predicate DiskTrue()
      reads this`files
    {
      forall key :: Plain(key) && ChunkFileName(key) in files ==> truth(key, files[ChunkFileName(key)])
    }

    /** An indexed length is that of the bytes of its key. */
    ghost predicate IndexTrue()
      reads this`diskReady
    {
      forall key :: key in diskReady && Plain(key) ==> LengthTrue(key, diskReady[key])
    }

    ghost predicate LengthTrue(key: ChunkKey, length: int)
    {
      exists data :: truth(key, data) && |data| == length
    }

    predicate HasDisk() { hasPath && diskLimit > 0 }

    // ---------- memory ----------

    /** The entry becomes the most recent; then the least recent ones go until the rest fits. */
    method PutMemory(key: ChunkKey, data: Bytes)
      requires MemoryOk()
      modifies this`memory, this`lru, this`memoryBytes
      ensures MemoryOk() && lru == MemoryAfterPut(old(lru), key, data, memoryLimit)
      ensures 0 < memoryLimit && |data| <= memoryLimit ==> key in memory && memory[key].value == data
      ensures old(MemoryTrue()) && truth(key, data) ==> MemoryTrue()
    {
      if memoryLimit <= 0 || |data| > memoryLimit { return; }
      var entry := Entry(key, data, |data|);
      MirrorsPush(memory, lru, entry);
      PushedStays(lru, entry, memoryLimit);
      ghost var pushed := Push(lru, entry);
      forall e | e in pushed ensures e == entry || e in lru { if e != entry { RemoveHas(lru, key, e); } }
      if key in memory {
        memoryBytes := memoryBytes - memory[key].size;
        lru := Remove(lru, key);
      }
      else { RemoveAbsentKey(memory, lru, key); }
      lru := lru + [entry];
      memory := memory[key := entry];
      memoryBytes := memoryBytes + |data|;
      EvictMemory();
      assert lru[|lru| - 1] in lru;
    }

    method EvictMemory()
      requires Mirrors(memory, lru) && memoryBytes == Total(lru) && (forall e :: e in lru ==> e.size == |e.value|)
      requires memoryLimit >= 0
      modifies this`memory, this`lru, this`memoryBytes
      ensures MemoryOk() && lru == Evict(old(lru), memoryLimit)
      ensures forall e :: e in lru ==> e in old(lru)
    {
      while memoryBytes > memoryLimit && |lru| > 0
        invariant Mirrors(memory, lru) && memoryBytes == Total(lru)
        invariant forall e :: e in lru ==> e in old(lru)
        invariant Evict(lru, memoryLimit) == Evict(old(lru), memoryLimit)
        decreases |lru|
      {
        var entry := lru[0];
        MirrorsFront(memory, lru);
        assert forall e :: e in lru[1..] ==> e in lru;
        memory := memory - {entry.key};
        memoryBytes := memoryBytes - |entry.value|;
        lru := lru[1..];
      }
    }

    method RemoveMemory(key: ChunkKey)
      requires MemoryOk()
      modifies this`memory, this`lru, this`memoryBytes
      ensures MemoryOk() && lru == Remove(old(lru), key) && memory == old(memory) - {key}
      ensures old(MemoryTrue()) ==> MemoryTrue()
    {
      MirrorsRemove(memory, lru, key);
      forall e | e in Remove(lru, key) ensures e in lru { RemoveHas(lru, key, e); }
      if key !in memory { return; }
      memoryBytes := memoryBytes - |memory[key].value|;
      memory := memory - {key};
      lru := Remove(lru, key);
    }

    method ClearMemory() returns (reclaimed: int)
      requires MemoryOk()
      modifies this`memory, this`lru, this`memoryBytes
      ensures MemoryOk() && memory == map[] && reclaimed == Total(old(lru))
    {
      reclaimed := memoryBytes;
      memory, lru, memoryBytes := map[], [], 0;
    }

    method RemoveNext(version: string, ghost start: int, index: int, ghost before: seq<MemoryEntry>)
      requires start <= index && MemoryOk() && lru == OutsideRange(before, version, start, index)
      modifies this`memory, this`lru, this`memoryBytes
      ensures MemoryOk() && lru == OutsideRange(before, version, start, index + 1)
    {
      WithoutRange(before, version, start, index);
      RemoveMemory(ChunkKey(version, index));
    }

    /** Drops the chunks start..end-1 of a version; the others stay in order. */
    method RemoveMemoryRange(version: string, start: int, end: int)
      requires MemoryOk()
      modifies this`memory, this`lru, this`memoryBytes
      ensures MemoryOk() && (old(MemoryTrue()) ==> MemoryTrue())
      ensures lru == OutsideRange(old(lru), version, start, end)
    {
      ghost var before := lru;
      EmptyRange(before, version, start, Min(start, end));
      if end <= start { return; }
      DropChunks(version, start, end, before);
      RangeKeeps(before, version, start, end);
    }

    method DropChunks(version: string, start: int, end: int, ghost before: seq<MemoryEntry>)
      requires start <= end && MemoryOk() && lru == OutsideRange(before, version, start, start)
      modifies this`memory, this`lru, this`memoryBytes
      ensures MemoryOk() && lru == OutsideRange(before, version, start, end)
    {
      var index := start;
      while index < end
        invariant start <= index <= end && MemoryOk() && lru == OutsideRange(before, version, start, index)
      {
        RemoveNext(version, start, index, before);
        index := index + 1;
      }
    }

    /** Drops the cached chunks of a version outside start..end; the others stay in order. */
    method PruneMemoryWindow(version: string, start: int, end: int)
      requires MemoryOk()
      modifies this`memory, this`lru, this`memoryBytes
      ensures MemoryOk() && (old(MemoryTrue()) ==> MemoryTrue())
      ensures lru == Without(old(lru), set k | k in old(memory) && Outside(k, version, start, end))
    {
      var keys := memory.Keys;
      ghost var dropped: set<ChunkKey> := {};
      WithoutNone(lru);
      while keys != {}
        invariant MemoryOk() && (old(MemoryTrue()) ==> MemoryTrue())
        invariant keys <= old(memory).Keys && lru == Without(old(lru), dropped)
        invariant forall k :: k in dropped <==> k in old(memory) && Outside(k, version, start, end) && k !in keys
      {
        NonEmpty(keys);
        var key :| key in keys;
        keys := keys - {key};
        if key.version == version && (key.index < start || key.index > end) {
          WithoutMore(old(lru), dropped, key);
          dropped := dropped + {key};
          RemoveMemory(key);
        }
      }
      assert dropped == set k | k in old(memory) && Outside(k, version, start, end);
    }

    // ---------- disk index ----------

    method AddDisk(key: ChunkKey, path: string, length: nat)
      requires DiskOk()
      modifies this`diskReady, this`diskEntries, this`diskLRU, this`diskBytes
      ensures DiskOk() && diskLRU == Push(old(diskLRU), Entry(key, path, length)) && diskReady == old(diskReady)[key := length]
    {
      var entry := Entry(key, path, length);
      DiskAdd(diskReady, diskEntries, diskLRU, diskBytes, entry);
      if key in diskEntries {
        diskBytes := diskBytes - diskEntries[key].size;
        diskLRU := Remove(diskLRU, key);
      }
      diskLRU := diskLRU + [entry];
      diskEntries := diskEntries[key := entry];
      diskReady := diskReady[key := length];
      diskBytes := diskBytes + length;
    }

    method TouchDisk(key: ChunkKey)
      requires DiskOk()
      modifies this`diskLRU
      ensures DiskOk()
      ensures diskLRU == if key in diskEntries then Push(old(diskLRU), diskEntries[key]) else old(diskLRU)
      ensures Remove(diskLRU, key) == Remove(old(diskLRU), key)
    {
      if key in diskEntries {
        DiskUse(diskReady, diskEntries, diskLRU, diskBytes, key);
        diskLRU := Remove(diskLRU, key) + [diskEntries[key]];
      }
    }

    method RemoveDisk(key: ChunkKey)
      requires DiskOk()
      modifies this`diskReady, this`diskEntries, this`diskLRU, this`diskBytes
      ensures DiskOk() && diskLRU == Remove(old(diskLRU), key) && diskReady == old(diskReady) - {key}
      ensures diskEntries == old(diskEntries) - {key}
    {
      DiskDrop(diskReady, diskEntries, diskLRU, diskBytes, key);
      NothingToRemove(diskEntries, key);
      if key in diskEntries {
        diskBytes := diskBytes - diskEntries[key].size;
        diskLRU := Remove(diskLRU, key);
        diskEntries := diskEntries - {key};
      }
      diskReady := diskReady - {key};
    }

    /** Removes a file; false if the system refuses. A missing file is as good as removed. */
    method RemoveFile(path: string, faults: Faults) returns (ok: bool)
      modifies this`files
      ensures ok <==> !(path in old(files) && path in faults.stuck)
      ensures files == if ok then old(files) - {path} else old(files)
      ensures old(DiskTrue()) ==> DiskTrue()
    {
      ok := !(path in files && path in faults.stuck);
      if ok { files := files - {path}; }
    }

    /** Removes least recent files until the rest fits, unless a file cannot be removed. */
    method TrimDisk(faults: Faults) returns (ok: bool)
      requires DiskOk() && diskLimit >= 0
      modifies this`diskReady, this`diskEntries, this`diskLRU, this`diskBytes, this`files
      ensures DiskOk() && (old(DiskTrue()) ==> DiskTrue())
      ensures files == old(files) - PathsGone(old(diskLRU), diskLRU)
      ensures Evict(diskLRU, diskLimit) == Evict(old(diskLRU), diskLimit) && forall e :: e in diskLRU ==> e in old(diskLRU)
      ensures ok ==> diskLRU == Evict(old(diskLRU), diskLimit)
      ensures ok <==> diskBytes <= diskLimit
      ensures !ok ==> diskLRU != [] && diskLRU[0].value in files && diskLRU[0].value in faults.stuck
    {
      ghost var before, kept := diskLRU, files;
      assert PathsGone(before, before) == {};
      while diskBytes > diskLimit && |diskLRU| > 0
        invariant DiskOk() && (old(DiskTrue()) ==> DiskTrue())
        invariant Trimmed(before, kept)
        decreases |diskLRU|
      {
        ok := TrimOne(faults, before, kept);
        if !ok { return; }
      }
      ok := true;
    }

    /** Some of the least recent entries of `before` are gone, and their files with them. */
    ghost predicate Trimmed(before: seq<DiskEntry>, kept: map<string, Bytes>)
      reads this`diskLRU, this`files
    {
      TrimmedTo(before, kept, diskLRU, files, diskLimit)
    }

    /** Removes the least recent file and forgets it, unless the system refuses. */
    method TrimOne(faults: Faults, ghost before: seq<DiskEntry>, ghost kept: map<string, Bytes>) returns (ok: bool)
      requires DiskOk() && diskLRU != [] && diskBytes > diskLimit && Trimmed(before, kept)
      modifies this`diskReady, this`diskEntries, this`diskLRU, this`diskBytes, this`files
      ensures DiskOk() && (old(DiskTrue()) ==> DiskTrue())
      ensures ok ==> diskLRU == old(diskLRU)[1..] && Trimmed(before, kept)
      ensures !ok ==> diskLRU == old(diskLRU) && files == old(files) && diskBytes == old(diskBytes)
      ensures !ok ==> diskLRU[0].value in files && diskLRU[0].value in faults.stuck
    {
      var entry := diskLRU[0];
      TrimStep(before, kept, diskLRU, files, diskLimit);
      ok := RemoveFile(entry.value, faults);
      if !ok { return; }
      RemoveFront(diskLRU);
      RemoveDisk(entry.key);
    }

    method PutDisk(key: ChunkKey, data: Bytes, faults: Faults) returns (ok: bool)
      requires DiskOk() && diskLimit >= 0
      modifies this`diskReady, this`diskEntries, this`diskLRU, this`diskBytes, this`files
      ensures DiskOk()
      ensures old(DiskTrue()) && Plain(key) && truth(key, data) ==> DiskTrue()
      ensures old(IndexTrue()) && truth(key, data) ==> IndexTrue()
      ensures data == [] || !HasDisk() || faults.unwritable ==>
        diskLRU == old(diskLRU) && files == old(files) && diskReady == old(diskReady)
      ensures ok <==> data == [] || !HasDisk() || (!faults.unwritable && diskBytes <= diskLimit)
      ensures data != [] && HasDisk() && !faults.unwritable && |data| <= diskLimit ==> key in diskReady && diskReady[key] == |data|
      ensures data != [] && HasDisk() && !faults.unwritable ==>
        var pushed := Push(old(diskLRU), Entry(key, ChunkFileName(key), |data|));
        && files == old(files)[ChunkFileName(key) := data] - PathsGone(pushed, diskLRU) && (forall e :: e in diskLRU ==> e in pushed)
        && Evict(diskLRU, diskLimit) == Evict(pushed, diskLimit) && (ok ==> diskLRU == Evict(pushed, diskLimit))
    {
      if data == [] || !HasDisk() { return true; }
      if faults.unwritable { return false; }
      var path := ChunkFileName(key);
      ghost var before, entry := diskLRU, Entry(key, path, |data|);
      StoreFile(key, data);
      AddDisk(key, path, |data|);
      ok := TrimDisk(faults);
      if |data| <= diskLimit {
        PushedStays(before, entry, diskLimit);
        EvictKeeps(diskLRU, diskLimit, entry);
      }
    }

    /** The file appears whole under its name. */
    method StoreFile(key: ChunkKey, data: Bytes)
      modifies this`files
      ensures files == old(files)[ChunkFileName(key) := data]
      ensures old(DiskTrue()) && Plain(key) && truth(key, data) ==> DiskTrue()
    {
      files := files[ChunkFileName(key) := data];
      if old(DiskTrue()) && Plain(key) && truth(key, data) {
        forall k | Plain(k) && ChunkFileName(k) in files ensures truth(k, files[ChunkFileName(k)]) {
          if ChunkFileName(k) == ChunkFileName(key) { PlainPathsDiffer(k, key); }
        }
      }
    }

    method ForgetDisk(key: ChunkKey, faults: Faults)
      requires DiskOk()
      modifies this`diskReady, this`diskEntries, this`diskLRU, this`diskBytes, this`files
      ensures DiskOk() && (old(DiskTrue()) ==> DiskTrue())
      ensures diskLRU == Remove(old(diskLRU), key) && diskReady == old(diskReady) - {key}
      ensures old(IndexTrue()) ==> IndexTrue()
    {
      RemoveDisk(key);
      var ok := RemoveFile(ChunkFileName(key), faults);
    }

    /** Indexes the chunk files found in the directory, oldest first, and trims what is too much. */
    method LoadDiskIndex(names: seq<string>, faults: Faults) returns (ok: bool)
      requires DiskOk() && diskLimit >= 0 && diskLRU == []
      modifies this`diskReady, this`diskEntries, this`diskLRU, this`diskBytes, this`files
      ensures DiskOk() && (old(DiskTrue()) ==> DiskTrue())
      ensures ok <==> diskBytes <= diskLimit
      ensures AllParsed(names)
      ensures old(DiskTrue()) && Canonical(names) ==> IndexTrue()
      ensures Evict(diskLRU, diskLimit) == Evict(Loaded(names, old(files)), diskLimit)
      ensures ok ==> diskLRU == Evict(Loaded(names, old(files)), diskLimit)
    {
      IndexFiles(names);
      ghost var before, entries := diskReady, diskLRU;
      ghost var index := diskEntries;
      ok := TrimDisk(faults);
      forall k | k in diskReady ensures k in before {
        assert diskEntries[k] in diskLRU;
        EntryKnown(index, entries, diskEntries[k]);
      }
    }

    ghost predicate AllParsed(names: seq<string>)
      reads this`diskReady
    {
      forall k :: k in diskReady ==> ParsedFrom(names, k)
    }

    method IndexFiles(names: seq<string>)
      requires DiskOk() && diskLRU == []
      modifies this`diskReady, this`diskEntries, this`diskLRU, this`diskBytes
      ensures DiskOk() && diskLRU == Loaded(names, files)
      ensures AllParsed(names) && (DiskTrue() && Canonical(names) ==> IndexTrue())
    {
      var i := 0;
      while i < |names|
        invariant 0 <= i <= |names| && Indexed(names, names[..i])
      {
        IndexNext(names, i);
        i := i + 1;
      }
      assert names[..i] == names;
    }

    /** The first names are indexed. */
    ghost predicate Indexed(names: seq<string>, first: seq<string>)
      reads this`diskReady, this`diskEntries, this`diskLRU, this`diskBytes, this`files
    {
      DiskOk() && diskLRU == Loaded(first, files) && AllParsed(names) && (DiskTrue() && Canonical(names) ==> IndexTrue())
    }

    method IndexNext(names: seq<string>, i: nat)
      requires i < |names| && Indexed(names, names[..i])
      modifies this`diskReady, this`diskEntries, this`diskLRU, this`diskBytes
      ensures Indexed(names, names[..i + 1])
    {
      LoadedNext(names, files, i);
      IndexFile(names[i], names);
    }

    method IndexFile(name: string, ghost names: seq<string>)
      requires DiskOk() && name in names
      modifies this`diskReady, this`diskEntries, this`diskLRU, this`diskBytes
      ensures DiskOk() && diskLRU == LoadOne(old(diskLRU), name, files)
      ensures old(AllParsed(names)) ==> AllParsed(names)
      ensures old(IndexTrue()) && DiskTrue() && Canonical(names) ==> IndexTrue()
    {
      var parsed := ParseChunkFileName(name);
      if parsed.Some? && name in files {
        AddDisk(parsed.value, name, |files[name]|);
      }
    }

    // ---------- both levels ----------

    /** The stored length of a chunk at either level. */
    function LengthOf(key: ChunkKey): Option<int>
      reads this`memory, this`diskReady
    {
      if key in memory then Some(|memory[key].value|)
      else if HasDisk() && key in diskReady then Some(diskReady[key])
      else None
    }

    method Length(key: ChunkKey) returns (length: Option<int>)
      requires DiskOk()
      modifies this`diskLRU
      ensures DiskOk() && length == LengthOf(key)
      ensures key in memory ==> length == Some(|memory[key].value|)
      ensures key !in memory && HasDisk() && key in diskReady ==> length == Some(diskReady[key])
      ensures key !in memory && !(HasDisk() && key in diskReady) ==> length == None
      ensures diskLRU == if key !in memory && HasDisk() && key in diskReady then Push(old(diskLRU), diskEntries[key])
                         else old(diskLRU)
    {
      if key in memory { return Some(|memory[key].value|); }
      if !HasDisk() { return None; }
      if key in diskReady {
        TouchDisk(key);
        return Some(diskReady[key]);
      }
      return None;
    }

    /** The bytes of a chunk. A memory hit moves only that entry, and only if asked to; a file that cannot be
        read is forgotten; a file that can is read into memory. Whatever is returned is true. */
    method GetWithTouch(key: ChunkKey, touch: bool, faults: Faults) returns (data: Option<Bytes>)
      requires Valid()
      modifies this`memory, this`lru, this`memoryBytes
      modifies this`diskReady, this`diskEntries, this`diskLRU, this`diskBytes, this`files
      ensures Valid() && (old(DiskTrue()) ==> DiskTrue())
      ensures old(MemoryTrue() && DiskTrue()) && Plain(key) ==> MemoryTrue()
      ensures old(IndexTrue()) ==> IndexTrue()
      ensures old(MemoryTrue() && DiskTrue()) && Plain(key) && data.Some? ==> truth(key, data.value)
      ensures key in old(memory) ==>
        data == Some(old(memory)[key].value) && memory == old(memory)
        && lru == (if touch then Push(old(lru), old(memory)[key]) else old(lru))
        && diskLRU == old(diskLRU) && files == old(files)
      ensures key !in old(memory) && !(HasDisk() && key in old(diskReady)) ==>
        data == None && lru == old(lru) && diskLRU == old(diskLRU) && files == old(files)
      ensures key !in old(memory) && HasDisk() && key in old(diskReady) ==>
        data == old(FileOf(key, faults))
        && (if data.Some? then
              files == old(files) && lru == MemoryAfterPut(old(lru), key, data.value, memoryLimit)
              && diskLRU == Push(old(diskLRU), old(diskEntries)[key]) && diskReady == old(diskReady)
            else
              lru == old(lru) && diskLRU == Remove(old(diskLRU), key) && diskReady == old(diskReady) - {key})
    {
      if key in memory {
        data := GetFromMemory(key, touch);
      } else {
        data := GetFromDisk(key, faults);
      }
    }

    method GetFromMemory(key: ChunkKey, touch: bool) returns (data: Option<Bytes>)
      requires Valid() && key in memory
      modifies this`lru
      ensures Valid() && (old(MemoryTrue()) ==> MemoryTrue() && (data.Some? ==> truth(key, data.value)))
      ensures data == Some(memory[key].value) && lru == (if touch then Push(old(lru), memory[key]) else old(lru))
    {
      data := Some(memory[key].value);
      if touch { TouchMemory(key); }
    }

    /** The bytes of a chunk that is not in memory. */
    method GetFromDisk(key: ChunkKey, faults: Faults) returns (data: Option<Bytes>)
      requires Valid() && key !in memory
      modifies this`memory, this`lru, this`memoryBytes
      modifies this`diskReady, this`diskEntries, this`diskLRU, this`diskBytes, this`files
      ensures Valid() && (old(DiskTrue()) ==> DiskTrue()) && (old(IndexTrue()) ==> IndexTrue())
      ensures old(MemoryTrue() && DiskTrue()) && Plain(key) ==> MemoryTrue() && (data.Some? ==> truth(key, data.value))
      ensures !(HasDisk() && key in old(diskReady)) ==>
        data == None && lru == old(lru) && diskLRU == old(diskLRU) && files == old(files)
      ensures HasDisk() && key in old(diskReady) ==>
        data == old(FileOf(key, faults))
        && (if data.Some? then
              files == old(files) && lru == MemoryAfterPut(old(lru), key, data.value, memoryLimit)
              && diskLRU == Push(old(diskLRU), old(diskEntries)[key]) && diskReady == old(diskReady)
            else
              lru == old(lru) && diskLRU == Remove(old(diskLRU), key) && diskReady == old(diskReady) - {key})
    {
      if !HasDisk() { return None; }
      if key !in diskReady { return None; }
      data := ReadThrough(key, faults);
    }

    /** Reads an indexed chunk into memory. */
    method ReadThrough(key: ChunkKey, faults: Faults) returns (data: Option<Bytes>)
      requires Valid() && key in diskReady
      modifies this`memory, this`lru, this`memoryBytes
      modifies this`diskReady, this`diskEntries, this`diskLRU, this`diskBytes, this`files
      ensures Valid() && (old(DiskTrue()) ==> DiskTrue()) && (old(IndexTrue()) ==> IndexTrue())
      ensures old(MemoryTrue() && DiskTrue()) && Plain(key) ==> MemoryTrue() && (data.Some? ==> truth(key, data.value))
      ensures data == old(FileOf(key, faults))
      ensures data.Some? ==>
        files == old(files) && lru == MemoryAfterPut(old(lru), key, data.value, memoryLimit)
        && diskLRU == Push(old(diskLRU), old(diskEntries)[key]) && diskReady == old(diskReady)
      ensures data.None? ==>
        lru == old(lru) && diskLRU == Remove(old(diskLRU), key) && diskReady == old(diskReady) - {key}
    {
      data := ReadIndexed(key, faults);
      if data.Some? { PutMemory(key, data.value); }
    }

    /** Reads the file of an indexed chunk, and forgets the chunk if that fails. */
    method ReadIndexed(key: ChunkKey, faults: Faults) returns (data: Option<Bytes>)
      requires DiskOk() && key in diskReady
      modifies this`diskReady, this`diskEntries, this`diskLRU, this`diskBytes, this`files
      ensures DiskOk() && (old(DiskTrue()) ==> DiskTrue()) && (old(IndexTrue()) ==> IndexTrue())
      ensures old(DiskTrue()) && Plain(key) && data.Some? ==> truth(key, data.value)
      ensures data == old(FileOf(key, faults))
      ensures data.Some? ==> files == old(files)
      ensures data.Some? ==> diskLRU == Push(old(diskLRU), old(diskEntries)[key]) && diskReady == old(diskReady)
      ensures data.None? ==> diskLRU == Remove(old(diskLRU), key) && diskReady == old(diskReady) - {key}
    {
      TouchDisk(key);
      data := ReadFile(key, faults);
      if data.None? {
        ForgetDisk(key, faults);
      }
    }

    /** What reading the file of a chunk gives. */
    function FileOf(key: ChunkKey, faults: Faults): Option<Bytes>
      reads this`files
    {
      var path := ChunkFileName(key);
      if path in files && path !in faults.unreadable then Some(files[path]) else None
    }

    method ReadFile(key: ChunkKey, faults: Faults) returns (data: Option<Bytes>)
      ensures data == FileOf(key, faults)
      ensures DiskTrue() && Plain(key) && data.Some? ==> truth(key, data.value)
    {
      data := FileOf(key, faults);
    }

    method TouchMemory(key: ChunkKey)
      requires MemoryOk() && key in memory
      modifies this`lru
      ensures MemoryOk() && lru == Push(old(lru), memory[key])
      ensures old(MemoryTrue()) ==> MemoryTrue()
    {
      var entry := memory[key];
      MirrorsPush(memory, lru, entry);
      assert memory[key := entry] == memory;
      forall e | e in Push(lru, entry) ensures e in lru { if e != entry { RemoveHas(lru, key, e); } }
      lru := Remove(lru, key) + [entry];
    }
  }
  // ---------- contiguous runs ----------

  /** The byte at this position of a file is in a cached chunk. */
  ghost predicate ReadyAt(store: Store, version: string, chunkSize: int, position: int)
    requires chunkSize > 0
    reads store`memory, store`diskReady
  {
    var length := store.LengthOf(ChunkKey(version, position / chunkSize));
    length.Some? && position % chunkSize < length.value
  }

  /** A position is ready exactly if its chunk is stored, in memory or else on disk, and reaches beyond it. */
  lemma ReadyLaw(store: Store, version: string, chunkSize: int, position: int)
    requires chunkSize > 0
    ensures var key, within := ChunkKey(version, position / chunkSize), position % chunkSize;
      ReadyAt(store, version, chunkSize, position) <==>
        || (key in store.memory && within < |store.memory[key].value|)
        || (key !in store.memory && store.hasPath && store.diskLimit > 0 && key in store.diskReady && within < store.diskReady[key])
  {
  }

  /** No stored chunk of the version is longer than a chunk. */
  ghost predicate Bounded(store: Store, version: string, chunkSize: int)
    reads store`memory, store`diskReady
  {
    forall i :: i >= 0 && store.LengthOf(ChunkKey(version, i)).Some? ==>
      0 <= store.LengthOf(ChunkKey(version, i)).value <= chunkSize
  }

  ghost predicate ReadyUpTo(store: Store, version: string, chunkSize: int, from: int, to: int)
    requires chunkSize > 0
    reads store`memory, store`diskReady
  {
    forall p :: from <= p < to ==> ReadyAt(store, version, chunkSize, p)
  }

  /** The cached chunks that lie ahead; the loop of BufferAhead passes one of them in each iteration. */
  ghost function Ahead(store: Store, version: string, index: int): set<ChunkKey>
    reads store`memory, store`diskReady
  {
    set k | k in store.memory.Keys + store.diskReady.Keys && k.version == version && k.index >= index
  }

  lemma AheadShrinks(store: Store, version: string, index: int)
    requires store.LengthOf(ChunkKey(version, index)).Some?
    ensures |Ahead(store, version, index + 1)| < |Ahead(store, version, index)|
  {
    var key := ChunkKey(version, index);
    assert key in Ahead(store, version, index);
    SubsetSize(Ahead(store, version, index + 1), Ahead(store, version, index) - {key});
  }

  /** One cached chunk is ready exactly up to its length. */
  lemma ChunkReady(store: Store, version: string, chunkSize: int, index: int, position: int)
    requires chunkSize > 0 && 0 <= position - index * chunkSize < chunkSize
    ensures ReadyAt(store, version, chunkSize, position) <==>
      (store.LengthOf(ChunkKey(version, index)).Some?
       && position - index * chunkSize < store.LengthOf(ChunkKey(version, index)).value)
  {
    QuotientUnique(position, chunkSize, index, position - index * chunkSize);
  }

  /** What one chunk adds to a run that has reached `within` bytes into it, and whether the run may go on. */
  method PassChunk(store: Store, version: string, chunkSize: int, index: int, within: int) returns (add: int, more: bool)
    requires store.DiskOk() && 0 <= within < chunkSize && index >= 0
    modifies store`diskLRU
    ensures store.DiskOk() && add >= 0
    ensures more ==> store.LengthOf(ChunkKey(version, index)).Some?
    ensures Bounded(store, version, chunkSize) ==>
      var start := index * chunkSize + within;
      ReadyUpTo(store, version, chunkSize, start, start + add)
      && (if more then start + add == index * chunkSize + chunkSize else !ReadyAt(store, version, chunkSize, start + add))
  {
    var length := store.Length(ChunkKey(version, index));
    ghost var base := index * chunkSize;
    forall p | base <= p < base + chunkSize
      ensures ReadyAt(store, version, chunkSize, p) <==> length.Some? && p - base < length.value {
      ChunkReady(store, version, chunkSize, index, p);
    }
    if length == None { return 0, false; }
    if within >= length.value { return 0, false; }
    add, more := length.value - within, length.value >= chunkSize;
  }

  lemma ReadyJoins(store: Store, version: string, chunkSize: int, from: int, middle: int, to: int)
    requires chunkSize > 0
    ensures ReadyUpTo(store, version, chunkSize, from, middle) && ReadyUpTo(store, version, chunkSize, middle, to) ==>
      ReadyUpTo(store, version, chunkSize, from, to)
  {
  }

  lemma NextBase(index: int, chunkSize: int)
    ensures (index + 1) * chunkSize == index * chunkSize + chunkSize
  {
  }

  /** A run from `cursor` that has reached byte `within` of chunk `index`, or that has ended. */
  ghost predicate RunAt(store: Store, version: string, chunkSize: int, cursor: int, ready: int, index: int, within: int, more: bool)
    requires chunkSize > 0
    reads store`memory, store`diskReady
  {
    && ready >= 0 && 0 <= within < chunkSize && index >= 0
    && (Bounded(store, version, chunkSize) ==>
          ReadyUpTo(store, version, chunkSize, cursor, cursor + ready)
          && (if more then cursor + ready == index * chunkSize + within else !ReadyAt(store, version, chunkSize, cursor + ready)))
  }

  /** Extends a run by one chunk. */
  method ExtendRun(store: Store, version: string, chunkSize: int, index: int, within: int, cursor: int, ready: int)
    returns (extended: int, more: bool)
    requires store.DiskOk() && chunkSize > 0 && RunAt(store, version, chunkSize, cursor, ready, index, within, true)
    modifies store`diskLRU
    ensures store.DiskOk() && RunAt(store, version, chunkSize, cursor, extended, index + 1, 0, more)
    ensures more ==> |Ahead(store, version, index + 1)| < |Ahead(store, version, index)|
  {
    var add;
    add, more := PassChunk(store, version, chunkSize, index, within);
    ReadyJoins(store, version, chunkSize, cursor, cursor + ready, cursor + ready + add);
    NextBase(index, chunkSize);
    if more { AheadShrinks(store, version, index); }
    extended := ready + add;
  }

  /** How many bytes are cached ahead of the cursor without a gap. */
  method BufferAhead(store: Store, version: string, chunkSize: int, cursor: int) returns (ready: int)
    requires store.DiskOk() && chunkSize > 0
    modifies store`diskLRU
    ensures store.DiskOk()
    ensures cursor < 0 ==> ready == 0
    ensures cursor >= 0 && Bounded(store, version, chunkSize) ==>
      ready >= 0 && ReadyUpTo(store, version, chunkSize, cursor, cursor + ready)
      && !ReadyAt(store, version, chunkSize, cursor + ready)
  {
    if cursor < 0 { return 0; }
    var index, within, more := cursor / chunkSize, cursor % chunkSize, true;
    DivMono(0, cursor, chunkSize);
    ready := 0;
    while more
      invariant store.DiskOk() && RunAt(store, version, chunkSize, cursor, ready, index, within, more)
      decreases more, |Ahead(store, version, index)|
    {
      ready, more := ExtendRun(store, version, chunkSize, index, within, cursor, ready);
      index, within := index + 1, 0;
    }
  }

  /** Every stored chunk of the version has the length of its chunk of a file of this size. */
  ghost predicate ExactLengths(store: Store, version: string, chunkSize: int, size: int)
    reads store`memory, store`diskReady
  {
    forall i :: i >= 0 && store.LengthOf(ChunkKey(version, i)).Some? ==>
      store.LengthOf(ChunkKey(version, i)).value == Min(chunkSize, size - i * chunkSize)
  }

  /** Then what is ready ahead of a cursor within the file ends within the file. */
  lemma ReadyWithinFile(store: Store, version: string, chunkSize: int, size: int, cursor: int, ready: int)
    requires chunkSize > 0 && 0 <= cursor <= size && ready >= 0
    requires ExactLengths(store, version, chunkSize, size)
    requires ReadyUpTo(store, version, chunkSize, cursor, cursor + ready)
    ensures cursor + ready <= size
  {
    if ready > 0 {
      var last := cursor + ready - 1;
      var index, within := last / chunkSize, last % chunkSize;
      assert ReadyAt(store, version, chunkSize, last);
      DivMono(0, last, chunkSize);
      LastByteInFile(store, version, chunkSize, size, index, within);
      assert last == index * chunkSize + within;
    }
  }

  lemma LastByteInFile(store: Store, version: string, chunkSize: int, size: int, index: int, within: int)
    requires ExactLengths(store, version, chunkSize, size) && index >= 0
    requires store.LengthOf(ChunkKey(version, index)).Some? && within < store.LengthOf(ChunkKey(version, index)).value
    ensures index * chunkSize + within < size
  {
  }
}
