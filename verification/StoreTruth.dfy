/** What a chunk store that holds only true bytes says about a file. */
module StoreTruth {
  import opened Content
  import opened Naming
  import opened StreamState
  import opened StreamSystem
  import opened ChunkStore

  /** The store's notion of truth is that of the engine. */
  ghost predicate Agrees(store: Store, remote: RemoteBytes, cfg: Config)
  {
    forall k, d :: store.truth(k, d) ==> KeyTrue(remote, cfg, k, d)
  }

  lemma TrueLength(remote: RemoteBytes, cfg: Config, file: File, index: int, data: Bytes)
    requires NumericFsid(file.fsid) && file.size > 0
    requires KeyTrue(remote, cfg, ChunkKey(ChunkVersion(file, cfg.chunkSize), index), data)
    ensures |data| == Min(cfg.chunkSize, file.size - index * cfg.chunkSize)
  {
  }

  /** With true bytes at both levels, every stored chunk of a file has its exact length. */
  lemma CachedLengthsExact(store: Store, remote: RemoteBytes, cfg: Config, file: File)
    requires store.Valid() && store.MemoryTrue() && store.IndexTrue() && Agrees(store, remote, cfg)
    requires NumericFsid(file.fsid) && file.size > 0
    ensures ExactLengths(store, ChunkVersion(file, cfg.chunkSize), cfg.chunkSize, file.size)
  {
    var version := ChunkVersion(file, cfg.chunkSize);
    PlainVersion(file, cfg.chunkSize);
    forall i | i >= 0 && store.LengthOf(ChunkKey(version, i)).Some?
      ensures store.LengthOf(ChunkKey(version, i)).value == Min(cfg.chunkSize, file.size - i * cfg.chunkSize)
    {
      var key := ChunkKey(version, i);
      if key in store.memory {
        assert store.memory[key] in store.lru && store.truth(key, store.memory[key].value);
        TrueLength(remote, cfg, file, i, store.memory[key].value);
      } else {
        assert Plain(key) && store.LengthTrue(key, store.diskReady[key]);
        var data :| store.truth(key, data) && |data| == store.diskReady[key];
        TrueLength(remote, cfg, file, i, data);
      }
    }
  }

  /** With true bytes, no stored chunk of a file is longer than a chunk. */
  lemma TrueIsBounded(store: Store, remote: RemoteBytes, cfg: Config, file: File)
    requires store.Valid() && store.MemoryTrue() && store.IndexTrue() && Agrees(store, remote, cfg) && NumericFsid(file.fsid)
    ensures Bounded(store, ChunkVersion(file, cfg.chunkSize), cfg.chunkSize)
  {
    var version := ChunkVersion(file, cfg.chunkSize);
    PlainVersion(file, cfg.chunkSize);
    forall i | i >= 0 && store.LengthOf(ChunkKey(version, i)).Some?
      ensures 0 <= store.LengthOf(ChunkKey(version, i)).value <= cfg.chunkSize
    {
      var key := ChunkKey(version, i);
      if key in store.memory {
        assert store.memory[key] in store.lru && store.truth(key, store.memory[key].value);
        TrueIsShort(remote, cfg, file, i, store.memory[key].value);
      } else {
        assert Plain(key) && store.LengthTrue(key, store.diskReady[key]);
        var data :| store.truth(key, data) && |data| == store.diskReady[key];
        TrueIsShort(remote, cfg, file, i, data);
      }
    }
  }

  lemma TrueIsShort(remote: RemoteBytes, cfg: Config, file: File, index: int, data: Bytes)
    requires NumericFsid(file.fsid)
    requires KeyTrue(remote, cfg, ChunkKey(ChunkVersion(file, cfg.chunkSize), index), data)
    ensures |data| <= cfg.chunkSize
  {
  }

  /** How much of a file a store with true bytes holds ahead of a cursor: exactly the run without a gap, and never
      beyond the end of the file. */
  method BufferAheadOf(store: Store, cfg: Config, file: File, cursor: int, ghost remote: RemoteBytes) returns (ready: int)
    requires store.Valid() && cfg.chunkSize > 0
    requires store.MemoryTrue() && store.IndexTrue() && Agrees(store, remote, cfg) && NumericFsid(file.fsid)
    modifies store`diskLRU
    ensures store.Valid() && ready >= 0 && (cursor < 0 ==> ready == 0)
    ensures var version := ChunkVersion(file, cfg.chunkSize);
      cursor >= 0 ==>
        ReadyUpTo(store, version, cfg.chunkSize, cursor, cursor + ready)
        && !ReadyAt(store, version, cfg.chunkSize, cursor + ready)
    ensures file.size > 0 && 0 <= cursor <= file.size ==> cursor + ready <= file.size
  {
    var version := ChunkVersion(file, cfg.chunkSize);
    TrueIsBounded(store, remote, cfg, file);
    ready := BufferAhead(store, version, cfg.chunkSize, cursor);
    if file.size > 0 && 0 <= cursor <= file.size {
      CachedLengthsExact(store, remote, cfg, file);
      ReadyWithinFile(store, version, cfg.chunkSize, file.size, cursor, ready);
    }
  }
}
