/** What a scheduling call wants, offers, keeps and drops, said of bytes and of the fields of the session alone. */
module WindowLaws {
  import opened Arithmetic
  import opened Content
  import opened StreamState
  import opened Scheduling

  /** The chunk holds a byte that lies in the file and from `from` up to, but not including, `to`. */
  ghost predicate HoldsByte(cfg: Config, size: int, from: int, to: int, index: int)
    requires cfg.chunkSize > 0
  {
    exists p :: from <= p < to && (size > 0 ==> p < size) && InChunk(cfg, p, index)
  }

  /** The cursor is within the file, if its size is known, and the session of that epoch follows a handle. */
  predicate Counts(size: int, s: SessionState, cursor: int, epoch: int)
  {
    (size <= 0 || cursor < size) && s.epoch == epoch && s.active != 0
  }

  /** From the chunk under the cursor to the end of the window: the chunks with a byte within the target ahead. */
  lemma AheadChunks(cfg: Config, size: int, cursor: int, index: int)
    requires ValidConfig(cfg) && cursor >= 0 && (size <= 0 || cursor < size)
    ensures cursor / cfg.chunkSize <= index <= WantedEnd(cfg, size, cursor)
      <==> HoldsByte(cfg, size, cursor, cursor + cfg.targetBuffer, index)
  {
    var to := TargetEnd(cfg, size, cursor);
    ChunksOfRange(cfg, cursor, to, index);
    if p :| cursor <= p < to && InChunk(cfg, p, index) { assert HoldsByte(cfg, size, cursor, cursor + cfg.targetBuffer, index); }
    if HoldsByte(cfg, size, cursor, cursor + cfg.targetBuffer, index) {
      var p :| cursor <= p < cursor + cfg.targetBuffer && (size > 0 ==> p < size) && InChunk(cfg, p, index);
      assert cursor <= p < to;
    }
  }

  /** Of these the near ones begin at most 64 MiB after the cursor. */
  lemma NearChunks(cfg: Config, size: int, cursor: int, index: int)
    requires ValidConfig(cfg) && cursor >= 0
    ensures index <= WantedNear(cfg, size, cursor)
      <==> index <= WantedEnd(cfg, size, cursor) && index * cfg.chunkSize <= cursor + 64 * MIB
  {
    var d, edge := cfg.chunkSize, cursor + 64 * MIB;
    assert edge == edge / d * d + edge % d;
    if index <= edge / d { MulMono(index, edge / d, d); } else { MulMono(edge / d + 1, index, d); }
  }

  /** From the floor to the chunk of the byte before the cursor: the chunks with a byte within the part kept behind. */
  lemma BackChunks(cfg: Config, cursor: int, index: int)
    requires ValidConfig(cfg) && cursor > 0
    ensures WantedFloor(cfg, cursor) <= index <= (cursor - 1) / cfg.chunkSize
      <==> HoldsByte(cfg, 0, Max(cursor - cfg.backBuffer, 0), cursor, index)
  {
    ChunksOfRange(cfg, Max(cursor - cfg.backBuffer, 0), cursor, index);
  }

  /** What a full scan offers, in bytes. */
  lemma FullScanBytes(cfg: Config, size: int, cursor: int, o: Offer)
    requires ValidConfig(cfg) && cursor >= 0 && (size <= 0 || cursor < size)
    ensures o in FullScan(cfg, size, cursor) <==>
      || (HoldsByte(cfg, size, cursor, cursor + cfg.targetBuffer, o.index)
          && o.priority == (if o.index * cfg.chunkSize <= cursor + 64 * MIB then NEAR else AHEAD))
      || (HoldsByte(cfg, 0, Max(cursor - cfg.backBuffer, 0), cursor, o.index) && o.priority == BACK)
  {
    FullScanHas(cfg, size, cursor, o);
    AheadChunks(cfg, size, cursor, o.index);
    NearChunks(cfg, size, cursor, o.index);
    if cursor > 0 { BackChunks(cfg, cursor, o.index); }
  }

  /** What an extending call offers: chunks that come into the near part, and chunks that come into the window. */
  lemma ExtensionBytes(cfg: Config, size: int, s: SessionState, cursor: int, o: Offer)
    requires ValidConfig(cfg) && cursor >= 0 && (size <= 0 || cursor < size) && cursor / cfg.chunkSize <= s.end + 1
    ensures o in Extension(cfg, size, s, cursor) <==>
      HoldsByte(cfg, size, cursor, cursor + cfg.targetBuffer, o.index)
      && (if o.index > s.end then o.priority == (if o.index * cfg.chunkSize <= cursor + 64 * MIB then NEAR else AHEAD)
          else o.index > s.near && o.index * cfg.chunkSize <= cursor + 64 * MIB && o.priority == NEAR)
  {
    ExtensionHas(cfg, size, s, cursor, o);
    AheadChunks(cfg, size, cursor, o.index);
    NearChunks(cfg, size, cursor, o.index);
  }

  /** The decision of a call: nothing, a new window with a full scan, or a window extended. */
  lemma CallLaw(cfg: Config, size: int, s: SessionState, cursor: int, epoch: int)
    requires ValidConfig(cfg) && cursor >= 0
    ensures var (t, prune, offers) := Schedule(cfg, size, s, cursor, epoch);
      var floor, near, end := WantedFloor(cfg, cursor), WantedNear(cfg, size, cursor), WantedEnd(cfg, size, cursor);
      && t == s.(scheduleSet := t.scheduleSet, scheduleEpoch := t.scheduleEpoch, floor := t.floor, near := t.near, end := t.end)
      && (!Counts(size, s, cursor, epoch) ==> t == s && offers == [])
      && (Counts(size, s, cursor, epoch) && (!s.scheduleSet || s.scheduleEpoch != epoch) ==>
            t.scheduleSet && t.scheduleEpoch == epoch && t.floor == floor && t.near == near && t.end == end
            && offers == FullScan(cfg, size, cursor))
      && (Counts(size, s, cursor, epoch) && s.scheduleSet && s.scheduleEpoch == epoch ==>
            t.scheduleSet && t.scheduleEpoch == epoch && t.floor == Max(s.floor, floor) && t.near == Max(s.near, near)
            && t.end == Max(s.end, end) && offers == Extension(cfg, size, s, cursor))
  {
  }

  /** The chunk is dropped from memory. */
  predicate Dropped(prune: Prune, index: int)
  {
    match prune
    case KeepAll => false
    case KeepWindow(start, end) => index < start || index > end
    case DropRange(start, end) => start <= index < end
  }

  /** What a call drops: with a new window everything outside it, with one extended what its floor has passed. */
  lemma DropLaw(cfg: Config, size: int, s: SessionState, cursor: int, epoch: int, index: int)
    requires ValidConfig(cfg) && cursor >= 0
    ensures var (t, prune, offers) := Schedule(cfg, size, s, cursor, epoch);
      Dropped(prune, index) <==>
        Counts(size, s, cursor, epoch)
        && (if !s.scheduleSet || s.scheduleEpoch != epoch then index < t.floor || index > t.end
            else s.floor <= index < t.floor)
  {
  }
}
