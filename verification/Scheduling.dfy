/** Prefetch scheduling: the window of chunks around a cursor, and what each call offers to the workers. */
module Scheduling {
  import opened Arithmetic
  import opened Content
  import opened Naming
  import opened StreamState
  import opened TaskProtocol

  const NEAR_BYTES := 64 * MIB

  datatype Offer = Offer(index: int, priority: Priority)

  /** What a call drops from the memory cache. */
  datatype Prune = KeepAll | KeepWindow(start: int, end: int) | DropRange(start: int, end: int)

  // ---------- one call ----------

  function TargetEnd(cfg: Config, size: int, cursor: int): int
  {
    if size > 0 && cursor + cfg.targetBuffer > size then size else cursor + cfg.targetBuffer
  }

  function WantedEnd(cfg: Config, size: int, cursor: int): int
    requires cfg.chunkSize > 0
  {
    (TargetEnd(cfg, size, cursor) - 1) / cfg.chunkSize
  }

  function WantedNear(cfg: Config, size: int, cursor: int): int
    requires cfg.chunkSize > 0
  {
    Min((cursor + NEAR_BYTES) / cfg.chunkSize, WantedEnd(cfg, size, cursor))
  }

  function WantedFloor(cfg: Config, cursor: int): int
    requires cfg.chunkSize > 0
  {
    Max(cursor - cfg.backBuffer, 0) / cfg.chunkSize
  }

  predicate Relevant(cfg: Config, size: int, cursor: int)
  {
    !(size > 0 && cursor >= size) && TargetEnd(cfg, size, cursor) > cursor
  }

  /** Chunks a..b in order, near ones first in line. */
  function Forward(a: int, b: int, near: int): seq<Offer>
  {
    seq(Max(b - a + 1, 0), i requires i >= 0 => Offer(a + i, if a + i <= near then NEAR else AHEAD))
  }

  function Backward(a: int, b: int): seq<Offer>
  {
    seq(Max(b - a + 1, 0), i requires i >= 0 => Offer(a + i, BACK))
  }

  /** The offers of a full scan at a cursor. */
  function FullScan(cfg: Config, size: int, cursor: int): seq<Offer>
    requires cfg.chunkSize > 0
  {
    Forward(cursor / cfg.chunkSize, WantedEnd(cfg, size, cursor), WantedNear(cfg, size, cursor))
    + (if cfg.backBuffer <= 0 || cursor <= 0 then []
       else Backward(WantedFloor(cfg, cursor), (cursor - 1) / cfg.chunkSize))
  }

  /** The offers of a call that extends the window of session `s`. */
  function Extension(cfg: Config, size: int, s: SessionState, cursor: int): seq<Offer>
    requires cfg.chunkSize > 0
  {
    var near := WantedNear(cfg, size, cursor);
    Forward(Max(s.near + 1, cursor / cfg.chunkSize), Min(near, s.end), near)
    + Forward(s.end + 1, WantedEnd(cfg, size, cursor), near)
  }

  predicate Resets(s: SessionState, epoch: int) { !s.scheduleSet || s.scheduleEpoch != epoch }

  predicate Effective(cfg: Config, size: int, s: SessionState, cursor: int, epoch: int)
  {
    Relevant(cfg, size, cursor) && s.epoch == epoch && s.active != 0
  }

  function Schedule(cfg: Config, size: int, s: SessionState, cursor: int, epoch: int): (SessionState, Prune, seq<Offer>)
    requires cfg.chunkSize > 0
  {
    var floor, near, end := WantedFloor(cfg, cursor), WantedNear(cfg, size, cursor), WantedEnd(cfg, size, cursor);
    if !Effective(cfg, size, s, cursor, epoch) then (s, KeepAll, [])
    else if Resets(s, epoch) then
      (s.(scheduleSet := true, scheduleEpoch := epoch, floor := floor, near := near, end := end),
       KeepWindow(floor, end), FullScan(cfg, size, cursor))
    else
      (s.(floor := Max(floor, s.floor), near := Max(near, s.near), end := Max(end, s.end)),
       if floor > s.floor then DropRange(s.floor, floor) else KeepAll,
       Extension(cfg, size, s, cursor))
  }

  /** The session of the file after a call. */
  function SetWindow(m: Mgr, file: File, cursor: int, epoch: int): Mgr
    requires m.cfg.chunkSize > 0
  {
    var v := ChunkVersion(file, m.cfg.chunkSize);
    if v in m.sessions then SetSession(m, v, Schedule(m.cfg, file.size, m.sessions[v], cursor, epoch).0) else m
  }

  /** Idle reclaim forgets the window of a session. */
  function Reclaimed(s: SessionState): SessionState
  {
    s.(scheduleSet := false, floor := 0, near := 0, end := 0)
  }

  function ForgetWindows(m: Mgr): Mgr
  {
    m.(sessions := map v | v in m.sessions :: Reclaimed(m.sessions[v]))
  }

  /** Nothing is listed and nothing is downloading. */
  predicate Quiet(m: Mgr)
  {
    m.tasks == map[] && forall v :: v in m.sessions ==> m.sessions[v].inflight <= 0
  }

  // ---------- windows ----------

  /** The window of a relevant cursor is in order around the cursor's chunk and leaves no gap before it. */
  lemma WindowOrder(cfg: Config, size: int, cursor: int)
    requires ValidConfig(cfg) && cursor >= 0 && Relevant(cfg, size, cursor)
    ensures var start := cursor / cfg.chunkSize;
      0 <= WantedFloor(cfg, cursor) <= start <= WantedNear(cfg, size, cursor) <= WantedEnd(cfg, size, cursor)
    ensures cursor > 0 ==> cursor / cfg.chunkSize - 1 <= (cursor - 1) / cfg.chunkSize <= cursor / cfg.chunkSize
    ensures cursor == 0 ==> WantedFloor(cfg, cursor) == 0 == cursor / cfg.chunkSize
  {
    var d := cfg.chunkSize;
    DivMono(0, Max(cursor - cfg.backBuffer, 0), d);
    DivMono(Max(cursor - cfg.backBuffer, 0), cursor, d);
    DivMono(cursor, TargetEnd(cfg, size, cursor) - 1, d);
    DivMono(cursor, cursor + NEAR_BYTES, d);
    DivMono(cursor - 1, cursor, d);
    if cursor > 0 {
      PreviousChunk(cursor, d);
    }
  }

  lemma PreviousChunk(x: int, d: int)
    requires d > 0
    ensures x / d - 1 <= (x - 1) / d
  {
    PreviousPlace(x, d);
  }

  /** Moving the cursor forward moves no edge of the window back. */
  lemma WindowMonotone(cfg: Config, size: int, a: int, b: int)
    requires ValidConfig(cfg) && 0 <= a <= b
    ensures a / cfg.chunkSize <= b / cfg.chunkSize
    ensures WantedFloor(cfg, a) <= WantedFloor(cfg, b)
    ensures WantedNear(cfg, size, a) <= WantedNear(cfg, size, b)
    ensures WantedEnd(cfg, size, a) <= WantedEnd(cfg, size, b)
  {
    DivMono(a, b, cfg.chunkSize);
    DivMono(Max(a - cfg.backBuffer, 0), Max(b - cfg.backBuffer, 0), cfg.chunkSize);
    DivMono(TargetEnd(cfg, size, a) - 1, TargetEnd(cfg, size, b) - 1, cfg.chunkSize);
    DivMono(a + NEAR_BYTES, b + NEAR_BYTES, cfg.chunkSize);
  }

  // ---------- chunks of a range of bytes ----------

  predicate InChunk(cfg: Config, position: int, index: int)
    requires cfg.chunkSize > 0
  {
    position / cfg.chunkSize == index
  }

  /** The chunks of a nonempty range are those from the chunk of its first byte to the chunk of its last. */
  lemma ChunksOfRange(cfg: Config, from: int, to: int, index: int)
    requires cfg.chunkSize > 0 && 0 <= from < to
    ensures from / cfg.chunkSize <= index <= (to - 1) / cfg.chunkSize <==> exists p :: from <= p < to && InChunk(cfg, p, index)
  {
    var d := cfg.chunkSize;
    if p :| from <= p < to && InChunk(cfg, p, index) {
      DivMono(from, p, d);
      DivMono(p, to - 1, d);
    }
    if from / d <= index <= (to - 1) / d {
      if index == from / d {
        assert InChunk(cfg, from, index);
      } else {
        QuotientUnique(index * d, d, index, 0);
        MulMono(from / d + 1, index, d);
        MulMono(index, (to - 1) / d, d);
        assert InChunk(cfg, index * d, index);
      }
    }
  }

  // ---------- offers ----------

  predicate Offered(calls: seq<Offer>, index: int) { exists o :: o in calls && o.index == index }

  predicate NearOffered(calls: seq<Offer>, index: int) { Offer(index, NEAR) in calls }

  ghost predicate NoRepeat(calls: seq<Offer>)
  {
    forall i, j :: 0 <= i < j < |calls| ==> calls[i] != calls[j]
  }

  lemma ForwardHas(a: int, b: int, near: int, o: Offer)
    ensures o in Forward(a, b, near) <==> a <= o.index <= b && o.priority == if o.index <= near then NEAR else AHEAD
    ensures NoRepeat(Forward(a, b, near))
  {
    var s := Forward(a, b, near);
    if a <= o.index <= b && o.priority == (if o.index <= near then NEAR else AHEAD) {
      assert s[o.index - a] == o;
    }
  }

  lemma BackwardHas(a: int, b: int, o: Offer)
    ensures o in Backward(a, b) <==> a <= o.index <= b && o.priority == BACK
    ensures NoRepeat(Backward(a, b))
  {
    var s := Backward(a, b);
    if a <= o.index <= b && o.priority == BACK { assert s[o.index - a] == o; }
  }

  lemma NoRepeatJoin(a: seq<Offer>, b: seq<Offer>)
    requires NoRepeat(a) && NoRepeat(b) && forall o :: o in a ==> o !in b
    ensures NoRepeat(a + b)
  {
    var c := a + b;
    forall i, j | 0 <= i < j < |c| ensures c[i] != c[j] {
      if i < |a| && j >= |a| { assert c[i] in a && c[j] in b; }
    }
  }

  /** Exactly what a full scan offers. */
  lemma FullScanHas(cfg: Config, size: int, cursor: int, o: Offer)
    requires ValidConfig(cfg)
    ensures o in FullScan(cfg, size, cursor) <==>
      (cursor / cfg.chunkSize <= o.index <= WantedEnd(cfg, size, cursor)
        && o.priority == if o.index <= WantedNear(cfg, size, cursor) then NEAR else AHEAD)
      || (cursor > 0 && WantedFloor(cfg, cursor) <= o.index <= (cursor - 1) / cfg.chunkSize && o.priority == BACK)
    ensures NoRepeat(FullScan(cfg, size, cursor))
  {
    var ahead := Forward(cursor / cfg.chunkSize, WantedEnd(cfg, size, cursor), WantedNear(cfg, size, cursor));
    var back := if cursor > 0 then Backward(WantedFloor(cfg, cursor), (cursor - 1) / cfg.chunkSize) else [];
    assert FullScan(cfg, size, cursor) == ahead + back;
    forall p ensures p in ahead ==> p !in back {
      ForwardHas(cursor / cfg.chunkSize, WantedEnd(cfg, size, cursor), WantedNear(cfg, size, cursor), p);
      BackwardHas(WantedFloor(cfg, cursor), (cursor - 1) / cfg.chunkSize, p);
    }
    ForwardHas(cursor / cfg.chunkSize, WantedEnd(cfg, size, cursor), WantedNear(cfg, size, cursor), o);
    BackwardHas(WantedFloor(cfg, cursor), (cursor - 1) / cfg.chunkSize, o);
    NoRepeatJoin(ahead, back);
  }

  /** The chunk under the cursor is offered twice, as near and as back, exactly when the cursor is inside it. */
  lemma CursorChunkTwice(cfg: Config, size: int, cursor: int)
    requires ValidConfig(cfg) && cursor >= 0 && Relevant(cfg, size, cursor)
    ensures var c := cursor / cfg.chunkSize;
      var offers := FullScan(cfg, size, cursor);
      Offer(c, NEAR) in offers && (Offer(c, BACK) in offers <==> cursor % cfg.chunkSize != 0)
  {
    var c, d := cursor / cfg.chunkSize, cfg.chunkSize;
    WindowOrder(cfg, size, cursor);
    FullScanHas(cfg, size, cursor, Offer(c, NEAR));
    FullScanHas(cfg, size, cursor, Offer(c, BACK));
    PreviousPlace(cursor, d);
  }

  /** Exactly what an extending call offers. */
  lemma ExtensionHas(cfg: Config, size: int, s: SessionState, cursor: int, o: Offer)
    requires ValidConfig(cfg)
    ensures var near := WantedNear(cfg, size, cursor);
      o in Extension(cfg, size, s, cursor) <==>
        (s.near < o.index && cursor / cfg.chunkSize <= o.index <= Min(near, s.end) && o.priority == NEAR)
        || (s.end < o.index <= WantedEnd(cfg, size, cursor) && o.priority == if o.index <= near then NEAR else AHEAD)
    ensures NoRepeat(Extension(cfg, size, s, cursor))
  {
    var near := WantedNear(cfg, size, cursor);
    var a := Forward(Max(s.near + 1, cursor / cfg.chunkSize), Min(near, s.end), near);
    var b := Forward(s.end + 1, WantedEnd(cfg, size, cursor), near);
    forall p ensures p in a ==> p !in b {
      ForwardHas(Max(s.near + 1, cursor / cfg.chunkSize), Min(near, s.end), near, p);
      ForwardHas(s.end + 1, WantedEnd(cfg, size, cursor), near, p);
    }
    ForwardHas(Max(s.near + 1, cursor / cfg.chunkSize), Min(near, s.end), near, o);
    ForwardHas(s.end + 1, WantedEnd(cfg, size, cursor), near, o);
    NoRepeatJoin(a, b);
  }

  // ---------- runs of one session ----------

  /** A session, and what was offered for it since the last full scan: from which cursor, up to which furthest one. */
  datatype Track = Track(s: SessionState, origin: int, cursor: int, calls: seq<Offer>)

  datatype Move =
    | Call(cursor: int, epoch: int)
    | Reclaim
    | Forget
    | Other(s: SessionState)

  predicate SameSchedule(s: SessionState, t: SessionState)
  {
    t.scheduleSet == s.scheduleSet && t.scheduleEpoch == s.scheduleEpoch
    && t.floor == s.floor && t.near == s.near && t.end == s.end
  }

  predicate MoveOk(t: Track, move: Move)
  {
    match move
    case Call(cursor, epoch) => cursor >= 0
    case Reclaim => true
    case Forget => true
    case Other(s) => SameSchedule(t.s, s) && s.epoch >= t.s.epoch
  }

  function Advance(cfg: Config, size: int, t: Track, move: Move): Track
    requires ValidConfig(cfg)
  {
    match move
    case Call(cursor, epoch) =>
      var (s, prune, offers) := Schedule(cfg, size, t.s, cursor, epoch);
      if !Effective(cfg, size, t.s, cursor, epoch) then t
      else if Resets(t.s, epoch) then Track(s, cursor, cursor, offers)
      else Track(s, t.origin, Max(t.cursor, cursor), t.calls + offers)
    case Reclaim => t.(s := Reclaimed(t.s))
    case Forget => t.(s := NEW_SESSION)
    case Other(s) => t.(s := s)
  }

  /** While a window is set: its edges are in order, no offer was made twice, exactly the chunks from the
      floor of the last full scan to the end of the window were offered, and near offers lie within it. */
  ghost predicate Covered(cfg: Config, t: Track)
    requires ValidConfig(cfg)
  {
    t.s.scheduleSet ==>
      && t.origin >= 0 && WantedFloor(cfg, t.origin) <= t.s.floor <= t.s.near <= t.s.end
      && NoRepeat(t.calls)
      && (forall i :: Offered(t.calls, i) <==> WantedFloor(cfg, t.origin) <= i <= t.s.end)
      && (forall o :: o in t.calls && o.priority == NEAR ==> o.index <= t.s.near)
      && (forall o :: o in t.calls ==> o.priority == NEAR || o.priority == AHEAD || o.priority == BACK)
      && (forall o :: o in t.calls && o.priority == BACK ==> o.index <= t.origin / cfg.chunkSize)
  }

  lemma CoveredReset(cfg: Config, size: int, t: Track, cursor: int, epoch: int)
    requires ValidConfig(cfg) && cursor >= 0
    requires Effective(cfg, size, t.s, cursor, epoch) && Resets(t.s, epoch)
    ensures Covered(cfg, Advance(cfg, size, t, Call(cursor, epoch)))
  {
    var u := Advance(cfg, size, t, Call(cursor, epoch));
    WindowOrder(cfg, size, cursor);
    FullScanHas(cfg, size, cursor, Offer(0, NEAR));
    forall o ensures o in u.calls ==>
        (WantedFloor(cfg, cursor) <= o.index <= u.s.end && o.priority != FOREGROUND
        && (o.priority == NEAR ==> o.index <= u.s.near) && (o.priority == BACK ==> o.index <= cursor / cfg.chunkSize)) {
      FullScanHas(cfg, size, cursor, o);
    }
    forall i | WantedFloor(cfg, cursor) <= i <= u.s.end ensures Offered(u.calls, i) {
      var o := Offer(i, if i < cursor / cfg.chunkSize then BACK else if i <= u.s.near then NEAR else AHEAD);
      FullScanHas(cfg, size, cursor, o);
      assert o in u.calls;
    }
  }

  lemma CoveredExtend(cfg: Config, size: int, t: Track, cursor: int, epoch: int)
    requires ValidConfig(cfg) && cursor >= 0 && Covered(cfg, t)
    requires Effective(cfg, size, t.s, cursor, epoch) && !Resets(t.s, epoch)
    ensures Covered(cfg, Advance(cfg, size, t, Call(cursor, epoch)))
  {
    var u := Advance(cfg, size, t, Call(cursor, epoch));
    var offers := Extension(cfg, size, t.s, cursor);
    WindowOrder(cfg, size, cursor);
    ExtensionHas(cfg, size, t.s, cursor, Offer(0, NEAR));
    forall o ensures o in offers ==>
        (o !in t.calls && WantedFloor(cfg, t.origin) <= o.index <= u.s.end
        && (o.priority == NEAR || o.priority == AHEAD) && (o.priority == NEAR ==> o.index <= u.s.near)) {
      ExtensionHas(cfg, size, t.s, cursor, o);
      if o in t.calls { assert Offered(t.calls, o.index); }
    }
    NoRepeatJoin(t.calls, offers);
    assert u.calls == t.calls + offers;
    forall i ensures Offered(u.calls, i) <==> WantedFloor(cfg, t.origin) <= i <= u.s.end {
      if WantedFloor(cfg, t.origin) <= i <= t.s.end {
        assert Offered(t.calls, i);
        var o :| o in t.calls && o.index == i;
        assert o in u.calls;
      } else if t.s.end < i <= u.s.end {
        var o := Offer(i, if i <= WantedNear(cfg, size, cursor) then NEAR else AHEAD);
        ExtensionHas(cfg, size, t.s, cursor, o);
        assert o in u.calls;
      } else if Offered(u.calls, i) {
        var o :| o in u.calls && o.index == i;
        if o in t.calls { assert Offered(t.calls, i); }
      }
    }
  }

  /** Every move keeps the window covered; until the next full scan no edge of it moves back. */
  lemma CoveredKept(cfg: Config, size: int, t: Track, move: Move)
    requires ValidConfig(cfg) && Covered(cfg, t) && MoveOk(t, move)
    ensures Covered(cfg, Advance(cfg, size, t, move))
    ensures var u := Advance(cfg, size, t, move);
      t.s.scheduleSet && u.s.scheduleSet && u.s.scheduleEpoch == t.s.scheduleEpoch ==>
        t.s.floor <= u.s.floor && t.s.near <= u.s.near && t.s.end <= u.s.end && t.calls <= u.calls && u.origin == t.origin
  {
    if move.Call? && Effective(cfg, size, t.s, move.cursor, move.epoch) {
      if Resets(t.s, move.epoch) { CoveredReset(cfg, size, t, move.cursor, move.epoch); }
      else { CoveredExtend(cfg, size, t, move.cursor, move.epoch); }
    }
  }

  ghost predicate IsHistory(cfg: Config, size: int, history: seq<Track>, moves: seq<Move>)
    requires ValidConfig(cfg)
  {
    && |history| == |moves| + 1 && history[0].s == NEW_SESSION
    && forall i :: 0 <= i < |moves| ==> MoveOk(history[i], moves[i]) && history[i + 1] == Advance(cfg, size, history[i], moves[i])
  }

  /** Whatever the order of calls, reads, releases and idle reclaims: the window is covered. */
  lemma {:induction false} AlwaysCovered(cfg: Config, size: int, history: seq<Track>, moves: seq<Move>, i: nat)
    requires ValidConfig(cfg) && IsHistory(cfg, size, history, moves) && i < |history|
    ensures Covered(cfg, history[i])
  {
    if i > 0 {
      AlwaysCovered(cfg, size, history, moves, i - 1);
      CoveredKept(cfg, size, history[i - 1], moves[i - 1]);
    }
  }

  // ---------- incremental calls against full scans ----------

  /** Everything a full scan at the furthest cursor would offer has been offered, the near part as near. */
  ghost predicate Refined(cfg: Config, size: int, t: Track)
    requires ValidConfig(cfg)
  {
    t.s.scheduleSet ==>
      && 0 <= t.origin <= t.cursor && Relevant(cfg, size, t.cursor)
      && t.s.floor == WantedFloor(cfg, t.cursor) && t.s.near == WantedNear(cfg, size, t.cursor)
      && t.s.end == WantedEnd(cfg, size, t.cursor)
      && (forall i :: t.cursor / cfg.chunkSize <= i <= t.s.near ==> NearOffered(t.calls, i))
  }

  lemma RefinedKept(cfg: Config, size: int, t: Track, move: Move)
    requires ValidConfig(cfg) && Covered(cfg, t) && Refined(cfg, size, t) && MoveOk(t, move)
    ensures Refined(cfg, size, Advance(cfg, size, t, move))
  {
    if move.Call? && Effective(cfg, size, t.s, move.cursor, move.epoch) {
      if Resets(t.s, move.epoch) {
        RefinedReset(cfg, size, t, move.cursor, move.epoch);
      } else if move.cursor >= t.cursor {
        RefinedExtend(cfg, size, t, move.cursor, move.epoch);
      } else {
        RefinedBack(cfg, size, t, move.cursor, move.epoch);
      }
    }
  }

  lemma RefinedReset(cfg: Config, size: int, t: Track, cursor: int, epoch: int)
    requires ValidConfig(cfg) && cursor >= 0 && Effective(cfg, size, t.s, cursor, epoch) && Resets(t.s, epoch)
    ensures Refined(cfg, size, Advance(cfg, size, t, Call(cursor, epoch)))
  {
    var u := Advance(cfg, size, t, Call(cursor, epoch));
    WindowOrder(cfg, size, cursor);
    forall i | cursor / cfg.chunkSize <= i <= u.s.near ensures NearOffered(u.calls, i) {
      FullScanHas(cfg, size, cursor, Offer(i, NEAR));
    }
  }

  lemma RefinedExtend(cfg: Config, size: int, t: Track, cursor: int, epoch: int)
    requires ValidConfig(cfg) && cursor >= 0 && Covered(cfg, t) && Refined(cfg, size, t) && cursor >= t.cursor
    requires Effective(cfg, size, t.s, cursor, epoch) && !Resets(t.s, epoch)
    ensures Refined(cfg, size, Advance(cfg, size, t, Call(cursor, epoch)))
  {
    var u := Advance(cfg, size, t, Call(cursor, epoch));
    WindowOrder(cfg, size, cursor);
    WindowMonotone(cfg, size, t.cursor, cursor);
    forall i | cursor / cfg.chunkSize <= i <= u.s.near ensures NearOffered(u.calls, i) {
      if i <= t.s.near { assert NearOffered(t.calls, i); }
      else { ExtensionHas(cfg, size, t.s, cursor, Offer(i, NEAR)); }
    }
  }

  /** A cursor that moves back moves no edge. */
  lemma RefinedBack(cfg: Config, size: int, t: Track, cursor: int, epoch: int)
    requires ValidConfig(cfg) && cursor >= 0 && Refined(cfg, size, t) && cursor < t.cursor
    requires Effective(cfg, size, t.s, cursor, epoch) && !Resets(t.s, epoch)
    ensures Refined(cfg, size, Advance(cfg, size, t, Call(cursor, epoch)))
  {
    var u := Advance(cfg, size, t, Call(cursor, epoch));
    WindowMonotone(cfg, size, cursor, t.cursor);
    assert u.cursor == t.cursor && u.s.near == t.s.near;
    forall i | u.cursor / cfg.chunkSize <= i <= u.s.near ensures NearOffered(u.calls, i) { assert NearOffered(t.calls, i); }
  }

  /** What an extending call offers was not offered as near before. */
  lemma NearOfferedOnce(cfg: Config, size: int, t: Track, cursor: int, epoch: int, o: Offer)
    requires ValidConfig(cfg) && Covered(cfg, t) && t.s.scheduleSet
    requires Effective(cfg, size, t.s, cursor, epoch) && !Resets(t.s, epoch)
    requires o in Schedule(cfg, size, t.s, cursor, epoch).2
    ensures !NearOffered(t.calls, o.index)
  {
    ExtensionHas(cfg, size, t.s, cursor, o);
  }

  lemma {:induction false} AlwaysRefined(cfg: Config, size: int, history: seq<Track>, moves: seq<Move>, i: nat)
    requires ValidConfig(cfg) && IsHistory(cfg, size, history, moves) && i < |history|
    ensures Refined(cfg, size, history[i])
  {
    if i > 0 {
      AlwaysRefined(cfg, size, history, moves, i - 1);
      AlwaysCovered(cfg, size, history, moves, i - 1);
      RefinedKept(cfg, size, history[i - 1], moves[i - 1]);
    }
  }

  /** Incremental scheduling refines full scans: every chunk a full scan at the furthest cursor since the last
      full scan would offer was offered, and the near ones as near. */
  lemma IncrementalRefinesFullScan(cfg: Config, size: int, history: seq<Track>, moves: seq<Move>, i: nat, o: Offer)
    requires ValidConfig(cfg) && IsHistory(cfg, size, history, moves) && i < |history|
    requires history[i].s.scheduleSet && o in FullScan(cfg, size, history[i].cursor)
    ensures Offered(history[i].calls, o.index)
    ensures o.priority == NEAR ==> o in history[i].calls
  {
    var t := history[i];
    AlwaysCovered(cfg, size, history, moves, i);
    AlwaysRefined(cfg, size, history, moves, i);
    FullScanHas(cfg, size, t.cursor, o);
    WindowOrder(cfg, size, t.cursor);
    WindowMonotone(cfg, size, t.origin, t.cursor);
    if o.priority == NEAR { assert NearOffered(t.calls, o.index); }
  }

  // ---------- offers become tasks ----------

  /** The chunks offered, in order, to a manager; `cached` are those the store already holds. */
  function OfferAll(m: Mgr, file: File, epoch: int, offers: seq<Offer>, cached: set<int>): Mgr
    decreases |offers|
  {
    if offers == [] then m
    else
      var n := if offers[0].index in cached then m else Ensure(m, file, offers[0].index, epoch, offers[0].priority).0;
      OfferAll(n, file, epoch, offers[1..], cached)
  }

  /** The chunk has a current task that is started or at least this urgent. */
  ghost predicate Attended(m: Mgr, file: File, index: int, priority: Priority)
  {
    var key := ChunkKey(ChunkVersion(file, m.cfg.chunkSize), index);
    key in m.tasks && m.tasks[key] in m.table && m.table[m.tasks[key]].Live()
    && (m.table[m.tasks[key]].started || m.table[m.tasks[key]].priority <= priority)
  }

  lemma AttendedStays(m: Mgr, file: File, index: int, priority: Priority, other: Offer, epoch: int)
    requires Inv(m) && Attended(m, file, index, priority)
    ensures Attended(Ensure(m, file, other.index, epoch, other.priority).0, file, index, priority)
  {
    EnsureKeeps(m, file, other.index, epoch, other.priority);
    var key := ChunkKey(ChunkVersion(file, m.cfg.chunkSize), index);
    assert TaskOk(m, {}, m.tasks[key]);
  }

  lemma Attends(m: Mgr, file: File, o: Offer, epoch: int)
    requires Inv(m) && !m.closed && ChunkLength(m.cfg, file, o.index) > 0
    ensures Attended(Ensure(m, file, o.index, epoch, o.priority).0, file, o.index, o.priority)
  {
    EnsureGives(m, file, o.index, epoch, o.priority);
    EnsureKeeps(m, file, o.index, epoch, o.priority);
    var (n, e) := Ensure(m, file, o.index, epoch, o.priority);
    assert TaskOk(n, {}, e.id);
  }

  /** After a batch of offers every chunk in it that is not cached has a task as urgent as offered. */
  lemma {:induction false} OffersAttended(m: Mgr, file: File, epoch: int, offers: seq<Offer>, cached: set<int>, kept: set<Offer>)
    requires Inv(m) && !m.closed
    requires forall o :: o in offers && o.index !in cached ==> ChunkLength(m.cfg, file, o.index) > 0
    requires forall o :: o in kept ==> Attended(m, file, o.index, o.priority)
    ensures var n := OfferAll(m, file, epoch, offers, cached);
      Inv(n) && Evolves(m, n)
      && (forall o :: o in kept ==> Attended(n, file, o.index, o.priority))
      && (forall o :: o in offers && o.index !in cached ==> Attended(n, file, o.index, o.priority))
    decreases |offers|
  {
    if offers != [] {
      var first := offers[0];
      if first.index in cached {
        OffersAttended(m, file, epoch, offers[1..], cached, kept);
      } else {
        var n := Ensure(m, file, first.index, epoch, first.priority).0;
        EnsureKeeps(m, file, first.index, epoch, first.priority);
        assert first in offers;
        Attends(m, file, first, epoch);
        forall o | o in kept ensures Attended(n, file, o.index, o.priority) {
          AttendedStays(m, file, o.index, o.priority, first, epoch);
        }
        OffersAttended(n, file, epoch, offers[1..], cached, kept + {first});
        EvolvesTransitive(m, n, OfferAll(m, file, epoch, offers, cached));
        assert first in kept + {first};
      }
    }
  }

  /** A chunk up to the wanted end is not empty. */
  lemma WantedNonempty(cfg: Config, file: File, cursor: int, index: int)
    requires ValidConfig(cfg) && cursor >= 0 && Relevant(cfg, file.size, cursor) && index <= WantedEnd(cfg, file.size, cursor)
    ensures ChunkLength(cfg, file, index) > 0
  {
    var last := TargetEnd(cfg, file.size, cursor) - 1;
    assert last == last / cfg.chunkSize * cfg.chunkSize + last % cfg.chunkSize;
    MulMono(index, last / cfg.chunkSize, cfg.chunkSize);
  }

  /** A call's offers leave every offered chunk cached or with a task as urgent as offered. */
  lemma CallAttends(m: Mgr, file: File, s: SessionState, cursor: int, epoch: int, cached: set<int>, o: Offer)
    requires Inv(m) && !m.closed && ValidConfig(m.cfg) && cursor >= 0
    requires o in Schedule(m.cfg, file.size, s, cursor, epoch).2 && o.index !in cached
    ensures Attended(OfferAll(m, file, epoch, Schedule(m.cfg, file.size, s, cursor, epoch).2, cached), file, o.index, o.priority)
  {
    var offers := Schedule(m.cfg, file.size, s, cursor, epoch).2;
    WindowOrder(m.cfg, file.size, cursor);
    forall p | p in offers ensures ChunkLength(m.cfg, file, p.index) > 0 {
      FullScanHas(m.cfg, file.size, cursor, p);
      ExtensionHas(m.cfg, file.size, s, cursor, p);
      WantedNonempty(m.cfg, file, cursor, p.index);
    }
    OffersAttended(m, file, epoch, offers, cached, {});
  }
}
