/** The state of the stream manager as values, and each critical section as a function on it.
    A task is named by its sequence number, which the manager never reuses. */
module StreamState {
  import opened Content
  import opened Naming

  const MIB := 0x10_0000

  // ---------- configuration ----------

  datatype Config = Config(
    chunkSize: int, forwardGap: int, seekThreshold: int, workers: int, sessionWorkers: int,
    lowWatermark: int, targetBuffer: int, backBuffer: int)

  const DEFAULT_CONFIG := Config(MIB, 8 * MIB, 16 * MIB, 8, 6, 128 * MIB, 256 * MIB, 32 * MIB)

  predicate ValidConfig(c: Config)
  {
    && c.chunkSize > 0 && c.forwardGap > 0 && c.seekThreshold > 0
    && 1 <= c.sessionWorkers <= c.workers
    && c.targetBuffer > 0 && c.backBuffer > 0
  }

  /** The configuration a manager runs with: unusable values give way to defaults. */
  function Normalize(c: Config): (r: Config)
    ensures ValidConfig(r)
    ensures ValidConfig(c) && c.seekThreshold >= c.forwardGap && c.targetBuffer >= c.lowWatermark > 0 ==> r == c
  {
    var d := DEFAULT_CONFIG;
    var gap := if c.forwardGap <= 0 then d.forwardGap else c.forwardGap;
    var workers := if c.workers <= 0 then d.workers else c.workers;
    var low := if c.lowWatermark <= 0 then d.lowWatermark else c.lowWatermark;
    var perSession :=
      if c.sessionWorkers <= 0 || c.sessionWorkers > workers then
        if workers - 2 <= 0 then workers else workers - 2
      else c.sessionWorkers;
    Config(
      if c.chunkSize <= 0 then d.chunkSize else c.chunkSize,
      gap,
      if c.seekThreshold < gap then d.seekThreshold else c.seekThreshold,
      workers,
      perSession,
      low,
      if c.targetBuffer < low then d.targetBuffer else c.targetBuffer,
      if c.backBuffer <= 0 then d.backBuffer else c.backBuffer)
  }

  /** A configuration of unusable values becomes the default one, and a usable one is not touched again. */
  lemma NormalizeTwice(c: Config)
    ensures Normalize(Config(0, 0, 0, 0, 0, 0, 0, 0)) == Config(1 * MIB, 8 * MIB, 16 * MIB, 8, 6, 128 * MIB, 256 * MIB, 32 * MIB)
    ensures c.seekThreshold > 0 && c.targetBuffer > 0 ==> Normalize(Normalize(c)) == Normalize(c)
    ensures c.workers > 0 ==> Normalize(c).workers == c.workers
    ensures 0 < c.sessionWorkers <= c.workers ==> Normalize(c).sessionWorkers == c.sessionWorkers
    ensures c.workers > 0 && !(0 < c.sessionWorkers <= c.workers) ==>
      Normalize(c).sessionWorkers == if c.workers > 2 then c.workers - 2 else c.workers
  {
  }

  // ---------- tasks, sessions, handles ----------

  type Priority = p: int | 0 <= p <= 3
  const FOREGROUND: Priority := 0
  const NEAR: Priority := 1
  const AHEAD: Priority := 2
  const BACK: Priority := 3

  datatype Failure = Canceled | UnexpectedEOF | Upstream

  datatype Result = Ok(data: Bytes) | Err(failure: Failure)

  /** `closes` counts how often the channel `done` was closed; `result` is what waiters then read. */
  datatype TaskState = TaskState(
    key: ChunkKey, file: File, offset: int, length: int, epoch: int, priority: Priority,
    cancelled: bool, started: bool, finished: bool, closes: nat, result: Option<Result>,
    foreground: bool, hedged: bool)
  {
    predicate Live() { !finished && !cancelled }
  }

  datatype SessionState = SessionState(
    epoch: int, active: int, anchor: int, cursor: int, refs: int, inflight: int,
    scheduleSet: bool, scheduleEpoch: int, floor: int, near: int, end: int)

  const NEW_SESSION := SessionState(0, 0, 0, 0, 0, 0, false, 0, 0, 0, 0)

  datatype Mgr = Mgr(
    cfg: Config, table: map<int, TaskState>, queue: set<int>, tasks: map<ChunkKey, int>,
    sessions: map<string, SessionState>, closed: bool, sequence: int, nextHandle: int)

  // ---------- sessions ----------

  /** Some task still listed under this version has not finished. */
  predicate Unfinished(m: Mgr, version: string)
  {
    exists key :: key in m.tasks && key.version == version
      && m.tasks[key] in m.table && !m.table[m.tasks[key]].finished
  }

  function Cleanup(m: Mgr, version: string): Mgr
  {
    if version in m.sessions && m.sessions[version].refs <= 0 && m.sessions[version].inflight <= 0
       && !Unfinished(m, version)
    then m.(sessions := m.sessions - {version})
    else m
  }

  predicate Competes(s: SessionState) { s.refs > 0 && s.active != 0 }

  /** Two sessions stream at the same time. */
  predicate Competing(m: Mgr)
  {
    exists v, w :: v in m.sessions && w in m.sessions && v != w && Competes(m.sessions[v]) && Competes(m.sessions[w])
  }

  function SessionLimit(m: Mgr): int
  {
    if Competing(m) then m.cfg.sessionWorkers else m.cfg.workers
  }

  function SessionOrNew(m: Mgr, version: string): SessionState
  {
    if version in m.sessions then m.sessions[version] else NEW_SESSION
  }

  function CancelOlder(m: Mgr, version: string, epoch: int): Mgr
  {
    m.(table := map id | id in m.table ::
      var t := m.table[id];
      if CancelTarget(m, id, version, epoch) then t.(cancelled := true) else t)
  }

  /** The tasks an epoch bump cancels: listed, of this version, older, and not queued as foreground. */
  predicate CancelTarget(m: Mgr, id: int, version: string, epoch: int)
    requires id in m.table
  {
    var t := m.table[id];
    t.key in m.tasks && m.tasks[t.key] == id && t.key.version == version && t.epoch < epoch && t.priority != FOREGROUND
  }

  // ---------- the task queue ----------

  predicate Before(m: Mgr, a: int, b: int)
    requires a in m.table && b in m.table
  {
    m.table[a].priority < m.table[b].priority || (m.table[a].priority == m.table[b].priority && a < b)
  }

  predicate IsLeast(m: Mgr, q: set<int>, id: int)
    requires q <= m.table.Keys
  {
    id in q && forall o :: o in q && o != id ==> Before(m, id, o)
  }

  lemma {:induction false} LeastExists(m: Mgr, q: set<int>)
    requires q <= m.table.Keys && q != {}
    ensures exists id :: IsLeast(m, q, id)
    decreases |q|
  {
    var x := Pick(q);
    var rest := q - {x};
    assert forall o :: o in q ==> o == x || o in rest;
    if rest == {} {
      assert IsLeast(m, q, x);
    } else {
      LeastExists(m, rest);
      var y :| IsLeast(m, rest, y);
      var z := if Before(m, x, y) then x else y;
      assert forall o :: o in rest && o != y ==> Before(m, y, o);
      assert IsLeast(m, q, z);
    }
  }

  ghost function Least(m: Mgr, q: set<int>): (id: int)
    requires q <= m.table.Keys && q != {}
    ensures IsLeast(m, q, id)
  {
    LeastExists(m, q);
    var id :| IsLeast(m, q, id);
    id
  }

  lemma LeastIsUnique(m: Mgr, q: set<int>, a: int, b: int)
    requires q <= m.table.Keys && IsLeast(m, q, a) && IsLeast(m, q, b)
    ensures a == b
  {
  }

  /** A task its session's worker limit holds back. */
  predicate Blocked(m: Mgr, id: int)
    requires id in m.table
  {
    var t := m.table[id];
    t.key.version in m.sessions && t.priority != FOREGROUND && m.sessions[t.key.version].inflight >= SessionLimit(m)
  }

  /** Removes the task from the table of current tasks, if it is still the current one. */
  function Unlist(m: Mgr, id: int): Mgr
    requires id in m.table
  {
    var key := m.table[id].key;
    if key in m.tasks && m.tasks[key] == id then m.(tasks := m.tasks - {key}) else m
  }

  function Finish(m: Mgr, id: int, r: Result): (n: Mgr)
    requires id in m.table
    ensures n.table.Keys == m.table.Keys
  {
    var t := m.table[id];
    Unlist(m.(table := m.table[id := t.(finished := true, closes := t.closes + 1, result := Some(r))]), id)
  }

  function Discard(m: Mgr, id: int): Mgr
    requires id in m.table
  {
    if m.table[id].finished then m
    else Cleanup(Finish(m, id, Err(Canceled)), m.table[id].key.version)
  }

  function Start(m: Mgr, id: int): Mgr
    requires id in m.table
  {
    var t := m.table[id];
    var v := t.key.version;
    var n := m.(table := m.table[id := t.(started := true)]);
    if v in m.sessions then
      n.(sessions := m.sessions[v := m.sessions[v].(inflight := m.sessions[v].inflight + 1)])
    else n
  }

  /** One pass of a worker over the queue, least task first; `skipped` returns to the queue. */
  ghost function Scan(m: Mgr, skipped: set<int>): (r: (Mgr, Option<int>))
    requires m.queue <= m.table.Keys
    decreases |m.queue|
  {
    if m.queue == {} then (m.(queue := skipped), None)
    else
      var id := Least(m, m.queue);
      var t := m.table[id];
      var n := m.(queue := m.queue - {id});
      if t.finished then Scan(n, skipped)
      else if t.cancelled then Scan(Discard(n, id), skipped)
      else if Blocked(n, id) then Scan(n, skipped + {id})
      else (Start(n, id).(queue := n.queue + skipped), Some(id))
  }

  /** What a pass does with the least task of the queue. */
  lemma ScanLeast(m: Mgr, skipped: set<int>, id: int)
    requires m.queue <= m.table.Keys && IsLeast(m, m.queue, id)
    ensures var n := m.(queue := m.queue - {id});
      Scan(m, skipped) ==
        (if m.table[id].finished then Scan(n, skipped)
         else if m.table[id].cancelled then Scan(Discard(n, id), skipped)
         else if Blocked(n, id) then Scan(n, skipped + {id})
         else (Start(n, id).(queue := n.queue + skipped), Some(id)))
  {
    LeastIsUnique(m, m.queue, Least(m, m.queue), id);
  }

  // ---------- critical sections ----------

  datatype Ensured = Closed | Joined(id: int) | Created(id: int) | Empty

  function ChunkLength(cfg: Config, file: File, index: int): int
  {
    var offset := index * cfg.chunkSize;
    if file.size > 0 && offset + cfg.chunkSize > file.size then file.size - offset else cfg.chunkSize
  }

  function NewTask(cfg: Config, file: File, index: int, epoch: int, priority: Priority): TaskState
  {
    TaskState(ChunkKey(ChunkVersion(file, cfg.chunkSize), index), file, index * cfg.chunkSize,
              ChunkLength(cfg, file, index), epoch, priority, false, false, false, 0, None, false, false)
  }

  /** A task that nobody has started and that is not finished is in the queue. */
  ghost predicate UnstartedQueued(m: Mgr)
  {
    forall id :: id in m.table && !m.table[id].finished && !m.table[id].started ==> id in m.queue
  }

  /** Joins the live task of a chunk, promoting it while it is queued, or queues a new one. */
  function Ensure(m: Mgr, file: File, index: int, epoch: int, priority: Priority): (r: (Mgr, Ensured))
  {
    var key := ChunkKey(ChunkVersion(file, m.cfg.chunkSize), index);
    if m.closed then (m, Closed)
    else if key in m.tasks && m.tasks[key] in m.table && m.table[m.tasks[key]].Live() then
      var id := m.tasks[key];
      var t := m.table[id];
      if priority < t.priority && !t.started
      then (m.(table := m.table[id := t.(priority := priority)]), Joined(id))
      else (m, Joined(id))
    else if ChunkLength(m.cfg, file, index) <= 0 then (m, Empty)
    else
      var id := m.sequence + 1;
      var t := NewTask(m.cfg, file, index, epoch, priority);
      (m.(sequence := id, table := m.table[id := t], tasks := m.tasks[key := id], queue := m.queue + {id}), Created(id))
  }

  /** The session of a started task counts one download less. */
  function Uncount(m: Mgr, id: int): Mgr
    requires id in m.table
  {
    var v := m.table[id].key.version;
    if v in m.sessions && m.table[id].started && m.sessions[v].inflight > 0
    then SetSession(m, v, m.sessions[v].(inflight := m.sessions[v].inflight - 1))
    else m
  }

  /** A worker hands in what its download returned. */
  function HandIn(m: Mgr, id: int, r: Result): Mgr
    requires id in m.table
  {
    var n := Uncount(m, id);
    Cleanup(if m.table[id].finished then n else Finish(n, id, r), m.table[id].key.version)
  }

  function MarkForeground(m: Mgr, id: int): Mgr
    requires id in m.table
  {
    if m.table[id].finished then m
    else m.(table := m.table[id := m.table[id].(foreground := true)])
  }

  function StartHedge(m: Mgr, id: int): Mgr
    requires id in m.table
  {
    var t := m.table[id];
    if m.closed || t.finished || t.hedged || t.cancelled then m
    else m.(table := m.table[id := t.(hedged := true)])
  }

  /** A hedged duplicate that got its bytes first completes the task and cancels the original download. */
  function PublishHedge(m: Mgr, id: int, data: Bytes): Mgr
    requires id in m.table
  {
    if m.table[id].finished then m
    else
      var n := Finish(m, id, Ok(data));
      n.(table := n.table[id := n.table[id].(cancelled := true)])
  }

  function CloseAll(m: Mgr): Mgr
  {
    m.(closed := true, table := map id | id in m.table :: m.table[id].(cancelled := true))
  }

  /** A new handle takes a reference on its session; its number is the new `nextHandle`. */
  function Open(m: Mgr, file: File): Mgr
  {
    if m.closed || file.fsid == "" then m
    else
      var v := ChunkVersion(file, m.cfg.chunkSize);
      var s := SessionOrNew(m, v);
      m.(sessions := m.sessions[v := s.(refs := s.refs + 1)], nextHandle := m.nextHandle + 1)
  }

  predicate Holds(s: SessionState, handle: int) { s.active == handle }

  /** A session after a handle lets go of it; losing the streaming handle starts a new epoch. */
  function ReleasedSession(s: SessionState, handle: int): SessionState
  {
    var r := if s.refs > 0 then s.(refs := s.refs - 1) else s;
    if Holds(s, handle) then r.(epoch := s.epoch + 1, active := 0) else r
  }

  function CancelIf(bump: bool, m: Mgr, version: string, epoch: int): Mgr
  {
    if bump then CancelOlder(m, version, epoch) else m
  }

  function SetSession(m: Mgr, version: string, s: SessionState): Mgr
  {
    m.(sessions := m.sessions[version := s])
  }

  function Release(m: Mgr, handle: int, file: File): Mgr
  {
    var v := ChunkVersion(file, m.cfg.chunkSize);
    if v !in m.sessions then m
    else
      var s := ReleasedSession(m.sessions[v], handle);
      Cleanup(CancelIf(Holds(m.sessions[v], handle), SetSession(m, v, s), v, s.epoch), v)
  }

  // ---------- access patterns ----------

  datatype Event = NoEvent | StartEvent | SeekEvent

  datatype Observation = Observation(stream: bool, event: Event, streamRead: bool)

  datatype HandleState = HandleState(
    file: File, lastOffset: int, lastLength: int, forwardReads: int, stream: bool, tailProbe: bool, epoch: int)

  function NewHandle(file: File): HandleState
  {
    HandleState(file, -1, 0, 0, false, false, 0)
  }

  function ProbeThreshold(cfg: Config, size: int): int
  {
    if size < 4 * MIB then (if cfg.chunkSize / 2 <= 0 then 1 else cfg.chunkSize / 2) else 128 * 1024
  }

  function ProbeEdge(cfg: Config, size: int): int
  {
    if size < 4 * MIB then cfg.chunkSize else MIB
  }

  function HeadProbeEdge(size: int): int
  {
    if size >= 256 * MIB then 8 * MIB else 0
  }

  predicate TailProbe(cfg: Config, size: int, offset: int, length: int)
  {
    size > 0 && length <= ProbeThreshold(cfg, size) && offset >= size - ProbeEdge(cfg, size)
  }

  /** How one read changes a handle's idea of its access pattern. */
  function Observe(cfg: Config, h: HandleState, offset: int, length: int): (HandleState, Observation)
  {
    var tail := TailProbe(cfg, h.file.size, offset, length);
    var here := h.(lastOffset := offset, lastLength := length);
    if h.lastOffset < 0 && tail then (here.(tailProbe := true), Observation(false, NoEvent, false))
    else if h.tailProbe && tail then (here, Observation(false, NoEvent, false))
    else
      ObserveBody(cfg,
        if h.tailProbe then h.(tailProbe := false, lastOffset := -1, lastLength := 0, forwardReads := 0, stream := false) else h,
        offset, length, tail)
  }

  function ObserveBody(cfg: Config, h: HandleState, offset: int, length: int, tail: bool): (HandleState, Observation)
  {
    var head := HeadProbeEdge(h.file.size);
    var distance := offset - (h.lastOffset + h.lastLength);
    if head > 0 && !h.stream && !tail && offset < head then
      (h.(lastOffset := offset, lastLength := length, forwardReads := 0), Observation(false, NoEvent, false))
    else if h.lastOffset >= 0 && ProbeJump(cfg, h, offset, length, tail) then
      (h, Observation(h.stream, NoEvent, false))
    else
      var seek := h.lastOffset >= 0 && offset != h.lastOffset && h.stream
        && (distance < 0 || distance > Max(cfg.seekThreshold, cfg.targetBuffer));
      var forward :=
        if h.lastOffset < 0 || seek then 1
        else if offset == h.lastOffset then h.forwardReads
        else if 0 <= distance <= cfg.forwardGap then h.forwardReads + 1
        else 1;
      var stream := h.stream && !seek;
      var starts := forward >= 2 && !stream;
      var event := if starts then StartEvent else if seek then SeekEvent else NoEvent;
      (h.(lastOffset := offset, lastLength := length, forwardReads := forward, stream := stream || starts),
       Observation(stream || starts, event, stream || starts))
  }

  predicate ProbeJump(cfg: Config, h: HandleState, offset: int, length: int, tail: bool)
  {
    var distance := offset - (h.lastOffset + h.lastLength);
    var edge := length <= ProbeThreshold(cfg, h.file.size) && (offset < ProbeEdge(cfg, h.file.size) || tail);
    edge && offset != h.lastOffset && (distance < 0 || distance > cfg.seekThreshold)
  }

  predicate InWindow(cfg: Config, s: SessionState, offset: int)
  {
    s.scheduleSet && s.scheduleEpoch == s.epoch && cfg.chunkSize > 0 && offset >= 0
    && s.floor <= offset / cfg.chunkSize <= s.end
  }

  /** Why a read does not start. */
  datatype Refusal = HandleReleased | ManagerClosed

  /** `log`: a new epoch, or the first stream of a session, is worth a line in the log. */
  datatype Plan = Plan(epoch: int, stream: bool, streamRead: bool, event: Event, log: bool)

  /** Which handle the session follows at the start of a read, what the reader is told, whether the read is independent
      of the session's stream, and whether the epoch is bumped: by a seek of the streaming handle, or by another handle
      that starts to stream elsewhere. */
  function MovedSession(cfg: Config, s: SessionState, handle: int, seen: Observation, offset: int): (SessionState, Event, bool, bool)
  {
    var within := InWindow(cfg, s, offset);
    var event := if within && seen.event == SeekEvent then NoEvent else seen.event;
    var other := s.active != 0 && s.active != handle;
    var independent := event == SeekEvent && other;
    var bump := (event == SeekEvent && !other) || (event == StartEvent && other && !within);
    var adopt := s.active == 0 && (event == StartEvent || (event == NoEvent && seen.stream));
    var told := if independent then NoEvent else if event == NoEvent && adopt then StartEvent else event;
    var s1 :=
      if bump then s.(epoch := s.epoch + 1, active := handle, anchor := offset)
      else if adopt then s.(active := handle, anchor := offset)
      else s;
    (s1, told, independent, bump)
  }

  /** The session after the start of a read, what the reader is told, and whether the epoch was bumped. */
  function PreparedSession(cfg: Config, s: SessionState, handle: int, seen: Observation, offset: int, length: int)
    : (SessionState, Plan, bool)
  {
    var (s1, told, independent, bump) := MovedSession(cfg, s, handle, seen, offset);
    var streamRead := !independent && seen.streamRead && (s1.active == handle || InWindow(cfg, s, offset));
    var s2 := if streamRead then s1.(cursor := Max(s1.cursor, offset + length)) else s1;
    var log := s2.epoch != s.epoch || (told == StartEvent && s.active == 0 && s2.active == handle);
    (s2, Plan(s2.epoch, seen.stream, streamRead, told, log), bump)
  }

  function Prepare(m: Mgr, handle: int, file: File, seen: Observation, offset: int, length: int): (Mgr, Plan)
  {
    var v := ChunkVersion(file, m.cfg.chunkSize);
    var (s, plan, bump) := PreparedSession(m.cfg, SessionOrNew(m, v), handle, seen, offset, length);
    (SetSession(CancelIf(bump, m, v, s.epoch), v, s), plan)
  }
}
