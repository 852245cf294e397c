/** The stream manager itself: mutable tasks in an in-place heap, sessions and handles under one lock.
    Each critical section is proved to do what its specification function does to the state. */
module Manager {
  import opened Content
  import opened Naming
  import opened StreamState
  import opened TaskHeap
  import opened Scheduling

  /** What the loop over the listed tasks has done to a task while `keys` are still to be visited. */
  ghost predicate CancelledSoFar(m: Mgr, i: int, t: TaskState, version: string, epoch: int, keys: set<ChunkKey>)
  {
    i in m.table && m.table[i].(cancelled := t.cancelled) == t
    && (t.cancelled <==> m.table[i].cancelled || (CancelTarget(m, i, version, epoch) && t.key !in keys))
  }

  lemma CancelStep(m: Mgr, i: int, t: TaskState, u: TaskState, id: int, key: ChunkKey, version: string, epoch: int, keys: set<ChunkKey>)
    requires CancelledSoFar(m, i, t, version, epoch, keys) && key in m.tasks && m.tasks[key] == id && (i == id ==> t.key == key)
    requires u == t.(cancelled := u.cancelled)
    requires u.cancelled <==>
      t.cancelled || (i == id && t.key.version == version && t.epoch < epoch && t.priority != FOREGROUND)
    ensures CancelledSoFar(m, i, u, version, epoch, keys - {key})
  {
  }

  /** A caller's open file; its access pattern is updated in place by each read. */
  class Handle {
    const file: File
    const id: int
    var lastOffset: int
    var lastLength: int
    var forwardReads: int
    var stream: bool
    var tailProbe: bool
    var epoch: int
    var released: bool

    constructor (file: File, id: int)
      ensures this.id == id && View() == NewHandle(file) && !released
    {
      this.file, this.id, released := file, id, false;
      lastOffset, lastLength, forwardReads, stream, tailProbe, epoch := -1, 0, 0, false, false, 0;
    }

    ghost function View(): HandleState
      reads this
    {
      HandleState(file, lastOffset, lastLength, forwardReads, stream, tailProbe, epoch)
    }

    /** Updates the access pattern for one read and says what kind of read it is. */
    method ObserveRead(cfg: Config, offset: int, length: int) returns (seen: Observation)
      modifies this
      ensures (View(), seen) == Observe(cfg, old(View()), offset, length) && released == old(released)
    {
      var tail := TailProbe(cfg, file.size, offset, length);
      if lastOffset < 0 && tail {
        tailProbe := true;
        lastOffset, lastLength := offset, length;
        return Observation(false, NoEvent, false);
      }
      if tailProbe {
        if tail {
          lastOffset, lastLength := offset, length;
          return Observation(false, NoEvent, false);
        }
        tailProbe, lastOffset, lastLength, forwardReads, stream := false, -1, 0, 0, false;
      }
      var head := HeadProbeEdge(file.size);
      if head > 0 && !stream && !tail && offset < head {
        lastOffset, lastLength, forwardReads := offset, length, 0;
        return Observation(false, NoEvent, false);
      }
      var event := NoEvent;
      if lastOffset >= 0 {
        var distance := offset - (lastOffset + lastLength);
        var edge := length <= ProbeThreshold(cfg, file.size) && (offset < ProbeEdge(cfg, file.size) || tail);
        if edge && offset != lastOffset && (distance < 0 || distance > cfg.seekThreshold) {
          return Observation(stream, NoEvent, false);
        }
        var threshold := Max(cfg.seekThreshold, cfg.targetBuffer);
        if offset != lastOffset && stream && (distance < 0 || distance > threshold) {
          forwardReads, stream, event := 1, false, SeekEvent;
        } else if offset == lastOffset {
          // Reading the same place again says nothing about the direction.
        } else if 0 <= distance <= cfg.forwardGap {
          forwardReads := forwardReads + 1;
        } else {
          forwardReads := 1;
        }
      } else {
        forwardReads := 1;
      }
      if forwardReads >= 2 && !stream {
        stream, event := true, StartEvent;
      }
      lastOffset, lastLength := offset, length;
      seen := Observation(stream, event, stream);
    }
  }

  method OfferRange(offers: seq<Offer>, from: int, to: int, near: int) returns (r: seq<Offer>)
    ensures r == offers + Forward(from, to, near)
  {
    r := offers;
    var index := from;
    while index <= to
      invariant from <= index && (index <= to + 1 || index == from)
      invariant r == offers + Forward(from, index - 1, near)
    {
      var priority := AHEAD;
      if index <= near { priority := NEAR; }
      r := r + [Offer(index, priority)];
      assert Forward(from, index, near) == Forward(from, index - 1, near) + [Offer(index, priority)];
      index := index + 1;
    }
    assert index > to && Forward(from, index - 1, near) == Forward(from, to, near);
  }

  method OfferBack(offers: seq<Offer>, from: int, to: int) returns (r: seq<Offer>)
    ensures r == offers + Backward(from, to)
  {
    r := offers;
    var index := from;
    while index <= to
      invariant from <= index && (index <= to + 1 || index == from)
      invariant r == offers + Backward(from, index - 1)
    {
      r := r + [Offer(index, BACK)];
      assert Backward(from, index) == Backward(from, index - 1) + [Offer(index, BACK)];
      index := index + 1;
    }
    assert Backward(from, index - 1) == Backward(from, to);
  }

  lemma ForwardJoin(a: int, m: int, b: int, near: int)
    requires a <= m + 1 <= b + 1
    ensures Forward(a, m, near) + Forward(m + 1, b, near) == Forward(a, b, near)
  {
  }

  method OfferWindow(cfg: Config, size: int, cursor: int, floor: int, nearEnd: int, end: int) returns (offers: seq<Offer>)
    requires ValidConfig(cfg) && cursor >= 0 && Relevant(cfg, size, cursor)
    requires floor == WantedFloor(cfg, cursor) && nearEnd == WantedNear(cfg, size, cursor) && end == WantedEnd(cfg, size, cursor)
    ensures offers == FullScan(cfg, size, cursor)
  {
    var start := cursor / cfg.chunkSize;
    offers := OfferRange([], start, nearEnd, nearEnd);
    offers := OfferRange(offers, nearEnd + 1, end, nearEnd);
    WindowOrder(cfg, size, cursor);
    ForwardJoin(start, nearEnd, end, nearEnd);
    assert offers == Forward(start, end, nearEnd);
    if cursor > 0 {
      offers := OfferBack(offers, floor, (cursor - 1) / cfg.chunkSize);
    }
    assert offers == FullScan(cfg, size, cursor);
  }

  method OfferGrowth(cfg: Config, size: int, s: SessionState, cursor: int, nearEnd: int, end: int) returns (offers: seq<Offer>)
    requires ValidConfig(cfg) && nearEnd == WantedNear(cfg, size, cursor) && end == WantedEnd(cfg, size, cursor)
    ensures offers == Extension(cfg, size, s, cursor)
  {
    var start := cursor / cfg.chunkSize;
    var promoteStart := s.near + 1;
    if promoteStart < start { promoteStart := start; }
    var promoteEnd := nearEnd;
    if promoteEnd > s.end { promoteEnd := s.end; }
    offers := OfferRange([], promoteStart, promoteEnd, nearEnd);
    offers := OfferRange(offers, s.end + 1, end, nearEnd);
    assert offers == Extension(cfg, size, s, cursor);
  }

  const PROBE_BYTES := 16 * MIB

  /** A read near an edge of a file asks for exactly the chunks that hold one of the next bytes. */
  method ScheduleProbe(cfg: Config, size: int, offset: int) returns (offers: seq<Offer>)
    requires cfg.chunkSize > 0
    ensures size <= 0 || offset < 0 || offset >= size ==> offers == []
    ensures size > 0 && 0 <= offset < size ==>
      forall o :: o in offers <==>
        o.priority == NEAR && exists p :: offset <= p < Min(offset + 16 * MIB, size) && InChunk(cfg, p, o.index)
  {
    if size <= 0 || offset < 0 || offset >= size { return []; }
    var endOffset := offset + PROBE_BYTES;
    if endOffset > size { endOffset := size; }
    var start, end := offset / cfg.chunkSize, (endOffset - 1) / cfg.chunkSize;
    offers := OfferRange([], start, end, end);
    forall o ensures o in offers <==> o.priority == NEAR && exists p :: offset <= p < endOffset && InChunk(cfg, p, o.index) {
      ForwardHas(start, end, end, o);
      ChunksOfRange(cfg, offset, endOffset, o.index);
    }
  }

  /** The window of a session moves to a cursor. */
  method MoveWindow(cfg: Config, size: int, s: SessionState, cursor: int, epoch: int)
    returns (t: SessionState, prune: Prune, offers: seq<Offer>)
    requires ValidConfig(cfg) && cursor >= 0
    ensures (t, prune, offers) == Schedule(cfg, size, s, cursor, epoch)
  {
    t, prune, offers := s, KeepAll, [];
    if cursor >= size && size > 0 { return; }
    var endOffset := cursor + cfg.targetBuffer;
    if size > 0 && endOffset > size { endOffset := size; }
    if endOffset <= cursor { return; }
    var end := (endOffset - 1) / cfg.chunkSize;
    var nearEnd := (cursor + NEAR_BYTES) / cfg.chunkSize;
    if nearEnd > end { nearEnd := end; }
    var floorOffset := cursor - cfg.backBuffer;
    if floorOffset < 0 { floorOffset := 0; }
    var floor := floorOffset / cfg.chunkSize;
    if s.epoch != epoch || s.active == 0 { return; }
    if !s.scheduleSet || s.scheduleEpoch != epoch {
      t := s.(scheduleSet := true, scheduleEpoch := epoch, floor := floor, near := nearEnd, end := end);
      prune := KeepWindow(floor, end);
      offers := OfferWindow(cfg, size, cursor, floor, nearEnd, end);
    } else {
      t := s.(floor := if floor > s.floor then floor else s.floor,
              near := if nearEnd > s.near then nearEnd else s.near,
              end := if end > s.end then end else s.end);
      if floor > s.floor { prune := DropRange(s.floor, floor); }
      offers := OfferGrowth(cfg, size, s, cursor, nearEnd, end);
    }
  }

  function SetRow(m: Mgr, id: int, row: TaskState): Mgr { m.(table := m.table[id := row]) }

  lemma FinishParts(m: Mgr, id: int, r: Result)
    requires id in m.table
    ensures Finish(m, id, r) == Unlist(SetRow(m, id, WithResult(m.table[id], r)), id)
  {
  }

  function JoinedState(m: Mgr, id: int, priority: Priority): Mgr
    requires id in m.table
  {
    var t := m.table[id];
    if priority < t.priority && !t.started then SetRow(m, id, t.(priority := priority)) else m
  }

  /** A new task under the next sequence number. */
  function AllocatedState(m: Mgr, key: ChunkKey, file: File, epoch: int, priority: Priority, length: int): Mgr
  {
    m.(sequence := m.sequence + 1,
       table := m.table[m.sequence + 1 := TaskState(key, file, key.index * m.cfg.chunkSize, length, epoch, priority,
                                                    false, false, false, 0, None, false, false)])
  }

  function ListedState(m: Mgr, key: ChunkKey, id: int): Mgr { m.(tasks := m.tasks[key := id]) }

  function QueuedState(m: Mgr, id: int): Mgr { m.(queue := m.queue + {id}) }

  /** A new task, listed and queued. */
  function AddedState(m: Mgr, key: ChunkKey, file: File, epoch: int, priority: Priority, length: int): Mgr
  {
    var id := m.sequence + 1;
    QueuedState(ListedState(AllocatedState(m, key, file, epoch, priority, length), key, id), id)
  }

  lemma EnsureParts(m: Mgr, file: File, index: int, epoch: int, priority: Priority)
    requires !m.closed
    ensures var key := ChunkKey(ChunkVersion(file, m.cfg.chunkSize), index);
      var e := Ensure(m, file, index, epoch, priority);
      var length := ChunkLength(m.cfg, file, index);
      if key in m.tasks && m.tasks[key] in m.table && m.table[m.tasks[key]].Live()
      then e == (JoinedState(m, m.tasks[key], priority), Joined(m.tasks[key]))
      else if length <= 0 then e == (m, Empty)
      else e == (AddedState(m, key, file, epoch, priority, length), Created(m.sequence + 1))
  {
  }

  function ReferredState(m: Mgr, version: string): Mgr
  {
    SetSession(m, version, SessionOrNew(m, version).(refs := SessionOrNew(m, version).refs + 1))
  }

  function NumberedState(m: Mgr): Mgr { m.(nextHandle := m.nextHandle + 1) }

  lemma OpenParts(m: Mgr, file: File)
    requires !m.closed && file.fsid != ""
    ensures Open(m, file) == NumberedState(ReferredState(m, ChunkVersion(file, m.cfg.chunkSize)))
  {
  }

  lemma PrepareParts(m: Mgr, id: int, file: File, observed: Observation, offset: int, length: int)
    ensures var v := ChunkVersion(file, m.cfg.chunkSize);
      var before := SessionOrNew(m, v);
      var (s, event, independent, bump) := MovedSession(m.cfg, before, id, observed, offset);
      var streamRead := !independent && observed.streamRead && (s.active == id || InWindow(m.cfg, before, offset));
      var log := s.epoch != before.epoch || (event == StartEvent && before.active == 0 && s.active == id);
      Prepare(m, id, file, observed, offset, length)
        == (SetSession(CancelIf(bump, m, v, s.epoch), v, if streamRead then s.(cursor := Max(s.cursor, offset + length)) else s),
            Plan(s.epoch, observed.stream, streamRead, event, log))
  {
  }

  function Counted(m: Mgr, version: string): Mgr
  {
    if version in m.sessions then SetSession(m, version, m.sessions[version].(inflight := m.sessions[version].inflight + 1)) else m
  }

  lemma StartParts(m: Mgr, id: int)
    requires id in m.table
    ensures Start(m, id) == Counted(SetRow(m, id, m.table[id].(started := true)), m.table[id].key.version)
  {
  }

  /** A manager, unless there is no reader, a cache limit is negative, or the chunk store cannot be opened. */
  method NewManager(reader: bool, config: Config, memoryCache: int, diskCache: int, storeOpens: bool) returns (m: Manager?)
    ensures m != null <==> reader && memoryCache >= 0 && diskCache >= 0 && storeOpens
    ensures m != null ==> fresh(m) && m.Rep() && m.State() == Mgr(Normalize(config), map[], {}, map[], map[], false, 0, 0)
  {
    if !reader || memoryCache < 0 || diskCache < 0 || !storeOpens { return null; }
    m := new Manager(config);
  }

  class Manager {
    const cfg: Config
    const queue: Heap
    var tasks: map<ChunkKey, Task>
    var sessions: map<string, SessionState>
    var closed: bool
    var sequence: int
    var nextHandle: int
    /** Every task ever created, under its sequence number: the contexts derived from the manager's own. */
    var all: map<int, Task>

    constructor (config: Config)
      ensures Rep() && fresh(queue)
      ensures State() == Mgr(Normalize(config), map[], {}, map[], map[], false, 0, 0)
    {
      cfg := Normalize(config);
      queue := new Heap();
      tasks, sessions, closed, sequence, nextHandle := map[], map[], false, 0, 0;
      all := map[];
    }

    ghost predicate Rep()
      reads this, queue, all.Values`index, all.Values`priority
    {
      && (forall i :: i in all ==> all[i].id == i)
      && (forall key :: key in tasks ==> Known(tasks[key]) && tasks[key].key == key)
      && (forall t :: t in queue.h ==> t in all.Values && Known(t))
      && queue.Valid()
    }

    ghost predicate Known(t: Task)
      reads this`all
    {
      t in all.Values && t.id in all && all[t.id] == t
    }

    ghost function State(): Mgr
      reads this, queue, all.Values
    {
      Mgr(cfg, Table(), QueueIds(), TaskIds(), sessions, closed, sequence, nextHandle)
    }

    ghost function Table(): map<int, TaskState>
      reads this, all.Values
    {
      map i | i in all :: all[i].View()
    }

    ghost function QueueIds(): set<int>
      reads this, queue
    {
      set t | t in queue.h :: t.id
    }

    ghost function TaskIds(): map<ChunkKey, int>
      reads this
    {
      map key | key in tasks :: tasks[key].id
    }

    // ---------- sessions ----------

    method SessionLocked(version: string) returns (s: SessionState)
      requires Rep()
      modifies this`sessions
      ensures Rep() && version in sessions && sessions[version] == s
      ensures State() == SetSession(old(State()), version, SessionOrNew(old(State()), version))
    {
      if version in sessions {
        s := sessions[version];
      } else {
        s := NEW_SESSION;
        sessions := sessions[version := s];
      }
    }

    method StoreSession(version: string, s: SessionState)
      requires Rep()
      modifies this`sessions
      ensures Rep() && State() == SetSession(old(State()), version, s)
    {
      sessions := sessions[version := s];
    }

    method CleanupSession(version: string)
      requires Rep()
      modifies this`sessions
      ensures Rep() && State() == Cleanup(old(State()), version)
      ensures version in sessions <==>
        version in old(sessions)
        && (old(sessions)[version].refs > 0 || old(sessions)[version].inflight > 0
            || exists key :: key in tasks && key.version == version && !tasks[key].finished)
    {
      if version !in sessions || sessions[version].refs > 0 || sessions[version].inflight > 0 { return; }
      var unfinished := HasUnfinished(version);
      if unfinished { return; }
      DropSession(version);
    }

    method DropSession(version: string)
      requires Rep()
      modifies this`sessions
      ensures Rep() && sessions == old(sessions) - {version}
      ensures State() == old(State()).(sessions := old(sessions) - {version})
    {
      sessions := sessions - {version};
    }

    method HasUnfinished(version: string) returns (found: bool)
      requires Rep()
      ensures found == Unfinished(State(), version)
      ensures found <==> exists key :: key in tasks && key.version == version && !tasks[key].finished
    {
      var keys := tasks.Keys;
      while keys != {}
        invariant keys <= tasks.Keys
        invariant forall key :: key in tasks && key !in keys ==> !(key.version == version && !tasks[key].finished)
      {
        NonEmpty(keys);
        var key :| key in keys;
        assert Known(tasks[key]);
        if tasks[key].key.version == version && !tasks[key].finished {
          assert key in State().tasks;
          return true;
        }
        keys := keys - {key};
      }
      return false;
    }

    method SessionWorkerLimit() returns (limit: int)
      ensures limit == SessionLimit(State())
    {
      var active := 0;
      ghost var found: set<string> := {};
      var versions := sessions.Keys;
      while versions != {}
        invariant versions <= sessions.Keys && found <= sessions.Keys && found !! versions
        invariant forall v :: v in sessions && v !in versions ==> (v in found <==> Competes(sessions[v]))
        invariant active == |found| <= 1
      {
        NonEmpty(versions);
        var v :| v in versions;
        var s := sessions[v];
        if s.refs > 0 && s.active != 0 {
          if active + 1 > 1 {
            ghost var w := Pick(found);
            assert Competes(sessions[w]) && Competes(sessions[v]);
            limit := cfg.sessionWorkers;
            return;
          }
          active := active + 1;
          found := found + {v};
        }
        versions := versions - {v};
      }
      if Competing(State()) {
        var v, w :| v in sessions && w in sessions && v != w && Competes(sessions[v]) && Competes(sessions[w]);
        SubsetSize({v, w}, found);
      }
      limit := cfg.workers;
    }

    // ---------- cancelling older tasks ----------

    ghost predicate AllSoFar(m: Mgr, version: string, epoch: int, keys: set<ChunkKey>)
      reads this, all.Values
    {
      forall i :: i in all ==> CancelledSoFar(m, i, all[i].View(), version, epoch, keys)
    }

    method CancelVisit(t: Task, version: string, epoch: int, ghost m: Mgr, ghost keys: set<ChunkKey>)
      requires (forall i :: i in all ==> all[i].id == i) && Known(t) && t.key in m.tasks && m.tasks[t.key] == t.id
      requires AllSoFar(m, version, epoch, keys)
      modifies t`cancelled
      ensures AllSoFar(m, version, epoch, keys - {t.key})
    {
      if t.key.version == version && t.epoch < epoch && t.priority != FOREGROUND {
        t.cancelled := true;
      }
      forall i | i in all ensures CancelledSoFar(m, i, all[i].View(), version, epoch, keys - {t.key}) {
        CancelStep(m, i, old(all[i].View()), all[i].View(), t.id, t.key, version, epoch, keys);
      }
    }

    lemma ListedTask(key: ChunkKey)
      requires Rep() && key in tasks
      ensures Known(tasks[key]) && tasks[key].key == key && key in TaskIds() && TaskIds()[key] == tasks[key].id
    {
    }

    lemma NothingVisited(version: string, epoch: int)
      requires Rep()
      ensures AllSoFar(State(), version, epoch, tasks.Keys)
    {
      forall i | i in all ensures CancelledSoFar(State(), i, all[i].View(), version, epoch, tasks.Keys) {}
    }

    method CancelSessionTasks(version: string, epoch: int)
      requires Rep()
      modifies all.Values`cancelled
      ensures Rep() && State() == CancelOlder(old(State()), version, epoch)
    {
      ghost var m := State();
      NothingVisited(version, epoch);
      CancelListed(version, epoch, m);
      CancelDone(m, version, epoch);
    }

    /** Goes through the listed tasks in any order. */
    method CancelListed(version: string, epoch: int, ghost m: Mgr)
      requires Rep() && m.tasks == TaskIds() && AllSoFar(m, version, epoch, tasks.Keys)
      modifies all.Values`cancelled
      ensures AllSoFar(m, version, epoch, {})
    {
      var keys := tasks.Keys;
      while keys != {}
        invariant keys <= tasks.Keys && AllSoFar(m, version, epoch, keys)
      {
        NonEmpty(keys);
        var key :| key in keys;
        ListedTask(key);
        CancelVisit(tasks[key], version, epoch, m, keys);
        keys := keys - {key};
      }
    }

    lemma CancelDone(m: Mgr, version: string, epoch: int)
      requires m == State().(table := m.table) && m.table.Keys == all.Keys
      requires AllSoFar(m, version, epoch, {})
      ensures State() == CancelOlder(m, version, epoch)
    {
      forall i | i in all ensures Table()[i] == CancelOlder(m, version, epoch).table[i] {
        assert CancelledSoFar(m, i, all[i].View(), version, epoch, {});
      }
    }

    // ---------- finishing tasks ----------

    /** Steps that change fields of one task, but neither its priority nor its place in the queue, change
        its row of the table and nothing else. */
    lemma RowChanged(m: Mgr, t: Task)
      requires (forall i :: i in all ==> all[i].id == i) && Known(t)
      requires m == State().(table := m.table) && m.table.Keys == all.Keys
      requires forall i :: i in all && i != t.id ==> all[i].View() == m.table[i]
      ensures State() == SetRow(m, t.id, t.View())
    {
    }

    method SetResult(t: Task, r: Result)
      requires Rep() && Known(t)
      modifies t`finished, t`closes, t`result
      ensures Rep() && Known(t)
      ensures State() == SetRow(old(State()), t.id, WithResult(old(t.View()), r))
    {
      ghost var m := State();
      t.Complete(r);
      RowChanged(m, t);
    }

    method UnlistTask(t: Task)
      requires Rep() && Known(t)
      modifies this`tasks
      ensures Rep() && Known(t) && State() == Unlist(old(State()), t.id)
    {
      if t.key in tasks {
        assert Known(tasks[t.key]);
        if tasks[t.key] == t {
          tasks := tasks - {t.key};
          assert TaskIds() == old(TaskIds()) - {t.key};
        }
      }
    }

    /** Publishes the result of a task, closes its channel and takes it off the list of current tasks. */
    method Publish(t: Task, r: Result)
      requires Rep() && Known(t)
      modifies t`finished, t`closes, t`result, this`tasks
      ensures Rep() && Known(t) && State() == Finish(old(State()), t.id, r)
    {
      FinishParts(State(), t.id, r);
      SetResult(t, r);
      UnlistTask(t);
    }

    method DiscardCanceledTask(t: Task)
      requires Rep() && Known(t)
      modifies t`finished, t`closes, t`result, this`tasks, this`sessions
      ensures Rep() && State() == Discard(old(State()), t.id) && Known(t)
    {
      if t.finished { return; }
      Publish(t, Err(Canceled));
      CleanupSession(t.key.version);
    }

    // ---------- a worker's pass over the queue ----------

    method PopLeast() returns (t: Task)
      requires Rep() && |queue.h| > 0
      modifies queue, queue.h`index
      ensures Rep() && Known(t) && t !in queue.h && |queue.h| == |old(queue.h)| - 1
      ensures t in old(queue.h) && forall o :: o in queue.h ==> o in old(queue.h)
      ensures IsLeast(old(State()), old(State()).queue, t.id)
      ensures State() == old(State()).(queue := old(State()).queue - {t.id})
    {
      t := queue.Pop();
      assert forall o :: o in queue.h <==> o in queue.Items();
      assert forall o :: o in old(queue.h) <==> o in old(queue.Items());
      assert QueueIds() == old(QueueIds()) - {t.id};
      forall i | i in all ensures all[i].View() == old(all[i].View()) {}
      assert Table() == old(Table());
      forall i | i in old(QueueIds()) && i != t.id ensures Before(old(State()), t.id, i) {
        assert all[i] in old(queue.Items());
      }
    }

    method IsBlocked(t: Task) returns (blocked: bool)
      requires Rep() && Known(t)
      ensures blocked == Blocked(State(), t.id)
    {
      blocked := false;
      if t.key.version in sessions && t.priority != FOREGROUND {
        var limit := SessionWorkerLimit();
        blocked := sessions[t.key.version].inflight >= limit;
      }
    }

    method SetStarted(t: Task)
      requires Rep() && Known(t)
      modifies t`started
      ensures Rep() && Known(t)
      ensures State() == SetRow(old(State()), t.id, old(t.View()).(started := true))
    {
      ghost var m := State();
      t.started := true;
      RowChanged(m, t);
    }

    method StartTask(t: Task)
      requires Rep() && Known(t)
      modifies t`started, this`sessions
      ensures Rep() && Known(t) && State() == Start(old(State()), t.id)
    {
      StartParts(State(), t.id);
      SetStarted(t);
      CountTask(t.key.version);
    }

    method CountTask(version: string)
      requires Rep()
      modifies this`sessions
      ensures Rep() && State() == Counted(old(State()), version)
    {
      if version in sessions {
        StoreSession(version, sessions[version].(inflight := sessions[version].inflight + 1));
      }
    }

    method PushTask(t: Task)
      requires Rep() && Known(t) && t !in queue.h
      modifies queue, queue.h`index, t`index
      ensures Rep() && t in queue.h && State() == QueuedState(old(State()), t.id)
      ensures forall o :: o in queue.h <==> o in old(queue.h) || o == t
    {
      queue.Push(t);
      assert forall o :: o in queue.h <==> o in queue.Items();
      assert forall o :: o in old(queue.h) <==> o in old(queue.Items());
      assert QueueIds() == old(QueueIds()) + {t.id};
      forall i | i in all ensures all[i].View() == old(all[i].View()) {}
      assert Table() == old(Table());
    }

    ghost function Ids(ts: seq<Task>): set<int>
    {
      set t | t in ts :: t.id
    }

    /** Tasks taken off the queue by a pass: known, distinct and not in the queue. */
    ghost predicate Aside(ts: seq<Task>)
      reads this`all, queue
    {
      && (forall i :: 0 <= i < |ts| ==> Known(ts[i]) && ts[i] !in queue.h)
      && (forall i, j :: 0 <= i < j < |ts| ==> ts[i] != ts[j])
    }

    method PutBack(skipped: seq<Task>)
      requires Rep() && Aside(skipped)
      modifies queue, all.Values`index
      ensures Rep() && State() == old(State()).(queue := old(State()).queue + Ids(skipped))
    {
      ghost var m := State();
      for i := 0 to |skipped|
        invariant Rep() && Aside(skipped[i..])
        invariant State() == m.(queue := m.queue + Ids(skipped[..i]))
      {
        assert skipped[i..][0] == skipped[i] && Known(skipped[i]);
        PushTask(skipped[i]);
        assert Ids(skipped[..i + 1]) == Ids(skipped[..i]) + {skipped[i].id};
        assert m.queue + Ids(skipped[..i + 1]) == m.queue + Ids(skipped[..i]) + {skipped[i].id};
        ghost var rest := skipped[i + 1..];
        forall j | 0 <= j < |rest| ensures Known(rest[j]) && rest[j] !in queue.h {
          assert rest[j] == skipped[i..][j + 1];
        }
        assert Aside(rest);
      }
      assert skipped[..|skipped|] == skipped;
    }

    /** Takes a task that may run: the others of this pass go back to the queue. */
    method Take(next: Task, skipped: seq<Task>)
      requires Rep() && Known(next) && next !in queue.h && Aside(skipped)
      modifies queue, this`sessions, all.Values`index, next`started
      ensures Rep() && Known(next)
      ensures State() == (var n := Start(old(State()), next.id); n.(queue := n.queue + Ids(skipped)))
    {
      StartTask(next);
      PutBack(skipped);
    }

    /** One step of a pass: `next`, the least task, is dropped, set aside, or taken. */
    method PassStep(next: Task, skipped: seq<Task>) returns (taken: bool, aside: seq<Task>)
      requires Rep() && Known(next) && next !in queue.h && next !in skipped && Aside(skipped)
      modifies queue, this`tasks, this`sessions, all.Values`index
      modifies next`started, next`finished, next`closes, next`result
      ensures Rep() && Known(next) && Aside(aside) && (!taken ==> queue.h == old(queue.h))
      ensures var n := old(State());
        if n.table[next.id].finished then !taken && State() == n && aside == skipped
        else if n.table[next.id].cancelled then !taken && State() == Discard(n, next.id) && aside == skipped
        else if Blocked(n, next.id) then !taken && State() == n && Ids(aside) == Ids(skipped) + {next.id}
        else taken && State() == Start(n, next.id).(queue := n.queue + Ids(skipped))
    {
      taken, aside := false, skipped;
      if next.finished { return; }
      if next.cancelled {
        DiscardCanceledTask(next);
        return;
      }
      var blocked := IsBlocked(next);
      if blocked {
        aside := skipped + [next];
        assert Ids(aside) == Ids(skipped) + {next.id};
        return;
      }
      Take(next, skipped);
      return true, [];
    }

    /** One iteration of a pass: the rest of the pass, if any, does what the pass had left to do. */
    method PassOnce(skipped: seq<Task>) returns (t: Task?, aside: seq<Task>)
      requires Rep() && Aside(skipped) && |queue.h| > 0
      modifies queue, this`tasks, this`sessions
      modifies all.Values`index, all.Values`started, all.Values`finished, all.Values`closes, all.Values`result
      ensures Rep() && Aside(aside) && (t == null ==> |queue.h| < |old(queue.h)|) && (t != null ==> Known(t))
      ensures Scan(old(State()), Ids(skipped)) == (if t == null then Scan(State(), Ids(aside)) else (State(), Some(t.id)))
    {
      ghost var s := State();
      assert forall o :: o in queue.h ==> o in all.Values;
      var next := PopLeast();
      ScanLeast(s, Ids(skipped), next.id);
      assert Aside(skipped) && next !in skipped;
      var taken;
      taken, aside := PassStep(next, skipped);
      t := if taken then next else null;
    }

    /** One pass of a worker: the task to download, or none. The source loops over such passes and waits
        on its condition variable in between. */
    method NextTask() returns (t: Task?)
      requires Rep() && !closed
      modifies queue, this`tasks, this`sessions
      modifies all.Values`index, all.Values`started, all.Values`finished, all.Values`closes, all.Values`result
      ensures Rep() && (t != null ==> Known(t))
      ensures Scan(old(State()), {}) == (State(), if t == null then None else Some(t.id))
    {
      var skipped: seq<Task> := [];
      assert Ids(skipped) == {};
      while |queue.h| > 0
        invariant Rep() && Aside(skipped) && Scan(old(State()), {}) == Scan(State(), Ids(skipped))
        decreases |queue.h|
      {
        t, skipped := PassOnce(skipped);
        if t != null {
          return;
        }
      }
      assert QueueIds() == {} && State().queue + Ids(skipped) == Ids(skipped);
      PutBack(skipped);
      t := null;
    }

    // ---------- asking for chunks ----------

    method PromoteTask(t: Task, priority: Priority)
      requires Rep() && Known(t) && t in queue.h && priority < t.priority
      modifies queue, queue.h`index, t`priority
      ensures Rep() && Known(t)
      ensures State() == SetRow(old(State()), t.id, old(t.View()).(priority := priority))
    {
      ghost var m := State();
      queue.Promote(t, priority);
      assert forall o :: o in queue.h <==> o in queue.Items();
      assert forall o :: o in old(queue.h) <==> o in old(queue.Items());
      assert QueueIds() == old(QueueIds());
      RowChanged(m, t);
    }

    method AllocTask(key: ChunkKey, file: File, epoch: int, priority: Priority, length: int) returns (t: Task)
      requires Rep() && sequence + 1 !in all
      modifies this`sequence, this`all
      ensures Rep() && Known(t) && fresh(t) && t !in queue.h && t.id == old(sequence) + 1 && t.key == key
      ensures State() == AllocatedState(old(State()), key, file, epoch, priority, length)
    {
      sequence := sequence + 1;
      t := new Task(sequence, key, file, key.index * cfg.chunkSize, length, epoch, priority);
      all := all[t.id := t];
      assert all[t.id] == t && Known(t);
      forall o | o in queue.h ensures o in all.Values && Known(o) { assert old(Known(o)) && all[o.id] == o; }
      forall k | k in tasks ensures Known(tasks[k]) && tasks[k].key == k {
        assert old(Known(tasks[k])) && all[tasks[k].id] == tasks[k];
      }
      assert Table() == old(Table())[t.id := t.View()];
    }

    method ListTask(t: Task)
      requires Rep() && Known(t)
      modifies this`tasks
      ensures Rep() && Known(t) && State() == ListedState(old(State()), t.key, t.id)
    {
      tasks := tasks[t.key := t];
      assert TaskIds() == old(TaskIds())[t.key := t.id];
    }

    method AddTask(key: ChunkKey, file: File, epoch: int, priority: Priority, length: int) returns (t: Task)
      requires Rep() && sequence + 1 !in all
      modifies this`tasks, this`sequence, this`all, queue, queue.h`index
      ensures Rep() && Known(t) && t.id == old(sequence) + 1
      ensures State() == AddedState(old(State()), key, file, epoch, priority, length)
    {
      t := NewListed(key, file, epoch, priority, length);
      PushTask(t);
    }

    method NewListed(key: ChunkKey, file: File, epoch: int, priority: Priority, length: int) returns (t: Task)
      requires Rep() && sequence + 1 !in all
      modifies this`tasks, this`sequence, this`all
      ensures Rep() && Known(t) && fresh(t) && t !in queue.h && t.id == old(sequence) + 1
      ensures State() == ListedState(AllocatedState(old(State()), key, file, epoch, priority, length), key, t.id)
    {
      t := AllocTask(key, file, epoch, priority, length);
      ListTask(t);
    }

    /** A caller joins a live task, which moves forward in the queue if the caller is in more of a hurry. */
    method JoinTask(t: Task, priority: Priority)
      requires Rep() && Known(t) && (!t.started ==> t.id in QueueIds())
      modifies queue, queue.h`index, t`priority
      ensures Rep() && Known(t) && State() == JoinedState(old(State()), t.id, priority)
    {
      if priority < t.priority && !t.started {
        PromoteTask(t, priority);
      }
    }

    /** The task a caller waits for: the live one of the chunk, or a new one. */
    method EnsureTask(file: File, index: int, epoch: int, priority: Priority) returns (e: Ensured, t: Task?)
      requires Rep() && UnstartedQueued(State()) && (forall i :: i in all ==> i <= sequence)
      modifies this`tasks, this`sequence, this`all, queue, queue.h`index, all.Values`priority
      ensures Rep() && (State(), e) == Ensure(old(State()), file, index, epoch, priority)
      ensures (e.Joined? || e.Created? <==> t != null) && (t != null ==> Known(t) && t.id == e.id)
    {
      if closed { return Closed, null; }
      var key := ChunkKey(ChunkVersion(file, cfg.chunkSize), index);
      EnsureParts(State(), file, index, epoch, priority);
      if key in tasks {
        t := tasks[key];
        ListedTask(key);
        if !t.finished && !t.cancelled {
          JoinTask(t, priority);
          return Joined(t.id), t;
        }
      }
      var offset := index * cfg.chunkSize;
      var length := cfg.chunkSize;
      if file.size > 0 && offset + length > file.size { length := file.size - offset; }
      if length <= 0 { return Empty, null; }
      t := AddTask(key, file, epoch, priority, length);
      e := Created(t.id);
    }

    // ---------- downloads ----------

    method UncountTask(t: Task)
      requires Rep() && Known(t)
      modifies this`sessions
      ensures Rep() && Known(t) && State() == Uncount(old(State()), t.id)
    {
      var v := t.key.version;
      if v in sessions && t.started && sessions[v].inflight > 0 {
        sessions := sessions[v := sessions[v].(inflight := sessions[v].inflight - 1)];
      }
    }

    /** A worker hands in the outcome of its download. */
    method FinishTask(t: Task, r: Result)
      requires Rep() && Known(t)
      modifies t`finished, t`closes, t`result, this`tasks, this`sessions
      ensures Rep() && State() == HandIn(old(State()), t.id, r)
    {
      UncountTask(t);
      if !t.finished {
        Publish(t, r);
      }
      CleanupSession(t.key.version);
    }

    method MarkTask(t: Task)
      requires Rep() && Known(t)
      modifies t`foreground
      ensures Rep() && State() == MarkForeground(old(State()), t.id)
      ensures t.foreground <==> old(t.foreground) || !t.finished
    {
      ghost var m := State();
      if !t.finished {
        t.foreground := true;
        RowChanged(m, t);
      }
    }

    method HedgeTask(t: Task)
      requires Rep() && Known(t)
      modifies t`hedged
      ensures Rep() && State() == StartHedge(old(State()), t.id)
      ensures t.hedged <==> old(t.hedged) || (!closed && !t.finished && !t.cancelled)
    {
      if closed || t.finished || t.hedged || t.cancelled { return; }
      ghost var m := State();
      t.hedged := true;
      RowChanged(m, t);
    }

    method CancelTask(t: Task)
      requires Rep() && Known(t)
      modifies t`cancelled
      ensures Rep() && Known(t) && t.View() == old(t.View()).(cancelled := true)
      ensures State() == old(State()).(table := old(State()).table[t.id := t.View()])
    {
      ghost var m := State();
      t.cancelled := true;
      RowChanged(m, t);
    }

    /** A hedged duplicate has its bytes; says whether they are the result. */
    method PublishHedged(t: Task, data: Bytes) returns (first: bool)
      requires Rep() && Known(t)
      modifies t`finished, t`closes, t`result, t`cancelled, this`tasks
      ensures Rep() && State() == PublishHedge(old(State()), t.id, data) && first == !old(t.finished)
    {
      if t.finished { return false; }
      Publish(t, Ok(data));
      CancelTask(t);
      first := true;
    }

    // ---------- handles ----------

    method OpenHandle(file: File) returns (h: Handle?)
      requires Rep()
      modifies this`sessions, this`nextHandle
      ensures Rep() && State() == Open(old(State()), file)
      ensures h != null <==> !closed && file.fsid != ""
      ensures h != null ==> fresh(h) && h.id == nextHandle && h.View() == NewHandle(file) && !h.released
      ensures h != null ==>
        var v := ChunkVersion(file, cfg.chunkSize);
        nextHandle == old(nextHandle) + 1 && v in sessions
        && (if v in old(sessions) then sessions[v] == old(sessions)[v].(refs := old(sessions)[v].refs + 1)
            else sessions[v].refs == 1 && sessions[v].active == 0 && sessions[v].inflight == 0 && !sessions[v].scheduleSet)
    {
      if file.fsid == "" || closed { return null; }
      OpenParts(State(), file);
      ReferTo(ChunkVersion(file, cfg.chunkSize));
      h := NumberHandle(file);
    }

    method ReferTo(version: string)
      requires Rep()
      modifies this`sessions
      ensures Rep() && State() == ReferredState(old(State()), version)
    {
      var s := SessionLocked(version);
      StoreSession(version, s.(refs := s.refs + 1));
    }

    method NumberHandle(file: File) returns (h: Handle)
      requires Rep()
      modifies this`nextHandle
      ensures Rep() && State() == NumberedState(old(State()))
      ensures fresh(h) && h.id == nextHandle && h.View() == NewHandle(file) && !h.released
    {
      nextHandle := nextHandle + 1;
      h := new Handle(file, nextHandle);
    }

    method ReleaseHandle(h: Handle)
      requires Rep()
      modifies this`sessions, all.Values`cancelled
      ensures Rep() && State() == Release(old(State()), h.id, h.file)
    {
      var v := ChunkVersion(h.file, cfg.chunkSize);
      if v !in sessions { return; }
      var s := sessions[v];
      if s.refs > 0 { s := s.(refs := s.refs - 1); }
      if s.active == h.id {
        s := s.(epoch := s.epoch + 1, active := 0);
        StoreAndCancel(v, s);
      } else {
        StoreSession(v, s);
      }
      CleanupSession(v);
    }

    method StoreAndCancel(version: string, s: SessionState)
      requires Rep()
      modifies this`sessions, all.Values`cancelled
      ensures Rep() && State() == CancelOlder(SetSession(old(State()), version, s), version, s.epoch)
    {
      StoreSession(version, s);
      CancelSessionTasks(version, s.epoch);
    }

    /** Releases a handle once; releasing it again does nothing. */
    method ReleaseOnce(h: Handle)
      requires Rep()
      modifies h`released, this`sessions, all.Values`cancelled
      ensures Rep() && h.released && h.View() == old(h.View())
      ensures State() == if old(h.released) then old(State()) else Release(old(State()), h.id, h.file)
    {
      if h.released { return; }
      h.released := true;
      ReleaseHandle(h);
    }

    /** The start of a read: a released handle is refused before it observes the access, a closed manager after. */
    method PrepareRead(h: Handle, offset: int, length: int) returns (refused: Option<Refusal>, plan: Plan)
      requires Rep()
      modifies h, this`sessions, all.Values`cancelled
      ensures Rep() && h.released == old(h.released)
      ensures refused == if h.released then Some(HandleReleased) else if closed then Some(ManagerClosed) else None
      ensures h.released ==> State() == old(State()) && h.View() == old(h.View())
      ensures !h.released && closed ==> State() == old(State()) && h.View() == Observe(cfg, old(h.View()), offset, length).0
      ensures var (seen, observation) := Observe(cfg, old(h.View()), offset, length);
        refused == None ==>
          (State(), plan) == Prepare(old(State()), h.id, h.file, observation, offset, length)
          && h.View() == seen.(epoch := plan.epoch)
    {
      refused, plan := None, Plan(0, false, false, NoEvent, false);
      if h.released { return Some(HandleReleased), plan; }
      var observed := h.ObserveRead(cfg, offset, length);
      if closed { return Some(ManagerClosed), plan; }
      plan := AcceptRead(h, observed, offset, length);
    }

    /** The session takes note of an observed read, and the handle of its epoch. */
    method AcceptRead(h: Handle, observed: Observation, offset: int, length: int) returns (plan: Plan)
      requires Rep()
      modifies h`epoch, this`sessions, all.Values`cancelled
      ensures Rep() && (State(), plan) == Prepare(old(State()), h.id, h.file, observed, offset, length)
      ensures h.View() == old(h.View()).(epoch := plan.epoch)
    {
      plan := PrepareSession(h.id, h.file, observed, offset, length);
      h.epoch := plan.epoch;
    }

    /** The session moves to a new epoch under this handle; its older prefetch is cancelled. */
    method BumpEpoch(version: string, s: SessionState, id: int, offset: int) returns (r: SessionState)
      requires Rep()
      modifies all.Values`cancelled
      ensures Rep() && State() == CancelOlder(old(State()), version, r.epoch)
      ensures r == s.(epoch := s.epoch + 1, active := id, anchor := offset)
    {
      r := s.(epoch := s.epoch + 1);
      CancelSessionTasks(version, r.epoch);
      r := r.(active := id, anchor := offset);
    }

    method PrepareSession(id: int, file: File, observed: Observation, offset: int, length: int) returns (plan: Plan)
      requires Rep()
      modifies this`sessions, all.Values`cancelled
      ensures Rep() && (State(), plan) == Prepare(old(State()), id, file, observed, offset, length)
    {
      var v := ChunkVersion(file, cfg.chunkSize);
      var s := CurrentSession(v);
      PrepareParts(State(), id, file, observed, offset, length);
      var previousEpoch, previousActive := s.epoch, s.active;
      var within := InWindow(cfg, s, offset);
      var event, independent;
      ghost var bump;
      s, event, independent, bump := MoveSession(v, s, id, observed, offset, within);
      var streamRead := !independent && observed.streamRead && (s.active == id || within);
      var log := s.epoch != previousEpoch || (event == StartEvent && previousActive == 0 && s.active == id);
      RecordRead(v, s, offset + length, streamRead);
      plan := Plan(s.epoch, observed.stream, streamRead, event, log);
    }

    method CurrentSession(version: string) returns (s: SessionState)
      ensures s == SessionOrNew(State(), version)
    {
      s := if version in sessions then sessions[version] else NEW_SESSION;
    }

    /** Decides which handle the session follows; a bump of its epoch cancels its older tasks. */
    method MoveSession(version: string, before: SessionState, id: int, observed: Observation, offset: int, within: bool)
      returns (s: SessionState, event: Event, independent: bool, ghost bump: bool)
      requires Rep() && within == InWindow(cfg, before, offset)
      modifies all.Values`cancelled
      ensures Rep() && (s, event, independent, bump) == MovedSession(cfg, before, id, observed, offset)
      ensures State() == CancelIf(bump, old(State()), version, s.epoch)
    {
      s, bump := before, false;
      event, independent := observed.event, false;
      if within && event == SeekEvent { event := NoEvent; }
      if event == SeekEvent {
        if s.active != 0 && s.active != id {
          // The jump of a handle that does not stream leaves the stream of another handle alone.
          event, independent := NoEvent, true;
        } else {
          s := BumpEpoch(version, s, id, offset);
          bump := true;
        }
      } else if event == StartEvent {
        if s.active != 0 && s.active != id && !within {
          s := BumpEpoch(version, s, id, offset);
          bump := true;
        } else if s.active == 0 {
          s := s.(active := id, anchor := offset);
        }
      } else if observed.stream && s.active == 0 {
        s := s.(active := id, anchor := offset);
        event := StartEvent;
      }
    }

    /** Stores the session; a streaming read moves its cursor forward. */
    method RecordRead(version: string, s: SessionState, end: int, streamRead: bool)
      requires Rep()
      modifies this`sessions
      ensures Rep()
      ensures State() == SetSession(old(State()), version, if streamRead then s.(cursor := Max(s.cursor, end)) else s)
    {
      StoreSession(version, if streamRead && end > s.cursor then s.(cursor := end) else s);
    }

    // ---------- prefetch ----------

    /** Moves the window of the file's session to the cursor; says what to drop from memory and which
        chunks to offer, in order. The offers are then made one by one, outside the lock. */
    method ScheduleBuffer(file: File, cursor: int, epoch: int) returns (prune: Prune, offers: seq<Offer>)
      requires Rep() && ValidConfig(cfg) && cursor >= 0
      modifies this`sessions
      ensures Rep() && State() == SetWindow(old(State()), file, cursor, epoch)
      ensures var v := ChunkVersion(file, cfg.chunkSize);
        if v in old(sessions)
        then (prune, offers) == (Schedule(cfg, file.size, old(sessions)[v], cursor, epoch).1,
                                 Schedule(cfg, file.size, old(sessions)[v], cursor, epoch).2)
        else (prune, offers) == (KeepAll, [])
      ensures sessions.Keys == old(sessions).Keys
      ensures forall u :: u in sessions && u != ChunkVersion(file, cfg.chunkSize) ==> sessions[u] == old(sessions)[u]
    {
      var v := ChunkVersion(file, cfg.chunkSize);
      if v !in sessions { return KeepAll, []; }
      var s;
      s, prune, offers := MoveWindow(cfg, file.size, sessions[v], cursor, epoch);
      StoreSession(v, s);
    }

    // ---------- idle reclaim ----------

    /** If nothing is listed and nothing is downloading, every session forgets its window. */
    method ReclaimWindows() returns (quiet: bool)
      requires Rep()
      modifies this`sessions
      ensures Rep() && quiet == Quiet(old(State()))
      ensures quiet <==> (forall key :: key !in tasks) && forall v :: v in old(sessions) ==> old(sessions)[v].inflight <= 0
      ensures sessions.Keys == old(sessions).Keys
      ensures quiet ==> forall v :: v in sessions ==> !sessions[v].scheduleSet
      ensures quiet ==> forall v :: v in sessions ==> sessions[v].epoch == old(sessions)[v].epoch
      ensures quiet ==> forall v :: v in sessions ==> sessions[v].active == old(sessions)[v].active
      ensures State() == if quiet then ForgetWindows(old(State())) else old(State())
    {
      ghost var m := State();
      if |tasks| > 0 {
        ghost var key := Pick(tasks.Keys);
        assert key in m.tasks;
        return false;
      }
      assert m.tasks == map[];
      var busy := Downloading();
      if busy { return false; }
      sessions := map v | v in sessions :: Reclaimed(sessions[v]);
      quiet := true;
    }

    method Downloading() returns (found: bool)
      ensures found <==> exists v :: v in sessions && sessions[v].inflight > 0
    {
      var left := sessions.Keys;
      while left != {}
        invariant left <= sessions.Keys
        invariant forall v :: v in sessions && v !in left ==> sessions[v].inflight <= 0
      {
        NonEmpty(left);
        var v :| v in left;
        if sessions[v].inflight > 0 { return true; }
        left := left - {v};
      }
      return false;
    }

    // ---------- shutdown ----------

    method Shutdown()
      requires Rep()
      modifies this`closed, all.Values`cancelled
      ensures Rep() && State() == (if old(closed) then old(State()) else CloseAll(old(State())))
      ensures closed && (!old(closed) ==> forall t :: t in all.Values ==> t.cancelled)
    {
      if closed { return; }
      ghost var m := State();
      CancelAll();
      closed := true;
      assert State().table == CloseAll(m).table;
    }

    method CancelAll()
      requires Rep()
      modifies all.Values`cancelled
      ensures Rep() && forall t :: t in all.Values ==> t.cancelled
      ensures State() == old(State()).(table := CloseAll(old(State())).table)
    {
      ghost var m := State();
      forall t | t in all.Values {
        t.cancelled := true;
      }
      forall i | i in all ensures all[i].View() == m.table[i].(cancelled := true) { assert all[i] in all.Values; }
      AllCancelled(m);
    }

    lemma AllCancelled(m: Mgr)
      requires m == State().(table := m.table) && m.table.Keys == all.Keys
      requires forall i :: i in all ==> all[i].View() == m.table[i].(cancelled := true)
      ensures State() == m.(table := CloseAll(m).table)
    {
      forall i | i in all ensures Table()[i] == CloseAll(m).table[i] {}
      assert Table().Keys == CloseAll(m).table.Keys;
    }
  }
}
