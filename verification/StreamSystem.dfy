/** The whole stream engine as a state machine: worker goroutines, handles, the chunk cache and the
    manager. Each critical section of the manager's lock is one step; a cancelled context is a flag. */
module StreamSystem {
  import opened Content
  import opened Naming
  import opened StreamState
  import opened Scheduling

  /** Ready: about to look for work. Waiting: inside the condition variable. Returned: has handed in
      a result and not yet broadcast. */
  datatype Worker = Ready | Waiting | Busy(task: int) | Returned | Exited

  /** Releasing: marked released, but the manager has not yet heard of it. */
  datatype Phase = Held | Releasing | Released

  datatype Slot = Slot(state: HandleState, phase: Phase)

  /** `cache` is what the chunk store can return for a key, at either level. */
  datatype Sys = Sys(m: Mgr, workers: map<int, Worker>, handles: map<int, Slot>, cache: map<ChunkKey, Bytes>)

  datatype Step =
    | OpenStep(file: File)
    | BeginRelease(handle: int)
    | EndRelease(handle: int)
    | ReadStep(handle: int, offset: int, length: int)
    | EnsureStep(file: File, index: int, epoch: int, priority: Priority, woken: Option<int>)
    | ScheduleStep(file: File, cursor: int, epoch: int)
    | ReclaimStep
    | MarkStep(id: int)
    | HedgeStep(id: int)
    | PublishStep(id: int, data: Bytes)
    | NextStep(worker: int)
    | HandInStep(worker: int, result: Result)
    | BroadcastStep(worker: int)
    | CachePut(id: int, data: Bytes)
    | CacheDrop(keys: set<ChunkKey>)
    | CloseStep

  function TaskBytes(remote: RemoteBytes, t: TaskState): Bytes
    requires t.length >= 0
  {
    Slice(remote, t.file.fsid, t.offset, t.length)
  }

  /** The reader returns an error or true bytes of the length asked for. */
  ghost predicate TrueData(remote: RemoteBytes, m: Mgr, id: int, data: Bytes)
  {
    id in m.table && m.table[id].length >= 0 && data == TaskBytes(remote, m.table[id])
  }

  ghost predicate WaitingWorker(s: Sys, w: int) { w in s.workers && s.workers[w] == Waiting }

  /** Signal wakes one waiting worker, if there is one. */
  ghost predicate SignalOk(s: Sys, woken: Option<int>)
  {
    if exists w :: WaitingWorker(s, w) then woken.Some? && WaitingWorker(s, woken.value) else woken == None
  }

  ghost predicate ReadArgs(file: File, offset: int, length: int)
  {
    offset >= 0 && length > 0 && (file.size > 0 ==> offset + length <= file.size)
  }

  ghost predicate Enabled(remote: RemoteBytes, s: Sys, step: Step)
  {
    match step
    case OpenStep(file) => NumericFsid(file.fsid)
    case BeginRelease(h) => h in s.handles && s.handles[h].phase == Held
    case EndRelease(h) => h in s.handles && s.handles[h].phase == Releasing
    case ReadStep(h, offset, length) =>
      h in s.handles && s.handles[h].phase == Held && ReadArgs(s.handles[h].state.file, offset, length)
    case EnsureStep(file, index, epoch, priority, woken) =>
      NumericFsid(file.fsid) && index >= 0
      && (if Ensure(s.m, file, index, epoch, priority).1.Created? then SignalOk(s, woken) else woken == None)
    case ScheduleStep(file, cursor, epoch) => NumericFsid(file.fsid) && cursor >= 0 && s.m.cfg.chunkSize > 0
    case ReclaimStep => !s.m.closed && Quiet(s.m)
    case MarkStep(id) => id in s.m.table
    case HedgeStep(id) => id in s.m.table
    case PublishStep(id, data) => id in s.m.table && s.m.table[id].hedged && TrueData(remote, s.m, id, data)
    case NextStep(w) => w in s.workers && s.workers[w] == Ready && s.m.queue <= s.m.table.Keys
    case HandInStep(w, r) =>
      w in s.workers && s.workers[w].Busy? && s.workers[w].task in s.m.table
      && (r.Ok? ==> TrueData(remote, s.m, s.workers[w].task, r.data))
    case BroadcastStep(w) => w in s.workers && s.workers[w] == Returned
    case CachePut(id, data) => TrueData(remote, s.m, id, data)
    case CacheDrop(keys) => true
    case CloseStep => !s.m.closed
  }

  function WakeAll(workers: map<int, Worker>): map<int, Worker>
  {
    map w | w in workers :: if workers[w] == Waiting then Ready else workers[w]
  }

  ghost function Apply(remote: RemoteBytes, s: Sys, step: Step): Sys
    requires Enabled(remote, s, step)
  {
    match step
    case OpenStep(file) =>
      if s.m.closed then s
      else
        var n := Open(s.m, file);
        s.(m := n, handles := s.handles[n.nextHandle := Slot(NewHandle(file), Held)])
    case BeginRelease(h) => s.(handles := s.handles[h := s.handles[h].(phase := Releasing)])
    case EndRelease(h) =>
      s.(m := Release(s.m, h, s.handles[h].state.file), handles := s.handles[h := s.handles[h].(phase := Released)])
    case ReadStep(h, offset, length) =>
      var (seen, observation) := Observe(s.m.cfg, s.handles[h].state, offset, length);
      if s.m.closed then s.(handles := s.handles[h := s.handles[h].(state := seen)])
      else
        var (n, plan) := Prepare(s.m, h, s.handles[h].state.file, observation, offset, length);
        s.(m := n, handles := s.handles[h := s.handles[h].(state := seen.(epoch := plan.epoch))])
    case EnsureStep(file, index, epoch, priority, woken) =>
      s.(m := Ensure(s.m, file, index, epoch, priority).0,
         workers := if woken.Some? then s.workers[woken.value := Ready] else s.workers)
    case ScheduleStep(file, cursor, epoch) => s.(m := SetWindow(s.m, file, cursor, epoch))
    case ReclaimStep => s.(m := ForgetWindows(s.m))
    case MarkStep(id) => s.(m := MarkForeground(s.m, id))
    case HedgeStep(id) => s.(m := StartHedge(s.m, id))
    case PublishStep(id, data) => s.(m := PublishHedge(s.m, id, data))
    case NextStep(w) =>
      if s.m.closed then s.(workers := s.workers[w := Exited])
      else
        var (n, r) := Scan(s.m, {});
        s.(m := n, workers := s.workers[w := if r.Some? then Busy(r.value) else Waiting])
    case HandInStep(w, r) => s.(m := HandIn(s.m, s.workers[w].task, r), workers := s.workers[w := Returned])
    case BroadcastStep(w) => s.(workers := WakeAll(s.workers[w := Ready]))
    case CachePut(id, data) => s.(cache := s.cache[s.m.table[id].key := data])
    case CacheDrop(keys) => s.(cache := s.cache - keys)
    case CloseStep => s.(m := CloseAll(s.m), workers := WakeAll(s.workers))
  }

  /** The key is a chunk within the file, and the data are its bytes, for every file the key can stand for. */
  ghost predicate KeyTrue(remote: RemoteBytes, cfg: Config, key: ChunkKey, data: Bytes)
  {
    forall f: File :: NumericFsid(f.fsid) && ChunkVersion(f, cfg.chunkSize) == key.version ==>
      ChunkLength(cfg, f, key.index) > 0
      && data == Slice(remote, f.fsid, key.index * cfg.chunkSize, ChunkLength(cfg, f, key.index))
  }

  /** The store may start with chunks of an earlier life of the process, as long as they are true. */
  ghost predicate CacheTrue(remote: RemoteBytes, s: Sys)
  {
    forall key :: key in s.cache ==> KeyTrue(remote, s.m.cfg, key, s.cache[key])
  }

  ghost predicate Init(s: Sys)
  {
    && ValidConfig(s.m.cfg)
    && s.m == Mgr(s.m.cfg, map[], {}, map[], map[], false, 0, 0)
    && s.handles == map[]
    && (forall w :: w in s.workers <==> 1 <= w <= s.m.cfg.workers)
    && (forall w :: w in s.workers ==> s.workers[w] == Ready)
  }

  ghost predicate StepAt(remote: RemoteBytes, run: seq<Sys>, steps: seq<Step>, i: int)
    requires |run| == |steps| + 1 && 0 <= i < |steps|
  {
    Enabled(remote, run[i], steps[i]) && run[i + 1] == Apply(remote, run[i], steps[i])
  }

  /** A run: any interleaving of enabled steps. */
  ghost predicate IsRun(remote: RemoteBytes, run: seq<Sys>, steps: seq<Step>)
  {
    && |run| == |steps| + 1 && Init(run[0]) && CacheTrue(remote, run[0])
    && forall i :: 0 <= i < |steps| ==> StepAt(remote, run, steps, i)
  }
}
