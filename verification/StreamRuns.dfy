/** Theorems about every run of the stream engine. */
module StreamRuns {
  import opened Content
  import opened Naming
  import opened StreamState
  import opened TaskProtocol
  import opened StreamSystem
  import opened StreamSafety
  import opened StreamSessions

  // ---------- no stuck queue ----------

  ghost predicate LiveQueued(s: Sys, id: int) { id in s.m.queue && id in s.m.table && s.m.table[id].Live() }

  ghost predicate Moving(s: Sys, w: int) { w in s.workers && s.workers[w] != Waiting && s.workers[w] != Exited }

  /** While the manager is open, a live queued task means some worker is not waiting. */
  ghost predicate Awake(s: Sys)
  {
    !s.m.closed && (exists id :: LiveQueued(s, id)) ==> exists w :: Moving(s, w)
  }

  lemma OthersQueueNothing(remote: RemoteBytes, s: Sys, step: Step)
    requires TaskPart(s) && WorkerPart(s) && Enabled(remote, s, step) && !step.NextStep?
    requires step.EnsureStep? ==> !Ensure(s.m, step.file, step.index, step.epoch, step.priority).1.Created?
    ensures Apply(remote, s, step).m.queue == s.m.queue
  {
    if !step.EnsureStep? && !step.CloseStep? { StepFrame(remote, s, step); }
  }

  lemma OthersKeepMoving(remote: RemoteBytes, s: Sys, step: Step, w: int)
    requires TaskPart(s) && Enabled(remote, s, step) && !step.NextStep? && Moving(s, w)
    ensures Moving(Apply(remote, s, step), w)
  {
  }

  /** A queued task that its session holds back waits for a download of that very session, by another worker. */
  lemma WaitMeansBusy(s: Sys, w: int, id: int)
    requires ValidConfig(s.m.cfg) && SessionPart(s) && WorkerPart(s) && w in s.workers && s.workers[w] == Ready
    requires id in s.m.table && Blocked(s.m, id)
    ensures exists u :: u in BusyOn(s, s.m.table[id].key.version) && u != w && s.workers[u].Busy?
  {
    var v := s.m.table[id].key.version;
    assert SessionOk(s, v) && SessionLimit(s.m) >= 1;
    assert |BusyOn(s, v)| > 0;
    var u := Pick(BusyOn(s, v));
    assert u in s.workers && s.workers[u].Busy?;
  }

  /** A worker other than w is downloading a task of the version. */
  ghost predicate AnotherDownloads(s: Sys, w: int, v: string) { exists u :: u in BusyOn(s, v) && u != w }

  /** A pass that takes nothing keeps every session that counts a download, and with it the limits. */
  lemma StillBlocked(m: Mgr, n: Mgr, id: int)
    requires PassSessions(m, n, None) && n.cfg == m.cfg && id in m.table && id in n.table && n.table[id] == m.table[id]
    requires Blocked(m, id) && SessionLimit(m) >= 1
    ensures Blocked(n, id)
  {
    if Competing(m) {
      var v, w :| v in m.sessions && w in m.sessions && v != w && Competes(m.sessions[v]) && Competes(m.sessions[w]);
      assert v in n.sessions && w in n.sessions;
    }
    assert SessionLimit(n) == SessionLimit(m);
  }

  /** After a pass that takes nothing, each live queued task is held back, and another worker downloads for its
      session. */
  lemma PassHoldsBack(s: Sys, w: int, n: Mgr, t: Sys, id: int)
    requires ValidConfig(s.m.cfg) && WorkerPart(s) && SessionPart(s) && ListedOk(s.m) && s.m.queue <= s.m.table.Keys
    requires PassSpec(s.m, {}, n, None) && Evolves(s.m, n) && w in s.workers && s.workers[w] == Ready
    requires t == s.(m := n, workers := s.workers[w := Waiting]) && LiveQueued(t, id)
    ensures Blocked(t.m, id) && AnotherDownloads(t, w, t.m.table[id].key.version)
  {
    assert n.table[id] == PassTask(s.m, None, id);
    WaitMeansBusy(s, w, id);
    StillBlocked(s.m, n, id);
    StillDownloads(s, w, t, s.m.table[id].key.version);
  }

  lemma StillDownloads(s: Sys, w: int, t: Sys, v: string)
    requires WorkerPart(s) && Evolves(s.m, t.m) && t.workers == s.workers[w := Waiting] && AnotherDownloads(s, w, v)
    ensures AnotherDownloads(t, w, v)
  {
    var u :| u in BusyOn(s, v) && u != w;
    var task := s.workers[u].task;
    assert Runs(s, u, task) && TaskEvolves(s.m.table[task], t.m.table[task]);
    assert u in BusyOn(t, v);
  }

  lemma AwakeKept(remote: RemoteBytes, s: Sys, step: Step)
    requires TaskPart(s) && WorkerPart(s) && SessionPart(s) && Awake(s) && Enabled(remote, s, step)
    ensures Awake(Apply(remote, s, step))
  {
    var t := Apply(remote, s, step);
    TaskPartKept(remote, s, step);
    if t.m.closed || !exists id :: LiveQueued(t, id) {
    } else if step.NextStep? {
      NextAwake(remote, s, step.worker);
    } else if step.EnsureStep? && Ensure(s.m, step.file, step.index, step.epoch, step.priority).1.Created? {
      if step.woken.Some? { assert Moving(t, step.woken.value); }
      else {
        var w := Pick(s.workers.Keys);
        assert !WaitingWorker(s, w);
        assert Moving(t, w);
      }
    } else {
      OthersQueueNothing(remote, s, step);
      var id :| LiveQueued(t, id);
      assert LiveQueued(s, id) by { assert id in s.m.table && TaskEvolves(s.m.table[id], t.m.table[id]); }
      var w :| Moving(s, w);
      OthersKeepMoving(remote, s, step, w);
    }
  }

  lemma NextAwake(remote: RemoteBytes, s: Sys, w: int)
    requires TaskPart(s) && WorkerPart(s) && SessionPart(s) && Enabled(remote, s, NextStep(w)) && !s.m.closed
    ensures Awake(Apply(remote, s, NextStep(w)))
  {
    var t := Apply(remote, s, NextStep(w));
    ScanPass(s.m);
    var (n, r) := Scan(s.m, {});
    PassAwake(s, w, n, r, t);
  }

  lemma PassAwake(s: Sys, w: int, n: Mgr, r: Option<int>, t: Sys)
    requires ValidConfig(s.m.cfg) && WorkerPart(s) && SessionPart(s) && ListedOk(s.m) && s.m.queue <= s.m.table.Keys
    requires PassSpec(s.m, {}, n, r) && w in s.workers && s.workers[w] == Ready
    requires t == s.(m := n, workers := s.workers[w := if r.Some? then Busy(r.value) else Waiting])
    ensures Awake(t)
  {
    if r.Some? {
      assert Moving(t, w);
    } else if id :| LiveQueued(t, id) {
      assert n.table[id] == PassTask(s.m, r, id);
      WaitMeansBusy(s, w, id);
      var u :| u in BusyOn(s, s.m.table[id].key.version) && u != w && s.workers[u].Busy?;
      assert Moving(t, u);
    }
  }

  // ---------- true bytes ----------

  ghost predicate TaskTrue(remote: RemoteBytes, t: TaskState)
  {
    && NumericFsid(t.file.fsid) && t.length > 0
    && forall d :: t.result == Some(Ok(d)) ==> d == TaskBytes(remote, t)
  }

  ghost predicate TruthPart(remote: RemoteBytes, s: Sys)
  {
    && (forall id :: id in s.m.table ==> TaskTrue(remote, s.m.table[id]))
    && CacheTrue(remote, s)
  }

  /** The bytes of a task are the true bytes of its key. */
  lemma TaskDataTrue(remote: RemoteBytes, cfg: Config, t: TaskState)
    requires Shaped(cfg, t) && NumericFsid(t.file.fsid)
    ensures KeyTrue(remote, cfg, t.key, TaskBytes(remote, t))
  {
    forall f: File | NumericFsid(f.fsid) && ChunkVersion(f, cfg.chunkSize) == t.key.version
      ensures ChunkLength(cfg, f, t.key.index) > 0
      ensures TaskBytes(remote, t) == Slice(remote, f.fsid, t.key.index * cfg.chunkSize, ChunkLength(cfg, f, t.key.index))
    {
      ChunkVersionInjective(f, cfg.chunkSize, t.file, cfg.chunkSize);
    }
  }

  /** Old tasks keep their result or get a true one. */
  ghost predicate ResultKept(remote: RemoteBytes, t: TaskState, u: TaskState)
  {
    u.result == t.result || (u.result.Some? && (u.result.value.Ok? ==> u.result.value.data == TaskBytesOr(remote, t)))
  }

  ghost function TaskBytesOr(remote: RemoteBytes, t: TaskState): Bytes
  {
    if t.length >= 0 then TaskBytes(remote, t) else []
  }

  lemma ResultsKept(remote: RemoteBytes, s: Sys, step: Step, id: int)
    requires TaskPart(s) && Enabled(remote, s, step) && id in s.m.table
    ensures id in Apply(remote, s, step).m.table
    ensures ResultKept(remote, s.m.table[id], Apply(remote, s, step).m.table[id])
  {
    TaskPartKept(remote, s, step);
    if step.NextStep? && !s.m.closed {
      ScanPass(s.m);
      var (n, r) := Scan(s.m, {});
      assert n.table[id] == PassTask(s.m, r, id);
    } else if step.HandInStep? {
      HandInResult(s.m, s.workers[step.worker].task, step.result, id);
    } else {
      OtherResults(remote, s, step, id);
    }
  }

  lemma HandInResult(m: Mgr, task: int, r: Result, id: int)
    requires task in m.table && id in m.table
    ensures id in HandIn(m, task, r).table
    ensures HandIn(m, task, r).table[id].result == m.table[id].result
         || (id == task && HandIn(m, task, r).table[id].result == Some(r))
  {
    HandInFrame(m, task, r);
  }

  lemma OtherResults(remote: RemoteBytes, s: Sys, step: Step, id: int)
    requires Inv(s.m) && Enabled(remote, s, step) && id in s.m.table && !step.HandInStep?
    requires step.NextStep? ==> s.m.closed
    requires id in Apply(remote, s, step).m.table
    ensures ResultKept(remote, s.m.table[id], Apply(remote, s, step).m.table[id])
  {
    if step.EnsureStep? || step.CloseStep? || step.NextStep? {
      KeepsResults(remote, s, step, id);
    } else {
      StepFrame(remote, s, step);
    }
  }

  lemma KeepsResults(remote: RemoteBytes, s: Sys, step: Step, id: int)
    requires Inv(s.m) && Enabled(remote, s, step) && id in s.m.table && (step.NextStep? ==> s.m.closed)
    requires step.EnsureStep? || step.CloseStep? || step.NextStep?
    ensures id in Apply(remote, s, step).m.table && Apply(remote, s, step).m.table[id].result == s.m.table[id].result
  {
    assert TaskOk(s.m, {}, id);
  }

  lemma TruthPartKept(remote: RemoteBytes, s: Sys, step: Step)
    requires TaskPart(s) && TruthPart(remote, s) && Enabled(remote, s, step)
    ensures TruthPart(remote, Apply(remote, s, step))
  {
    var t := Apply(remote, s, step);
    TaskPartKept(remote, s, step);
    forall id | id in t.m.table ensures TaskTrue(remote, t.m.table[id]) { TaskTrueKept(remote, s, step, id); }
    CacheTrueKept(remote, s, step);
  }

  lemma TaskTrueKept(remote: RemoteBytes, s: Sys, step: Step, id: int)
    requires TaskPart(s) && TruthPart(remote, s) && Enabled(remote, s, step) && id in Apply(remote, s, step).m.table
    ensures TaskTrue(remote, Apply(remote, s, step).m.table[id])
  {
    var t := Apply(remote, s, step);
    TaskPartKept(remote, s, step);
    if id in s.m.table {
      assert TaskTrue(remote, s.m.table[id]) && TaskEvolves(s.m.table[id], t.m.table[id]);
      ResultsKept(remote, s, step, id);
    } else {
      assert Shaped(t.m.cfg, t.m.table[id]);
      NewTaskOnly(remote, s, step, id);
    }
  }

  lemma CacheTrueKept(remote: RemoteBytes, s: Sys, step: Step)
    requires TaskPart(s) && TruthPart(remote, s) && Enabled(remote, s, step) && Apply(remote, s, step).m.cfg == s.m.cfg
    ensures CacheTrue(remote, Apply(remote, s, step))
  {
    var t := Apply(remote, s, step);
    if step.CachePut? {
      var x := s.m.table[step.id];
      assert TaskTrue(remote, x) && Shaped(s.m.cfg, x);
      TaskDataTrue(remote, s.m.cfg, x);
    }
    forall key | key in t.cache ensures KeyTrue(remote, t.m.cfg, key, t.cache[key]) {
      if key in s.cache && t.cache[key] == s.cache[key] { assert KeyTrue(remote, s.m.cfg, key, s.cache[key]); }
    }
  }

  lemma NewTaskOnly(remote: RemoteBytes, s: Sys, step: Step, id: int)
    requires TaskPart(s) && Enabled(remote, s, step) && id !in s.m.table && id in Apply(remote, s, step).m.table
    ensures step.EnsureStep? && Apply(remote, s, step).m.table[id] == NewTask(s.m.cfg, step.file, step.index, step.epoch, step.priority)
  {
    StepKeeps(remote, s, step);
  }

  // ---------- exact accounting ----------

  /** A chunk is asked for on behalf of a handle that is not released. */
  ghost predicate Disciplined(s: Sys, step: Step)
  {
    step.EnsureStep? ==> exists h :: h in s.handles && s.handles[h].phase != Released && s.handles[h].state.file == step.file
  }

  /** Each session counts exactly the workers downloading for it, and a version keeps its session
      while an unfinished task of it is listed. */
  ghost predicate ExactPart(s: Sys)
  {
    && (forall v :: Inflight(s, v) == |BusyOn(s, v)|)
    && (forall key :: key in s.m.tasks ==> key.version in s.m.sessions)
  }

  ghost function Inflight(s: Sys, v: string): int
  {
    if v in s.m.sessions then s.m.sessions[v].inflight else 0
  }

  ghost predicate SameInflight(s: Sys, t: Sys) { forall v :: Inflight(t, v) == Inflight(s, v) }

  lemma ExactSame(s: Sys, t: Sys)
    requires ExactPart(s) && WorkerPart(s) && Evolves(s.m, t.m)
    requires forall w, id :: Runs(s, w, id) <==> Runs(t, w, id)
    requires SameInflight(s, t)
    requires forall key :: key in t.m.tasks ==> key.version in t.m.sessions
    ensures ExactPart(t)
  {
    SameBusy(s, t);
    forall v ensures Inflight(t, v) == |BusyOn(t, v)| { assert Inflight(s, v) == |BusyOn(s, v)|; }
  }

  /** Starting a task keeps the count of its session exact if and only if the session exists. */
  lemma TakingIsCounted(s: Sys, w: int, id: int, t: Sys)
    requires WorkerPart(s) && Evolves(s.m, t.m) && w in s.workers && s.workers[w] == Ready && id in s.m.table
    requires t.workers == s.workers[w := Busy(id)] && t.m.sessions == Start(s.m, id).sessions
    requires Inflight(s, s.m.table[id].key.version) == |BusyOn(s, s.m.table[id].key.version)|
    ensures var v := s.m.table[id].key.version;
      Inflight(t, v) == |BusyOn(t, v)| <==> v in s.m.sessions
  {
    var v := s.m.table[id].key.version;
    BusyOne(s, t, w, v);
    assert w !in BusyOn(s, v);
  }

  lemma PassCount(s: Sys, w: int, r: Option<int>, t: Sys, v: string)
    requires WorkerPart(s) && Evolves(s.m, t.m) && w in s.workers && s.workers[w] == Ready
    requires r.Some? ==> r.value in s.m.table
    requires t.workers == s.workers[w := if r.Some? then Busy(r.value) else Waiting]
    requires Inflight(s, v) == |BusyOn(s, v)|
    requires Inflight(t, v) == Inflight(s, v) + (if r.Some? && s.m.table[r.value].key.version == v then 1 else 0)
    ensures Inflight(t, v) == |BusyOn(t, v)|
  {
    BusyOne(s, t, w, v);
    assert w !in BusyOn(s, v);
  }

  lemma PassInflight(s: Sys, n: Mgr, r: Option<int>, t: Sys, v: string)
    requires Inv(s.m) && PassSpec(s.m, {}, n, r) && t.m == n
    requires forall key :: key in s.m.tasks ==> key.version in s.m.sessions
    requires v in s.m.sessions ==> s.m.sessions[v].inflight >= 0
    ensures Inflight(t, v) == Inflight(s, v) + (if r.Some? && s.m.table[r.value].key.version == v then 1 else 0)
  {
    assert PassSessions(s.m, n, r);
    if r.Some? { assert TaskOk(s.m, {}, r.value); }
  }

  /** If sessions disappear only without unfinished tasks, listed tasks keep their sessions. */
  lemma ListedKeep(m: Mgr, n: Mgr)
    requires ListedOk(n) && n.tasks.Keys <= m.tasks.Keys
    requires forall key :: key in m.tasks ==> key.version in m.sessions
    requires forall v :: v in m.sessions && v !in n.sessions ==> !Unfinished(n, v)
    ensures forall key :: key in n.tasks ==> key.version in n.sessions
  {
    forall key | key in n.tasks ensures key.version in n.sessions {
      assert key in m.tasks.Keys;
      assert key.version !in n.sessions ==> Unfinished(n, key.version);
    }
  }

  lemma PassExact(s: Sys, w: int, n: Mgr, r: Option<int>, t: Sys)
    requires WorkerPart(s) && SessionPart(s) && ExactPart(s) && Inv(s.m) && PassSpec(s.m, {}, n, r)
    requires w in s.workers && s.workers[w] == Ready
    requires t == s.(m := n, workers := s.workers[w := if r.Some? then Busy(r.value) else Waiting])
    ensures ExactPart(t)
  {
    PassEvolves(s.m, n, r);
    assert PassSessions(s.m, n, r);
    ListedKeep(s.m, n);
    forall v ensures Inflight(t, v) == |BusyOn(t, v)| {
      assert Inflight(s, v) == |BusyOn(s, v)|;
      PassInflight(s, n, r, t, v);
      PassCount(s, w, r, t, v);
    }
  }

  lemma HandInTasks(m: Mgr, id: int, r: Result)
    requires id in m.table
    ensures HandIn(m, id, r).tasks.Keys <= m.tasks.Keys
  {
  }

  lemma HandInExact(s: Sys, w: int, r: Result, t: Sys)
    requires WorkerPart(s) && ExactPart(s) && Inv(s.m)
    requires w in s.workers && s.workers[w].Busy? && s.workers[w].task in s.m.table
    requires t == s.(m := HandIn(s.m, s.workers[w].task, r), workers := s.workers[w := Returned])
    ensures ExactPart(t)
  {
    var id := s.workers[w].task;
    assert Runs(s, w, id);
    HandInKeeps(s.m, id, r);
    HandInCounts(s.m, id, r);
    HandInTasks(s.m, id, r);
    ListedKeep(s.m, t.m);
    forall v ensures Inflight(t, v) == |BusyOn(t, v)| { HandInCount(s, w, t, v); }
  }

  lemma HandInCount(s: Sys, w: int, t: Sys, v: string)
    requires WorkerPart(s) && Evolves(s.m, t.m) && Inflight(s, v) == |BusyOn(s, v)|
    requires w in s.workers && s.workers[w].Busy? && s.workers[w].task in s.m.table && s.m.table[s.workers[w].task].started
    requires t.workers == s.workers[w := Returned]
    requires v in t.m.sessions ==> v in s.m.sessions && t.m.sessions[v] == Uncount(s.m, s.workers[w].task).sessions[v]
    requires v in s.m.sessions && v !in t.m.sessions ==> Uncount(s.m, s.workers[w].task).sessions[v].inflight <= 0
    ensures Inflight(t, v) == |BusyOn(t, v)|
  {
    BusyOne(s, t, w, v);
    assert WorksOn(s, w, v) <==> w in BusyOn(s, v);
  }

  lemma ReleaseTasks(m: Mgr, h: int, file: File)
    ensures var n := Release(m, h, file);
      n.tasks == m.tasks
      && (forall v :: v in n.sessions ==> v in m.sessions && n.sessions[v].inflight == m.sessions[v].inflight)
      && (forall v :: v in m.sessions && v !in n.sessions ==> m.sessions[v].inflight <= 0 && !Unfinished(n, v))
  {
    var v := ChunkVersion(file, m.cfg.chunkSize);
    if v in m.sessions {
      var e := ReleasedSession(m.sessions[v], h);
      CleanupExact(CancelIf(Holds(m.sessions[v], h), SetSession(m, v, e), v, e.epoch), v);
    }
  }

  lemma ReleaseExact(s: Sys, h: int, t: Sys)
    requires TaskPart(s) && WorkerPart(s) && SessionPart(s) && ExactPart(s) && h in s.handles
    requires t.m == Release(s.m, h, s.handles[h].state.file) && t.workers == s.workers
    ensures ExactPart(t)
  {
    ReleaseKeeps(s.m, h, s.handles[h].state.file);
    ReleaseTasks(s.m, h, s.handles[h].state.file);
    ListedKeep(s.m, t.m);
    forall v ensures Inflight(t, v) == Inflight(s, v) {
      if v in s.m.sessions { assert SessionOk(s, v); }
    }
    ExactSame(s, t);
  }

  lemma PlainTasks(remote: RemoteBytes, s: Sys, step: Step)
    requires Inv(s.m) && Enabled(remote, s, step)
    requires step.MarkStep? || step.HedgeStep? || step.PublishStep? || step.CachePut?
          || step.CacheDrop? || step.BroadcastStep? || step.CloseStep? || step.BeginRelease? || step.ReadStep? || step.OpenStep?
    ensures var t := Apply(remote, s, step);
      (forall key :: key in t.m.tasks ==> key in s.m.tasks) && (forall v :: v in s.m.sessions ==> v in t.m.sessions)
      && SameInflight(s, t) && forall w, id :: Runs(s, w, id) <==> Runs(t, w, id)
  {
    PlainRuns(remote, s, step);
    if step.OpenStep? {
      if !s.m.closed { OpenInflight(s, Apply(remote, s, step), step.file); }
    } else if step.ReadStep? {
      ReadInflight(remote, s, step);
    } else {
      PlainInflight(remote, s, step);
    }
  }

  lemma PlainRuns(remote: RemoteBytes, s: Sys, step: Step)
    requires Enabled(remote, s, step) && !step.NextStep? && !step.HandInStep? && !step.EnsureStep?
    ensures forall w, id :: Runs(s, w, id) <==> Runs(Apply(remote, s, step), w, id)
  {
  }

  lemma OpenInflight(s: Sys, t: Sys, file: File)
    requires t.m == Open(s.m, file)
    ensures SameInflight(s, t) && t.m.tasks == s.m.tasks && forall v :: v in s.m.sessions ==> v in t.m.sessions
  {
  }

  lemma ReadInflight(remote: RemoteBytes, s: Sys, step: Step)
    requires Enabled(remote, s, step) && step.ReadStep?
    ensures var t := Apply(remote, s, step);
      SameInflight(s, t) && t.m.tasks == s.m.tasks && forall v :: v in s.m.sessions ==> v in t.m.sessions
  {
    if !s.m.closed {
      var file := s.handles[step.handle].state.file;
      var (seen, observation) := Observe(s.m.cfg, s.handles[step.handle].state, step.offset, step.length);
      PrepareSession(s.m, step.handle, file, observation, step.offset, step.length);
      PrepareFrame(s.m, step.handle, file, observation, step.offset, step.length);
    }
  }

  lemma PlainInflight(remote: RemoteBytes, s: Sys, step: Step)
    requires Enabled(remote, s, step)
    requires step.MarkStep? || step.HedgeStep? || step.PublishStep? || step.CachePut?
          || step.CacheDrop? || step.BroadcastStep? || step.CloseStep? || step.BeginRelease?
    ensures var t := Apply(remote, s, step);
      t.m.sessions == s.m.sessions && (forall key :: key in t.m.tasks ==> key in s.m.tasks)
  {
    if !step.CloseStep? { StepFrame(remote, s, step); PlainSameSessions(remote, s, step); }
  }

  lemma PlainSameSessions(remote: RemoteBytes, s: Sys, step: Step)
    requires Enabled(remote, s, step)
    requires step.MarkStep? || step.HedgeStep? || step.PublishStep? || step.CachePut?
          || step.CacheDrop? || step.BroadcastStep? || step.BeginRelease?
    ensures Apply(remote, s, step).m.sessions == s.m.sessions
  {
  }

  lemma EnsureExact(remote: RemoteBytes, s: Sys, step: Step)
    requires TaskPart(s) && WorkerPart(s) && SessionPart(s) && ExactPart(s) && Enabled(remote, s, step)
    requires step.EnsureStep? && Disciplined(s, step)
    ensures ExactPart(Apply(remote, s, step))
  {
    var t := Apply(remote, s, step);
    TaskPartKept(remote, s, step);
    PlainSteps(remote, s, step);
    EnsureListed(remote, s, step);
    ExactSame(s, t);
  }

  lemma EnsureListed(remote: RemoteBytes, s: Sys, step: Step)
    requires HandlesOk(s) && ExactPart(s) && Enabled(remote, s, step) && step.EnsureStep? && Disciplined(s, step)
    ensures forall key :: key in Apply(remote, s, step).m.tasks ==> key.version in s.m.sessions
  {
    var t := Apply(remote, s, step);
    var h :| h in s.handles && s.handles[h].phase != Released && s.handles[h].state.file == step.file;
    assert VersionOf(s, h) in s.m.sessions;
    forall key | key in t.m.tasks ensures key.version in s.m.sessions {
      assert key in s.m.tasks || key.version == VersionOf(s, h);
    }
  }

  lemma WindowExact(remote: RemoteBytes, s: Sys, step: Step)
    requires ExactPart(s) && Enabled(remote, s, step) && (step.ScheduleStep? || step.ReclaimStep?)
    ensures ExactPart(Apply(remote, s, step))
  {
    var t := Apply(remote, s, step);
    WindowSteps(remote, s, step);
    forall v ensures Inflight(t, v) == |BusyOn(t, v)| {
      assert Inflight(s, v) == |BusyOn(s, v)| && BusyOn(t, v) == BusyOn(s, v);
      assert v in s.m.sessions ==> SameCounts(s.m.sessions[v], t.m.sessions[v]);
    }
  }

  lemma ExactPartKept(remote: RemoteBytes, s: Sys, step: Step)
    requires TaskPart(s) && WorkerPart(s) && SessionPart(s) && ExactPart(s) && Enabled(remote, s, step)
    requires Disciplined(s, step)
    ensures ExactPart(Apply(remote, s, step))
  {
    var t := Apply(remote, s, step);
    TaskPartKept(remote, s, step);
    if step.NextStep? {
      if s.m.closed { ExactSame(s, t); }
      else {
        ScanPass(s.m);
        var (n, r) := Scan(s.m, {});
        PassExact(s, step.worker, n, r, t);
      }
    } else if step.HandInStep? {
      HandInExact(s, step.worker, step.result, t);
    } else if step.EndRelease? {
      ReleaseExact(s, step.handle, t);
    } else if step.EnsureStep? {
      EnsureExact(remote, s, step);
    } else if step.ScheduleStep? || step.ReclaimStep? {
      WindowExact(remote, s, step);
    } else {
      PlainTasks(remote, s, step);
      forall key | key in t.m.tasks ensures key.version in t.m.sessions { assert key in s.m.tasks; }
      ExactSame(s, t);
    }
  }
}
