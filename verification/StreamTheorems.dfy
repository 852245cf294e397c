/** The main theorems about runs: safety in every state, stability of published results, exact
    accounting, and what moves a session's epoch. */
module StreamTheorems {
  import opened Content
  import opened Naming
  import opened StreamState
  import opened TaskProtocol
  import opened StreamSystem
  import opened StreamSafety
  import opened StreamSessions
  import opened StreamRuns

  ghost predicate SysInv(remote: RemoteBytes, s: Sys)
  {
    TaskPart(s) && WorkerPart(s) && SessionPart(s) && Awake(s) && TruthPart(remote, s)
  }

  lemma InitHolds(remote: RemoteBytes, s: Sys)
    requires Init(s) && CacheTrue(remote, s)
    ensures SysInv(remote, s) && ExactPart(s)
  {
    assert 1 in s.workers;
    forall v ensures BusyOn(s, v) == {} {}
  }

  lemma StepHolds(remote: RemoteBytes, s: Sys, step: Step)
    requires SysInv(remote, s) && Enabled(remote, s, step)
    ensures SysInv(remote, Apply(remote, s, step)) && Evolves(s.m, Apply(remote, s, step).m)
  {
    TaskPartKept(remote, s, step);
    WorkerPartKept(remote, s, step);
    SessionPartKept(remote, s, step);
    AwakeKept(remote, s, step);
    TruthPartKept(remote, s, step);
  }

  /** Every state of every run satisfies the invariant. */
  lemma {:induction false} EveryState(remote: RemoteBytes, run: seq<Sys>, steps: seq<Step>, i: nat)
    requires IsRun(remote, run, steps) && i < |run|
    ensures SysInv(remote, run[i])
  {
    if i == 0 {
      InitHolds(remote, run[0]);
    } else {
      EveryState(remote, run, steps, i - 1);
      assert StepAt(remote, run, steps, i - 1);
      StepHolds(remote, run[i - 1], steps[i - 1]);
    }
  }

  /** No stuck queue: in every open state of every run, a queued task that is neither finished nor
      cancelled implies a worker that is not waiting. */
  lemma NoStuck(remote: RemoteBytes, run: seq<Sys>, steps: seq<Step>, i: nat, id: int)
    requires IsRun(remote, run, steps) && i < |run| && !run[i].m.closed && LiveQueued(run[i], id)
    ensures exists w :: Moving(run[i], w)
  {
    EveryState(remote, run, steps, i);
  }

  /** Why a worker waits: after the step in which a worker starts to wait in an open manager, every live task in
      the queue is held back by its session's limit, and another worker is downloading for that session. */
  lemma WaitsOnlyForItsSession(remote: RemoteBytes, run: seq<Sys>, steps: seq<Step>, i: nat, w: int, id: int)
    requires IsRun(remote, run, steps) && i < |steps| && steps[i] == NextStep(w)
    requires !run[i + 1].m.closed && WaitingWorker(run[i + 1], w) && LiveQueued(run[i + 1], id)
    ensures Blocked(run[i + 1].m, id) && AnotherDownloads(run[i + 1], w, run[i + 1].m.table[id].key.version)
  {
    EveryState(remote, run, steps, i);
    assert StepAt(remote, run, steps, i);
    var s := run[i];
    ScanPass(s.m);
    var (n, r) := Scan(s.m, {});
    PassEvolves(s.m, n, r);
    PassHoldsBack(s, w, n, run[i + 1], id);
  }

  /** Task protocol in every state: a finished task has its channel closed exactly once, an unfinished one
      never; a chunk has at most one live task; and an unfinished task is either queued and unstarted,
      or in the hands of exactly one worker. */
  lemma TaskSafety(remote: RemoteBytes, run: seq<Sys>, steps: seq<Step>, i: nat, a: int, b: int)
    requires IsRun(remote, run, steps) && i < |run|
    requires a in run[i].m.table && b in run[i].m.table
    ensures var m := run[i].m;
      m.table[a].closes == (if m.table[a].finished then 1 else 0)
      && (m.table[a].key == m.table[b].key && m.table[a].Live() && m.table[b].Live() ==> a == b)
      && (!m.table[a].finished && !m.table[a].started ==> a in m.queue)
      && (!m.table[a].finished && m.table[a].started ==>
            a !in m.queue && exists w :: Runs(run[i], w, a) && forall v :: Runs(run[i], v, a) ==> v == w)
  {
    EveryState(remote, run, steps, i);
    assert TaskOk(run[i].m, {}, a) && TaskOk(run[i].m, {}, b);
    if !run[i].m.table[a].finished && run[i].m.table[a].started {
      assert Running(run[i], a);
      var w :| Runs(run[i], w, a);
    }
  }

  /** What asking for a chunk relies on: every unfinished task nobody has started is in the queue, so it
      can be promoted in place, and the next sequence number is unused. */
  lemma PromotionIsLegal(remote: RemoteBytes, run: seq<Sys>, steps: seq<Step>, i: nat)
    requires IsRun(remote, run, steps) && i < |run|
    ensures UnstartedQueued(run[i].m) && forall id :: id in run[i].m.table ==> id <= run[i].m.sequence
  {
    EveryState(remote, run, steps, i);
    forall id | id in run[i].m.table
      ensures id <= run[i].m.sequence && (!run[i].m.table[id].finished && !run[i].m.table[id].started ==> id in run[i].m.queue) {
      assert TaskOk(run[i].m, {}, id);
    }
  }

  lemma {:induction false} RunEvolves(remote: RemoteBytes, run: seq<Sys>, steps: seq<Step>, i: nat, j: nat)
    requires IsRun(remote, run, steps) && i <= j < |run|
    ensures Evolves(run[i].m, run[j].m)
    decreases j
  {
    if i < j {
      RunEvolves(remote, run, steps, i, j - 1);
      EveryState(remote, run, steps, j - 1);
      assert StepAt(remote, run, steps, j - 1);
      StepHolds(remote, run[j - 1], steps[j - 1]);
      EvolvesTransitive(run[i].m, run[j - 1].m, run[j].m);
    }
  }

  /** A published result never changes: whoever reads it later, from any later state, gets the same. */
  lemma PublishedForever(remote: RemoteBytes, run: seq<Sys>, steps: seq<Step>, i: nat, j: nat, id: int)
    requires IsRun(remote, run, steps) && i <= j < |run|
    requires id in run[i].m.table && run[i].m.table[id].finished
    ensures id in run[j].m.table && run[j].m.table[id].finished
    ensures run[j].m.table[id].result == run[i].m.table[id].result && run[j].m.table[id].closes == 1
  {
    RunEvolves(remote, run, steps, i, j);
    EveryState(remote, run, steps, i);
    assert TaskEvolves(run[i].m.table[id], run[j].m.table[id]);
    assert TaskOk(run[i].m, {}, id);
  }

  /** Whatever a waiter can be handed for a key, in any state of any run, is the true bytes of the chunk. */
  ghost predicate Answers(s: Sys, key: ChunkKey, data: Bytes)
  {
    (key in s.cache && s.cache[key] == data)
    || exists id :: id in s.m.table && s.m.table[id].key == key && s.m.table[id].result == Some(Ok(data))
  }

  lemma AnswersAreTrue(remote: RemoteBytes, run: seq<Sys>, steps: seq<Step>, i: nat, key: ChunkKey, data: Bytes)
    requires IsRun(remote, run, steps) && i < |run| && Answers(run[i], key, data)
    ensures KeyTrue(remote, run[i].m.cfg, key, data)
  {
    EveryState(remote, run, steps, i);
    var s := run[i];
    if !(key in s.cache && s.cache[key] == data) {
      var id :| id in s.m.table && s.m.table[id].key == key && s.m.table[id].result == Some(Ok(data));
      assert TaskTrue(remote, s.m.table[id]) && Shaped(s.m.cfg, s.m.table[id]);
      TaskDataTrue(remote, s.m.cfg, s.m.table[id]);
    }
  }

  // ---------- accounting ----------

  ghost predicate DisciplinedRun(run: seq<Sys>, steps: seq<Step>)
    requires |run| == |steps| + 1
  {
    forall i :: 0 <= i < |steps| ==> Disciplined(run[i], steps[i])
  }

  lemma ExactStep(remote: RemoteBytes, run: seq<Sys>, steps: seq<Step>, i: nat)
    requires IsRun(remote, run, steps) && DisciplinedRun(run, steps) && i < |steps|
    requires SysInv(remote, run[i]) && ExactPart(run[i])
    ensures ExactPart(run[i + 1])
  {
    assert StepAt(remote, run, steps, i) && Disciplined(run[i], steps[i]);
    ExactPartKept(remote, run[i], steps[i]);
  }

  lemma {:induction false} ExactEverywhere(remote: RemoteBytes, run: seq<Sys>, steps: seq<Step>, i: nat)
    requires IsRun(remote, run, steps) && DisciplinedRun(run, steps) && i < |run|
    ensures ExactPart(run[i])
  {
    if i == 0 {
      InitHolds(remote, run[0]);
    } else {
      ExactEverywhere(remote, run, steps, i - 1);
      EveryState(remote, run, steps, i - 1);
      ExactStep(remote, run, steps, i - 1);
    }
  }

  /** Session accounting in every state of every run in which chunks are asked for on behalf of handles
      that are not released: references count those handles, `inflight` counts the workers downloading,
      the streaming handle is one of those handles, and a version has a session as long as it has such a
      handle, such a worker, or a listed task. */
  lemma Accounting(remote: RemoteBytes, run: seq<Sys>, steps: seq<Step>, i: nat, v: string)
    requires IsRun(remote, run, steps) && DisciplinedRun(run, steps) && i < |run|
    ensures v in run[i].m.sessions ==>
      run[i].m.sessions[v].refs == |RefsOf(run[i], v)|
      && run[i].m.sessions[v].inflight == |BusyOn(run[i], v)|
      && (run[i].m.sessions[v].active != 0 ==> run[i].m.sessions[v].active in RefsOf(run[i], v))
    ensures v !in run[i].m.sessions ==>
      RefsOf(run[i], v) == {} && BusyOn(run[i], v) == {} && !Unfinished(run[i].m, v)
  {
    ExactEverywhere(remote, run, steps, i);
    EveryState(remote, run, steps, i);
    var s := run[i];
    assert Inflight(s, v) == |BusyOn(s, v)|;
    if v in s.m.sessions {
      assert SessionOk(s, v);
    } else {
      forall h | h in s.handles && s.handles[h].phase != Released ensures VersionOf(s, h) != v {
        assert VersionOf(s, h) in s.m.sessions;
      }
    }
  }

  /** Without that discipline the count can be wrong, for every file. A reader starts a read, its handle is
      released before it asks for its chunk, and with the handle the session is deleted. The chunk's download
      starts uncounted, and a handle opened later finds a session that counts nothing. */
  lemma LateReadIsNotCounted(remote: RemoteBytes, file: File) returns (run: seq<Sys>, steps: seq<Step>)
    requires NumericFsid(file.fsid)
    ensures IsRun(remote, run, steps) && !DisciplinedRun(run, steps)
    ensures |steps| == 7 && steps[1] == ReadStep(1, 0, 1) && steps[2] == BeginRelease(1) && 1 in run[2].handles
      && steps[4] == EnsureStep(file, 0, run[2].handles[1].state.epoch, FOREGROUND, None)
    ensures var v := ChunkVersion(file, run[0].m.cfg.chunkSize);
      v in run[3].m.sessions && v !in run[4].m.sessions
    ensures var s := run[7];
      var v := ChunkVersion(file, s.m.cfg.chunkSize);
      v in s.m.sessions && s.m.sessions[v].inflight == 0 && |BusyOn(s, v)| == 1
  {
    var first := LateBeginning(remote, file);
    var last := LateEnd(remote, file, first[4]);
    var asked := [EnsureStep(file, 0, 0, FOREGROUND, None), NextStep(1), OpenStep(file)];
    run, steps := first + last[1..], [OpenStep(file), ReadStep(1, 0, 1), BeginRelease(1), EndRelease(1)] + asked;
    PathsJoin(remote, first, [OpenStep(file), ReadStep(1, 0, 1), BeginRelease(1), EndRelease(1)], last, asked);
    LateIsUncounted(file, last[2], last[3]);
    LateIsLate(run, steps);
  }

  ghost predicate IsPath(remote: RemoteBytes, run: seq<Sys>, steps: seq<Step>)
  {
    |run| == |steps| + 1 && forall i :: 0 <= i < |steps| ==> StepAt(remote, run, steps, i)
  }

  lemma PathsJoin(remote: RemoteBytes, a: seq<Sys>, p: seq<Step>, b: seq<Sys>, q: seq<Step>)
    requires IsPath(remote, a, p) && IsPath(remote, b, q) && a[|p|] == b[0]
    ensures IsPath(remote, a + b[1..], p + q)
    ensures Init(a[0]) && CacheTrue(remote, a[0]) ==> IsRun(remote, a + b[1..], p + q)
  {
    var run, steps := a + b[1..], p + q;
    forall i | 0 <= i < |steps| ensures StepAt(remote, run, steps, i) {
      if i < |p| { assert StepAt(remote, a, p, i); } else { assert StepAt(remote, b, q, i - |p|); }
    }
  }

  /** A handle is opened, starts a read, and is released. */
  lemma LateBeginning(remote: RemoteBytes, file: File) returns (run: seq<Sys>)
    requires NumericFsid(file.fsid)
    ensures IsPath(remote, run, [OpenStep(file), ReadStep(1, 0, 1), BeginRelease(1), EndRelease(1)])
    ensures |run| == 5 && Init(run[0]) && CacheTrue(remote, run[0]) && ValidConfig(run[0].m.cfg)
    ensures 1 in run[2].handles && run[2].handles[1].state.epoch == 0
    ensures run[3].m.sessions.Keys == {ChunkVersion(file, run[0].m.cfg.chunkSize)}
    ensures run[4].m == Mgr(run[0].m.cfg, map[], {}, map[], map[], false, 0, 1) && run[4].workers == map[1 := Ready]
    ensures run[4].handles.Keys == {1} && run[4].handles[1].phase == Released
  {
    var s0, s1, s2, s3, s4 := LateStates(remote, file);
    run := FourSteps(remote, s0, OpenStep(file), s1, ReadStep(1, 0, 1), s2, BeginRelease(1), s3, EndRelease(1), s4);
  }

  lemma LateStates(remote: RemoteBytes, file: File) returns (s: Sys, t: Sys, u: Sys, v: Sys, w: Sys)
    requires NumericFsid(file.fsid)
    ensures Enabled(remote, s, OpenStep(file)) && Apply(remote, s, OpenStep(file)) == t
    ensures Enabled(remote, t, ReadStep(1, 0, 1)) && Apply(remote, t, ReadStep(1, 0, 1)) == u
    ensures Enabled(remote, u, BeginRelease(1)) && Apply(remote, u, BeginRelease(1)) == v
    ensures Enabled(remote, v, EndRelease(1)) && Apply(remote, v, EndRelease(1)) == w
    ensures Init(s) && CacheTrue(remote, s) && ValidConfig(s.m.cfg)
    ensures 1 in u.handles && u.handles[1].state.epoch == 0 && v.m.sessions.Keys == {ChunkVersion(file, s.m.cfg.chunkSize)}
    ensures w.m == Mgr(s.m.cfg, map[], {}, map[], map[], false, 0, 1) && w.workers == map[1 := Ready]
    ensures w.handles.Keys == {1} && w.handles[1].phase == Released
  {
    var cfg := DEFAULT_CONFIG.(workers := 1, sessionWorkers := 1);
    s := Sys(Mgr(cfg, map[], {}, map[], map[], false, 0, 0), map[1 := Ready], map[], map[]);
    t := LateOpen(remote, file, s);
    u := FirstRead(remote, file, t);
    v := FirstRelease(remote, u);
    w := LastRelease(remote, file, v);
  }

  lemma FourSteps(remote: RemoteBytes, s: Sys, a: Step, t: Sys, b: Step, u: Sys, c: Step, v: Sys, d: Step, w: Sys)
    returns (run: seq<Sys>)
    requires Enabled(remote, s, a) && Apply(remote, s, a) == t && Enabled(remote, t, b) && Apply(remote, t, b) == u
    requires Enabled(remote, u, c) && Apply(remote, u, c) == v && Enabled(remote, v, d) && Apply(remote, v, d) == w
    ensures run == [s, t, u, v, w] && IsPath(remote, run, [a, b, c, d])
  {
    run := [s, t, u, v, w];
    var steps := [a, b, c, d];
    forall i | 0 <= i < 4 ensures StepAt(remote, run, steps, i) { assert i == 0 || i == 1 || i == 2 || i == 3; }
  }

  lemma FirstRelease(remote: RemoteBytes, s: Sys) returns (t: Sys)
    requires 1 in s.handles && s.handles[1].phase == Held
    ensures Enabled(remote, s, BeginRelease(1)) && t == Apply(remote, s, BeginRelease(1))
    ensures t == s.(handles := s.handles[1 := s.handles[1].(phase := Releasing)])
  {
    t := Apply(remote, s, BeginRelease(1));
  }

  /** Its chunk is asked for and taken, and the file is opened again. */
  lemma LateEnd(remote: RemoteBytes, file: File, s: Sys) returns (run: seq<Sys>)
    requires NumericFsid(file.fsid) && ValidConfig(s.m.cfg) && s.workers == map[1 := Ready]
    requires s.m == Mgr(s.m.cfg, map[], {}, map[], map[], false, 0, 1)
    ensures IsPath(remote, run, [EnsureStep(file, 0, 0, FOREGROUND, None), NextStep(1), OpenStep(file)])
    ensures |run| == 4 && run[0] == s && run[3].m.cfg == run[2].m.cfg == s.m.cfg
    ensures var v := ChunkVersion(file, run[2].m.cfg.chunkSize);
      run[3].m == run[2].m.(sessions := map[v := NEW_SESSION.(refs := 1)], nextHandle := run[3].m.nextHandle)
      && run[3].workers == map[1 := Busy(1)] && 1 in run[3].m.table && run[3].m.table[1].key.version == v
  {
    var task := NewTask(s.m.cfg, file, 0, 0, FOREGROUND);
    var t := s.(m := Mgr(s.m.cfg, map[1 := task], {1}, map[task.key := 1], map[], false, 1, 1));
    var u := t.(m := t.m.(queue := {}, table := map[1 := task.(started := true)]), workers := map[1 := Busy(1)]);
    LateAsk(remote, file, s, t);
    LateTake(remote, task, t, u);
    var w := LateOpen(remote, file, u);
    run := [s, t, u, w];
    var steps := [EnsureStep(file, 0, 0, FOREGROUND, None), NextStep(1), OpenStep(file)];
    forall i | 0 <= i < 3 ensures StepAt(remote, run, steps, i) { assert i == 0 || i == 1 || i == 2; }
  }

  lemma LateIsUncounted(file: File, s: Sys, t: Sys)
    requires var v := ChunkVersion(file, s.m.cfg.chunkSize);
      t.m == s.m.(sessions := map[v := NEW_SESSION.(refs := 1)], nextHandle := t.m.nextHandle)
      && t.workers == map[1 := Busy(1)] && 1 in t.m.table && t.m.table[1].key.version == v
    ensures BusyOn(t, ChunkVersion(file, s.m.cfg.chunkSize)) == {1}
  {
  }

  lemma LateIsLate(run: seq<Sys>, steps: seq<Step>)
    requires |run| == 8 && |steps| == 7 && steps[4].EnsureStep?
    requires forall h :: h in run[4].handles ==> run[4].handles[h].phase == Released
    ensures !DisciplinedRun(run, steps)
  {
    assert !Disciplined(run[4], steps[4]);
  }

  lemma LateOpen(remote: RemoteBytes, file: File, s: Sys) returns (t: Sys)
    requires NumericFsid(file.fsid) && !s.m.closed && s.m.sessions == map[]
    ensures Enabled(remote, s, OpenStep(file)) && t == Apply(remote, s, OpenStep(file))
    ensures var h := s.m.nextHandle + 1;
      t == s.(m := s.m.(sessions := map[ChunkVersion(file, s.m.cfg.chunkSize) := NEW_SESSION.(refs := 1)], nextHandle := h),
              handles := s.handles[h := Slot(NewHandle(file), Held)])
  {
    t := Apply(remote, s, OpenStep(file));
  }

  /** The first read of a file, of one byte, leaves its session as it was. */
  lemma FirstRead(remote: RemoteBytes, file: File, s: Sys) returns (t: Sys)
    requires 1 in s.handles && s.handles[1] == Slot(NewHandle(file), Held) && !s.m.closed
    requires s.m.sessions == map[ChunkVersion(file, s.m.cfg.chunkSize) := NEW_SESSION.(refs := 1)]
    ensures Enabled(remote, s, ReadStep(1, 0, 1)) && t == Apply(remote, s, ReadStep(1, 0, 1))
    ensures t.m == s.m && t.workers == s.workers && t.cache == s.cache && t.handles.Keys == s.handles.Keys
    ensures t.handles[1].phase == Held && t.handles[1].state.file == file && t.handles[1].state.epoch == 0
    ensures t.handles == s.handles[1 := t.handles[1]]
  {
    var (seen, observation) := Observe(s.m.cfg, NewHandle(file), 0, 1);
    FirstObserve(s.m.cfg, file);
    t := Apply(remote, s, ReadStep(1, 0, 1));
    var v := ChunkVersion(file, s.m.cfg.chunkSize);
    assert PreparedSession(s.m.cfg, s.m.sessions[v], 1, observation, 0, 1).0 == s.m.sessions[v];
    assert s.m.sessions[v := s.m.sessions[v]] == s.m.sessions;
  }

  lemma FirstObserve(cfg: Config, file: File)
    ensures var (seen, observation) := Observe(cfg, NewHandle(file), 0, 1);
      seen.file == file && observation == Observation(false, NoEvent, false)
  {
  }

  /** With its last handle an idle session goes. */
  lemma LastRelease(remote: RemoteBytes, file: File, s: Sys) returns (t: Sys)
    requires 1 in s.handles && s.handles[1].phase == Releasing && s.handles[1].state.file == file && s.m.tasks == map[]
    requires s.m.sessions == map[ChunkVersion(file, s.m.cfg.chunkSize) := NEW_SESSION.(refs := 1)]
    ensures Enabled(remote, s, EndRelease(1)) && t == Apply(remote, s, EndRelease(1))
    ensures t == s.(m := s.m.(sessions := map[]), handles := s.handles[1 := s.handles[1].(phase := Released)])
  {
    t := Apply(remote, s, EndRelease(1));
    var v := ChunkVersion(file, s.m.cfg.chunkSize);
    assert !Unfinished(s.m, v);
    assert s.m.sessions - {v} == map[];
  }

  lemma LateAsk(remote: RemoteBytes, file: File, s: Sys, t: Sys)
    requires NumericFsid(file.fsid) && ValidConfig(s.m.cfg) && s.workers == map[1 := Ready]
    requires s.m == Mgr(s.m.cfg, map[], {}, map[], map[], false, 0, 1)
    requires var task := NewTask(s.m.cfg, file, 0, 0, FOREGROUND);
      t == s.(m := Mgr(s.m.cfg, map[1 := task], {1}, map[task.key := 1], map[], false, 1, 1))
    ensures Enabled(remote, s, EnsureStep(file, 0, 0, FOREGROUND, None))
    ensures Apply(remote, s, EnsureStep(file, 0, 0, FOREGROUND, None)) == t
  {
    assert forall w :: !WaitingWorker(s, w);
  }

  lemma LateTake(remote: RemoteBytes, task: TaskState, s: Sys, t: Sys)
    requires task.Live() && s.workers == map[1 := Ready] && !s.m.closed
    requires s.m.table == map[1 := task] && s.m.queue == {1} && s.m.sessions == map[]
    requires t == s.(m := s.m.(queue := {}, table := map[1 := task.(started := true)]), workers := map[1 := Busy(1)])
    ensures Enabled(remote, s, NextStep(1)) && Apply(remote, s, NextStep(1)) == t
  {
    TakesTheOnlyTask(s.m, 1);
  }

  lemma TakesTheOnlyTask(m: Mgr, id: int)
    requires m.queue == {id} && id in m.table && m.table[id].Live() && m.sessions == map[]
    ensures Scan(m, {}) == (Start(m.(queue := {}), id).(queue := {}), Some(id))
  {
    assert Least(m, m.queue) == id;
    var rest := m.queue - {id};
    assert rest == {} && rest + {} == {};
    var n := m.(queue := rest);
    assert !Blocked(n, id);
    assert Scan(m, {}) == (Start(n, id).(queue := n.queue + {}), Some(id));
  }
}
