/** What each critical section of the engine does, said of the fields of tasks and sessions alone; and what the worker
    limits mean for whole runs. */
module EngineLaws {
  import opened Content
  import opened Naming
  import opened StreamState
  import opened TaskProtocol
  import opened StreamSystem
  import opened StreamSafety
  import opened StreamSessions
  import opened StreamRuns
  import opened StreamTheorems
  import opened StreamEpochs

  // ---------- the worker limits ----------

  predicate Streams(m: Mgr, v: string) { v in m.sessions && m.sessions[v].refs > 0 && m.sessions[v].active != 0 }

  /** At most one session is open with a handle that streams. */
  ghost predicate OneStream(m: Mgr) { forall v, w :: Streams(m, v) && Streams(m, w) ==> v == w }

  /** A task that no limit concerns: for a reader, or of a version without a session. */
  predicate Unlimited(m: Mgr, id: int)
    requires id in m.table
  {
    m.table[id].priority == FOREGROUND || m.table[id].key.version !in m.sessions
  }

  function Downloads(m: Mgr, id: int): int
    requires id in m.table && !Unlimited(m, id)
  {
    m.sessions[m.table[id].key.version].inflight
  }

  predicate Queued(m: Mgr, id: int) { id in m.queue && id in m.table && m.table[id].Live() }

  /** With one stream, or none, a pass goes by the number of all workers. */
  lemma OneStreamPass(m: Mgr)
    requires Inv(m) && OneStream(m)
    ensures var r := Scan(m, {}).1;
      && (r.Some? ==> Queued(m, r.value) && (Unlimited(m, r.value) || Downloads(m, r.value) < m.cfg.workers))
      && (r.None? <==> forall id :: Queued(m, id) ==> !Unlimited(m, id) && Downloads(m, id) >= m.cfg.workers)
  {
    ScanPass(m);
    assert !Competing(m) by {
      if Competing(m) {
        var v, w :| v in m.sessions && w in m.sessions && v != w && Competes(m.sessions[v]) && Competes(m.sessions[w]);
        assert Streams(m, v) && Streams(m, w);
      }
    }
    PassByLimit(m, m.cfg.workers);
  }

  /** With two streams it goes by the smaller number for each session. */
  lemma TwoStreamsPass(m: Mgr, v: string, w: string)
    requires Inv(m) && Streams(m, v) && Streams(m, w) && v != w
    ensures var r := Scan(m, {}).1;
      && (r.Some? ==> Queued(m, r.value) && (Unlimited(m, r.value) || Downloads(m, r.value) < m.cfg.sessionWorkers))
      && (r.None? <==> forall id :: Queued(m, id) ==> !Unlimited(m, id) && Downloads(m, id) >= m.cfg.sessionWorkers)
  {
    ScanPass(m);
    assert Competes(m.sessions[v]) && Competes(m.sessions[w]);
    PassByLimit(m, m.cfg.sessionWorkers);
  }

  lemma PassByLimit(m: Mgr, limit: int)
    requires Inv(m) && limit == SessionLimit(m) && PassSpec(m, {}, Scan(m, {}).0, Scan(m, {}).1)
    ensures var r := Scan(m, {}).1;
      && (r.Some? ==> Queued(m, r.value) && (Unlimited(m, r.value) || Downloads(m, r.value) < limit))
      && (r.None? <==> forall id :: Queued(m, id) ==> !Unlimited(m, id) && Downloads(m, id) >= limit)
  {
    var r := Scan(m, {}).1;
    forall id | Queued(m, id) ensures Blocked(m, id) <==> !Unlimited(m, id) && Downloads(m, id) >= limit {}
  }

  /** What a pass takes comes first: nothing in the queue that might run is more urgent, or as urgent and older. */
  lemma TakesTheFirst(m: Mgr, id: int, other: int)
    requires Inv(m) && Scan(m, {}).1 == Some(id) && Queued(m, other) && other != id
    requires Unlimited(m, other) || (OneStream(m) && Downloads(m, other) < m.cfg.workers) || Downloads(m, other) < m.cfg.sessionWorkers
    requires m.cfg.sessionWorkers <= m.cfg.workers
    ensures id in m.table && (m.table[id].priority < m.table[other].priority
                              || (m.table[id].priority == m.table[other].priority && id < other))
  {
    ScanPass(m);
    assert PassChoice(m, Some(id));
    if OneStream(m) {
      assert !Competing(m) by {
        if Competing(m) {
          var v, w :| v in m.sessions && w in m.sessions && v != w && Competes(m.sessions[v]) && Competes(m.sessions[w]);
          assert Streams(m, v) && Streams(m, w);
        }
      }
    }
    assert !Blocked(m, other);
  }

  lemma {:induction false} KeysStay(remote: RemoteBytes, run: seq<Sys>, steps: seq<Step>, i: nat)
    requires IsRun(remote, run, steps) && i < |run|
    ensures run[i].workers.Keys == run[0].workers.Keys && run[i].m.cfg == run[0].m.cfg
  {
    if i > 0 {
      KeysStay(remote, run, steps, i - 1);
      EveryState(remote, run, steps, i - 1);
      assert StepAt(remote, run, steps, i - 1);
      WorkerKeys(remote, run[i - 1], steps[i - 1]);
      TaskPartKept(remote, run[i - 1], steps[i - 1]);
    }
  }

  lemma WorkerKeys(remote: RemoteBytes, s: Sys, step: Step)
    requires Enabled(remote, s, step)
    ensures Apply(remote, s, step).workers.Keys == s.workers.Keys
  {
  }

  lemma {:induction false} CountTo(n: nat) returns (s: set<int>)
    ensures |s| == n && forall i :: i in s <==> 1 <= i <= n
  {
    if n == 0 {
      s := {};
    } else {
      var t := CountTo(n - 1);
      s := t + {n};
    }
  }

  /** As many workers as configured, one of which is not busy: fewer than all are. */
  lemma FewerBusy(s: Sys, v: string, w: int, n: nat)
    requires (forall x :: x in s.workers <==> 1 <= x <= n) && w in s.workers && !s.workers[w].Busy?
    ensures |BusyOn(s, v)| < n
  {
    var all := CountTo(n);
    SubsetSize(BusyOn(s, v), all - {w});
  }

  /** One stream gets all workers: with at most one session streaming, no worker starts to wait while a live task is
      queued; in every run in which chunks are asked for on behalf of handles that are not released. */
  lemma OneStreamUsesAll(remote: RemoteBytes, run: seq<Sys>, steps: seq<Step>, i: nat, w: int)
    requires IsRun(remote, run, steps) && DisciplinedRun(run, steps) && i < |steps| && steps[i] == NextStep(w)
    requires !run[i].m.closed && OneStream(run[i].m)
    requires w in run[i + 1].workers && run[i + 1].workers[w] == Waiting
    ensures forall id :: !Queued(run[i].m, id)
  {
    var s := run[i];
    EveryState(remote, run, steps, i);
    ExactEverywhere(remote, run, steps, i);
    KeysStay(remote, run, steps, i);
    assert StepAt(remote, run, steps, i);
    OneStreamPass(s.m);
    forall id ensures !Queued(s.m, id) {
      if Queued(s.m, id) {
        assert !Unlimited(s.m, id) && Downloads(s.m, id) >= s.m.cfg.workers;
        var v := s.m.table[id].key.version;
        assert Inflight(s, v) == |BusyOn(s, v)|;
        FewerBusy(s, v, w, s.m.cfg.workers);
      }
    }
  }

  /** With two streams a worker that finds nothing leaves only background tasks of sessions that have as many
      downloads as the smaller number; and none of these sessions ever gets one more by a pass. */
  lemma TwoStreamsShare(remote: RemoteBytes, run: seq<Sys>, steps: seq<Step>, i: nat, w: int, a: string, b: string)
    requires IsRun(remote, run, steps) && DisciplinedRun(run, steps) && i < |steps| && steps[i] == NextStep(w)
    requires !run[i].m.closed && Streams(run[i].m, a) && Streams(run[i].m, b) && a != b
    ensures w in run[i + 1].workers
    ensures run[i + 1].workers[w] == Waiting ==> forall id :: Queued(run[i].m, id) ==>
        !Unlimited(run[i].m, id) && |BusyOn(run[i], run[i].m.table[id].key.version)| >= run[i].m.cfg.sessionWorkers
    ensures run[i + 1].workers[w].Busy? ==>
      var id := run[i + 1].workers[w].task;
      Queued(run[i].m, id)
      && (Unlimited(run[i].m, id) || |BusyOn(run[i], run[i].m.table[id].key.version)| < run[i].m.cfg.sessionWorkers)
  {
    var s := run[i];
    EveryState(remote, run, steps, i);
    ExactEverywhere(remote, run, steps, i);
    assert StepAt(remote, run, steps, i);
    TwoStreamsPass(s.m, a, b);
    forall id | id in s.m.table ensures Inflight(s, s.m.table[id].key.version) == |BusyOn(s, s.m.table[id].key.version)| {}
  }

  // ---------- asking for a chunk ----------

  /** The chunk has a live task, which is then the listed one. */
  predicate HasLive(m: Mgr, key: ChunkKey)
  {
    key in m.tasks && m.tasks[key] in m.table && !m.table[m.tasks[key]].finished && !m.table[m.tasks[key]].cancelled
  }

  /** A request for a chunk. While there is a live task, that is joined, and made more urgent if it is not started;
      otherwise there is a new one, as asked for. */
  lemma RequestLaw(m: Mgr, file: File, index: int, epoch: int, priority: Priority)
    requires Inv(m) && m.cfg.chunkSize > 0
    ensures var key := ChunkKey(ChunkVersion(file, m.cfg.chunkSize), index);
      var start, end := index * m.cfg.chunkSize, (index + 1) * m.cfg.chunkSize;
      var (n, e) := Ensure(m, file, index, epoch, priority);
      if m.closed then n == m && e == Closed
      else if HasLive(m, key) then
        var id := m.tasks[key];
        e == Joined(id)
        && n == m.(table := m.table[id := m.table[id].(
             priority := if !m.table[id].started && priority < m.table[id].priority then priority else m.table[id].priority)])
      else if file.size > 0 && file.size <= start then n == m && e == Empty
      else
        var id := m.sequence + 1;
        e == Created(id) && id !in m.table
        && n == m.(sequence := id, queue := m.queue + {id}, tasks := m.tasks[key := id],
                   table := m.table[id := TaskState(key, file, start, (if file.size > 0 && file.size < end then file.size else end) - start,
                                                    epoch, priority, false, false, false, 0, None, false, false)])
  {
    var key := ChunkKey(ChunkVersion(file, m.cfg.chunkSize), index);
    assert (index + 1) * m.cfg.chunkSize == index * m.cfg.chunkSize + m.cfg.chunkSize;
    if HasLive(m, key) { assert m.table[m.tasks[key] := m.table[m.tasks[key]]] == m.table; }
    FreshNumber(m);
  }

  lemma FreshNumber(m: Mgr)
    requires Inv(m)
    ensures m.sequence + 1 !in m.table
  {
  }

  // ---------- results ----------

  /** A worker hands in: an unfinished task is finished with exactly this result, and is listed no more; a finished one
      is left as it is. */
  lemma HandInLaw(m: Mgr, id: int, r: Result)
    requires id in m.table
    ensures var t, n := m.table[id], HandIn(m, id, r);
      && n == m.(table := n.table, tasks := n.tasks, sessions := n.sessions)
      && n.table == m.table[id := if t.finished then t else t.(finished := true, closes := t.closes + 1, result := Some(r))]
      && n.tasks == (if !t.finished && t.key in m.tasks && m.tasks[t.key] == id then m.tasks - {t.key} else m.tasks)
  {
    var u := Uncount(m, id);
    assert m.table[id := m.table[id]] == m.table;
    if !m.table[id].finished { FinishLaw(u, id, r); }
    CleanupExact(if m.table[id].finished then u else Finish(u, id, r), m.table[id].key.version);
  }

  lemma FinishLaw(m: Mgr, id: int, r: Result)
    requires id in m.table
    ensures var t, n := m.table[id], Finish(m, id, r);
      && n == m.(table := m.table[id := t.(finished := true, closes := t.closes + 1, result := Some(r))], tasks := n.tasks)
      && n.tasks == (if t.key in m.tasks && m.tasks[t.key] == id then m.tasks - {t.key} else m.tasks)
  {
  }

  /** A hedge that publishes first finishes the task with its bytes and cancels the original; after that, nothing. */
  lemma PublishLaw(m: Mgr, id: int, data: Bytes)
    requires Inv(m) && id in m.table
    ensures var t, n := m.table[id], PublishHedge(m, id, data);
      && n == m.(table := n.table, tasks := n.tasks)
      && n.table == m.table[id := if t.finished then t
                                  else t.(finished := true, cancelled := true, closes := t.closes + 1, result := Some(Ok(data)))]
      && n.tasks == (if !t.finished && t.key in m.tasks && m.tasks[t.key] == id then m.tasks - {t.key} else m.tasks)
  {
    if m.table[id].finished { assert m.table[id := m.table[id]] == m.table; }
  }

  // ---------- opening, releasing, closing ----------

  /** Releasing a handle: one reference less, and, if the session follows this handle, a new epoch in which it follows
      none. Which tasks that cancels is said elsewhere. */
  lemma ReleaseLaw(m: Mgr, h: int, file: File)
    ensures var v, n := ChunkVersion(file, m.cfg.chunkSize), Release(m, h, file);
      && n == m.(sessions := n.sessions, table := n.table)
      && (v !in m.sessions ==> n == m)
      && (v in m.sessions && m.sessions[v].active != h ==> n.table == m.table)
      && (forall u :: u in n.sessions ==> u in m.sessions)
      && (forall u :: u in n.sessions && u != v ==> n.sessions[u] == m.sessions[u])
      && (forall u :: u in m.sessions && u !in n.sessions ==> u == v && m.sessions[u].refs <= 1 && m.sessions[u].inflight <= 0)
      && (v in n.sessions ==>
            n.sessions[v] == m.sessions[v].(
              refs := if m.sessions[v].refs > 0 then m.sessions[v].refs - 1 else m.sessions[v].refs,
              epoch := if m.sessions[v].active == h then m.sessions[v].epoch + 1 else m.sessions[v].epoch,
              active := if m.sessions[v].active == h then 0 else m.sessions[v].active))
  {
  }

  /** A session that follows the handle that is released follows none afterwards, in a new epoch, or is gone; and its
      background work is cancelled; in every run. */
  lemma ReleaseEndsStream(remote: RemoteBytes, run: seq<Sys>, steps: seq<Step>, i: nat, h: int)
    requires IsRun(remote, run, steps) && i < |steps| && steps[i] == EndRelease(h) && h in run[i].handles
    requires var s, v := run[i], VersionOf(run[i], h); v in s.m.sessions && s.m.sessions[v].active == h
    ensures var s, t, v := run[i], run[i + 1], VersionOf(run[i], h);
      && (v in t.m.sessions ==> t.m.sessions[v].active == 0 && t.m.sessions[v].epoch == s.m.sessions[v].epoch + 1)
      && (forall id :: id in s.m.table && s.m.table[id].Live() && s.m.table[id].key.version == v
                       && s.m.table[id].epoch <= s.m.sessions[v].epoch && s.m.table[id].priority != FOREGROUND ==>
            (id in t.m.table && t.m.table[id].cancelled))
  {
    var s, v := run[i], VersionOf(run[i], h);
    var file := s.handles[h].state.file;
    EveryState(remote, run, steps, i);
    assert StepAt(remote, run, steps, i);
    ReleaseLaw(s.m, h, file);
    forall id | id in s.m.table { ReleaseCancelsExactly(s.m, h, file, id); }
  }

  /** What a worker hands in for an unfinished task is its result in every later state. */
  lemma HandInIsForever(remote: RemoteBytes, run: seq<Sys>, steps: seq<Step>, i: nat, j: nat, w: int, r: Result)
    requires IsRun(remote, run, steps) && i < |steps| && i < j < |run| && steps[i] == HandInStep(w, r)
    requires w in run[i].workers && run[i].workers[w].Busy? && run[i].workers[w].task in run[i].m.table
    requires !run[i].m.table[run[i].workers[w].task].finished
    ensures var id := run[i].workers[w].task; id in run[j].m.table && run[j].m.table[id].finished && run[j].m.table[id].result == Some(r)
  {
    var id := run[i].workers[w].task;
    assert StepAt(remote, run, steps, i);
    HandInLaw(run[i].m, id, r);
    PublishedForever(remote, run, steps, i + 1, j, id);
  }

  /** So it is with the bytes of a hedge that is first, which also cancels the original. */
  lemma PublishIsForever(remote: RemoteBytes, run: seq<Sys>, steps: seq<Step>, i: nat, j: nat, id: int, data: Bytes)
    requires IsRun(remote, run, steps) && i < |steps| && i < j < |run| && steps[i] == PublishStep(id, data)
    requires id in run[i].m.table && !run[i].m.table[id].finished
    ensures id in run[j].m.table && run[j].m.table[id].cancelled && run[j].m.table[id].result == Some(Ok(data))
  {
    assert StepAt(remote, run, steps, i);
    EveryState(remote, run, steps, i);
    PublishLaw(run[i].m, id, data);
    PublishedForever(remote, run, steps, i + 1, j, id);
    RunEvolves(remote, run, steps, i + 1, j);
  }

  /** After closing every task is cancelled and there never is a new one. */
  lemma {:induction false} ClosedForEver(remote: RemoteBytes, run: seq<Sys>, steps: seq<Step>, i: nat, j: nat)
    requires IsRun(remote, run, steps) && i < |steps| && i < j < |run| && steps[i] == CloseStep
    ensures run[j].m.closed && run[j].m.table.Keys == run[i].m.table.Keys
    ensures forall id :: id in run[j].m.table ==> run[j].m.table[id].cancelled
    decreases j
  {
    assert StepAt(remote, run, steps, j - 1);
    if i + 1 < j {
      ClosedForEver(remote, run, steps, i, j - 1);
      EveryState(remote, run, steps, j - 1);
      StepKeeps(remote, run[j - 1], steps[j - 1]);
      var s, t := run[j - 1], run[j];
      if steps[j - 1].EnsureStep? { assert t.m == s.m; }
      forall id | id in t.m.table ensures t.m.table[id].cancelled { assert TaskEvolves(s.m.table[id], t.m.table[id]); }
    } else {
      CloseLaw(run[i].m);
    }
  }

  lemma CloseLaw(m: Mgr)
    ensures var n := CloseAll(m);
      && n == m.(closed := true, table := n.table) && n.closed && n.table.Keys == m.table.Keys
      && forall id :: id in m.table ==> n.table[id] == m.table[id].(cancelled := true)
  {
  }
}
