/** What every critical section keeps about tasks: single flight, exactly one close per finished
    task, and a queue that holds every task nobody has started. */
module TaskProtocol {
  import opened Content
  import opened Naming
  import opened StreamState

  // ---------- the invariant ----------

  ghost predicate ListedOk(m: Mgr)
  {
    forall key :: key in m.tasks ==>
      m.tasks[key] in m.table && m.table[m.tasks[key]].key == key && !m.table[m.tasks[key]].finished
  }

  /** The channel of a task is closed once if the task is finished and never otherwise. */
  ghost predicate ClosedOnce(t: TaskState)
  {
    t.closes == (if t.finished then 1 else 0) && (t.result.Some? <==> t.finished)
  }

  ghost predicate Shaped(cfg: Config, t: TaskState)
  {
    && t.key.version == ChunkVersion(t.file, cfg.chunkSize)
    && t.offset == t.key.index * cfg.chunkSize
    && t.length == ChunkLength(cfg, t.file, t.key.index) > 0
  }

  /** One task's part of the invariant; `held` are the tasks a worker has taken off the queue and will put back. */
  ghost predicate TaskOk(m: Mgr, held: set<int>, id: int)
    requires id in m.table
  {
    && 1 <= id <= m.sequence
    && ClosedOnce(m.table[id])
    && (m.table[id].Live() ==> m.table[id].key in m.tasks && m.tasks[m.table[id].key] == id)
    && (!m.table[id].finished && !m.table[id].started ==> id in m.queue || id in held)
    && (id in m.queue || id in held ==> !m.table[id].started)
  }

  ghost predicate InvHolding(m: Mgr, held: set<int>)
  {
    && m.sequence >= 0 && ListedOk(m)
    && m.queue <= m.table.Keys && held <= m.table.Keys && m.queue !! held
    && forall id :: id in m.table ==> TaskOk(m, held, id)
  }

  ghost predicate Inv(m: Mgr) { InvHolding(m, {}) }

  ghost predicate Shapes(m: Mgr)
  {
    forall id :: id in m.table ==> Shaped(m.cfg, m.table[id])
  }

  /** What no step takes back: identity, urgency, cancellation, start, and a published result. */
  ghost predicate Evolves(m: Mgr, n: Mgr)
  {
    && m.cfg == n.cfg && m.sequence <= n.sequence && (m.closed ==> n.closed)
    && forall id :: id in m.table ==> id in n.table && TaskEvolves(m.table[id], n.table[id])
  }

  ghost predicate TaskEvolves(t: TaskState, u: TaskState)
  {
    && t.key == u.key && t.file == u.file && t.offset == u.offset && t.length == u.length && t.epoch == u.epoch
    && (t.cancelled ==> u.cancelled) && (t.started ==> u.started) && u.priority <= t.priority
    && (t.finished ==> u.finished && u.closes == t.closes && u.result == t.result)
  }

  /** No task is started. */
  ghost predicate SameStarts(m: Mgr, n: Mgr)
  {
    forall id :: id in n.table && n.table[id].started ==> id in m.table && m.table[id].started
  }

  lemma EvolvesTransitive(a: Mgr, b: Mgr, c: Mgr)
    requires Evolves(a, b) && Evolves(b, c)
    ensures Evolves(a, c)
    ensures SameStarts(a, b) && SameStarts(b, c) ==> SameStarts(a, c)
  {
    forall id | id in a.table ensures id in c.table && TaskEvolves(a.table[id], c.table[id]) {
      assert id in b.table && TaskEvolves(a.table[id], b.table[id]);
    }
  }

  /** Single flight: a chunk has at most one task that is neither finished nor cancelled. */
  lemma SingleFlight(m: Mgr, a: int, b: int)
    requires Inv(m) && a in m.table && b in m.table
    requires m.table[a].key == m.table[b].key && m.table[a].Live() && m.table[b].Live()
    ensures a == b
  {
  }

  // ---------- building blocks ----------

  lemma CleanupKeeps(m: Mgr, held: set<int>, version: string)
    requires InvHolding(m, held)
    ensures InvHolding(Cleanup(m, version), held) && Evolves(m, Cleanup(m, version)) && SameStarts(m, Cleanup(m, version))
  {
    SameTasks(m, Cleanup(m, version), held);
  }

  /** Steps that touch only sessions keep every task as it is. */
  lemma SameTasks(m: Mgr, n: Mgr, held: set<int>)
    requires InvHolding(m, held)
    requires n == m.(sessions := n.sessions, nextHandle := n.nextHandle)
    ensures InvHolding(n, held) && Evolves(m, n) && SameStarts(m, n)
  {
    forall id | id in n.table ensures TaskOk(n, held, id) { assert TaskOk(m, held, id); }
  }

  /** Steps that rewrite one task in place. */
  lemma OneTask(m: Mgr, n: Mgr, held: set<int>, id: int)
    requires InvHolding(m, held) && id in m.table && id in n.table
    requires n == m.(table := m.table[id := n.table[id]])
    requires TaskEvolves(m.table[id], n.table[id]) && m.table[id].finished == n.table[id].finished
    requires m.table[id].cancelled == n.table[id].cancelled || m.table[id].finished
    requires m.table[id].started == n.table[id].started
    requires m.table[id].closes == n.table[id].closes && m.table[id].result == n.table[id].result
    ensures InvHolding(n, held) && Evolves(m, n) && SameStarts(m, n)
  {
    assert TaskOk(m, held, id);
    forall o | o in n.table ensures TaskOk(n, held, o) { assert TaskOk(m, held, o); }
  }

  lemma FinishKeeps(m: Mgr, held: set<int>, id: int, r: Result)
    requires InvHolding(m, held) && id in m.table && !m.table[id].finished
    ensures InvHolding(Finish(m, id, r), held) && Evolves(m, Finish(m, id, r)) && SameStarts(m, Finish(m, id, r))
    ensures forall key :: key in Finish(m, id, r).tasks <==> key in m.tasks && m.tasks[key] != id
    ensures forall key :: key in Finish(m, id, r).tasks ==> Finish(m, id, r).tasks[key] == m.tasks[key]
  {
    var n := Finish(m, id, r);
    FinishLists(m, id, r);
    forall o | o in n.table ensures TaskOk(n, held, o) { FinishTaskOk(m, held, id, r, o); }
  }

  lemma FinishLists(m: Mgr, id: int, r: Result)
    requires ListedOk(m) && id in m.table
    ensures forall key :: key in Finish(m, id, r).tasks <==> key in m.tasks && m.tasks[key] != id
    ensures forall key :: key in Finish(m, id, r).tasks ==> Finish(m, id, r).tasks[key] == m.tasks[key]
  {
    forall key | key in m.tasks && m.tasks[key] == id ensures key == m.table[id].key {}
  }

  lemma FinishTaskOk(m: Mgr, held: set<int>, id: int, r: Result, o: int)
    requires InvHolding(m, held) && id in m.table && !m.table[id].finished && o in m.table
    ensures TaskOk(Finish(m, id, r), held, o)
  {
    FinishLists(m, id, r);
    assert TaskOk(m, held, id) && TaskOk(m, held, o);
  }

  lemma CancelOlderKeeps(m: Mgr, version: string, epoch: int)
    requires Inv(m)
    ensures Inv(CancelOlder(m, version, epoch)) && Evolves(m, CancelOlder(m, version, epoch))
    ensures SameStarts(m, CancelOlder(m, version, epoch))
  {
    var n := CancelOlder(m, version, epoch);
    forall id | id in n.table ensures TaskOk(n, {}, id) { assert TaskOk(m, {}, id); }
  }

  /** An epoch bump cancels exactly the version's unfinished tasks of older epochs that are not
      queued as foreground, and changes nothing else. */
  lemma CancelOlderExact(m: Mgr, version: string, epoch: int, id: int)
    requires Inv(m) && id in m.table
    ensures var n := CancelOlder(m, version, epoch);
      n == m.(table := n.table) && n.table.Keys == m.table.Keys
      && n.table[id] == m.table[id].(cancelled := n.table[id].cancelled)
      && (n.table[id].cancelled <==>
           (m.table[id].cancelled
            || (m.table[id].Live() && m.table[id].key.version == version
                && m.table[id].epoch < epoch && m.table[id].priority != FOREGROUND)))
  {
    assert TaskOk(m, {}, id);
  }

  // ---------- critical sections ----------

  lemma EnsureKeeps(m: Mgr, file: File, index: int, epoch: int, priority: Priority)
    requires Inv(m)
    ensures var n := Ensure(m, file, index, epoch, priority).0; Inv(n) && Evolves(m, n) && SameStarts(m, n)
  {
    var (n, e) := Ensure(m, file, index, epoch, priority);
    var key := ChunkKey(ChunkVersion(file, m.cfg.chunkSize), index);
    if e.Joined? {
      assert TaskOk(m, {}, e.id);
      if n != m { OneTask(m, n, {}, e.id); }
    } else if e.Created? {
      forall id | id in m.table ensures id != e.id { assert TaskOk(m, {}, id); }
      forall id | id in n.table ensures TaskOk(n, {}, id) {
        if id != e.id { assert TaskOk(m, {}, id); }
      }
    }
  }

  lemma EnsureShapes(m: Mgr, file: File, index: int, epoch: int, priority: Priority)
    requires Inv(m) && Shapes(m)
    ensures Shapes(Ensure(m, file, index, epoch, priority).0)
  {
  }

  /** The caller of Ensure gets the one live task of its chunk; while that task is queued it is at
      least as urgent as the caller asked for. A task is created exactly when the chunk had no live one. */
  lemma EnsureGives(m: Mgr, file: File, index: int, epoch: int, priority: Priority)
    requires Inv(m) && !m.closed && ChunkLength(m.cfg, file, index) > 0
    ensures var (n, e) := Ensure(m, file, index, epoch, priority);
      (e.Joined? || e.Created?) && e.id in n.table && n.table[e.id].Live()
      && n.table[e.id].key == ChunkKey(ChunkVersion(file, m.cfg.chunkSize), index)
      && (!n.table[e.id].started ==> e.id in n.queue && n.table[e.id].priority <= priority)
      && (e.Created? <==> forall id :: id in m.table && m.table[id].key == n.table[e.id].key ==> !m.table[id].Live())
  {
    var (n, e) := Ensure(m, file, index, epoch, priority);
    if e.Joined? { assert TaskOk(m, {}, e.id); }
    forall id | id in m.table && e.Created? && m.table[id].key == n.table[e.id].key ensures !m.table[id].Live() {
      assert TaskOk(m, {}, id);
    }
  }

  lemma HandInKeeps(m: Mgr, id: int, r: Result)
    requires Inv(m) && id in m.table
    ensures Inv(HandIn(m, id, r)) && Evolves(m, HandIn(m, id, r)) && SameStarts(m, HandIn(m, id, r))
  {
    var n := Uncount(m, id);
    SameTasks(m, n, {});
    var k := if m.table[id].finished then n else Finish(n, id, r);
    if !m.table[id].finished { FinishKeeps(n, {}, id, r); }
    CleanupKeeps(k, {}, m.table[id].key.version);
    EvolvesTransitive(m, n, k);
    EvolvesTransitive(m, k, HandIn(m, id, r));
  }

  lemma PublishHedgeKeeps(m: Mgr, id: int, data: Bytes)
    requires Inv(m) && id in m.table
    ensures Inv(PublishHedge(m, id, data)) && Evolves(m, PublishHedge(m, id, data)) && SameStarts(m, PublishHedge(m, id, data))
  {
    if !m.table[id].finished {
      var n := Finish(m, id, Ok(data));
      FinishKeeps(m, {}, id, Ok(data));
      OneTask(n, PublishHedge(m, id, data), {}, id);
      EvolvesTransitive(m, n, PublishHedge(m, id, data));
    }
  }

  lemma FlagsKeep(m: Mgr, id: int)
    requires Inv(m) && id in m.table
    ensures Inv(StartHedge(m, id)) && Evolves(m, StartHedge(m, id)) && SameStarts(m, StartHedge(m, id))
    ensures Inv(MarkForeground(m, id)) && Evolves(m, MarkForeground(m, id)) && SameStarts(m, MarkForeground(m, id))
  {
    if StartHedge(m, id) != m { OneTask(m, StartHedge(m, id), {}, id); }
    if MarkForeground(m, id) != m { OneTask(m, MarkForeground(m, id), {}, id); }
  }

  lemma CloseAllKeeps(m: Mgr)
    requires Inv(m)
    ensures Inv(CloseAll(m)) && Evolves(m, CloseAll(m)) && SameStarts(m, CloseAll(m))
  {
    var n := CloseAll(m);
    forall id | id in n.table ensures TaskOk(n, {}, id) { assert TaskOk(m, {}, id); }
  }

  lemma OpenKeeps(m: Mgr, file: File)
    requires Inv(m)
    ensures Inv(Open(m, file)) && Evolves(m, Open(m, file)) && SameStarts(m, Open(m, file))
  {
    SameTasks(m, Open(m, file), {});
  }

  lemma CancelIfKeeps(bump: bool, m: Mgr, version: string, epoch: int)
    requires Inv(m)
    ensures Inv(CancelIf(bump, m, version, epoch)) && Evolves(m, CancelIf(bump, m, version, epoch))
    ensures SameStarts(m, CancelIf(bump, m, version, epoch))
  {
    CancelOlderKeeps(m, version, epoch);
  }

  lemma ReleaseKeeps(m: Mgr, handle: int, file: File)
    requires Inv(m)
    ensures Inv(Release(m, handle, file)) && Evolves(m, Release(m, handle, file)) && SameStarts(m, Release(m, handle, file))
  {
    var v := ChunkVersion(file, m.cfg.chunkSize);
    if v in m.sessions {
      var s := ReleasedSession(m.sessions[v], handle);
      var bump := Holds(m.sessions[v], handle);
      var n := SetSession(m, v, s);
      var c := CancelIf(bump, n, v, s.epoch);
      SameTasks(m, n, {});
      CancelIfKeeps(bump, n, v, s.epoch);
      EvolvesTransitive(m, n, c);
      CleanupKeeps(c, {}, v);
      EvolvesTransitive(m, c, Cleanup(c, v));
    }
  }

  lemma PrepareKeeps(m: Mgr, handle: int, file: File, seen: Observation, offset: int, length: int)
    requires Inv(m)
    ensures Inv(Prepare(m, handle, file, seen, offset, length).0)
    ensures Evolves(m, Prepare(m, handle, file, seen, offset, length).0) && SameStarts(m, Prepare(m, handle, file, seen, offset, length).0)
  {
    var v := ChunkVersion(file, m.cfg.chunkSize);
    var (s, plan, bump) := PreparedSession(m.cfg, SessionOrNew(m, v), handle, seen, offset, length);
    var c := CancelIf(bump, m, v, s.epoch);
    CancelIfKeeps(bump, m, v, s.epoch);
    SameTasks(c, SetSession(c, v, s), {});
    EvolvesTransitive(m, c, SetSession(c, v, s));
  }

  // ---------- what critical sections leave alone ----------

  /** No task changes its priority. */
  ghost predicate SamePriorities(m: Mgr, n: Mgr)
  {
    forall id :: id in m.table && id in n.table ==> n.table[id].priority == m.table[id].priority
  }

  /** The same queue, the same openness, the same tasks with the same priorities, and no task listed that was not. */
  ghost predicate Frame(m: Mgr, n: Mgr)
  {
    && n.queue == m.queue && n.closed == m.closed && n.table.Keys == m.table.Keys && SamePriorities(m, n)
    && forall key :: key in n.tasks ==> key in m.tasks && n.tasks[key] == m.tasks[key]
  }

  /** No result appears, and if `data` is given, none but that of one task. */
  ghost predicate ResultsFrame(m: Mgr, n: Mgr, id: int, r: Option<Result>)
  {
    forall o :: o in m.table && o in n.table ==> n.table[o].result == m.table[o].result || (o == id && r.Some? && n.table[o].result == r)
  }

  /** No task but this one changes. */
  ghost predicate OnlyRow(m: Mgr, n: Mgr, id: int)
  {
    n.table.Keys == m.table.Keys && forall o :: o in m.table && o != id ==> n.table[o] == m.table[o]
  }

  lemma CleanupFrame(m: Mgr, v: string)
    ensures Frame(m, Cleanup(m, v)) && Cleanup(m, v).table == m.table
  {
  }

  lemma FinishFrame(m: Mgr, id: int, r: Result)
    requires id in m.table
    ensures Frame(m, Finish(m, id, r)) && ResultsFrame(m, Finish(m, id, r), id, Some(r)) && Finish(m, id, r).sessions == m.sessions
    ensures OnlyRow(m, Finish(m, id, r), id) && Finish(m, id, r).table[id].finished
  {
  }

  lemma HandInFrame(m: Mgr, id: int, r: Result)
    requires id in m.table
    ensures Frame(m, HandIn(m, id, r)) && ResultsFrame(m, HandIn(m, id, r), id, Some(r))
    ensures OnlyRow(m, HandIn(m, id, r), id) && HandIn(m, id, r).table[id].finished
  {
    var n := Uncount(m, id);
    if !m.table[id].finished { FinishFrame(n, id, r); }
    CleanupFrame(if m.table[id].finished then n else Finish(n, id, r), m.table[id].key.version);
  }

  lemma CancelIfFrame(bump: bool, m: Mgr, v: string, epoch: int)
    ensures var n := CancelIf(bump, m, v, epoch); Frame(m, n) && ResultsFrame(m, n, 0, None) && n.sessions == m.sessions
  {
  }

  lemma ReleaseFrame(m: Mgr, h: int, file: File)
    ensures Frame(m, Release(m, h, file)) && ResultsFrame(m, Release(m, h, file), 0, None)
  {
    var v := ChunkVersion(file, m.cfg.chunkSize);
    if v in m.sessions {
      var e := ReleasedSession(m.sessions[v], h);
      CancelIfFrame(Holds(m.sessions[v], h), SetSession(m, v, e), v, e.epoch);
      CleanupFrame(CancelIf(Holds(m.sessions[v], h), SetSession(m, v, e), v, e.epoch), v);
    }
  }

  lemma PrepareFrame(m: Mgr, h: int, file: File, seen: Observation, offset: int, length: int)
    ensures var n := Prepare(m, h, file, seen, offset, length).0; Frame(m, n) && ResultsFrame(m, n, 0, None)
  {
    var v := ChunkVersion(file, m.cfg.chunkSize);
    var (s, plan, bump) := PreparedSession(m.cfg, SessionOrNew(m, v), h, seen, offset, length);
    CancelIfFrame(bump, m, v, s.epoch);
  }

  lemma PublishFrame(m: Mgr, id: int, data: Bytes)
    requires id in m.table
    ensures Frame(m, PublishHedge(m, id, data)) && ResultsFrame(m, PublishHedge(m, id, data), id, Some(Ok(data)))
    ensures PublishHedge(m, id, data).sessions == m.sessions
  {
    if !m.table[id].finished { FinishFrame(m, id, Ok(data)); }
  }

  lemma FlagsFrame(m: Mgr, id: int)
    requires id in m.table
    ensures Frame(m, MarkForeground(m, id)) && ResultsFrame(m, MarkForeground(m, id), 0, None)
    ensures Frame(m, StartHedge(m, id)) && ResultsFrame(m, StartHedge(m, id), 0, None)
    ensures MarkForeground(m, id).sessions == m.sessions && StartHedge(m, id).sessions == m.sessions
  {
  }

  // ---------- a worker's pass over the queue ----------

  /** The tasks a pass takes off the queue for good: those reached before its result that are no longer live. */
  ghost predicate Dropped(m: Mgr, r: Option<int>, id: int)
    requires id in m.table && (r.Some? ==> r.value in m.table)
  {
    !m.table[id].Live() && (r.None? || Before(m, id, r.value))
  }

  /** What a worker's pass promises. The taken task is the least one that may run; every live task
      stays queued; dropped tasks are finished, by the pass itself if they were only cancelled. */
  ghost predicate PassSpec(m: Mgr, held: set<int>, n: Mgr, r: Option<int>)
    requires m.queue <= m.table.Keys && ListedOk(m)
  {
    && PassChoice(m, r)
    && n.queue == held + (set u | u in m.queue && r != Some(u) && !Dropped(m, r, u))
    && n.table.Keys == m.table.Keys
    && (forall u :: u in m.table ==> n.table[u] == PassTask(m, r, u))
    && (forall key :: key in n.tasks <==> key in m.tasks && !PassTask(m, r, m.tasks[key]).finished)
    && (forall key :: key in n.tasks ==> n.tasks[key] == m.tasks[key])
    && PassSessions(m, n, r)
    && n == m.(queue := n.queue, table := n.table, tasks := n.tasks, sessions := n.sessions)
  }

  /** The taken task is the (priority, sequence)-least live task that its session lets run; nothing
      is taken only when every live queued task is held back. */
  ghost predicate PassChoice(m: Mgr, r: Option<int>)
    requires m.queue <= m.table.Keys
  {
    && (r.Some? ==> r.value in m.queue && m.table[r.value].Live() && !Blocked(m, r.value))
    && (r.Some? ==> forall u :: u in m.queue && u != r.value && m.table[u].Live() && !Blocked(m, u) ==> Before(m, r.value, u))
    && (r.None? ==> forall u :: u in m.queue && m.table[u].Live() ==> Blocked(m, u))
  }

  ghost predicate PassSessions(m: Mgr, n: Mgr, r: Option<int>)
    requires r.Some? ==> r.value in m.table
  {
    && (forall v :: v in n.sessions ==> v in m.sessions && n.sessions[v] == PassSession(m, r, v))
    && (forall v :: v in m.sessions && v !in n.sessions ==>
          m.sessions[v].refs <= 0 && m.sessions[v].inflight <= 0 && !Unfinished(n, v)
          && (r.Some? ==> v != m.table[r.value].key.version))
  }

  ghost function PassTask(m: Mgr, r: Option<int>, u: int): TaskState
    requires u in m.table && (r.Some? ==> r.value in m.table)
  {
    var t := m.table[u];
    if r == Some(u) then t.(started := true)
    else if u in m.queue && !t.finished && Dropped(m, r, u)
    then t.(finished := true, closes := t.closes + 1, result := Some(Err(Canceled)))
    else t
  }

  ghost function PassSession(m: Mgr, r: Option<int>, v: string): SessionState
    requires v in m.sessions && (r.Some? ==> r.value in m.table)
  {
    var s := m.sessions[v];
    if r.Some? && m.table[r.value].key.version == v then s.(inflight := s.inflight + 1) else s
  }

  // The proof follows the pass: Mid says what a partial pass from m over part of the queue has done.

  ghost predicate Reached(m: Mgr, n: Mgr, u: int) { u in m.queue && u !in n.queue }

  ghost function MidTask(m: Mgr, n: Mgr, u: int): TaskState
    requires u in m.table
  {
    var t := m.table[u];
    if Reached(m, n, u) && !t.finished && t.cancelled
    then t.(finished := true, closes := t.closes + 1, result := Some(Err(Canceled)))
    else t
  }

  ghost predicate MidTasks(m: Mgr, n: Mgr)
    requires ListedOk(m) && n.table.Keys == m.table.Keys
  {
    && (forall u :: u in m.table ==> n.table[u] == MidTask(m, n, u))
    && (forall key :: key in n.tasks <==> key in m.tasks && !n.table[m.tasks[key]].finished)
    && (forall key :: key in n.tasks ==> n.tasks[key] == m.tasks[key])
  }

  ghost predicate MidSessions(m: Mgr, n: Mgr)
  {
    && (forall v :: v in n.sessions ==> v in m.sessions && n.sessions[v] == m.sessions[v])
    && (forall v :: v in m.sessions && v !in n.sessions ==>
          m.sessions[v].refs <= 0 && m.sessions[v].inflight <= 0 && !Unfinished(n, v))
  }

  ghost predicate MidQueue(m: Mgr, held: set<int>, n: Mgr, taken: set<int>)
    requires n.table.Keys == m.table.Keys && m.queue <= m.table.Keys
  {
    && n.queue <= m.queue
    && (forall a, b :: Reached(m, n, a) && b in n.queue ==> Before(m, a, b))
    && (forall a :: Reached(m, n, a) && m.table[a].Live() ==> Blocked(m, a))
    && taken == held + (set a | a in m.queue && a !in n.queue && m.table[a].Live())
  }

  ghost predicate Mid(m: Mgr, held: set<int>, n: Mgr, taken: set<int>)
  {
    && InvHolding(m, held) && InvHolding(n, taken)
    && n.table.Keys == m.table.Keys
    && n == m.(queue := n.queue, table := n.table, tasks := n.tasks, sessions := n.sessions)
    && MidTasks(m, n) && MidSessions(m, n) && MidQueue(m, held, n, taken)
  }

  lemma MidLimit(m: Mgr, held: set<int>, n: Mgr, taken: set<int>)
    requires Mid(m, held, n, taken)
    ensures SessionLimit(n) == SessionLimit(m)
  {
    if Competing(m) {
      var v, w :| v in m.sessions && w in m.sessions && v != w && Competes(m.sessions[v]) && Competes(m.sessions[w]);
      assert v in n.sessions && w in n.sessions;
    }
  }

  lemma MidBlocked(m: Mgr, held: set<int>, n: Mgr, taken: set<int>, u: int)
    requires Mid(m, held, n, taken) && u in n.queue && m.table[u].Live()
    ensures Blocked(n, u) == Blocked(m, u) && n.table[u] == m.table[u]
    ensures m.table[u].key.version in m.sessions <==> m.table[u].key.version in n.sessions
  {
    MidLimit(m, held, n, taken);
    assert TaskOk(m, held, u);
    var v := m.table[u].key.version;
    if v in m.sessions && v !in n.sessions {
      assert Unfinished(n, v) by { assert m.table[u].key in n.tasks; }
    }
  }

  lemma PopFinished(m: Mgr, held: set<int>, id: int)
    requires InvHolding(m, held) && id in m.queue && m.table[id].finished
    ensures InvHolding(m.(queue := m.queue - {id}), held)
  {
    var n := m.(queue := m.queue - {id});
    forall o | o in n.table ensures TaskOk(n, held, o) { assert TaskOk(m, held, o); }
  }

  /** A finished task leaves the queue. */
  lemma MidPop(m: Mgr, held: set<int>, n: Mgr, taken: set<int>, id: int)
    requires Mid(m, held, n, taken) && IsLeast(n, n.queue, id) && n.table[id].finished
    ensures Mid(m, held, n.(queue := n.queue - {id}), taken)
  {
    PopFinished(n, taken, id);
    var p := n.(queue := n.queue - {id});
    forall a, b | Reached(m, p, a) && b in p.queue ensures Before(m, a, b) {
      if a == id { assert Before(n, id, b); }
    }
    forall v | v in m.sessions && v !in p.sessions ensures !Unfinished(p, v) {}
  }

  /** The queue part of one step of a pass, whatever the step does to the task. */
  lemma MidQueueStep(m: Mgr, held: set<int>, n: Mgr, p: Mgr, taken: set<int>, id: int)
    requires n.table.Keys == m.table.Keys == p.table.Keys && m.queue <= m.table.Keys
    requires MidQueue(m, held, n, taken) && p.queue == n.queue - {id} && id in n.queue
    requires forall b :: b in n.queue && b != id ==> Before(m, id, b)
    requires m.table[id].Live() ==> Blocked(m, id)
    ensures MidQueue(m, held, p, if m.table[id].Live() then taken + {id} else taken)
  {
    forall a, b | Reached(m, p, a) && b in p.queue ensures Before(m, a, b) {
      if a != id { assert Reached(m, n, a); }
    }
    forall a | Reached(m, p, a) && m.table[a].Live() ensures Blocked(m, a) {
      if a != id { assert Reached(m, n, a); }
    }
  }

  lemma MidLeast(m: Mgr, held: set<int>, n: Mgr, taken: set<int>, id: int)
    requires Mid(m, held, n, taken) && IsLeast(n, n.queue, id)
    ensures forall b :: b in n.queue && b != id ==> Before(m, id, b)
    ensures n.table[id].Live() <==> m.table[id].Live()
    ensures n.table[id] == m.table[id]
  {
    forall b | b in n.queue && b != id ensures Before(m, id, b) { assert Before(n, id, b); }
  }

  /** A cancelled task leaves the queue and is finished. */
  lemma MidFinish(m: Mgr, held: set<int>, n: Mgr, taken: set<int>, id: int)
    requires Mid(m, held, n, taken) && IsLeast(n, n.queue, id) && !n.table[id].finished && n.table[id].cancelled
    ensures Mid(m, held, Finish(n, id, Err(Canceled)).(queue := n.queue - {id}), taken)
  {
    var p := Finish(n, id, Err(Canceled)).(queue := n.queue - {id});
    FinishPopInv(n, taken, id);
    MidLeast(m, held, n, taken, id);
    MidQueueStep(m, held, n, p, taken, id);
    MidFinishTasks(m, n, p, id);
    MidFinishSessions(m, n, p, id);
  }

  lemma FinishPopInv(n: Mgr, taken: set<int>, id: int)
    requires InvHolding(n, taken) && id in n.queue && !n.table[id].finished
    ensures var p := Finish(n, id, Err(Canceled)).(queue := n.queue - {id});
      && InvHolding(p, taken) && n.table.Keys == p.table.Keys
      && (forall key :: key in p.tasks <==> key in n.tasks && n.tasks[key] != id)
      && (forall key :: key in p.tasks ==> p.tasks[key] == n.tasks[key])
  {
    FinishKeeps(n, taken, id, Err(Canceled));
    PopFinished(Finish(n, id, Err(Canceled)), taken, id);
  }

  lemma MidFinishSessions(m: Mgr, n: Mgr, p: Mgr, id: int)
    requires MidSessions(m, n) && id in n.table && p.sessions == n.sessions
    requires p.table == n.table[id := n.table[id].(finished := true, closes := n.table[id].closes + 1, result := Some(Err(Canceled)))]
    requires forall key :: key in p.tasks ==> key in n.tasks && p.tasks[key] == n.tasks[key]
    ensures MidSessions(m, p)
  {
    forall v | v in m.sessions && v !in p.sessions ensures !Unfinished(p, v) { assert !Unfinished(n, v); }
  }

  lemma MidFinishTasks(m: Mgr, n: Mgr, p: Mgr, id: int)
    requires ListedOk(m) && n.table.Keys == m.table.Keys && MidTasks(m, n)
    requires id in n.queue && n.queue <= m.queue <= m.table.Keys
    requires p.queue == n.queue - {id} && !n.table[id].finished && n.table[id].cancelled
    requires p.table == n.table[id := n.table[id].(finished := true, closes := n.table[id].closes + 1, result := Some(Err(Canceled)))]
    requires forall key :: key in p.tasks <==> key in n.tasks && n.tasks[key] != id
    requires forall key :: key in p.tasks ==> p.tasks[key] == n.tasks[key]
    ensures p.table.Keys == m.table.Keys && MidTasks(m, p)
  {
    assert p.table.Keys == m.table.Keys;
    forall u | u in m.table ensures p.table[u] == MidTask(m, p, u) {
      assert n.table[u] == MidTask(m, n, u);
    }
    forall key | key in m.tasks ensures key in p.tasks <==> !p.table[m.tasks[key]].finished {
      assert key in n.tasks <==> !n.table[m.tasks[key]].finished;
    }
    forall key | key in p.tasks ensures key in m.tasks && p.tasks[key] == m.tasks[key] {
      assert key in n.tasks;
    }
  }

  lemma MidCleanup(m: Mgr, held: set<int>, n: Mgr, taken: set<int>, v: string)
    requires Mid(m, held, n, taken)
    ensures Mid(m, held, Cleanup(n, v), taken)
  {
    var p := Cleanup(n, v);
    CleanupKeeps(n, taken, v);
    MidCleanupSessions(m, n, v);
    assert p == n.(sessions := p.sessions);
  }

  lemma MidCleanupSessions(m: Mgr, n: Mgr, v: string)
    requires MidSessions(m, n)
    ensures MidSessions(m, Cleanup(n, v))
  {
    var p := Cleanup(n, v);
    forall u | u in m.sessions && u !in p.sessions ensures !Unfinished(p, u) { assert Unfinished(p, u) == Unfinished(n, u); }
  }

  /** A blocked task moves from the queue to the tasks that go back later. */
  lemma MidSkip(m: Mgr, held: set<int>, n: Mgr, taken: set<int>, id: int)
    requires Mid(m, held, n, taken) && IsLeast(n, n.queue, id) && n.table[id].Live() && Blocked(n, id)
    ensures Mid(m, held, n.(queue := n.queue - {id}), taken + {id})
  {
    var p := n.(queue := n.queue - {id});
    MidBlocked(m, held, n, taken, id);
    MidLeast(m, held, n, taken, id);
    MidQueueStep(m, held, n, p, taken, id);
    assert InvHolding(p, taken + {id}) by {
      forall o | o in p.table ensures TaskOk(p, taken + {id}, o) { assert TaskOk(n, taken, o); }
    }
    MidSkipTasks(m, n, p, id);
  }

  lemma MidSkipTasks(m: Mgr, n: Mgr, p: Mgr, id: int)
    requires ListedOk(m) && n.table.Keys == m.table.Keys && id in m.table && m.table[id].Live()
    requires MidTasks(m, n) && MidSessions(m, n) && p == n.(queue := n.queue - {id})
    ensures MidTasks(m, p) && MidSessions(m, p)
  {
    forall u | u in m.table ensures p.table[u] == MidTask(m, p, u) { assert n.table[u] == MidTask(m, n, u); }
    forall v | v in m.sessions && v !in p.sessions ensures !Unfinished(p, v) { assert !Unfinished(n, v); }
  }

  lemma MidNone(m: Mgr, held: set<int>, n: Mgr, taken: set<int>)
    requires Mid(m, held, n, taken) && n.queue == {}
    ensures PassSpec(m, held, n.(queue := taken), None) && InvHolding(n.(queue := taken), {})
  {
    var p := n.(queue := taken);
    forall o | o in p.table ensures TaskOk(p, {}, o) { assert TaskOk(n, taken, o); }
    forall v | v in m.sessions && v !in p.sessions ensures !Unfinished(p, v) {}
  }

  lemma MidTakeInv(n: Mgr, taken: set<int>, id: int, p: Mgr)
    requires InvHolding(n, taken) && id in n.queue && n.table[id].Live()
    requires p == n.(table := n.table[id := n.table[id].(started := true)], queue := n.queue - {id} + taken, sessions := p.sessions)
    ensures InvHolding(p, {})
  {
    forall o | o in p.table ensures TaskOk(p, {}, o) { assert TaskOk(n, taken, o); }
  }

  lemma MidTakeTable(m: Mgr, n: Mgr, id: int, p: Mgr)
    requires ListedOk(m) && n.table.Keys == m.table.Keys && MidTasks(m, n)
    requires id in n.queue && n.queue <= m.queue <= m.table.Keys && m.table[id].Live()
    requires forall a, b :: Reached(m, n, a) && b in n.queue ==> Before(m, a, b)
    requires forall b :: b in n.queue && b != id ==> Before(m, id, b)
    requires p.table == n.table[id := n.table[id].(started := true)] && p.tasks == n.tasks
    ensures forall u :: u in m.table ==> p.table[u] == PassTask(m, Some(id), u)
    ensures forall u :: u in m.queue && u != id ==> (Dropped(m, Some(id), u) <==> Reached(m, n, u) && !m.table[u].Live())
    ensures forall key :: key in p.tasks <==> key in m.tasks && !PassTask(m, Some(id), m.tasks[key]).finished
  {
    forall u | u in m.queue && u != id ensures Before(m, u, id) <==> Reached(m, n, u) {
      if !Reached(m, n, u) { assert Before(m, id, u); }
    }
    forall u | u in m.table ensures p.table[u] == PassTask(m, Some(id), u) {
      assert n.table[u] == MidTask(m, n, u);
    }
  }

  lemma MidTakeChoice(m: Mgr, held: set<int>, n: Mgr, taken: set<int>, id: int)
    requires n.table.Keys == m.table.Keys && m.queue <= m.table.Keys && MidQueue(m, held, n, taken)
    requires id in n.queue && m.table[id].Live() && !Blocked(m, id)
    requires forall b :: b in n.queue && b != id ==> Before(m, id, b)
    ensures PassChoice(m, Some(id))
  {
    forall u | u in m.queue && u != id && m.table[u].Live() && !Blocked(m, u) ensures Before(m, id, u) {
      assert !Reached(m, n, u);
    }
  }

  lemma MidTakeParts(m: Mgr, held: set<int>, n: Mgr, taken: set<int>, id: int, p: Mgr)
    requires Mid(m, held, n, taken) && IsLeast(n, n.queue, id) && n.table[id].Live() && !Blocked(n, id)
    requires p == Start(n.(queue := n.queue - {id}), id).(queue := n.queue - {id} + taken)
    ensures m.queue <= m.table.Keys && ListedOk(m) && id in m.table && p.table.Keys == m.table.Keys
    ensures n.table.Keys == m.table.Keys && MidTasks(m, n)
    ensures n == m.(queue := n.queue, table := n.table, tasks := n.tasks, sessions := n.sessions)
    ensures p == n.(queue := p.queue, table := p.table, sessions := p.sessions)
    ensures PassChoice(m, Some(id)) && n.table[id] == m.table[id]
    ensures m.table[id].key.version in m.sessions <==> m.table[id].key.version in n.sessions
    ensures p.queue == held + (set u | u in m.queue && Some(id) != Some(u) && !Dropped(m, Some(id), u))
    ensures forall u :: u in m.table ==> p.table[u] == PassTask(m, Some(id), u)
    ensures forall key :: key in p.tasks <==> key in m.tasks && !PassTask(m, Some(id), m.tasks[key]).finished
  {
    MidLeast(m, held, n, taken, id);
    MidBlocked(m, held, n, taken, id);
    MidTakeTable(m, n, id, p);
    MidTakeChoice(m, held, n, taken, id);
    MidTakeQueue(m, held, n, taken, id);
  }

  lemma MidTake(m: Mgr, held: set<int>, n: Mgr, taken: set<int>, id: int)
    requires Mid(m, held, n, taken) && IsLeast(n, n.queue, id) && n.table[id].Live() && !Blocked(n, id)
    ensures var p := Start(n.(queue := n.queue - {id}), id).(queue := n.queue - {id} + taken);
      PassSpec(m, held, p, Some(id))
  {
    var p := Start(n.(queue := n.queue - {id}), id).(queue := n.queue - {id} + taken);
    MidTakeParts(m, held, n, taken, id, p);
    MidTakeSessions(m, n, id, p);
    TakeSpec(m, held, n, taken, id, p);
  }

  /** What a pass that takes a task leaves in the queue. */
  lemma MidTakeQueue(m: Mgr, held: set<int>, n: Mgr, taken: set<int>, id: int)
    requires n.table.Keys == m.table.Keys && m.queue <= m.table.Keys && MidQueue(m, held, n, taken)
    requires id in n.queue && m.table[id].Live()
    requires forall u :: u in m.queue && u != id ==> (Dropped(m, Some(id), u) <==> Reached(m, n, u) && !m.table[u].Live())
    ensures n.queue - {id} + taken == held + (set u | u in m.queue && Some(id) != Some(u) && !Dropped(m, Some(id), u))
  {
  }

  lemma TakeSpec(m: Mgr, held: set<int>, n: Mgr, taken: set<int>, id: int, p: Mgr)
    requires m.queue <= m.table.Keys && ListedOk(m) && id in m.table && p.table.Keys == m.table.Keys
    requires n.table.Keys == m.table.Keys && MidTasks(m, n)
    requires n == m.(queue := n.queue, table := n.table, tasks := n.tasks, sessions := n.sessions)
    requires p == n.(queue := p.queue, table := p.table, sessions := p.sessions)
    requires PassChoice(m, Some(id)) && PassSessions(m, p, Some(id))
    requires p.queue == held + (set u | u in m.queue && Some(id) != Some(u) && !Dropped(m, Some(id), u))
    requires forall u :: u in m.table ==> p.table[u] == PassTask(m, Some(id), u)
    requires forall key :: key in p.tasks <==> key in m.tasks && !PassTask(m, Some(id), m.tasks[key]).finished
    ensures PassSpec(m, held, p, Some(id))
  {
    forall key | key in p.tasks ensures p.tasks[key] == m.tasks[key] { assert key in n.tasks; }
  }

  lemma MidTakeSessions(m: Mgr, n: Mgr, id: int, p: Mgr)
    requires MidSessions(m, n) && id in n.table && id in m.table && n.table[id].Live() && n.table[id] == m.table[id]
    requires m.table[id].key.version in m.sessions <==> m.table[id].key.version in n.sessions
    requires p.sessions == Start(n.(queue := n.queue - {id}), id).sessions
    requires p.table == n.table[id := n.table[id].(started := true)] && p.tasks == n.tasks
    ensures PassSessions(m, p, Some(id))
  {
    forall v | v in m.sessions && v !in p.sessions ensures !Unfinished(p, v) { assert !Unfinished(n, v); }
  }

  ghost predicate Takes(n: Mgr, id: int)
    requires id in n.table
  {
    n.table[id].Live() && !Blocked(n, id)
  }

  /** A pass step that takes nothing. */
  ghost function ScanStep(n: Mgr, taken: set<int>, id: int): (Mgr, set<int>)
    requires id in n.table
  {
    var p := n.(queue := n.queue - {id});
    if n.table[id].finished then (p, taken)
    else if n.table[id].cancelled then (Discard(p, id), taken)
    else (p, taken + {id})
  }

  lemma ScanUnfold(n: Mgr, taken: set<int>, id: int)
    requires n.queue != {} && n.queue <= n.table.Keys && id == Least(n, n.queue)
    ensures ScanStep(n, taken, id).0.queue == n.queue - {id} && n.table.Keys == ScanStep(n, taken, id).0.table.Keys
    ensures Scan(n, taken) ==
      if Takes(n, id) then (Start(n.(queue := n.queue - {id}), id).(queue := n.queue - {id} + taken), Some(id))
      else Scan(ScanStep(n, taken, id).0, ScanStep(n, taken, id).1)
  {
    BlockedAtLimit(n, id);
  }

  lemma MidStep(m: Mgr, held: set<int>, n: Mgr, taken: set<int>, id: int)
    requires Mid(m, held, n, taken) && IsLeast(n, n.queue, id) && !Takes(n, id)
    ensures Mid(m, held, ScanStep(n, taken, id).0, ScanStep(n, taken, id).1)
  {
    var p := n.(queue := n.queue - {id});
    if n.table[id].finished {
      MidPop(m, held, n, taken, id);
      MidSame(m, held, p, taken, ScanStep(n, taken, id));
    } else if n.table[id].cancelled {
      MidFinish(m, held, n, taken, id);
      var f := Finish(n, id, Err(Canceled)).(queue := n.queue - {id});
      MidCleanup(m, held, f, taken, n.table[id].key.version);
      DiscardPopped(n, id);
      MidSame(m, held, Cleanup(f, n.table[id].key.version), taken, ScanStep(n, taken, id));
    } else {
      MidSkip(m, held, n, taken, id);
      MidSame(m, held, p, taken + {id}, ScanStep(n, taken, id));
    }
  }

  lemma MidSame(m: Mgr, held: set<int>, n: Mgr, taken: set<int>, step: (Mgr, set<int>))
    requires Mid(m, held, n, taken) && step == (n, taken)
    ensures Mid(m, held, step.0, step.1)
  {
  }

  /** Taking a task off the queue and finishing it can be done in either order. */
  lemma DiscardPopped(n: Mgr, id: int)
    requires id in n.table && !n.table[id].finished
    ensures Discard(n.(queue := n.queue - {id}), id)
      == Cleanup(Finish(n, id, Err(Canceled)).(queue := n.queue - {id}), n.table[id].key.version)
  {
    FinishPopped(n, id, n.queue - {id}, Err(Canceled));
  }

  lemma FinishPopped(n: Mgr, id: int, queue: set<int>, r: Result)
    requires id in n.table
    ensures Finish(n.(queue := queue), id, r) == Finish(n, id, r).(queue := queue)
  {
  }

  lemma {:induction false} ScanFrom(m: Mgr, held: set<int>, n: Mgr, taken: set<int>)
    requires Mid(m, held, n, taken)
    ensures var (k, r) := Scan(n, taken); PassSpec(m, held, k, r) && InvHolding(k, {})
    decreases |n.queue|
  {
    if n.queue == {} {
      MidNone(m, held, n, taken);
    } else {
      var id := Least(n, n.queue);
      ScanUnfold(n, taken, id);
      if Takes(n, id) {
        MidTake(m, held, n, taken, id);
        MidTakeInv(n, taken, id, Start(n.(queue := n.queue - {id}), id).(queue := n.queue - {id} + taken));
      } else {
        MidStep(m, held, n, taken, id);
        ScanFrom(m, held, ScanStep(n, taken, id).0, ScanStep(n, taken, id).1);
      }
    }
  }

  lemma BlockedAtLimit(n: Mgr, id: int)
    requires id in n.table
    ensures Blocked(n.(queue := n.queue - {id}), id) == Blocked(n, id)
  {
    var p := n.(queue := n.queue - {id});
    assert SessionLimit(p) == SessionLimit(n);
  }

  /** A worker's pass does what PassSpec says and keeps the invariant, from every state. */
  lemma ScanPass(m: Mgr)
    requires Inv(m)
    ensures var (n, r) := Scan(m, {}); PassSpec(m, {}, n, r) && Inv(n)
  {
    assert Mid(m, {}, m, {});
    ScanFrom(m, {}, m, {});
  }

  lemma PassEvolves(m: Mgr, n: Mgr, r: Option<int>)
    requires Inv(m) && PassSpec(m, {}, n, r)
    ensures Evolves(m, n)
  {
    forall u | u in m.table ensures u in n.table && TaskEvolves(m.table[u], n.table[u]) {
      assert n.table[u] == PassTask(m, r, u);
    }
  }

  lemma EvolvesShapes(m: Mgr, n: Mgr)
    requires Evolves(m, n) && Shapes(m) && n.table.Keys == m.table.Keys
    ensures Shapes(n)
  {
    forall id | id in n.table ensures Shaped(n.cfg, n.table[id]) {
      assert Shaped(m.cfg, m.table[id]) && TaskEvolves(m.table[id], n.table[id]);
    }
  }
}
