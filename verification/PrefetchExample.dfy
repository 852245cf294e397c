/** A history of the engine in which both chunks of the near part of a window end up behind. */
module PrefetchExample {
  import opened Content
  import opened Naming
  import opened StreamState
  import opened Scheduling
  import opened StreamSystem
  import opened PrefetchTasks

  /** One worker, and chunks of 128 MiB. */
  const CFG := Config(128 * MIB, 8 * MIB, 16 * MIB, 1, 1, 128 * MIB, 256 * MIB, 32 * MIB)
  const SIZE := 192 * MIB

  /** Files of one and a half chunks. */
  predicate TwoChunks(file: File) { NumericFsid(file.fsid) && file.size == SIZE }

  function Key(file: File, index: int): ChunkKey { ChunkKey(ChunkVersion(file, CFG.chunkSize), index) }

  /** The engine with one session, one handle and one worker. */
  datatype Small = Small(table: map<int, TaskState>, queue: set<int>, tasks: map<ChunkKey, int>, session: SessionState, count: int,
                         worker: Worker, handle: HandleState, cache: map<ChunkKey, Bytes>)
  {
    function M(v: string): Mgr { Mgr(CFG, table, queue, tasks, map[v := session], false, count, 1) }

    function S(v: string): Sys { Sys(M(v), map[1 := worker], map[1 := Slot(handle, Held)], cache) }
  }

  // ---------- single steps ----------

  lemma Opens(remote: RemoteBytes, file: File) returns (s: Sys)
    requires NumericFsid(file.fsid)
    ensures s == Sys(Mgr(CFG, map[], {}, map[], map[], false, 0, 0), map[1 := Ready], map[], map[])
    ensures Init(s) && Enabled(remote, s, OpenStep(file))
    ensures Apply(remote, s, OpenStep(file))
      == Small(map[], {}, map[], NEW_SESSION.(refs := 1), 0, Ready, NewHandle(file), map[]).S(ChunkVersion(file, CFG.chunkSize))
  {
    s := Sys(Mgr(CFG, map[], {}, map[], map[], false, 0, 0), map[1 := Ready], map[], map[]);
  }

  /** What a read that bumps no epoch makes of the handle and its session. */
  predicate ReadsAs(x: Small, offset: int, length: int, y: Small)
  {
    var (h, seen) := Observe(CFG, x.handle, offset, length);
    var (session, plan, bump) := PreparedSession(CFG, x.session, 1, seen, offset, length);
    !bump && y == x.(session := session, handle := h.(epoch := plan.epoch))
  }

  lemma Reads(remote: RemoteBytes, file: File, x: Small, offset: int, length: int, y: Small)
    requires x.handle.file == file && ReadArgs(file, offset, length) && ReadsAs(x, offset, length, y)
    ensures var v := ChunkVersion(file, CFG.chunkSize);
      Enabled(remote, x.S(v), ReadStep(1, offset, length)) && Apply(remote, x.S(v), ReadStep(1, offset, length)) == y.S(v)
  {
    var v := ChunkVersion(file, CFG.chunkSize);
    var (h, seen) := Observe(CFG, x.handle, offset, length);
    Prepares(v, file, x, seen, offset, length);
  }

  lemma Prepares(v: string, file: File, x: Small, seen: Observation, offset: int, length: int)
    requires v == ChunkVersion(file, CFG.chunkSize)
    ensures var (session, plan, bump) := PreparedSession(CFG, x.session, 1, seen, offset, length);
      !bump ==> Prepare(x.M(v), 1, file, seen, offset, length) == (x.(session := session).M(v), plan)
  {
    var (session, plan, bump) := PreparedSession(CFG, x.session, 1, seen, offset, length);
    assert map[v := x.session][v := session] == map[v := session];
  }

  lemma Asked(remote: RemoteBytes, file: File, x: Small, index: int, epoch: int, priority: Priority) returns (y: Small)
    requires TwoChunks(file) && 0 <= index <= 1 && x.worker != Waiting && Key(file, index) !in x.tasks
    ensures y == x.(table := x.table[x.count + 1 := NewTask(CFG, file, index, epoch, priority)], queue := x.queue + {x.count + 1},
                    tasks := x.tasks[Key(file, index) := x.count + 1], count := x.count + 1)
    ensures var v, step := ChunkVersion(file, CFG.chunkSize), EnsureStep(file, index, epoch, priority, None);
      Enabled(remote, x.S(v), step) && Apply(remote, x.S(v), step) == y.S(v)
  {
    y := x.(table := x.table[x.count + 1 := NewTask(CFG, file, index, epoch, priority)], queue := x.queue + {x.count + 1},
            tasks := x.tasks[Key(file, index) := x.count + 1], count := x.count + 1);
    assert ChunkLength(CFG, file, index) > 0;
    assert forall w :: !WaitingWorker(x.S(ChunkVersion(file, CFG.chunkSize)), w);
  }

  lemma Started(v: string, x: Small, id: int)
    requires id in x.table && x.table[id].key.version == v && x.session.inflight == 0
    ensures StreamState.Start(x.M(v).(queue := x.queue - {id}), id)
      == x.(table := x.table[id := x.table[id].(started := true)], queue := x.queue - {id},
            session := x.session.(inflight := 1)).M(v)
  {
    assert map[v := x.session][v := x.session.(inflight := 1)] == map[v := x.session.(inflight := 1)];
  }

  /** A worker takes the least task of the queue. */
  lemma Takes(remote: RemoteBytes, file: File, x: Small, id: int) returns (y: Small)
    requires x.worker == Ready && x.queue <= x.table.Keys && x.session.inflight == 0
    requires IsLeast(x.M(ChunkVersion(file, CFG.chunkSize)), x.queue, id) && x.table[id].Live()
    requires x.table[id].key.version == ChunkVersion(file, CFG.chunkSize)
    ensures y == x.(table := x.table[id := x.table[id].(started := true)], queue := x.queue - {id},
                    session := x.session.(inflight := 1), worker := Busy(id))
    ensures var v := ChunkVersion(file, CFG.chunkSize);
      Enabled(remote, x.S(v), NextStep(1)) && Apply(remote, x.S(v), NextStep(1)) == y.S(v)
  {
    var v := ChunkVersion(file, CFG.chunkSize);
    y := x.(table := x.table[id := x.table[id].(started := true)], queue := x.queue - {id},
            session := x.session.(inflight := 1), worker := Busy(id));
    var n := x.M(v).(queue := x.queue - {id});
    ScanLeast(x.M(v), {}, id);
    assert !Blocked(n, id);
    assert n.queue + {} == x.queue - {id};
    Started(v, x, id);
  }

  /** A worker hands in the outcome of its download. */
  lemma HandsIn(remote: RemoteBytes, file: File, x: Small, id: int, r: Result) returns (y: Small)
    requires x.worker == Busy(id) && id in x.table && x.session.inflight == 1 && x.session.refs == 1
    requires x.table[id].started && !x.table[id].finished && x.table[id].key in x.tasks && x.tasks[x.table[id].key] == id
    requires x.table[id].key.version == ChunkVersion(file, CFG.chunkSize)
    requires r.Ok? ==> x.table[id].length >= 0 && r.data == TaskBytes(remote, x.table[id])
    ensures y == x.(table := x.table[id := x.table[id].(finished := true, closes := x.table[id].closes + 1, result := Some(r))],
                    tasks := x.tasks - {x.table[id].key}, session := x.session.(inflight := 0), worker := Returned)
    ensures var v := ChunkVersion(file, CFG.chunkSize);
      Enabled(remote, x.S(v), HandInStep(1, r)) && Apply(remote, x.S(v), HandInStep(1, r)) == y.S(v)
  {
    var v := ChunkVersion(file, CFG.chunkSize);
    y := x.(table := x.table[id := x.table[id].(finished := true, closes := x.table[id].closes + 1, result := Some(r))],
            tasks := x.tasks - {x.table[id].key}, session := x.session.(inflight := 0), worker := Returned);
    var n := Uncount(x.M(v), id);
    assert n == x.(session := x.session.(inflight := 0)).M(v);
    assert HandIn(x.M(v), id, r) == y.M(v);
  }

  lemma Broadcasts(remote: RemoteBytes, v: string, x: Small) returns (y: Small)
    requires x.worker == Returned
    ensures y == x.(worker := Ready)
    ensures Enabled(remote, x.S(v), BroadcastStep(1)) && Apply(remote, x.S(v), BroadcastStep(1)) == y.S(v)
  {
    y := x.(worker := Ready);
  }

  // ---------- single acts ----------

  lemma Grow(remote: RemoteBytes, file: File, history: seq<Prefetch>, acts: seq<Act>, p: Prefetch, act: Act)
    returns (h: seq<Prefetch>, a: seq<Act>, q: Prefetch)
    requires IsPrefetch(remote, file, history, acts) && history[|acts|] == p && ValidConfig(p.s.m.cfg) && ActOk(remote, p, act)
    ensures IsPrefetch(remote, file, h, a) && h[|a|] == q == After(remote, file, p, act)
  {
    q := After(remote, file, p, act);
    h, a := history + [q], acts + [act];
    LastActAt(remote, file, history, acts, p, act, q);
    Appended(remote, file, history, acts, act, q);
  }

  lemma Appended(remote: RemoteBytes, file: File, history: seq<Prefetch>, acts: seq<Act>, act: Act, q: Prefetch)
    requires IsPrefetch(remote, file, history, acts) && ActAt(remote, file, history + [q], acts + [act], |acts|)
    ensures IsPrefetch(remote, file, history + [q], acts + [act])
  {
    var h, a := history + [q], acts + [act];
    forall i | 0 <= i < |a| ensures ActAt(remote, file, h, a, i) {
      if i < |acts| { ActStays(remote, file, history, acts, act, q, i); }
    }
  }

  lemma ActStays(remote: RemoteBytes, file: File, history: seq<Prefetch>, acts: seq<Act>, act: Act, q: Prefetch, i: nat)
    requires |history| == |acts| + 1 && i < |acts| && ActAt(remote, file, history, acts, i)
    ensures ActAt(remote, file, history + [q], acts + [act], i)
  {
  }

  lemma LastActAt(remote: RemoteBytes, file: File, history: seq<Prefetch>, acts: seq<Act>, p: Prefetch, act: Act, q: Prefetch)
    requires |history| == |acts| + 1 && history[|acts|] == p && ValidConfig(p.s.m.cfg) && ActOk(remote, p, act)
    requires q == After(remote, file, p, act)
    ensures ActAt(remote, file, history + [q], acts + [act], |acts|)
  {
  }

  /** A step of the engine that neither schedules nor asks for a chunk. */
  predicate Plain(step: Step) { !step.ScheduleStep? && !step.ReclaimStep? && !step.EnsureStep? }

  lemma PlainAct(remote: RemoteBytes, file: File, p: Prefetch, step: Step, x: Small, y: Small)
    requires var v := ChunkVersion(file, CFG.chunkSize);
      Plain(step) && p.s == x.S(v) && Enabled(remote, p.s, step) && Apply(remote, p.s, step) == y.S(v)
    ensures ActOk(remote, p, Engine(step))
    ensures After(remote, file, p, Engine(step))
      == p.(s := y.S(ChunkVersion(file, CFG.chunkSize)), track := p.track.(s := y.session))
  {
  }

  lemma AskAct(remote: RemoteBytes, file: File, p: Prefetch, index: int, priority: Priority, x: Small, y: Small)
    requires var v, step := ChunkVersion(file, CFG.chunkSize), EnsureStep(file, index, 0, priority, None);
      p.s == x.S(v) && Enabled(remote, p.s, step) && Apply(remote, p.s, step) == y.S(v) && priority <= NEAR && p.behind == {}
    ensures var act := Engine(EnsureStep(file, index, 0, priority, None));
      ActOk(remote, p, act)
      && After(remote, file, p, act) == p.(s := y.S(ChunkVersion(file, CFG.chunkSize)), track := p.track.(s := y.session))
  {
  }

  lemma EnterAct(remote: RemoteBytes, file: File, p: Prefetch, call: int, cursor: int, x: Small, y: Small, offers: seq<Offer>)
    requires TwoChunks(file) && call !in p.calls && cursor >= 0 && p.s == x.S(ChunkVersion(file, CFG.chunkSize))
    requires p.track.s == x.session && Effective(CFG, SIZE, x.session, cursor, 0)
    requires y == x.(session := y.session)
    requires Schedule(CFG, SIZE, x.session, cursor, 0).0 == y.session && Schedule(CFG, SIZE, x.session, cursor, 0).2 == offers
    ensures ActOk(remote, p, Enter(call, file, cursor, 0))
    ensures After(remote, file, p, Enter(call, file, cursor, 0))
      == Prefetch(y.S(ChunkVersion(file, CFG.chunkSize)), p.calls[call := Calling(file, 0, offers, false)],
                  Advance(CFG, SIZE, p.track, Call(cursor, 0)), p.behind)
  {
    var v := ChunkVersion(file, CFG.chunkSize);
    assert map[v := x.session][v := y.session] == map[v := y.session];
  }

  lemma LookAct(remote: RemoteBytes, file: File, p: Prefetch, call: int)
    requires Going(p, call) && HeadKey(p, call) !in p.s.cache && ValidConfig(p.s.m.cfg)
    ensures ActOk(remote, p, Look(call))
    ensures After(remote, file, p, Look(call)) == p.(calls := p.calls[call := p.calls[call].(looked := true)])
  {
  }

  /** An offer that makes a new task; `behind` is what that adds. */
  lemma MakeAct(remote: RemoteBytes, file: File, p: Prefetch, call: int, x: Small, y: Small, behind: set<int>)
    requires TwoChunks(file) && Going(p, call) && p.calls[call].looked && p.calls[call].file == file && p.calls[call].epoch == 0
    requires 0 <= p.calls[call].left[0].index <= 1 && p.s == x.S(ChunkVersion(file, CFG.chunkSize)) && x.worker != Waiting
    requires var o := p.calls[call].left[0];
      && Key(file, o.index) !in x.tasks
      && y == x.(table := x.table[x.count + 1 := NewTask(CFG, file, o.index, 0, o.priority)], queue := x.queue + {x.count + 1},
                 tasks := x.tasks[Key(file, o.index) := x.count + 1], count := x.count + 1)
      && behind == (if o.priority > NEAR && p.track.s.scheduleSet && NearOffered(p.track.calls, o.index) then {x.count + 1} else {})
    requires x.count + 1 !in p.behind && p.track.s == x.session
    ensures ActOk(remote, p, Make(call, None))
    ensures After(remote, file, p, Make(call, None))
      == p.(s := y.S(ChunkVersion(file, CFG.chunkSize)), behind := p.behind + behind,
            calls := p.calls[call := p.calls[call].(left := p.calls[call].left[1..], looked := false)])
  {
    var o := p.calls[call].left[0];
    var z := Asked(remote, file, x, o.index, 0, o.priority);
  }

  /** A near offer that is skipped while a less urgent task waits. */
  lemma SkipAct(remote: RemoteBytes, file: File, p: Prefetch, call: int, id: int)
    requires Going(p, call) && HeadKey(p, call) in p.s.cache && p.calls[call].left[0].priority == NEAR && ValidConfig(p.s.m.cfg)
    requires HeadKey(p, call) in p.s.m.tasks && p.s.m.tasks[HeadKey(p, call)] == id
    requires Waits(p.s.m, id) && p.s.m.table[id].priority > NEAR
    ensures ActOk(remote, p, Skip(call))
    ensures After(remote, file, p, Skip(call))
      == p.(behind := p.behind + {id},
            calls := p.calls[call := p.calls[call].(left := p.calls[call].left[1..], looked := false)])
  {
  }

  // ---------- the history ----------

  ghost predicate Reached(remote: RemoteBytes, file: File, history: seq<Prefetch>, acts: seq<Act>, p: Prefetch, x: Small)
  {
    && IsPrefetch(remote, file, history, acts) && history[|acts|] == p
    && p.s == x.S(ChunkVersion(file, CFG.chunkSize)) && p.track.s == x.session
  }

  lemma GoPlain(remote: RemoteBytes, file: File, h: seq<Prefetch>, a: seq<Act>, p: Prefetch, x: Small, step: Step, y: Small)
    returns (g: seq<Prefetch>, b: seq<Act>, q: Prefetch)
    requires Reached(remote, file, h, a, p, x) && Plain(step)
    requires var v := ChunkVersion(file, CFG.chunkSize); Enabled(remote, x.S(v), step) && Apply(remote, x.S(v), step) == y.S(v)
    ensures Reached(remote, file, g, b, q, y) && q.calls == p.calls && q.behind == p.behind && q.track == p.track.(s := y.session)
  {
    PlainAct(remote, file, p, step, x, y);
    g, b, q := Grow(remote, file, h, a, p, Engine(step));
  }

  /** The call sees that the store does not hold the next chunk, and makes a new task for it. */
  lemma GoMake(remote: RemoteBytes, file: File, h: seq<Prefetch>, a: seq<Act>, p: Prefetch, x: Small, o: Offer, late: bool)
    returns (g: seq<Prefetch>, b: seq<Act>, q: Prefetch, y: Small)
    requires TwoChunks(file) && Reached(remote, file, h, a, p, x) && 1 in p.calls && p.calls[1].left != [] && p.calls[1].left[0] == o
    requires p.calls[1].looked && p.calls[1].file == file && p.calls[1].epoch == 0 && 0 <= o.index <= 1 && x.worker != Waiting
    requires Key(file, o.index) !in x.tasks && x.count + 1 !in p.behind
    requires late == (o.priority > NEAR && p.track.s.scheduleSet && NearOffered(p.track.calls, o.index))
    ensures y == x.(table := x.table[x.count + 1 := NewTask(CFG, file, o.index, 0, o.priority)], queue := x.queue + {x.count + 1},
                    tasks := x.tasks[Key(file, o.index) := x.count + 1], count := x.count + 1)
    ensures Reached(remote, file, g, b, q, y) && q.track == p.track && q.behind == p.behind + (if late then {x.count + 1} else {})
    ensures q.calls == p.calls[1 := Calling(file, 0, p.calls[1].left[1..], false)]
  {
    y := x.(table := x.table[x.count + 1 := NewTask(CFG, file, o.index, 0, o.priority)], queue := x.queue + {x.count + 1},
            tasks := x.tasks[Key(file, o.index) := x.count + 1], count := x.count + 1);
    MakeAct(remote, file, p, 1, x, y, if late then {x.count + 1} else {});
    g, b, q := Grow(remote, file, h, a, p, Make(1, None));
  }

  lemma GoLook(remote: RemoteBytes, file: File, h: seq<Prefetch>, a: seq<Act>, p: Prefetch, x: Small)
    returns (g: seq<Prefetch>, b: seq<Act>, q: Prefetch)
    requires Reached(remote, file, h, a, p, x) && 1 in p.calls && p.calls[1].left != [] && p.calls[1].file == file
    requires Key(file, p.calls[1].left[0].index) !in x.cache
    ensures Reached(remote, file, g, b, q, x) && q == p.(calls := p.calls[1 := p.calls[1].(looked := true)])
  {
    LookAct(remote, file, p, 1);
    g, b, q := Grow(remote, file, h, a, p, Look(1));
  }

  lemma GoRead(remote: RemoteBytes, file: File, h: seq<Prefetch>, a: seq<Act>, p: Prefetch, x: Small, offset: int, length: int, y: Small)
    returns (g: seq<Prefetch>, b: seq<Act>, q: Prefetch)
    requires Reached(remote, file, h, a, p, x) && x.handle.file == file
    requires ReadArgs(file, offset, length) && ReadsAs(x, offset, length, y)
    ensures Reached(remote, file, g, b, q, y) && q.calls == p.calls && q.behind == p.behind && q.track == p.track.(s := y.session)
  {
    Reads(remote, file, x, offset, length, y);
    g, b, q := GoPlain(remote, file, h, a, p, x, ReadStep(1, offset, length), y);
  }

  lemma GoTake(remote: RemoteBytes, file: File, h: seq<Prefetch>, a: seq<Act>, p: Prefetch, x: Small, id: int)
    returns (g: seq<Prefetch>, b: seq<Act>, q: Prefetch, y: Small)
    requires Reached(remote, file, h, a, p, x) && x.worker == Ready && x.queue <= x.table.Keys && x.session.inflight == 0
    requires IsLeast(x.M(ChunkVersion(file, CFG.chunkSize)), x.queue, id) && x.table[id].Live()
    requires x.table[id].key.version == ChunkVersion(file, CFG.chunkSize)
    ensures y == x.(table := x.table[id := x.table[id].(started := true)], queue := x.queue - {id},
                    session := x.session.(inflight := 1), worker := Busy(id))
    ensures Reached(remote, file, g, b, q, y) && q.calls == p.calls && q.behind == p.behind && q.track == p.track.(s := y.session)
  {
    y := Takes(remote, file, x, id);
    g, b, q := GoPlain(remote, file, h, a, p, x, NextStep(1), y);
  }

  lemma GoHandIn(remote: RemoteBytes, file: File, h: seq<Prefetch>, a: seq<Act>, p: Prefetch, x: Small, id: int, r: Result)
    returns (g: seq<Prefetch>, b: seq<Act>, q: Prefetch, y: Small)
    requires Reached(remote, file, h, a, p, x)
    requires x.worker == Busy(id) && id in x.table && x.session.inflight == 1 && x.session.refs == 1
    requires x.table[id].started && !x.table[id].finished && x.table[id].key in x.tasks && x.tasks[x.table[id].key] == id
    requires x.table[id].key.version == ChunkVersion(file, CFG.chunkSize)
    requires r.Ok? ==> x.table[id].length >= 0 && r.data == TaskBytes(remote, x.table[id])
    ensures EndsAs(x, id, r, y)
    ensures Reached(remote, file, g, b, q, y) && q.calls == p.calls && q.behind == p.behind && q.track == p.track.(s := y.session)
  {
    y := HandsIn(remote, file, x, id, r);
    g, b, q := GoPlain(remote, file, h, a, p, x, HandInStep(1, r), y);
  }

  lemma GoEnter(remote: RemoteBytes, file: File, h: seq<Prefetch>, a: seq<Act>, p: Prefetch, x: Small, call: int, cursor: int,
                y: Small, offers: seq<Offer>)
    returns (g: seq<Prefetch>, b: seq<Act>, q: Prefetch)
    requires Reached(remote, file, h, a, p, x) && TwoChunks(file) && call !in p.calls && cursor >= 0
    requires Effective(CFG, SIZE, x.session, cursor, 0) && y == x.(session := y.session)
    requires Schedule(CFG, SIZE, x.session, cursor, 0).0 == y.session && Schedule(CFG, SIZE, x.session, cursor, 0).2 == offers
    ensures Reached(remote, file, g, b, q, y) && q.behind == p.behind && q.track == Advance(CFG, SIZE, p.track, Call(cursor, 0))
    ensures q.calls == p.calls[call := Calling(file, 0, offers, false)]
  {
    EnterAct(remote, file, p, call, cursor, x, y, offers);
    g, b, q := Grow(remote, file, h, a, p, Enter(call, file, cursor, 0));
  }

  lemma GoSkip(remote: RemoteBytes, file: File, h: seq<Prefetch>, a: seq<Act>, p: Prefetch, x: Small, index: int, id: int)
    returns (g: seq<Prefetch>, b: seq<Act>, q: Prefetch)
    requires Reached(remote, file, h, a, p, x) && 2 in p.calls && p.calls[2].file == file && p.calls[2].left == [Offer(index, NEAR)]
    requires Key(file, index) in x.cache && Key(file, index) in x.tasks && x.tasks[Key(file, index)] == id
    requires id in x.table && x.table[id].Live() && !x.table[id].started && x.table[id].priority > NEAR
    ensures Reached(remote, file, g, b, q, x) && q.track == p.track && q.behind == p.behind + {id}
    ensures q.calls == p.calls[2 := p.calls[2].(left := [], looked := false)]
  {
    assert p.calls[2].left[1..] == [];
    SkipAct(remote, file, p, 2, id);
    g, b, q := Grow(remote, file, h, a, p, Skip(2));
  }

  // ---------- the parts of the history ----------

  function Asking(file: File, index: int, priority: Priority): TaskState { NewTask(CFG, file, index, 0, priority) }

  function Downloading(file: File, index: int, priority: Priority): TaskState { Asking(file, index, priority).(started := true) }

  function Done(file: File, index: int, priority: Priority, r: Result): TaskState
  {
    Downloading(file, index, priority).(finished := true, closes := 1, result := Some(r))
  }

  /** A position of the one handle. */
  function At(file: File, offset: int, length: int, forward: int, stream: bool): HandleState
  {
    HandleState(file, offset, length, forward, stream, false, 0)
  }

  const HERE := 8 * MIB + 1
  const OPENED := NEW_SESSION.(refs := 1)

  lemma OpenAct(remote: RemoteBytes, file: File, p: Prefetch, x: Small)
    requires p.track.s == NEW_SESSION && p.s.m.sessions == map[] && Enabled(remote, p.s, OpenStep(file))
    requires p.s.m.cfg == CFG && Apply(remote, p.s, OpenStep(file)) == x.S(ChunkVersion(file, CFG.chunkSize))
    ensures ActOk(remote, p, Engine(OpenStep(file)))
    ensures After(remote, file, p, Engine(OpenStep(file)))
      == p.(s := x.S(ChunkVersion(file, CFG.chunkSize)), track := p.track.(s := x.session))
  {
  }

  lemma Opening(remote: RemoteBytes, file: File) returns (h: seq<Prefetch>, a: seq<Act>, p: Prefetch, x: Small)
    requires TwoChunks(file)
    ensures Reached(remote, file, h, a, p, x) && p.calls == map[] && p.behind == {} && p.track == Track(OPENED, 0, 0, [])
    ensures x == Small(map[], {}, map[], OPENED, 0, Ready, NewHandle(file), map[])
  {
    var s := Opens(remote, file);
    x := Small(map[], {}, map[], OPENED, 0, Ready, NewHandle(file), map[]);
    p := Prefetch(s, map[], Track(NEW_SESSION, 0, 0, []), {});
    h, a := [p], [];
    OpenAct(remote, file, p, x);
    h, a, p := Grow(remote, file, h, a, p, Engine(OpenStep(file)));
  }

  /** The file is opened; a read of its second chunk asks for that chunk, and the worker takes the task. */
  lemma FirstPart(remote: RemoteBytes, file: File) returns (h: seq<Prefetch>, a: seq<Act>, p: Prefetch, x: Small)
    requires TwoChunks(file)
    ensures Reached(remote, file, h, a, p, x) && p.calls == map[] && p.behind == {} && p.track == Track(x.session, 0, 0, [])
    ensures x == Small(map[1 := Downloading(file, 1, FOREGROUND)], {}, map[Key(file, 1) := 1], OPENED.(inflight := 1), 1, Busy(1),
                       At(file, 128 * MIB, 1, 1, false), map[])
  {
    h, a, p, x := Opening(remote, file);
    var y := x.(handle := At(file, 128 * MIB, 1, 1, false));
    h, a, p := GoRead(remote, file, h, a, p, x, 128 * MIB, 1, y);
    x := Asked(remote, file, y, 1, 0, FOREGROUND);
    AskAct(remote, file, p, 1, FOREGROUND, y, x);
    h, a, p := Grow(remote, file, h, a, p, Engine(EnsureStep(file, 1, 0, FOREGROUND, None)));
    h, a, p, x := GoTake(remote, file, h, a, p, x, 1);
  }

  const STREAMING := OPENED.(active := 1, anchor := 8 * MIB + 1, cursor := 8 * MIB + 2)
  const WINDOW := STREAMING.(scheduleSet := true, end := 1)
  const OFFERS := [Offer(0, NEAR), Offer(1, AHEAD), Offer(0, BACK)]

  lemma FirstOffers(session: SessionState)
    requires session == STREAMING.(inflight := 1)
    ensures Effective(CFG, SIZE, session, 8 * MIB + 2, 0)
    ensures Schedule(CFG, SIZE, session, 8 * MIB + 2, 0).0 == WINDOW.(inflight := 1)
    ensures Schedule(CFG, SIZE, session, 8 * MIB + 2, 0).2 == OFFERS
    ensures Advance(CFG, SIZE, Track(session, 0, 0, []), Call(8 * MIB + 2, 0))
      == Track(WINDOW.(inflight := 1), 8 * MIB + 2, 8 * MIB + 2, OFFERS)
  {
    assert Forward(0, 1, 0) == [Offer(0, NEAR), Offer(1, AHEAD)] && Backward(0, 0) == [Offer(0, BACK)];
  }

  /** The second chunk is being downloaded, and the first one waits as near. */
  function SecondState(file: File): Small
  {
    Small(map[1 := Downloading(file, 1, FOREGROUND), 2 := Asking(file, 0, NEAR)], {2}, map[Key(file, 1) := 1, Key(file, 0) := 2],
          WINDOW.(inflight := 1), 2, Busy(1), At(file, HERE, 1, 2, true), map[])
  }

  /** The handle starts to stream in the first chunk; a call moves the window there and makes its first offer. */
  lemma SecondPart(remote: RemoteBytes, file: File) returns (h: seq<Prefetch>, a: seq<Act>, p: Prefetch, x: Small)
    requires TwoChunks(file)
    ensures Reached(remote, file, h, a, p, x) && p.behind == {} && p.calls == map[1 := Calling(file, 0, OFFERS[1..], false)]
    ensures p.track == Track(x.session, 8 * MIB + 2, 8 * MIB + 2, OFFERS)
    ensures x == SecondState(file)
  {
    h, a, p, x := FirstPart(remote, file);
    var y := x.(handle := At(file, 8 * MIB, 1, 1, false));
    h, a, p := GoRead(remote, file, h, a, p, x, 8 * MIB, 1, y);
    x := y.(handle := At(file, 8 * MIB + 1, 1, 2, true), session := STREAMING.(inflight := 1));
    h, a, p := GoRead(remote, file, h, a, p, y, 8 * MIB + 1, 1, x);
    FirstOffers(x.session);
    y := x.(session := WINDOW.(inflight := 1));
    h, a, p := GoEnter(remote, file, h, a, p, x, 1, 8 * MIB + 2, y, OFFERS);
    h, a, p := GoLook(remote, file, h, a, p, y);
    h, a, p, x := GoMake(remote, file, h, a, p, y, Offer(0, NEAR), false);
  }

  /** The second chunk has been downloaded and is in the store; the first one waits as near. */
  function Downloaded(file: File, data: Bytes): Small
  {
    Small(map[1 := Done(file, 1, FOREGROUND, Ok(data)), 2 := Asking(file, 0, NEAR)], {2}, map[Key(file, 0) := 2], WINDOW, 2, Returned,
          At(file, HERE, 1, 2, true), map[Key(file, 1) := data])
  }

  /** Then the second chunk gets another task. */
  function AskedAgain(file: File, data: Bytes): Small
  {
    Small(map[1 := Done(file, 1, FOREGROUND, Ok(data)), 2 := Asking(file, 0, NEAR), 3 := Asking(file, 1, AHEAD)], {2, 3},
          map[Key(file, 0) := 2, Key(file, 1) := 3], WINDOW, 3, Returned, At(file, HERE, 1, 2, true), map[Key(file, 1) := data])
  }

  /** Then the download of the first chunk has failed. */
  function Failed(file: File, data: Bytes): Small
  {
    Small(map[1 := Done(file, 1, FOREGROUND, Ok(data)), 2 := Done(file, 0, NEAR, Err(Upstream)), 3 := Asking(file, 1, AHEAD)], {3},
          map[Key(file, 1) := 3], WINDOW, 3, Returned, At(file, HERE, 1, 2, true), map[Key(file, 1) := data])
  }

  /** The call finds that the store does not hold the second chunk; then its download ends. */
  lemma ThirdPart(remote: RemoteBytes, file: File) returns (h: seq<Prefetch>, a: seq<Act>, p: Prefetch, data: Bytes)
    requires TwoChunks(file)
    ensures Reached(remote, file, h, a, p, Downloaded(file, data)) && p.behind == {}
    ensures p.calls == map[1 := Calling(file, 0, OFFERS[1..], true)]
    ensures p.track == Track(WINDOW, 8 * MIB + 2, 8 * MIB + 2, OFFERS)
  {
    var x;
    h, a, p, x := SecondPart(remote, file);
    h, a, p := GoLook(remote, file, h, a, p, x);
    data := TaskBytes(remote, x.table[1]);
    var y := x.(cache := map[Key(file, 1) := data]);
    h, a, p := GoPlain(remote, file, h, a, p, x, CachePut(1, data), y);
    h, a, p, x := GoHandIn(remote, file, h, a, p, y, 1, Ok(data));
    DownloadedIs(file, y, x, data);
  }

  /** Then the call asks for the chunk: that makes a second task for it, while the store holds it. */
  lemma SecondTask(remote: RemoteBytes, file: File) returns (h: seq<Prefetch>, a: seq<Act>, p: Prefetch, data: Bytes)
    requires TwoChunks(file)
    ensures Reached(remote, file, h, a, p, AskedAgain(file, data)) && p.behind == {}
    ensures p.calls == map[1 := Calling(file, 0, [Offer(0, BACK)], false)]
    ensures p.track == Track(WINDOW, 8 * MIB + 2, 8 * MIB + 2, OFFERS)
  {
    var x;
    h, a, p, data := ThirdPart(remote, file);
    h, a, p, x := GoMake(remote, file, h, a, p, Downloaded(file, data), Offer(1, AHEAD), false);
    assert x == AskedAgain(file, data);
    assert OFFERS[1..][1..] == [Offer(0, BACK)];
  }

  /** The worker takes the first chunk, and its download fails. */
  lemma FailedDownload(remote: RemoteBytes, file: File) returns (h: seq<Prefetch>, a: seq<Act>, p: Prefetch, data: Bytes)
    requires TwoChunks(file)
    ensures Reached(remote, file, h, a, p, Failed(file, data)) && p.behind == {}
    ensures p.calls == map[1 := Calling(file, 0, [Offer(0, BACK)], false)]
    ensures p.track == Track(WINDOW, 8 * MIB + 2, 8 * MIB + 2, OFFERS)
  {
    h, a, p, data := SecondTask(remote, file);
    var x := AskedAgain(file, data);
    var y := x.(worker := Ready);
    var z := Broadcasts(remote, ChunkVersion(file, CFG.chunkSize), x);
    h, a, p := GoPlain(remote, file, h, a, p, x, BroadcastStep(1), y);
    h, a, p := TakeAndFail(remote, file, h, a, p, y, data);
  }

  lemma TakeAndFail(remote: RemoteBytes, file: File, h: seq<Prefetch>, a: seq<Act>, p: Prefetch, x: Small, data: Bytes)
    returns (g: seq<Prefetch>, b: seq<Act>, q: Prefetch)
    requires Reached(remote, file, h, a, p, x) && x == AskedAgain(file, data).(worker := Ready)
    ensures Reached(remote, file, g, b, q, Failed(file, data)) && q.calls == p.calls && q.behind == p.behind
    ensures q.track == p.track.(s := WINDOW)
  {
    var y, z;
    NearIsLeast(file, x, data);
    g, b, q, y := GoTake(remote, file, h, a, p, x, 2);
    g, b, q, z := GoHandIn(remote, file, g, b, q, y, 2, Err(Upstream));
    FailedIs(file, x, y, z, data);
  }

  /** A download that has ended. */
  predicate EndsAs(x: Small, id: int, r: Result, y: Small)
  {
    id in x.table && x.session.refs == 1
    && y == x.(table := x.table[id := x.table[id].(finished := true, closes := x.table[id].closes + 1, result := Some(r))],
               tasks := x.tasks - {x.table[id].key}, session := x.session.(inflight := 0), worker := Returned)
  }

  lemma FailedIs(file: File, x: Small, y: Small, z: Small, data: Bytes)
    requires x == AskedAgain(file, data).(worker := Ready) && EndsAs(y, 2, Err(Upstream), z)
    requires y == x.(table := x.table[2 := x.table[2].(started := true)], queue := x.queue - {2},
                     session := x.session.(inflight := 1), worker := Busy(2))
    ensures z == Failed(file, data)
  {
    FailedTable(Done(file, 1, FOREGROUND, Ok(data)), Asking(file, 0, NEAR), y.table[2], z.table[2], Asking(file, 1, AHEAD));
    assert z.tasks == map[Key(file, 1) := 3] && z.queue == {3};
  }

  lemma FailedTable(a: TaskState, b: TaskState, c: TaskState, d: TaskState, e: TaskState)
    ensures map[1 := a, 2 := b, 3 := e][2 := c][2 := d] == map[1 := a, 2 := d, 3 := e]
  {
  }

  lemma DownloadedIs(file: File, x: Small, y: Small, data: Bytes)
    requires x == SecondState(file).(cache := map[Key(file, 1) := data]) && EndsAs(x, 1, Ok(data), y)
    ensures y == Downloaded(file, data)
  {
    assert y.table == Downloaded(file, data).table && y.tasks == map[Key(file, 0) := 2];
  }

  lemma NearIsLeast(file: File, x: Small, data: Bytes)
    requires x == AskedAgain(file, data).(worker := Ready)
    ensures x.queue <= x.table.Keys && IsLeast(x.M(ChunkVersion(file, CFG.chunkSize)), x.queue, 2)
  {
  }

  /** The last offer of the call makes a less urgent task for the first chunk. */
  lemma FourthPart(remote: RemoteBytes, file: File) returns (h: seq<Prefetch>, a: seq<Act>, p: Prefetch, x: Small, data: Bytes)
    requires TwoChunks(file)
    ensures Reached(remote, file, h, a, p, x) && p.behind == {4} && p.calls == map[1 := Calling(file, 0, [], false)]
    ensures p.track == Track(WINDOW, 8 * MIB + 2, 8 * MIB + 2, OFFERS)
    ensures var f := Failed(file, data);
      x == f.(table := f.table[4 := Asking(file, 0, BACK)], queue := {3, 4}, tasks := f.tasks[Key(file, 0) := 4], count := 4)
  {
    h, a, p, data := FailedDownload(remote, file);
    h, a, p := GoLook(remote, file, h, a, p, Failed(file, data));
    assert p.calls[1].left[1..] == [] && Offer(0, NEAR) == OFFERS[0];
    h, a, p, x := GoMake(remote, file, h, a, p, Failed(file, data), Offer(0, BACK), true);
    assert x.queue == {3, 4};
  }

  lemma SecondOffers(session: SessionState)
    requires session == WINDOW.(cursor := 72 * MIB + 2)
    ensures Effective(CFG, SIZE, session, 72 * MIB + 2, 0)
    ensures Schedule(CFG, SIZE, session, 72 * MIB + 2, 0).0 == session.(near := 1)
    ensures Schedule(CFG, SIZE, session, 72 * MIB + 2, 0).2 == [Offer(1, NEAR)]
    ensures Advance(CFG, SIZE, Track(session, 8 * MIB + 2, 8 * MIB + 2, OFFERS), Call(72 * MIB + 2, 0))
      == Track(session.(near := 1), 8 * MIB + 2, 72 * MIB + 2, OFFERS + [Offer(1, NEAR)])
  {
    assert Forward(1, 1, 1) == [Offer(1, NEAR)] && Forward(2, 1, 1) == [];
  }

  /** The two tasks that wait at the end. */
  predicate BothWait(file: File, x: Small)
  {
    && x.session == WINDOW.(cursor := 72 * MIB + 2, near := 1)
    && x.tasks == map[Key(file, 1) := 3, Key(file, 0) := 4] && 3 in x.table && 4 in x.table
    && x.table[3] == Asking(file, 1, AHEAD) && x.table[4] == Asking(file, 0, BACK)
  }

  /** The handle reads on, and the next call moves the window. */
  lemma FifthPart(remote: RemoteBytes, file: File) returns (h: seq<Prefetch>, a: seq<Act>, p: Prefetch, x: Small)
    requires TwoChunks(file)
    ensures Reached(remote, file, h, a, p, x) && p.behind == {4} && BothWait(file, x) && x.cache.Keys == {Key(file, 1)}
    ensures p.calls == map[1 := Calling(file, 0, [], false), 2 := Calling(file, 0, [Offer(1, NEAR)], false)]
    ensures p.track == Track(x.session, 8 * MIB + 2, 72 * MIB + 2, OFFERS + [Offer(1, NEAR)])
  {
    var data;
    h, a, p, x, data := FourthPart(remote, file);
    var y := x.(handle := At(file, 8 * MIB + 2, 64 * MIB, 3, true), session := WINDOW.(cursor := 72 * MIB + 2));
    h, a, p := GoRead(remote, file, h, a, p, x, 8 * MIB + 2, 64 * MIB, y);
    SecondOffers(y.session);
    x := y.(session := y.session.(near := 1));
    h, a, p := GoEnter(remote, file, h, a, p, y, 2, 72 * MIB + 2, x, [Offer(1, NEAR)]);
  }

  /** The call finds that the store holds the second chunk; later the store drops it. */
  lemma LastPart(remote: RemoteBytes, file: File) returns (h: seq<Prefetch>, a: seq<Act>, p: Prefetch, x: Small)
    requires TwoChunks(file)
    ensures Reached(remote, file, h, a, p, x) && p.behind == {3, 4} && BothWait(file, x) && x.cache == map[]
    ensures p.calls == map[1 := Calling(file, 0, [], false), 2 := Calling(file, 0, [], false)]
    ensures p.track == Track(x.session, 8 * MIB + 2, 72 * MIB + 2, OFFERS + [Offer(1, NEAR)])
  {
    var y;
    h, a, p, y := FifthPart(remote, file);
    h, a, p := GoSkip(remote, file, h, a, p, y, 1, 3);
    x := y.(cache := map[]);
    Drops(remote, file, y, x);
    h, a, p := GoPlain(remote, file, h, a, p, y, CacheDrop({Key(file, 1)}), x);
  }

  lemma Drops(remote: RemoteBytes, file: File, x: Small, y: Small)
    requires x.cache.Keys == {Key(file, 1)} && y == x.(cache := map[])
    ensures var v, step := ChunkVersion(file, CFG.chunkSize), CacheDrop({Key(file, 1)});
      Enabled(remote, x.S(v), step) && Apply(remote, x.S(v), step) == y.S(v)
  {
    assert x.cache - {Key(file, 1)} == map[];
  }

  /** The exceptions are real: for every file of one and a half chunks, a history of the engine after which no call is
      in progress any more, the store is empty, and the window has both chunks in its near part. The second chunk waits
      as ahead, since the store held it when it was offered as near; the first one as back, since its download failed
      before the last offer of the call. (The reads of the first chunk are slow to ask for it themselves.) */
  lemma PromotionIsSkipped(remote: RemoteBytes, file: File) returns (history: seq<Prefetch>, acts: seq<Act>)
    requires TwoChunks(file)
    ensures IsPrefetch(remote, file, history, acts) && Normalize(CFG) == CFG
    ensures var p := history[|acts|];
      && p.s.m.cfg == CFG && p.s.cache == map[] && !p.s.m.closed && p.track.s.scheduleSet
      && p.track.cursor / CFG.chunkSize == 0 && p.track.s.near == 1 && p.behind == {3, 4}
      && (forall index :: !Pending(p.s.m, p.calls, KeyOf(p.s.m, file, index)))
      && WaitsAs(p.s.m, KeyOf(p.s.m, file, 0), BACK) && WaitsAs(p.s.m, KeyOf(p.s.m, file, 1), AHEAD)
  {
    var p, x;
    history, acts, p, x := LastPart(remote, file);
  }

  ghost predicate WaitsAs(m: Mgr, key: ChunkKey, priority: Priority)
  {
    key in m.tasks && Waits(m, m.tasks[key]) && m.table[m.tasks[key]].priority == priority
  }
}
