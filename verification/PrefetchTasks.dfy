/** Prefetch calls beside the engine: a call moves its file's window under the lock and then makes its offers one by
    one, outside it, while workers, readers, probes and other calls go on. Which chunks of the near part of the window
    have a waiting task that is less urgent than near, and by which offer. */
module PrefetchTasks {
  import opened Content
  import opened Naming
  import opened StreamState
  import opened TaskProtocol
  import opened Scheduling
  import opened StreamSystem
  import opened StreamSafety
  import opened StreamTheorems
  import opened ScheduleRuns

  /** A call that has moved the window: the offers it still has to make, and whether it has seen that the store does
      not hold the first of them. */
  datatype Calling = Calling(file: File, epoch: int, left: seq<Offer>, looked: bool)

  /** The engine with the calls in progress; for one file also what was offered; and the tasks that an offer left
      behind and whose chunk nobody has asked for as near since. */
  datatype Prefetch = Prefetch(s: Sys, calls: map<int, Calling>, track: Track, behind: set<int>)

  datatype Act =
    /** The part of a call under the lock. */
    | Enter(call: int, file: File, cursor: int, epoch: int)
    /** The call finds that the store does not hold the next chunk, and goes on to ask for its task. */
    | Look(call: int)
    /** The call finds, at either of its looks, that the store holds the next chunk. */
    | Skip(call: int)
    /** The call asks for the task of the next chunk. */
    | Make(call: int, woken: Option<int>)
    /** Anything else; reads and probes ask for chunks as near or more urgent. */
    | Engine(step: Step)

  function KeyOf(m: Mgr, file: File, index: int): ChunkKey { ChunkKey(ChunkVersion(file, m.cfg.chunkSize), index) }

  function SessionIn(m: Mgr, file: File): SessionState { SessionOrNew(m, ChunkVersion(file, m.cfg.chunkSize)) }

  /** The offers a call has to make. */
  function OffersOf(m: Mgr, file: File, cursor: int, epoch: int): seq<Offer>
    requires m.cfg.chunkSize > 0
  {
    var v := ChunkVersion(file, m.cfg.chunkSize);
    if v in m.sessions then Schedule(m.cfg, file.size, m.sessions[v], cursor, epoch).2 else []
  }

  predicate Going(p: Prefetch, call: int) { call in p.calls && p.calls[call].left != [] }

  function HeadKey(p: Prefetch, call: int): ChunkKey
    requires Going(p, call)
  {
    KeyOf(p.s.m, p.calls[call].file, p.calls[call].left[0].index)
  }

  function Asks(p: Prefetch, call: int, woken: Option<int>): Step
    requires Going(p, call)
  {
    var c := p.calls[call];
    EnsureStep(c.file, c.left[0].index, c.epoch, c.left[0].priority, woken)
  }

  ghost predicate ActOk(remote: RemoteBytes, p: Prefetch, act: Act)
  {
    match act
    case Enter(call, file, cursor, epoch) => call !in p.calls && Enabled(remote, p.s, ScheduleStep(file, cursor, epoch))
    case Look(call) => Going(p, call) && HeadKey(p, call) !in p.s.cache
    case Skip(call) => Going(p, call) && HeadKey(p, call) in p.s.cache
    case Make(call, woken) => Going(p, call) && p.calls[call].looked && Enabled(remote, p.s, Asks(p, call, woken))
    case Engine(step) =>
      Enabled(remote, p.s, step) && !step.ScheduleStep? && (step.EnsureStep? ==> step.priority <= NEAR)
  }

  /** The step of the engine that an act is, if it is one. */
  ghost function StepOf(remote: RemoteBytes, p: Prefetch, act: Act): Option<Step>
    requires ActOk(remote, p, act)
  {
    match act
    case Enter(call, file, cursor, epoch) => Some(ScheduleStep(file, cursor, epoch))
    case Look(call) => None
    case Skip(call) => None
    case Make(call, woken) => Some(Asks(p, call, woken))
    case Engine(step) => Some(step)
  }

  ghost function NextSys(remote: RemoteBytes, p: Prefetch, act: Act): Sys
    requires ActOk(remote, p, act)
  {
    var step := StepOf(remote, p, act);
    if step.Some? then Apply(remote, p.s, step.value) else p.s
  }

  ghost function NextCalls(remote: RemoteBytes, p: Prefetch, act: Act): map<int, Calling>
    requires ActOk(remote, p, act)
  {
    match act
    case Enter(call, file, cursor, epoch) => p.calls[call := Calling(file, epoch, OffersOf(p.s.m, file, cursor, epoch), false)]
    case Look(call) => p.calls[call := p.calls[call].(looked := true)]
    case Skip(call) => p.calls[call := p.calls[call].(left := p.calls[call].left[1..], looked := false)]
    case Make(call, woken) => p.calls[call := p.calls[call].(left := p.calls[call].left[1..], looked := false)]
    case Engine(step) => p.calls
  }

  /** If the chunk has a live task that nobody has started, that is at least near. */
  ghost predicate NearOk(m: Mgr, key: ChunkKey)
  {
    key in m.tasks && Waits(m, m.tasks[key]) ==> m.table[m.tasks[key]].priority <= NEAR
  }

  /** The task is live, and nobody has started it. */
  predicate Waits(m: Mgr, id: int) { id in m.table && m.table[id].Live() && !m.table[id].started }

  predicate RequestFor(m: Mgr, step: Step, key: ChunkKey) { step.EnsureStep? && KeyOf(m, step.file, step.index) == key }

  /** The act asks for the chunk as near or more urgent. */
  ghost predicate AsksNear(p: Prefetch, act: Act, key: ChunkKey)
  {
    match act
    case Make(call, woken) => Going(p, call) && HeadKey(p, call) == key && p.calls[call].left[0].priority <= NEAR
    case Engine(step) => RequestFor(p.s.m, step, key) && step.priority <= NEAR
    case _ => false
  }

  /** A request for the chunk makes a new task: there is no live one. */
  predicate MakesTask(m: Mgr, file: File, index: int)
  {
    var key := KeyOf(m, file, index);
    !m.closed && ChunkLength(m.cfg, file, index) > 0
    && !(key in m.tasks && m.tasks[key] in m.table && m.table[m.tasks[key]].Live())
  }

  /** The chunk is of this file and has been offered as near since the last full scan. */
  ghost predicate InNear(file: File, p: Prefetch, key: ChunkKey)
  {
    p.track.s.scheduleSet && NearOffered(p.track.calls, key.index) && key == KeyOf(p.s.m, file, key.index)
  }

  /** An offer leaves the chunk behind: it is a near one and skipped, because the store holds the chunk, while a task
      that is less urgent than near waits; or it is a less urgent one that comes late, when the chunk has been offered
      as near, and finds no live task. */
  ghost predicate LeavesBehind(file: File, p: Prefetch, act: Act, key: ChunkKey)
  {
    match act
    case Skip(call) => DealsWith(p, act, key) && !NearOk(p.s.m, key)
    case Make(call, woken) =>
      && Going(p, call) && HeadKey(p, call) == key && p.calls[call].left[0].priority > NEAR
      && InNear(file, p, key) && MakesTask(p.s.m, p.calls[call].file, p.calls[call].left[0].index)
    case _ => false
  }

  /** The act makes or skips a near offer of the chunk. */
  ghost predicate DealsWith(p: Prefetch, act: Act, key: ChunkKey)
  {
    (act.Skip? || act.Make?) && Going(p, act.call) && HeadKey(p, act.call) == key && p.calls[act.call].left[0].priority == NEAR
  }

  function TaskOf(m: Mgr, key: ChunkKey): set<int> { if key in m.tasks then {m.tasks[key]} else {} }

  /** The chunk an act deals with. */
  ghost function ChunkOf(p: Prefetch, act: Act): Option<ChunkKey>
  {
    match act
    case Skip(call) => if Going(p, call) then Some(HeadKey(p, call)) else None
    case Make(call, woken) => if Going(p, call) then Some(HeadKey(p, call)) else None
    case Engine(step) => if step.EnsureStep? then Some(KeyOf(p.s.m, step.file, step.index)) else None
    case _ => None
  }

  ghost function NextBehind(remote: RemoteBytes, file: File, p: Prefetch, act: Act): set<int>
    requires ActOk(remote, p, act)
  {
    var key, m := ChunkOf(p, act), NextSys(remote, p, act).m;
    if key == None then p.behind
    else if LeavesBehind(file, p, act, key.value) then p.behind + TaskOf(m, key.value)
    else if AsksNear(p, act, key.value) then p.behind - TaskOf(m, key.value)
    else p.behind
  }

  ghost function NextTrack(remote: RemoteBytes, file: File, p: Prefetch, act: Act): Track
    requires ActOk(remote, p, act) && ValidConfig(p.s.m.cfg)
  {
    var step := StepOf(remote, p, act);
    if step.Some? then Advance(p.s.m.cfg, file.size, p.track, MoveOf(remote, p.s, step.value, file)) else p.track
  }

  ghost function After(remote: RemoteBytes, file: File, p: Prefetch, act: Act): Prefetch
    requires ActOk(remote, p, act) && ValidConfig(p.s.m.cfg)
  {
    Prefetch(NextSys(remote, p, act), NextCalls(remote, p, act), NextTrack(remote, file, p, act), NextBehind(remote, file, p, act))
  }

  /** A call in progress is still to offer the chunk as near. */
  ghost predicate Pending(m: Mgr, calls: map<int, Calling>, key: ChunkKey)
  {
    exists c :: OffersNear(m, calls, c, key)
  }

  ghost predicate OffersNear(m: Mgr, calls: map<int, Calling>, c: int, key: ChunkKey)
  {
    c in calls && ChunkVersion(calls[c].file, m.cfg.chunkSize) == key.version && Offer(key.index, NEAR) in calls[c].left
  }

  // ---------- the tasks of one chunk ----------

  ghost predicate CancelledIfClosed(m: Mgr)
  {
    m.closed ==> (forall id :: id in m.table ==> m.table[id].cancelled)
  }

  /** No chunk gets a new task, and every task goes on as tasks do, with the same priority. */
  ghost predicate NothingNew(m: Mgr, n: Mgr)
  {
    && Inv(n) && Evolves(m, n) && CancelledIfClosed(n) && SamePriorities(m, n) && n.table.Keys == m.table.Keys
    && forall key :: key in n.tasks ==> key in m.tasks && n.tasks[key] == m.tasks[key]
  }

  lemma NearIfClosed(m: Mgr, key: ChunkKey)
    requires m.closed && CancelledIfClosed(m)
    ensures NearOk(m, key)
  {
    if key in m.tasks && m.tasks[key] in m.table {
      var id := m.tasks[key];
      assert m.table[id].cancelled;
    }
  }

  /** Asking for a chunk as near or more urgent makes it so. */
  lemma AskedIsNear(m: Mgr, file: File, index: int, epoch: int, priority: Priority)
    requires Inv(m) && CancelledIfClosed(m) && priority <= NEAR
    ensures NearOk(Ensure(m, file, index, epoch, priority).0, KeyOf(m, file, index))
  {
    if m.closed { NearIfClosed(m, KeyOf(m, file, index)); }
  }

  /** Asking for a chunk as less urgent leaves it as it was, unless that makes a new task. */
  lemma LessUrgentAsk(m: Mgr, file: File, index: int, epoch: int, priority: Priority)
    requires Inv(m) && priority > NEAR
    ensures var n, key := Ensure(m, file, index, epoch, priority).0, KeyOf(m, file, index);
      && (NearOk(n, key) <==> NearOk(m, key) && !MakesTask(m, file, index))
      && (MakesTask(m, file, index) ==> key in n.tasks && Waits(n, n.tasks[key]) && n.table[n.tasks[key]].priority > NEAR)
      && (!MakesTask(m, file, index) ==> n.tasks == m.tasks)
  {
    var key := KeyOf(m, file, index);
    if key in m.tasks { assert TaskOk(m, {}, m.tasks[key]); }
  }

  ghost predicate SameTaskOf(m: Mgr, n: Mgr, key: ChunkKey)
  {
    && (key in n.tasks <==> key in m.tasks)
    && (key in m.tasks ==>
          m.tasks[key] in m.table && n.tasks[key] == m.tasks[key] && m.tasks[key] in n.table
          && n.table[m.tasks[key]] == m.table[m.tasks[key]])
  }

  lemma AskElsewhere(m: Mgr, key: ChunkKey, f: File, at: int, epoch: int, priority: Priority)
    requires Inv(m) && KeyOf(m, f, at) != key
    ensures SameTaskOf(m, Ensure(m, f, at, epoch, priority).0, key)
  {
    var other := KeyOf(m, f, at);
    if key in m.tasks { assert TaskOk(m, {}, m.tasks[key]); }
    if other in m.tasks { assert m.table[m.tasks[other]].key == other; }
  }

  lemma SameNear(m: Mgr, n: Mgr, key: ChunkKey)
    requires SameTaskOf(m, n, key)
    ensures NearOk(n, key) <==> NearOk(m, key)
  {
  }

  // ---------- one call with nothing in between ----------

  lemma EnsureFrame(m: Mgr, f: File, at: int, epoch: int, priority: Priority)
    requires CancelledIfClosed(m)
    ensures var n := Ensure(m, f, at, epoch, priority).0; CancelledIfClosed(n) && n.closed == m.closed && n.cfg == m.cfg
  {
  }

  /** Offers of a chunk that the store holds leave its task alone. */
  lemma {:induction false} OffersSkipped(m: Mgr, file: File, epoch: int, offers: seq<Offer>, cached: set<int>, index: int)
    requires Inv(m) && CancelledIfClosed(m) && index in cached
    ensures NearOk(OfferAll(m, file, epoch, offers, cached), KeyOf(m, file, index)) <==> NearOk(m, KeyOf(m, file, index))
    decreases |offers|
  {
    if offers != [] {
      var o := offers[0];
      if o.index in cached {
        OffersSkipped(m, file, epoch, offers[1..], cached, index);
      } else {
        var n := Ensure(m, file, o.index, epoch, o.priority).0;
        EnsureKeeps(m, file, o.index, epoch, o.priority);
        EnsureFrame(m, file, o.index, epoch, o.priority);
        AskElsewhere(m, KeyOf(m, file, index), file, o.index, epoch, o.priority);
        SameNear(m, n, KeyOf(m, file, index));
        OffersSkipped(n, file, epoch, offers[1..], cached, index);
      }
    }
  }

  lemma {:induction false} OffersKeep(m: Mgr, file: File, epoch: int, offers: seq<Offer>, cached: set<int>)
    requires Inv(m) && CancelledIfClosed(m)
    ensures var n := OfferAll(m, file, epoch, offers, cached);
      Inv(n) && CancelledIfClosed(n) && n.closed == m.closed && n.cfg == m.cfg
    decreases |offers|
  {
    if offers != [] {
      var o := offers[0];
      EnsureKeeps(m, file, o.index, epoch, o.priority);
      EnsureFrame(m, file, o.index, epoch, o.priority);
      OffersKeep(if o.index in cached then m else Ensure(m, file, o.index, epoch, o.priority).0, file, epoch, offers[1..], cached);
    }
  }

  /** When a call makes all its offers at once, a chunk it offers as near is near afterwards exactly if the store did
      not hold it or it was near before. */
  lemma BatchExact(m: Mgr, file: File, s: SessionState, cursor: int, epoch: int, cached: set<int>, index: int)
    requires ValidConfig(m.cfg) && Inv(m) && CancelledIfClosed(m) && cursor >= 0
    requires Offer(index, NEAR) in Schedule(m.cfg, file.size, s, cursor, epoch).2
    ensures NearOk(OfferAll(m, file, epoch, Schedule(m.cfg, file.size, s, cursor, epoch).2, cached), KeyOf(m, file, index))
      <==> index !in cached || NearOk(m, KeyOf(m, file, index))
  {
    var offers := Schedule(m.cfg, file.size, s, cursor, epoch).2;
    OffersKeep(m, file, epoch, offers, cached);
    if index in cached {
      OffersSkipped(m, file, epoch, offers, cached, index);
    } else if m.closed {
      NearIfClosed(OfferAll(m, file, epoch, offers, cached), KeyOf(m, file, index));
    } else {
      CallAttends(m, file, s, cursor, epoch, cached, Offer(index, NEAR));
    }
  }

  // ---------- steps of the engine ----------

  lemma ScanListsLess(m: Mgr)
    requires Inv(m)
    ensures var n := Scan(m, {}).0; forall key :: key in n.tasks ==> key in m.tasks && n.tasks[key] == m.tasks[key]
  {
    ScanPass(m);
  }

  lemma ClosedStaysCancelled(remote: RemoteBytes, s: Sys, step: Step)
    requires TaskPart(s) && CancelledIfClosed(s.m) && Enabled(remote, s, step)
    ensures CancelledIfClosed(Apply(remote, s, step).m)
  {
    StepKeeps(remote, s, step);
    var n := Apply(remote, s, step).m;
    if n.closed && !step.CloseStep? {
      StaysOpen(remote, s, step);
      forall id | id in n.table ensures n.table[id].cancelled {
        if step.EnsureStep? { assert n == s.m; }
        assert id in s.m.table && TaskEvolves(s.m.table[id], n.table[id]);
      }
    }
  }

  lemma StaysOpen(remote: RemoteBytes, s: Sys, step: Step)
    requires Inv(s.m) && Enabled(remote, s, step) && !step.CloseStep?
    ensures Apply(remote, s, step).m.closed == s.m.closed
  {
    if step.NextStep? {
      ScanPass(s.m);
    } else if !step.EnsureStep? {
      StepFrame(remote, s, step);
    }
  }

  /** Only a request for a chunk brings a new task. */
  lemma BringsNothingNew(remote: RemoteBytes, s: Sys, step: Step)
    requires TaskPart(s) && CancelledIfClosed(s.m) && Enabled(remote, s, step) && !step.EnsureStep?
    ensures NothingNew(s.m, Apply(remote, s, step).m)
  {
    StepKeeps(remote, s, step);
    ClosedStaysCancelled(remote, s, step);
    ListsLess(remote, s, step);
    PrioritiesStay(remote, s, step);
  }

  lemma PrioritiesStay(remote: RemoteBytes, s: Sys, step: Step)
    requires Inv(s.m) && Enabled(remote, s, step) && !step.EnsureStep?
    ensures SamePriorities(s.m, Apply(remote, s, step).m)
  {
    if step.NextStep? {
      if !s.m.closed {
        ScanPass(s.m);
        var (n, r) := Scan(s.m, {});
        assert forall u :: u in s.m.table ==> n.table[u] == PassTask(s.m, r, u);
      }
    } else if !step.CloseStep? {
      StepFrame(remote, s, step);
    }
  }

  lemma ListsLess(remote: RemoteBytes, s: Sys, step: Step)
    requires Inv(s.m) && Enabled(remote, s, step) && !step.EnsureStep?
    ensures var n := Apply(remote, s, step).m; forall key :: key in n.tasks ==> key in s.m.tasks && n.tasks[key] == s.m.tasks[key]
  {
    if step.NextStep? {
      if !s.m.closed { ScanListsLess(s.m); }
    } else if !step.CloseStep? {
      StepFrame(remote, s, step);
    }
  }

  /** No step spoils a chunk but a less urgent request that makes a new task. */
  lemma StepNear(remote: RemoteBytes, s: Sys, step: Step, key: ChunkKey)
    requires TaskPart(s) && CancelledIfClosed(s.m) && Enabled(remote, s, step) && NearOk(s.m, key)
    requires RequestFor(s.m, step, key) && step.priority > NEAR ==> !MakesTask(s.m, step.file, step.index)
    ensures NearOk(Apply(remote, s, step).m, key)
  {
    if RequestFor(s.m, step, key) {
      if step.priority <= NEAR {
        AskedIsNear(s.m, step.file, step.index, step.epoch, step.priority);
      } else {
        LessUrgentAsk(s.m, step.file, step.index, step.epoch, step.priority);
      }
    } else if step.EnsureStep? {
      AskElsewhere(s.m, key, step.file, step.index, step.epoch, step.priority);
      SameNear(s.m, Apply(remote, s, step).m, key);
    } else {
      BringsNothingNew(remote, s, step);
      StaysNear(s.m, Apply(remote, s, step).m, key);
    }
  }

  lemma StaysNear(m: Mgr, n: Mgr, key: ChunkKey)
    requires Inv(m) && NothingNew(m, n) && NearOk(m, key)
    ensures NearOk(n, key)
  {
    if key in n.tasks && n.tasks[key] in n.table { assert TaskEvolves(m.table[n.tasks[key]], n.table[n.tasks[key]]); }
  }

  /** A chunk that has a task and is behind after a step still has that task, unless a request has made a new one. */
  lemma StepSameTask(remote: RemoteBytes, s: Sys, step: Step, key: ChunkKey)
    requires TaskPart(s) && CancelledIfClosed(s.m) && Enabled(remote, s, step) && key in s.m.tasks
    requires !NearOk(Apply(remote, s, step).m, key)
    requires RequestFor(s.m, step, key) ==> step.priority > NEAR && !MakesTask(s.m, step.file, step.index)
    ensures var n := Apply(remote, s, step).m; key in n.tasks && n.tasks[key] == s.m.tasks[key]
  {
    if RequestFor(s.m, step, key) {
      LessUrgentAsk(s.m, step.file, step.index, step.epoch, step.priority);
    } else if step.EnsureStep? {
      AskElsewhere(s.m, key, step.file, step.index, step.epoch, step.priority);
    } else {
      BringsNothingNew(remote, s, step);
    }
  }

  /** If the task waits, it is less urgent than near. */
  ghost predicate IsBehind(m: Mgr, id: int) { id in m.table && (Waits(m, id) ==> m.table[id].priority > NEAR) }

  /** No step but a request as near for its chunk makes a task more urgent. */
  lemma StepBehind(remote: RemoteBytes, s: Sys, step: Step, id: int)
    requires TaskPart(s) && CancelledIfClosed(s.m) && Enabled(remote, s, step) && IsBehind(s.m, id)
    requires step.EnsureStep? && step.priority <= NEAR ==>
      var n, key := Apply(remote, s, step).m, KeyOf(s.m, step.file, step.index); key in n.tasks ==> n.tasks[key] != id
    ensures IsBehind(Apply(remote, s, step).m, id)
  {
    StepKeeps(remote, s, step);
    var n := Apply(remote, s, step).m;
    assert TaskEvolves(s.m.table[id], n.table[id]);
    if step.EnsureStep? { OnlyTheTask(s.m, step, id); } else { BringsNothingNew(remote, s, step); }
  }

  /** A request changes no task but the one listed for its chunk afterwards, and that only as it asks. */
  lemma OnlyTheTask(m: Mgr, step: Step, id: int)
    requires Inv(m) && step.EnsureStep? && id in m.table
    ensures var n, key := Ensure(m, step.file, step.index, step.epoch, step.priority).0, KeyOf(m, step.file, step.index);
      n.table[id] == m.table[id]
      || (key in n.tasks && n.tasks[key] == id && n.table[id] == m.table[id].(priority := step.priority))
  {
    assert TaskOk(m, {}, id);
  }

  // ---------- every act ----------

  ghost predicate Fine(p: Prefetch, key: ChunkKey)
  {
    NearOk(p.s.m, key) || HasBehind(p, key) || Pending(p.s.m, p.calls, key)
  }

  ghost predicate HasBehind(p: Prefetch, key: ChunkKey) { key in p.s.m.tasks && p.s.m.tasks[key] in p.behind }

  ghost predicate AllBehind(p: Prefetch) { forall id :: id in p.behind ==> IsBehind(p.s.m, id) }

  ghost predicate Engaged(p: Prefetch) { TaskPart(p.s) && CancelledIfClosed(p.s.m) }

  /** The window of the file is what its history says. */
  ghost predicate Tracked(file: File, p: Prefetch)
    requires ValidConfig(p.s.m.cfg)
  {
    p.track.s == SessionIn(p.s.m, file) && Covered(p.s.m.cfg, p.track) && Refined(p.s.m.cfg, file.size, p.track)
  }

  ghost predicate AllFine(file: File, p: Prefetch)
  {
    p.track.s.scheduleSet ==> forall i :: NearOffered(p.track.calls, i) ==> Fine(p, KeyOf(p.s.m, file, i))
  }

  ghost predicate PrefetchInv(file: File, p: Prefetch)
  {
    Engaged(p) && AllBehind(p) && Tracked(file, p) && AllFine(file, p)
  }

  lemma ActEngaged(remote: RemoteBytes, p: Prefetch, act: Act)
    requires Engaged(p) && ActOk(remote, p, act)
    ensures var t := NextSys(remote, p, act); TaskPart(t) && CancelledIfClosed(t.m) && t.m.cfg == p.s.m.cfg
  {
    var step := StepOf(remote, p, act);
    if step.Some? {
      TaskPartKept(remote, p.s, step.value);
      ClosedStaysCancelled(remote, p.s, step.value);
    }
  }

  lemma ActTracked(remote: RemoteBytes, file: File, p: Prefetch, act: Act)
    requires Engaged(p) && Tracked(file, p) && ActOk(remote, p, act) && NumericFsid(file.fsid)
    ensures Engaged(After(remote, file, p, act)) && Tracked(file, After(remote, file, p, act))
  {
    ActEngaged(remote, p, act);
    var step := StepOf(remote, p, act);
    if step.Some? {
      StepMove(remote, p.s, step.value, file);
      MoveTracked(p.s.m.cfg, file.size, p.track, MoveOf(remote, p.s, step.value, file), SessionIn(NextSys(remote, p, act).m, file));
    }
  }

  lemma MoveTracked(cfg: Config, size: int, t: Track, move: Move, s: SessionState)
    requires ValidConfig(cfg) && Covered(cfg, t) && Refined(cfg, size, t) && IsMove(cfg, size, t.s, move, s)
    ensures var u := Advance(cfg, size, t, move); u.s == s && Covered(cfg, u) && Refined(cfg, size, u)
  {
    CoveredKept(cfg, size, t, move);
    RefinedKept(cfg, size, t, move);
  }

  /** No act spoils a chunk but one that leaves it behind. */
  lemma ActNear(remote: RemoteBytes, file: File, p: Prefetch, act: Act, key: ChunkKey)
    requires Engaged(p) && ActOk(remote, p, act) && NearOk(p.s.m, key) && InNear(file, p, key) && !LeavesBehind(file, p, act, key)
    ensures NearOk(NextSys(remote, p, act).m, key)
  {
    var step := StepOf(remote, p, act);
    if step.Some? { StepNear(remote, p.s, step.value, key); }
  }

  /** A chunk that an act leaves behind is behind, with a task that is now counted as such. */
  lemma LeftIsBehind(remote: RemoteBytes, file: File, p: Prefetch, act: Act, key: ChunkKey)
    requires Engaged(p) && ActOk(remote, p, act) && LeavesBehind(file, p, act, key)
    ensures var n := NextSys(remote, p, act).m;
      !NearOk(n, key) && key in n.tasks && IsBehind(n, n.tasks[key]) && n.tasks[key] in NextBehind(remote, file, p, act)
  {
    if act.Make? {
      var c := p.calls[act.call];
      LessUrgentAsk(p.s.m, c.file, c.left[0].index, c.epoch, c.left[0].priority);
    }
  }

  /** A chunk that is still to be offered stays so, until the offer is dealt with. */
  lemma StillPending(remote: RemoteBytes, p: Prefetch, act: Act, key: ChunkKey)
    requires Engaged(p) && ActOk(remote, p, act) && Pending(p.s.m, p.calls, key) && !DealsWith(p, act, key)
    ensures Pending(NextSys(remote, p, act).m, NextCalls(remote, p, act), key)
  {
    ActEngaged(remote, p, act);
    var c :| OffersNear(p.s.m, p.calls, c, key);
    CallGoesOn(remote, p, act, c, Offer(key.index, NEAR));
    assert OffersNear(NextSys(remote, p, act).m, NextCalls(remote, p, act), c, key);
  }

  /** A call goes on with the offers that it does not deal with. */
  lemma CallGoesOn(remote: RemoteBytes, p: Prefetch, act: Act, c: int, o: Offer)
    requires ActOk(remote, p, act) && c in p.calls && o in p.calls[c].left
    requires (act.Skip? || act.Make?) && act.call == c ==> p.calls[c].left[0] != o
    ensures var calls := NextCalls(remote, p, act); c in calls && calls[c].file == p.calls[c].file && o in calls[c].left
  {
    if (act.Skip? || act.Make?) && act.call == c { InRest(p.calls[c].left, o); }
  }

  lemma InRest(s: seq<Offer>, o: Offer)
    requires o in s && s[0] != o
    ensures o in s[1..]
  {
  }

  /** A near offer leaves its chunk near exactly if it is made, or skipped while the chunk is near. */
  lemma DealtWith(remote: RemoteBytes, file: File, p: Prefetch, act: Act, key: ChunkKey)
    requires Engaged(p) && ActOk(remote, p, act) && DealsWith(p, act, key)
    ensures NearOk(NextSys(remote, p, act).m, key) <==> act.Make? || NearOk(p.s.m, key)
    ensures NearOk(NextSys(remote, p, act).m, key) <==> !LeavesBehind(file, p, act, key)
  {
    if act.Make? {
      var c := p.calls[act.call];
      AskedIsNear(p.s.m, c.file, c.left[0].index, c.epoch, NEAR);
    }
  }

  /** A less urgent offer leaves its chunk near exactly if it was near and no new task is made. */
  lemma LessUrgentDealtWith(remote: RemoteBytes, p: Prefetch, call: int, woken: Option<int>)
    requires Engaged(p) && ActOk(remote, p, Make(call, woken)) && p.calls[call].left[0].priority > NEAR
    ensures NearOk(NextSys(remote, p, Make(call, woken)).m, HeadKey(p, call))
      <==> NearOk(p.s.m, HeadKey(p, call)) && !MakesTask(p.s.m, p.calls[call].file, p.calls[call].left[0].index)
  {
    var c := p.calls[call];
    LessUrgentAsk(p.s.m, c.file, c.left[0].index, c.epoch, c.left[0].priority);
  }

  /** A chunk whose task was left behind is near after an act, or still has that task, counted as behind. */
  lemma BehindStays(remote: RemoteBytes, file: File, p: Prefetch, act: Act, key: ChunkKey)
    requires Engaged(p) && ActOk(remote, p, act) && HasBehind(p, key) && InNear(file, p, key) && !LeavesBehind(file, p, act, key)
    ensures var n := NextSys(remote, p, act).m;
      NearOk(n, key) || (key in n.tasks && n.tasks[key] in NextBehind(remote, file, p, act))
  {
    var n, step := NextSys(remote, p, act).m, StepOf(remote, p, act);
    if AsksNear(p, act, key) {
      NearAsked(remote, p, act, key);
    } else if !NearOk(n, key) {
      if step.Some? { StepSameTask(remote, p.s, step.value, key); }
      ActEngaged(remote, p, act);
      OtherTask(remote, file, p, act, key);
    }
  }

  lemma NearAsked(remote: RemoteBytes, p: Prefetch, act: Act, key: ChunkKey)
    requires Engaged(p) && ActOk(remote, p, act) && AsksNear(p, act, key)
    ensures NearOk(NextSys(remote, p, act).m, key)
  {
    var step := StepOf(remote, p, act).value;
    AskedIsNear(p.s.m, step.file, step.index, step.epoch, step.priority);
  }

  /** The task of a chunk that nobody asks for as near goes on being counted. */
  lemma OtherTask(remote: RemoteBytes, file: File, p: Prefetch, act: Act, key: ChunkKey)
    requires Engaged(p) && ActOk(remote, p, act) && HasBehind(p, key) && !AsksNear(p, act, key)
    requires var n := NextSys(remote, p, act).m; Inv(n) && key in n.tasks && n.tasks[key] == p.s.m.tasks[key]
    ensures p.s.m.tasks[key] in NextBehind(remote, file, p, act)
  {
    var n := NextSys(remote, p, act).m;
    forall k | k in n.tasks && n.tasks[k] == n.tasks[key] ensures k == key { assert n.table[n.tasks[k]].key == k; }
  }

  lemma FineStays(remote: RemoteBytes, file: File, p: Prefetch, act: Act, key: ChunkKey)
    requires Engaged(p) && ActOk(remote, p, act) && Fine(p, key) && InNear(file, p, key)
    ensures Fine(After(remote, file, p, act), key)
  {
    if LeavesBehind(file, p, act, key) {
      LeftIsBehind(remote, file, p, act, key);
    } else if NearOk(p.s.m, key) {
      ActNear(remote, file, p, act, key);
    } else if HasBehind(p, key) {
      BehindStays(remote, file, p, act, key);
    } else if DealsWith(p, act, key) {
      DealtWith(remote, file, p, act, key);
    } else {
      StillPending(remote, p, act, key);
    }
  }

  lemma ActAllBehind(remote: RemoteBytes, file: File, p: Prefetch, act: Act)
    requires Engaged(p) && AllBehind(p) && ActOk(remote, p, act)
    ensures AllBehind(After(remote, file, p, act))
  {
    var n, step, key := NextSys(remote, p, act).m, StepOf(remote, p, act), ChunkOf(p, act);
    forall id | id in NextBehind(remote, file, p, act) ensures IsBehind(n, id) {
      if key.Some? && LeavesBehind(file, p, act, key.value) && id in TaskOf(n, key.value) {
        LeftIsBehind(remote, file, p, act, key.value);
      } else {
        assert IsBehind(p.s.m, id);
        if step.Some? { StepBehind(remote, p.s, step.value, id); }
      }
    }
  }

  /** What a step newly offers as near is the business of the call that it starts. */
  lemma NewOffersPend(remote: RemoteBytes, file: File, p: Prefetch, act: Act, index: int)
    requires Engaged(p) && Tracked(file, p) && ActOk(remote, p, act) && NumericFsid(file.fsid)
    requires NextTrack(remote, file, p, act).s.scheduleSet && NearOffered(NextTrack(remote, file, p, act).calls, index)
    ensures (p.track.s.scheduleSet && NearOffered(p.track.calls, index))
      || Pending(NextSys(remote, p, act).m, NextCalls(remote, p, act), KeyOf(p.s.m, file, index))
  {
    var step := StepOf(remote, p, act);
    if step.Some? {
      ActEngaged(remote, p, act);
      StepMove(remote, p.s, step.value, file);
      if MoveOf(remote, p.s, step.value, file).Call? {
        ScheduleMove(p.s.m, act.file, act.cursor, act.epoch, file);
        if Offer(index, NEAR) in OffersOf(p.s.m, file, act.cursor, act.epoch) {
          assert OffersNear(NextSys(remote, p, act).m, NextCalls(remote, p, act), act.call, KeyOf(p.s.m, file, index));
        }
      }
    }
  }

  lemma ActKeeps(remote: RemoteBytes, file: File, p: Prefetch, act: Act)
    requires PrefetchInv(file, p) && ActOk(remote, p, act) && NumericFsid(file.fsid)
    ensures PrefetchInv(file, After(remote, file, p, act))
  {
    var q := After(remote, file, p, act);
    ActTracked(remote, file, p, act);
    ActEngaged(remote, p, act);
    ActAllBehind(remote, file, p, act);
    if q.track.s.scheduleSet {
      forall i | NearOffered(q.track.calls, i) ensures Fine(q, KeyOf(q.s.m, file, i)) {
        NewOffersPend(remote, file, p, act, i);
        if p.track.s.scheduleSet && NearOffered(p.track.calls, i) { FineStays(remote, file, p, act, KeyOf(p.s.m, file, i)); }
      }
    }
  }

  // ---------- histories ----------

  ghost predicate Beginning(remote: RemoteBytes, p: Prefetch)
  {
    Init(p.s) && CacheTrue(remote, p.s) && p.calls == map[] && p.track == Track(NEW_SESSION, 0, 0, []) && p.behind == {}
  }

  ghost predicate ActAt(remote: RemoteBytes, file: File, history: seq<Prefetch>, acts: seq<Act>, i: int)
    requires |history| == |acts| + 1 && 0 <= i < |acts|
  {
    && ValidConfig(history[i].s.m.cfg) && ActOk(remote, history[i], acts[i])
    && history[i + 1] == After(remote, file, history[i], acts[i])
  }

  /** Any interleaving of calls, their offers, and everything else. */
  ghost predicate IsPrefetch(remote: RemoteBytes, file: File, history: seq<Prefetch>, acts: seq<Act>)
  {
    && |history| == |acts| + 1 && Beginning(remote, history[0])
    && forall i :: 0 <= i < |acts| ==> ActAt(remote, file, history, acts, i)
  }

  /** Such a history is a run of the engine with looks and skips in between. */
  lemma {:induction false} HistoryIsRun(remote: RemoteBytes, file: File, history: seq<Prefetch>, acts: seq<Act>, n: nat)
    returns (run: seq<Sys>, steps: seq<Step>)
    requires IsPrefetch(remote, file, history, acts) && n < |history|
    ensures IsRun(remote, run, steps) && run[|steps|] == history[n].s
  {
    if n == 0 {
      run, steps := [history[0].s], [];
    } else {
      run, steps := HistoryIsRun(remote, file, history, acts, n - 1);
      assert ActAt(remote, file, history, acts, n - 1);
      var step := StepOf(remote, history[n - 1], acts[n - 1]);
      if step.Some? { run, steps := RunGoesOn(remote, run, steps, history[n - 1].s, step.value); }
    }
  }

  lemma RunGoesOn(remote: RemoteBytes, run: seq<Sys>, steps: seq<Step>, s: Sys, step: Step) returns (r: seq<Sys>, q: seq<Step>)
    requires IsRun(remote, run, steps) && run[|steps|] == s && Enabled(remote, s, step)
    ensures IsRun(remote, r, q) && r[|q|] == Apply(remote, s, step)
  {
    var t := Apply(remote, s, step);
    r, q := run + [t], steps + [step];
    assert StepAt(remote, r, q, |steps|);
    forall i | 0 <= i < |steps| ensures StepAt(remote, r, q, i) { StepStays(remote, run, steps, step, t, i); }
  }

  lemma StepStays(remote: RemoteBytes, run: seq<Sys>, steps: seq<Step>, step: Step, t: Sys, i: nat)
    requires IsRun(remote, run, steps) && i < |steps|
    ensures StepAt(remote, run + [t], steps + [step], i)
  {
    assert StepAt(remote, run, steps, i);
  }

  lemma {:induction false} AlwaysNear(remote: RemoteBytes, file: File, history: seq<Prefetch>, acts: seq<Act>, n: nat)
    requires IsPrefetch(remote, file, history, acts) && n < |history| && NumericFsid(file.fsid)
    ensures PrefetchInv(file, history[n])
    decreases n
  {
    if n == 0 {
      InitHolds(remote, history[0].s);
    } else {
      AlwaysNear(remote, file, history, acts, n - 1);
      assert ActAt(remote, file, history, acts, n - 1);
      ActKeeps(remote, file, history[n - 1], acts[n - 1]);
    }
  }

  /** The near part of the window, in any interleaving: of a chunk from that of the furthest cursor to the near edge,
      which no call is still to offer as near, the waiting task is near or more urgent, exactly unless an offer left it
      behind and nobody has asked for the chunk as near since. */
  lemma NearWindowIsNear(remote: RemoteBytes, file: File, history: seq<Prefetch>, acts: seq<Act>, n: nat, index: int)
    requires IsPrefetch(remote, file, history, acts) && n < |history| && NumericFsid(file.fsid)
    requires var p := history[n];
      && p.track.s.scheduleSet && p.s.m.cfg.chunkSize > 0
      && p.track.cursor / p.s.m.cfg.chunkSize <= index <= p.track.s.near
      && !Pending(p.s.m, p.calls, KeyOf(p.s.m, file, index))
    requires var m, key := history[n].s.m, KeyOf(history[n].s.m, file, index); key in m.tasks && Waits(m, m.tasks[key])
    ensures var p, key := history[n], KeyOf(history[n].s.m, file, index);
      p.s.m.table[p.s.m.tasks[key]].priority <= NEAR <==> p.s.m.tasks[key] !in p.behind
  {
    var p := history[n];
    AlwaysNear(remote, file, history, acts, n);
    assert NearOffered(p.track.calls, index);
    assert Fine(p, KeyOf(p.s.m, file, index));
    if p.s.m.tasks[KeyOf(p.s.m, file, index)] in p.behind { assert IsBehind(p.s.m, p.s.m.tasks[KeyOf(p.s.m, file, index)]); }
  }
}
