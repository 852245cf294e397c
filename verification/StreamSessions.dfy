/** Session accounting: references, downloads in flight, and the streaming handle. */
module StreamSessions {
  import opened Content
  import opened Naming
  import opened StreamState
  import opened TaskProtocol
  import opened StreamSystem
  import opened StreamSafety

  ghost function VersionOf(s: Sys, h: int): string
    requires h in s.handles
  {
    ChunkVersion(s.handles[h].state.file, s.m.cfg.chunkSize)
  }

  /** The handles of a version that have not finished releasing. */
  ghost function RefsOf(s: Sys, v: string): set<int>
  {
    set h | h in s.handles && s.handles[h].phase != Released && VersionOf(s, h) == v
  }

  /** The workers downloading a task of a version. */
  ghost function BusyOn(s: Sys, v: string): set<int>
  {
    set w | w in s.workers && WorksOn(s, w, v)
  }

  ghost predicate WorksOn(s: Sys, w: int, v: string)
    requires w in s.workers
  {
    s.workers[w].Busy? && s.workers[w].task in s.m.table && s.m.table[s.workers[w].task].key.version == v
  }

  ghost predicate SessionOk(s: Sys, v: string)
    requires v in s.m.sessions
  {
    var e := s.m.sessions[v];
    e.refs == |RefsOf(s, v)| && 0 <= e.inflight <= |BusyOn(s, v)| && (e.active != 0 ==> e.active in RefsOf(s, v))
  }

  ghost predicate HandlesOk(s: Sys)
  {
    && s.m.nextHandle >= 0
    && (forall h :: h in s.handles ==> 1 <= h <= s.m.nextHandle)
    && (forall h :: h in s.handles && s.handles[h].phase != Released ==> VersionOf(s, h) in s.m.sessions)
  }

  ghost predicate SessionPart(s: Sys)
  {
    HandlesOk(s) && forall v :: v in s.m.sessions ==> SessionOk(s, v)
  }

  /** Only sessions without references disappear. */
  ghost predicate Fewer(m: Mgr, n: Mgr)
  {
    && m.cfg == n.cfg && m.nextHandle == n.nextHandle
    && (forall v :: v in n.sessions ==> v in m.sessions)
    && (forall v :: v in m.sessions && v !in n.sessions ==> m.sessions[v].refs <= 0)
  }

  /** A session disappears only without references, without counted downloads and without an
      unfinished task. */
  lemma CleanupExact(m: Mgr, v: string)
    ensures var n := Cleanup(m, v);
      n == m.(sessions := n.sessions)
      && (forall u :: u in n.sessions ==> u in m.sessions && n.sessions[u] == m.sessions[u])
      && (forall u :: u in m.sessions && u !in n.sessions ==>
            u == v && m.sessions[u].refs <= 0 && m.sessions[u].inflight <= 0 && !Unfinished(n, u))
  {
    assert Unfinished(Cleanup(m, v), v) == Unfinished(m, v);
  }

  lemma HandlesFewer(s: Sys, t: Sys)
    requires SessionPart(s) && Fewer(s.m, t.m)
    requires forall h :: h in t.handles ==> h in s.handles && t.handles[h].state.file == s.handles[h].state.file
    requires forall h :: h in t.handles && t.handles[h].phase != Released ==> s.handles[h].phase != Released
    ensures HandlesOk(t)
  {
    forall h | h in t.handles && t.handles[h].phase != Released ensures VersionOf(t, h) in t.m.sessions {
      var v := VersionOf(s, h);
      assert v in s.m.sessions && h in RefsOf(s, v) && SessionOk(s, v);
      assert |RefsOf(s, v)| > 0;
    }
  }

  lemma SameBusy(s: Sys, t: Sys)
    requires WorkerPart(s) && Evolves(s.m, t.m)
    requires forall w, id :: Runs(s, w, id) <==> Runs(t, w, id)
    ensures forall v :: BusyOn(s, v) == BusyOn(t, v)
  {
    forall v ensures BusyOn(s, v) == BusyOn(t, v) {
      forall w ensures w in BusyOn(s, v) <==> w in BusyOn(t, v) {
        if w in s.workers && s.workers[w].Busy? { assert Runs(s, w, s.workers[w].task) && Runs(t, w, s.workers[w].task); }
        if w in t.workers && t.workers[w].Busy? { assert Runs(t, w, t.workers[w].task) && Runs(s, w, t.workers[w].task); }
      }
    }
  }

  /** Steps that neither touch sessions nor handles. */
  lemma SessionsSame(s: Sys, t: Sys)
    requires SessionPart(s) && WorkerPart(s) && Evolves(s.m, t.m)
    requires t.m.sessions == s.m.sessions && t.m.nextHandle == s.m.nextHandle && t.handles == s.handles
    requires forall w, id :: Runs(s, w, id) <==> Runs(t, w, id)
    ensures SessionPart(t)
  {
    SameBusy(s, t);
    assert forall v :: RefsOf(s, v) == RefsOf(t, v);
    forall v | v in t.m.sessions ensures SessionOk(t, v) { assert SessionOk(s, v); }
    forall h | h in t.handles && t.handles[h].phase != Released ensures VersionOf(t, h) in t.m.sessions {
      assert VersionOf(s, h) in s.m.sessions;
    }
  }

  lemma PlainSteps(remote: RemoteBytes, s: Sys, step: Step)
    requires WorkerPart(s) && Enabled(remote, s, step)
    requires step.EnsureStep? || step.MarkStep? || step.HedgeStep? || step.PublishStep? || step.CachePut?
          || step.CacheDrop? || step.BroadcastStep? || step.CloseStep?
    ensures var t := Apply(remote, s, step);
      t.m.sessions == s.m.sessions && t.m.nextHandle == s.m.nextHandle && t.handles == s.handles
      && forall w, id :: Runs(s, w, id) <==> Runs(t, w, id)
  {
  }

  /** Steps that only move prefetch windows. */
  ghost predicate WindowsOnly(s: Sys, t: Sys)
  {
    && t == s.(m := s.m.(sessions := t.m.sessions)) && t.m.sessions.Keys == s.m.sessions.Keys
    && forall v :: v in s.m.sessions ==> SameCounts(s.m.sessions[v], t.m.sessions[v])
  }

  predicate SameCounts(a: SessionState, b: SessionState)
  {
    b == a.(scheduleSet := b.scheduleSet, scheduleEpoch := b.scheduleEpoch, floor := b.floor, near := b.near, end := b.end)
  }

  lemma WindowSteps(remote: RemoteBytes, s: Sys, step: Step)
    requires Enabled(remote, s, step) && (step.ScheduleStep? || step.ReclaimStep?)
    ensures WindowsOnly(s, Apply(remote, s, step))
  {
  }

  lemma WindowSessions(s: Sys, t: Sys)
    requires SessionPart(s) && WindowsOnly(s, t)
    ensures SessionPart(t)
  {
    assert forall v :: RefsOf(s, v) == RefsOf(t, v) && BusyOn(s, v) == BusyOn(t, v);
    forall v | v in t.m.sessions ensures SessionOk(t, v) {
      assert SessionOk(s, v) && SameCounts(s.m.sessions[v], t.m.sessions[v]);
    }
    forall h | h in t.handles && t.handles[h].phase != Released ensures VersionOf(t, h) in t.m.sessions {
      assert VersionOf(s, h) in s.m.sessions;
    }
  }

  /** How the handles of each version change when one handle changes. */
  lemma RefsOne(s: Sys, t: Sys, h: int, v: string)
    requires s.m.cfg == t.m.cfg
    requires h in t.handles && VersionOf(t, h) == v && (h in s.handles ==> VersionOf(s, h) == v)
    requires forall g :: g != h ==> (g in t.handles <==> g in s.handles)
    requires forall g :: g != h && g in s.handles ==> t.handles[g] == s.handles[g]
    ensures forall u :: u != v ==> RefsOf(t, u) == RefsOf(s, u)
    ensures RefsOf(t, v) == if t.handles[h].phase != Released then RefsOf(s, v) + {h} else RefsOf(s, v) - {h}
  {
  }

  lemma OpenSessions(remote: RemoteBytes, s: Sys, file: File)
    requires SessionPart(s) && WorkerPart(s) && Enabled(remote, s, OpenStep(file)) && !s.m.closed
    ensures SessionPart(Apply(remote, s, OpenStep(file)))
  {
    var t := Apply(remote, s, OpenStep(file));
    var v := ChunkVersion(file, s.m.cfg.chunkSize);
    var h := s.m.nextHandle + 1;
    assert h !in s.handles;
    SameBusy(s, t) by { assert Evolves(s.m, t.m); }
    RefsOne(s, t, h, v);
    if v !in s.m.sessions { NoRefs(s, v); } else { assert SessionOk(s, v); }
    assert SessionOk(t, v);
    forall u | u in t.m.sessions && u != v ensures SessionOk(t, u) { assert SessionOk(s, u); }
    OpenHandles(s, t, file);
  }

  lemma NoRefs(s: Sys, v: string)
    requires HandlesOk(s) && v !in s.m.sessions
    ensures RefsOf(s, v) == {}
  {
    forall g | g in s.handles && s.handles[g].phase != Released ensures VersionOf(s, g) != v {
      assert VersionOf(s, g) in s.m.sessions;
    }
  }

  lemma OpenHandles(s: Sys, t: Sys, file: File)
    requires HandlesOk(s) && t.m.cfg == s.m.cfg && t.m.nextHandle == s.m.nextHandle + 1
    requires t.handles == s.handles[t.m.nextHandle := Slot(NewHandle(file), Held)]
    requires forall v :: v in s.m.sessions || v == ChunkVersion(file, s.m.cfg.chunkSize) ==> v in t.m.sessions
    ensures HandlesOk(t)
  {
    forall g | g in t.handles && t.handles[g].phase != Released ensures VersionOf(t, g) in t.m.sessions {
      if g != t.m.nextHandle { assert VersionOf(s, g) in s.m.sessions; }
    }
  }

  lemma BeginReleaseSessions(remote: RemoteBytes, s: Sys, h: int)
    requires SessionPart(s) && WorkerPart(s) && Enabled(remote, s, BeginRelease(h))
    ensures SessionPart(Apply(remote, s, BeginRelease(h)))
  {
    var t := Apply(remote, s, BeginRelease(h));
    SameBusy(s, t) by { assert Evolves(s.m, t.m); }
    SameRefs(s, t);
    forall u | u in t.m.sessions ensures SessionOk(t, u) { assert SessionOk(s, u); }
    HandlesFewer(s, t);
  }

  lemma ReadSessions(remote: RemoteBytes, s: Sys, h: int, offset: int, length: int)
    requires TaskPart(s) && SessionPart(s) && WorkerPart(s) && Enabled(remote, s, ReadStep(h, offset, length))
    ensures SessionPart(Apply(remote, s, ReadStep(h, offset, length)))
  {
    var t := Apply(remote, s, ReadStep(h, offset, length));
    var (seen, observation) := Observe(s.m.cfg, s.handles[h].state, offset, length);
    ObserveFile(s.m.cfg, s.handles[h].state, offset, length);
    var v := VersionOf(s, h);
    PrepareKeeps(s.m, h, s.handles[h].state.file, observation, offset, length);
    PrepareSession(s.m, h, s.handles[h].state.file, observation, offset, length);
    SameBusy(s, t);
    SameRefs(s, t);
    forall u | u in t.m.sessions ensures SessionOk(t, u) { ReadSessionOk(s, t, h, u); }
    HandlesFewer(s, t);
  }

  /** Handles that keep their file and are released or not as before. */
  lemma SameRefs(s: Sys, t: Sys)
    requires t.m.cfg == s.m.cfg && t.handles.Keys == s.handles.Keys
    requires forall h :: h in s.handles ==>
      t.handles[h].state.file == s.handles[h].state.file && (t.handles[h].phase == Released <==> s.handles[h].phase == Released)
    ensures forall u :: RefsOf(t, u) == RefsOf(s, u)
  {
    forall u ensures RefsOf(t, u) == RefsOf(s, u) {
      forall h ensures h in RefsOf(t, u) <==> h in RefsOf(s, u) {}
    }
  }

  lemma ReadSessionOk(s: Sys, t: Sys, h: int, u: string)
    requires SessionPart(s) && h in s.handles && s.handles[h].phase == Held
    requires t.m.cfg == s.m.cfg && (forall v :: RefsOf(t, v) == RefsOf(s, v) && BusyOn(t, v) == BusyOn(s, v))
    requires u in t.m.sessions && (u != VersionOf(s, h) ==> u in s.m.sessions && t.m.sessions[u] == s.m.sessions[u])
    requires u == VersionOf(s, h) ==>
      u in s.m.sessions && t.m.sessions[u].refs == s.m.sessions[u].refs && t.m.sessions[u].inflight == s.m.sessions[u].inflight
      && (t.m.sessions[u].active == s.m.sessions[u].active || t.m.sessions[u].active == h)
    ensures SessionOk(t, u)
  {
    assert SessionOk(s, u);
    assert u == VersionOf(s, h) ==> h in RefsOf(s, u);
  }

  lemma ObserveFile(cfg: Config, h: HandleState, offset: int, length: int)
    ensures Observe(cfg, h, offset, length).0.file == h.file
  {
  }

  /** The start of a read keeps the counters of its session, and the streaming handle is the old one
      or the reader. */
  lemma PrepareSession(m: Mgr, h: int, file: File, seen: Observation, offset: int, length: int)
    ensures var v := ChunkVersion(file, m.cfg.chunkSize);
      var n := Prepare(m, h, file, seen, offset, length).0;
      n.nextHandle == m.nextHandle && n.cfg == m.cfg
      && n.sessions == m.sessions[v := n.sessions[v]]
      && n.sessions[v].refs == SessionOrNew(m, v).refs && n.sessions[v].inflight == SessionOrNew(m, v).inflight
      && (n.sessions[v].active == SessionOrNew(m, v).active || n.sessions[v].active == h)
  {
  }

  lemma ReleaseCounts(m: Mgr, h: int, file: File)
    requires ChunkVersion(file, m.cfg.chunkSize) in m.sessions
    ensures var v := ChunkVersion(file, m.cfg.chunkSize);
      var n := Release(m, h, file);
      n.cfg == m.cfg && n.nextHandle == m.nextHandle
      && (forall u :: u in n.sessions ==>
            u in m.sessions && n.sessions[u] == (if u == v then ReleasedSession(m.sessions[v], h) else m.sessions[u]))
      && (forall u :: u in m.sessions && u !in n.sessions ==> u == v && ReleasedSession(m.sessions[v], h).refs <= 0)
  {
  }

  lemma EndReleaseSessions(remote: RemoteBytes, s: Sys, h: int)
    requires TaskPart(s) && SessionPart(s) && WorkerPart(s) && Enabled(remote, s, EndRelease(h))
    ensures SessionPart(Apply(remote, s, EndRelease(h)))
  {
    var v := VersionOf(s, h);
    assert v in s.m.sessions;
    ReleaseKeeps(s.m, h, s.handles[h].state.file);
    ReleaseCounts(s.m, h, s.handles[h].state.file);
    SameBusy(s, Apply(remote, s, EndRelease(h)));
    ReleasedSessions(s, Apply(remote, s, EndRelease(h)), h, v);
  }

  lemma ReleasedSessions(s: Sys, t: Sys, h: int, v: string)
    requires SessionPart(s) && t.m.cfg == s.m.cfg && t.m.nextHandle == s.m.nextHandle && BusyOn(t, v) == BusyOn(s, v)
    requires forall u :: u != v && u in s.m.sessions ==> BusyOn(t, u) == BusyOn(s, u)
    requires h in s.handles && s.handles[h].phase == Releasing && VersionOf(s, h) == v && v in s.m.sessions
    requires t.handles == s.handles[h := s.handles[h].(phase := Released)]
    requires forall u :: u in t.m.sessions ==>
      u in s.m.sessions && t.m.sessions[u] == (if u == v then ReleasedSession(s.m.sessions[v], h) else s.m.sessions[u])
    requires forall u :: u in s.m.sessions && u !in t.m.sessions ==> u == v && ReleasedSession(s.m.sessions[v], h).refs <= 0
    ensures SessionPart(t)
  {
    assert h in RefsOf(s, v) && SessionOk(s, v);
    assert |RefsOf(s, v)| > 0;
    RefsOne(s, t, h, v);
    forall u | u in t.m.sessions ensures SessionOk(t, u) {
      if u == v { ReleasedOk(s, t, h, v); } else { assert SessionOk(s, u); }
    }
    StillListed(s, t, h, v);
  }

  lemma ReleasedOk(s: Sys, t: Sys, h: int, v: string)
    requires v in s.m.sessions && SessionOk(s, v) && v in t.m.sessions && t.m.sessions[v] == ReleasedSession(s.m.sessions[v], h)
    requires h in RefsOf(s, v) && RefsOf(t, v) == RefsOf(s, v) - {h} && BusyOn(t, v) == BusyOn(s, v)
    ensures SessionOk(t, v)
  {
    assert |RefsOf(s, v)| > 0;
  }

  /** Releasing a handle leaves the other handles their sessions. */
  lemma StillListed(s: Sys, t: Sys, h: int, v: string)
    requires SessionPart(s) && h in s.handles && t.m.cfg == s.m.cfg
    requires t.handles == s.handles[h := s.handles[h].(phase := Released)]
    requires forall u :: u in s.m.sessions && u != v ==> u in t.m.sessions
    requires |RefsOf(t, v)| > 0 ==> v in t.m.sessions
    ensures forall g :: g in t.handles && t.handles[g].phase != Released ==> VersionOf(t, g) in t.m.sessions
  {
    forall g | g in t.handles && t.handles[g].phase != Released ensures VersionOf(t, g) in t.m.sessions {
      assert VersionOf(s, g) in s.m.sessions;
      if VersionOf(s, g) == v { assert g in RefsOf(t, v); assert |RefsOf(t, v)| > 0; }
    }
  }

  lemma NextSessions(remote: RemoteBytes, s: Sys, w: int)
    requires TaskPart(s) && SessionPart(s) && WorkerPart(s) && Enabled(remote, s, NextStep(w))
    ensures SessionPart(Apply(remote, s, NextStep(w)))
  {
    var t := Apply(remote, s, NextStep(w));
    if s.m.closed {
      SessionsSame(s, t);
    } else {
      ScanPass(s.m);
      var (n, r) := Scan(s.m, {});
      PassEvolves(s.m, n, r);
      PassSessionPart(s, w, n, r, t);
    }
  }

  /** How the busy workers of a version change when one worker changes. */
  lemma BusyOne(s: Sys, t: Sys, w: int, u: string)
    requires WorkerPart(s) && Evolves(s.m, t.m) && w in s.workers
    requires t.workers.Keys == s.workers.Keys && forall x :: x in s.workers && x != w ==> t.workers[x] == s.workers[x]
    ensures BusyOn(t, u) == (if WorksOn(t, w, u) then BusyOn(s, u) + {w} else BusyOn(s, u) - {w})
  {
    forall x | x in s.workers && x != w ensures WorksOn(s, x, u) <==> WorksOn(t, x, u) {
      if s.workers[x].Busy? { assert Runs(s, x, s.workers[x].task); }
    }
  }

  lemma PassSessionPart(s: Sys, w: int, n: Mgr, r: Option<int>, t: Sys)
    requires SessionPart(s) && WorkerPart(s) && ListedOk(s.m) && s.m.queue <= s.m.table.Keys
    requires PassSpec(s.m, {}, n, r) && Evolves(s.m, n)
    requires w in s.workers && s.workers[w] == Ready
    requires t == s.(m := n, workers := s.workers[w := if r.Some? then Busy(r.value) else Waiting])
    ensures SessionPart(t)
  {
    assert PassSessions(s.m, n, r);
    forall u | u in t.m.sessions ensures SessionOk(t, u) { PassSessionOk(s, w, n, r, t, u); }
    HandlesFewer(s, t);
  }

  lemma PassSessionOk(s: Sys, w: int, n: Mgr, r: Option<int>, t: Sys, u: string)
    requires WorkerPart(s) && Evolves(s.m, n) && w in s.workers && s.workers[w] == Ready
    requires r.Some? ==> r.value in s.m.table
    requires u in s.m.sessions && SessionOk(s, u) && u in n.sessions && n.sessions[u] == PassSession(s.m, r, u)
    requires t == s.(m := n, workers := s.workers[w := if r.Some? then Busy(r.value) else Waiting])
    ensures SessionOk(t, u)
  {
    BusyOne(s, t, w, u);
    assert w !in BusyOn(s, u);
    assert RefsOf(t, u) == RefsOf(s, u);
  }

  lemma HandInSessions(remote: RemoteBytes, s: Sys, w: int, r: Result)
    requires TaskPart(s) && SessionPart(s) && WorkerPart(s) && Enabled(remote, s, HandInStep(w, r))
    ensures SessionPart(Apply(remote, s, HandInStep(w, r)))
  {
    var t := Apply(remote, s, HandInStep(w, r));
    var id := s.workers[w].task;
    assert Runs(s, w, id);
    HandInKeeps(s.m, id, r);
    HandInCounts(s.m, id, r);
    forall u | u in t.m.sessions ensures SessionOk(t, u) { HandedIn(s, w, t, u); }
    HandlesFewer(s, t);
  }

  lemma HandedIn(s: Sys, w: int, t: Sys, u: string)
    requires WorkerPart(s) && Evolves(s.m, t.m) && u in s.m.sessions && SessionOk(s, u)
    requires w in s.workers && s.workers[w].Busy? && s.workers[w].task in s.m.table && s.m.table[s.workers[w].task].started
    requires t.workers == s.workers[w := Returned] && t.handles == s.handles
    requires u in t.m.sessions && t.m.sessions[u] == Uncount(s.m, s.workers[w].task).sessions[u]
    ensures SessionOk(t, u)
  {
    BusyOne(s, t, w, u);
    assert WorksOn(s, w, u) <==> w in BusyOn(s, u);
    assert RefsOf(t, u) == RefsOf(s, u);
  }

  lemma HandInCounts(m: Mgr, id: int, r: Result)
    requires id in m.table
    ensures var n := HandIn(m, id, r);
      n.cfg == m.cfg && n.nextHandle == m.nextHandle
      && (forall v :: v in n.sessions ==> v in m.sessions && n.sessions[v] == Uncount(m, id).sessions[v])
      && (forall v :: v in m.sessions && v !in n.sessions ==>
            m.sessions[v].refs <= 0 && Uncount(m, id).sessions[v].inflight <= 0 && !Unfinished(n, v))
  {
    var n := Uncount(m, id);
    var k := if m.table[id].finished then n else Finish(n, id, r);
    assert k.sessions == n.sessions;
    CleanupExact(k, m.table[id].key.version);
  }

  lemma WindowSessionsKept(remote: RemoteBytes, s: Sys, step: Step)
    requires TaskPart(s) && WorkerPart(s) && SessionPart(s) && Enabled(remote, s, step) && (step.ScheduleStep? || step.ReclaimStep?)
    ensures SessionPart(Apply(remote, s, step))
  {
    WindowSteps(remote, s, step);
    WindowSessions(s, Apply(remote, s, step));
  }

  lemma PlainSessions(remote: RemoteBytes, s: Sys, step: Step)
    requires TaskPart(s) && WorkerPart(s) && SessionPart(s) && Enabled(remote, s, step)
    requires !step.OpenStep? && !step.BeginRelease? && !step.EndRelease? && !step.ReadStep? && !step.NextStep?
    requires !step.HandInStep? && !step.ScheduleStep? && !step.ReclaimStep?
    ensures SessionPart(Apply(remote, s, step))
  {
    TaskPartKept(remote, s, step);
    PlainSteps(remote, s, step);
    SessionsSame(s, Apply(remote, s, step));
  }

  lemma SessionPartKept(remote: RemoteBytes, s: Sys, step: Step)
    requires TaskPart(s) && WorkerPart(s) && SessionPart(s) && Enabled(remote, s, step)
    ensures SessionPart(Apply(remote, s, step))
  {
    match step
    case OpenStep(file) => if !s.m.closed { OpenSessions(remote, s, file); }
    case BeginRelease(h) => BeginReleaseSessions(remote, s, h);
    case EndRelease(h) => EndReleaseSessions(remote, s, h);
    case ReadStep(h, offset, length) => ReadSessions(remote, s, h, offset, length);
    case NextStep(w) => NextSessions(remote, s, w);
    case HandInStep(w, r) => HandInSessions(remote, s, w, r);
    case ScheduleStep(file, cursor, epoch) => WindowSessionsKept(remote, s, step);
    case ReclaimStep => WindowSessionsKept(remote, s, step);
    case _ => PlainSessions(remote, s, step);
  }
}
