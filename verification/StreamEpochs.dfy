/** What moves a session's epoch, and what an epoch bump cancels. */
module StreamEpochs {
  import opened Content
  import opened Naming
  import opened StreamState
  import opened TaskProtocol
  import opened StreamSystem
  import opened StreamSafety
  import opened StreamSessions
  import opened StreamTheorems

  // ---------- contiguous reads ----------

  /** The next read of the handle continues where its last recorded one ended, if it has one. */
  predicate Follows(h: HandleState, next: int) { h.lastOffset < 0 || h.lastOffset + h.lastLength == next }

  /** A read that continues the last one is never a seek, and the next one can continue it. */
  lemma ContiguousObserve(cfg: Config, h: HandleState, offset: int, length: int)
    requires ValidConfig(cfg) && Follows(h, offset) && offset >= 0 && length > 0
    ensures var (n, seen) := Observe(cfg, h, offset, length);
      seen.event != SeekEvent && Follows(n, offset + length) && n.file == h.file
  {
  }

  lemma NoSeekNoBump(cfg: Config, s: SessionState, handle: int, seen: Observation, offset: int, length: int)
    requires seen.event != SeekEvent && (s.active == 0 || s.active == handle)
    ensures var (n, plan, bump) := PreparedSession(cfg, s, handle, seen, offset, length);
      !bump && n.epoch == s.epoch && plan.event != SeekEvent
  {
  }

  /** No other unreleased handle has the version of h. */
  ghost predicate OnlyHandle(s: Sys, h: int)
    requires h in s.handles
  {
    forall g :: g in s.handles && s.handles[g].phase != Released && VersionOf(s, g) == VersionOf(s, h) ==> g == h
  }

  ghost predicate HeldIn(s: Sys, h: int) { h in s.handles && s.handles[h].phase == Held }

  ghost function EpochOf(s: Sys, h: int): int
    requires h in s.handles
  {
    if VersionOf(s, h) in s.m.sessions then s.m.sessions[VersionOf(s, h)].epoch else 0
  }

  lemma PrepareSessions(m: Mgr, h: int, file: File, seen: Observation, offset: int, length: int)
    ensures var v := ChunkVersion(file, m.cfg.chunkSize);
      var (s, plan, bump) := PreparedSession(m.cfg, SessionOrNew(m, v), h, seen, offset, length);
      var n := Prepare(m, h, file, seen, offset, length).0;
      n.sessions == m.sessions[v := s] && (!bump ==> n.table == m.table) && n.cfg == m.cfg
      && (bump ==> n.table == CancelOlder(m, v, s.epoch).table && s.epoch == SessionOrNew(m, v).epoch + 1)
      && (!bump ==> s.epoch == SessionOrNew(m, v).epoch)
  {
  }

  /** One contiguous read of the only handle of a version. */
  lemma ContiguousRead(remote: RemoteBytes, s: Sys, h: int, offset: int, length: int)
    requires SysInv(remote, s) && HeldIn(s, h) && OnlyHandle(s, h) && Follows(s.handles[h].state, offset)
    requires Enabled(remote, s, ReadStep(h, offset, length))
    ensures var t := Apply(remote, s, ReadStep(h, offset, length));
      Follows(t.handles[h].state, offset + length) && t.m.table == s.m.table && t.m.cfg == s.m.cfg
      && VersionOf(t, h) == VersionOf(s, h) && EpochOf(t, h) == EpochOf(s, h)
  {
    var v := VersionOf(s, h);
    var (n, seen) := Observe(s.m.cfg, s.handles[h].state, offset, length);
    ContiguousObserve(s.m.cfg, s.handles[h].state, offset, length);
    assert v in s.m.sessions && SessionOk(s, v);
    var e := s.m.sessions[v];
    assert e.active == 0 || e.active == h by {
      if e.active != 0 { assert e.active in RefsOf(s, v); }
    }
    NoSeekNoBump(s.m.cfg, e, h, seen, offset, length);
    PrepareSessions(s.m, h, s.handles[h].state.file, seen, offset, length);
  }

  lemma PlainEpoch(remote: RemoteBytes, s: Sys, step: Step, v: string)
    requires Enabled(remote, s, step) && v in s.m.sessions
    requires !step.NextStep? && !step.HandInStep? && !step.EndRelease? && !step.ReadStep?
    ensures var n := Apply(remote, s, step).m; v in n.sessions && n.sessions[v].epoch == s.m.sessions[v].epoch
  {
  }

  lemma ScanEpoch(m: Mgr, v: string)
    requires Inv(m) && v in m.sessions
    ensures var n := Scan(m, {}).0; v in n.sessions ==> n.sessions[v].epoch == m.sessions[v].epoch
  {
    ScanPass(m);
    var (n, r) := Scan(m, {});
    assert PassSessions(m, n, r);
  }

  lemma HandInEpoch(m: Mgr, id: int, r: Result, v: string)
    requires id in m.table && v in m.sessions
    ensures var n := HandIn(m, id, r); v in n.sessions ==> n.sessions[v].epoch == m.sessions[v].epoch
  {
    HandInCounts(m, id, r);
  }

  lemma ReleaseEpoch(m: Mgr, g: int, file: File, v: string)
    requires v in m.sessions
    ensures var n := Release(m, g, file);
      v in n.sessions ==>
        n.sessions[v].epoch == m.sessions[v].epoch
          + (if v == ChunkVersion(file, m.cfg.chunkSize) && Holds(m.sessions[v], g) then 1 else 0)
  {
    if ChunkVersion(file, m.cfg.chunkSize) in m.sessions { ReleaseCounts(m, g, file); }
  }

  lemma PrepareEpoch(m: Mgr, g: int, file: File, seen: Observation, offset: int, length: int, v: string)
    requires v in m.sessions
    ensures var n := Prepare(m, g, file, seen, offset, length).0;
      v in n.sessions
      && (n.sessions[v].epoch == m.sessions[v].epoch
          || (v == ChunkVersion(file, m.cfg.chunkSize) && n.sessions[v].epoch == m.sessions[v].epoch + 1))
  {
    PrepareSessions(m, g, file, seen, offset, length);
  }

  /** How one step moves the epoch of a session that lives through it. */
  lemma StepEpoch(remote: RemoteBytes, s: Sys, step: Step, v: string)
    requires TaskPart(s) && Enabled(remote, s, step) && v in s.m.sessions && v in Apply(remote, s, step).m.sessions
    ensures var n := Apply(remote, s, step).m;
      && (n.sessions[v].epoch == s.m.sessions[v].epoch || n.sessions[v].epoch == s.m.sessions[v].epoch + 1)
      && (n.sessions[v].epoch != s.m.sessions[v].epoch ==>
            (step.ReadStep? || step.EndRelease?) && step.handle in s.handles && VersionOf(s, step.handle) == v)
  {
    match step
    case NextStep(w) => if !s.m.closed { ScanEpoch(s.m, v); }
    case HandInStep(w, r) => HandInEpoch(s.m, s.workers[w].task, r, v);
    case EndRelease(g) => ReleaseEpoch(s.m, g, s.handles[g].state.file, v);
    case ReadStep(g, offset, length) =>
      var (n, seen) := Observe(s.m.cfg, s.handles[g].state, offset, length);
      PrepareEpoch(s.m, g, s.handles[g].state.file, seen, offset, length, v);
    case _ => PlainEpoch(remote, s, step, v);
  }

  lemma HandleSame(remote: RemoteBytes, s: Sys, step: Step, h: int)
    requires HeldIn(s, h) && HandlesOk(s) && Enabled(remote, s, step)
    requires !(step.ReadStep? && step.handle == h) && HeldIn(Apply(remote, s, step), h)
    ensures Apply(remote, s, step).handles[h] == s.handles[h]
  {
  }

  /** Steps other than reads of h leave its position and its session's epoch alone. */
  lemma OtherStep(remote: RemoteBytes, s: Sys, step: Step, h: int)
    requires SysInv(remote, s) && HeldIn(s, h) && OnlyHandle(s, h) && Enabled(remote, s, step)
    requires !(step.ReadStep? && step.handle == h) && HeldIn(Apply(remote, s, step), h)
    ensures var t := Apply(remote, s, step);
      t.handles[h] == s.handles[h] && t.m.cfg == s.m.cfg && EpochOf(t, h) == EpochOf(s, h)
  {
    var t := Apply(remote, s, step);
    var v := VersionOf(s, h);
    TaskPartKept(remote, s, step);
    SessionPartKept(remote, s, step);
    HandleSame(remote, s, step, h);
    assert v in s.m.sessions && v in t.m.sessions by { assert VersionOf(t, h) == v; }
    StepEpoch(remote, s, step, v);
  }

  /** Where the next contiguous read must start after the first n steps. */
  function NextOffset(steps: seq<Step>, h: int, start: int, n: nat): int
    requires n <= |steps|
  {
    if n == 0 then start
    else if steps[n - 1].ReadStep? && steps[n - 1].handle == h then steps[n - 1].offset + steps[n - 1].length
    else NextOffset(steps, h, start, n - 1)
  }

  ghost predicate OpenAlone(run: seq<Sys>, h: int, k: int)
    requires 0 <= k < |run|
  {
    HeldIn(run[k], h) && OnlyHandle(run[k], h)
  }

  /** If step k is a read of h, it starts where the handle expects it. */
  ghost predicate ReadsOn(steps: seq<Step>, h: int, i: nat, j: nat, start: int, k: int)
    requires i <= k < j <= |steps|
  {
    steps[k].ReadStep? && steps[k].handle == h ==> steps[k].offset == NextOffset(steps[i..j], h, start, k - i)
  }

  /** From state i to state j of a run: h stays open, is the only open handle of its version, and each of
      its reads starts where its previous one ended. */
  ghost predicate ContiguousStretch(run: seq<Sys>, steps: seq<Step>, h: int, i: nat, j: nat, start: int)
    requires |run| == |steps| + 1
  {
    && i <= j < |run|
    && (forall k :: i <= k <= j ==> OpenAlone(run, h, k))
    && OpenAlone(run, h, i) && Follows(run[i].handles[h].state, start)
    && (forall k :: i <= k < j ==> ReadsOn(steps, h, i, j, start, k))
  }

  /** In state k the handle is the only open one of its version and its next contiguous read starts at next. */
  ghost predicate Awaits(run: seq<Sys>, h: int, k: int, next: int)
    requires 0 <= k < |run|
  {
    OpenAlone(run, h, k) && Follows(run[k].handles[h].state, next)
  }

  lemma StretchStep(remote: RemoteBytes, run: seq<Sys>, steps: seq<Step>, h: int, k: nat, next: int)
    requires IsRun(remote, run, steps) && k < |steps|
    requires Awaits(run, h, k, next) && HeldIn(run[k + 1], h)
    requires steps[k].ReadStep? && steps[k].handle == h ==> steps[k].offset == next
    ensures EpochOf(run[k + 1], h) == EpochOf(run[k], h)
    ensures Follows(run[k + 1].handles[h].state,
                    if steps[k].ReadStep? && steps[k].handle == h then steps[k].offset + steps[k].length else next)
    ensures steps[k].ReadStep? && steps[k].handle == h ==> run[k + 1].m.table == run[k].m.table
  {
    EveryState(remote, run, steps, k);
    assert StepAt(remote, run, steps, k);
    if steps[k].ReadStep? && steps[k].handle == h {
      ContiguousRead(remote, run[k], h, steps[k].offset, steps[k].length);
    } else {
      OtherStep(remote, run[k], steps[k], h);
    }
  }

  /** Where the handle is at the end of a stretch. */
  ghost predicate Expects(run: seq<Sys>, steps: seq<Step>, h: int, i: nat, j: nat, start: int)
    requires |run| == |steps| + 1 && i <= j < |run|
  {
    HeldIn(run[j], h) && Follows(run[j].handles[h].state, NextOffset(steps[i..j], h, start, j - i))
  }

  lemma NextInStretch(run: seq<Sys>, steps: seq<Step>, h: int, i: nat, j: nat, start: int) returns (before: int, after: int)
    requires |run| == |steps| + 1 && i < j < |run| && ContiguousStretch(run, steps, h, i, j, start)
    ensures before == NextOffset(steps[i..j - 1], h, start, j - 1 - i) && after == NextOffset(steps[i..j], h, start, j - i)
    ensures steps[j - 1].ReadStep? && steps[j - 1].handle == h ==> steps[j - 1].offset == before
    ensures after == if steps[j - 1].ReadStep? && steps[j - 1].handle == h then steps[j - 1].offset + steps[j - 1].length else before
  {
    NextOffsetStep(steps, h, start, i, j);
    before, after := NextOffset(steps[i..j - 1], h, start, j - 1 - i), NextOffset(steps[i..j], h, start, j - i);
    assert ReadsOn(steps, h, i, j, start, j - 1);
  }

  lemma StretchOn(remote: RemoteBytes, run: seq<Sys>, steps: seq<Step>, h: int, i: nat, j: nat, start: int)
    requires IsRun(remote, run, steps) && i < j < |run| && ContiguousStretch(run, steps, h, i, j, start)
    requires Expects(run, steps, h, i, j - 1, start)
    ensures Expects(run, steps, h, i, j, start)
    ensures HeldIn(run[j - 1], h) && EpochOf(run[j], h) == EpochOf(run[j - 1], h)
    ensures steps[j - 1].ReadStep? && steps[j - 1].handle == h ==> run[j].m.table == run[j - 1].m.table
  {
    assert OpenAlone(run, h, j - 1) && OpenAlone(run, h, j);
    var before, after := NextInStretch(run, steps, h, i, j, start);
    StretchStep(remote, run, steps, h, j - 1, before);
  }

  /** Epoch safety: with one open handle, contiguous reads of any sizes keep the epoch, whatever the
      workers, hedges, other files and the cache do in between. */
  lemma {:induction false} ContiguousKeepsEpoch(
      remote: RemoteBytes, run: seq<Sys>, steps: seq<Step>, h: int, i: nat, j: nat, start: int)
    requires IsRun(remote, run, steps) && ContiguousStretch(run, steps, h, i, j, start)
    ensures Expects(run, steps, h, i, j, start)
    ensures HeldIn(run[i], h) && EpochOf(run[j], h) == EpochOf(run[i], h)
    decreases j
  {
    if i < j {
      StretchPrefix(run, steps, h, i, j, j - 1, start);
      ContiguousKeepsEpoch(remote, run, steps, h, i, j - 1, start);
      StretchOn(remote, run, steps, h, i, j, start);
    }
  }

  lemma NextOffsetStep(steps: seq<Step>, h: int, start: int, i: nat, j: nat)
    requires i < j <= |steps|
    ensures NextOffset(steps[i..j], h, start, j - 1 - i) == NextOffset(steps[i..j - 1], h, start, j - 1 - i)
    ensures NextOffset(steps[i..j], h, start, j - i)
      == if steps[j - 1].ReadStep? && steps[j - 1].handle == h then steps[j - 1].offset + steps[j - 1].length
         else NextOffset(steps[i..j - 1], h, start, j - 1 - i)
  {
    NextOffsetWindow(steps, h, start, i, j - 1, j, j - 1 - i);
    assert steps[i..j][j - 1 - i] == steps[j - 1];
  }

  lemma StretchPrefix(run: seq<Sys>, steps: seq<Step>, h: int, i: nat, j: nat, k: nat, start: int)
    requires |run| == |steps| + 1 && ContiguousStretch(run, steps, h, i, j, start) && i <= k <= j
    ensures ContiguousStretch(run, steps, h, i, k, start)
  {
    forall x | i <= x < k ensures ReadsOn(steps, h, i, k, start, x) {
      assert ReadsOn(steps, h, i, j, start, x);
      NextOffsetWindow(steps, h, start, i, k, j, x - i);
    }
  }

  /** In such a stretch no read of the handle cancels anything. */
  lemma ContiguousCancelsNothing(
      remote: RemoteBytes, run: seq<Sys>, steps: seq<Step>, h: int, i: nat, j: nat, start: int, k: nat)
    requires IsRun(remote, run, steps) && ContiguousStretch(run, steps, h, i, j, start)
    requires i <= k < j && steps[k].ReadStep? && steps[k].handle == h
    ensures run[k + 1].m.table == run[k].m.table
  {
    var next := StretchAt(remote, run, steps, h, i, j, start, k);
    StretchStep(remote, run, steps, h, k, next);
  }

  /** Where the handle stands at step k of a stretch. */
  lemma StretchAt(remote: RemoteBytes, run: seq<Sys>, steps: seq<Step>, h: int, i: nat, j: nat, start: int, k: nat)
    returns (next: int)
    requires IsRun(remote, run, steps) && ContiguousStretch(run, steps, h, i, j, start) && i <= k < j
    ensures Awaits(run, h, k, next) && HeldIn(run[k + 1], h)
    ensures steps[k].ReadStep? && steps[k].handle == h ==> steps[k].offset == next
  {
    next := ReadStarts(run, steps, h, i, j, start, k);
    ContiguousKeepsEpoch(remote, run, steps, h, i, k, start);
  }

  lemma ReadStarts(run: seq<Sys>, steps: seq<Step>, h: int, i: nat, j: nat, start: int, k: nat) returns (next: int)
    requires |run| == |steps| + 1 && ContiguousStretch(run, steps, h, i, j, start) && i <= k < j
    ensures OpenAlone(run, h, k) && OpenAlone(run, h, k + 1) && ContiguousStretch(run, steps, h, i, k, start)
    ensures next == NextOffset(steps[i..k], h, start, k - i)
    ensures steps[k].ReadStep? && steps[k].handle == h ==> steps[k].offset == next
  {
    StretchPrefix(run, steps, h, i, j, k, start);
    assert ReadsOn(steps, h, i, j, start, k);
    NextOffsetWindow(steps, h, start, i, k, j, k - i);
    next := NextOffset(steps[i..k], h, start, k - i);
  }

  lemma {:induction false} NextOffsetWindow(steps: seq<Step>, h: int, start: int, i: nat, k: nat, j: nat, n: nat)
    requires i <= k <= j <= |steps| && n <= k - i
    ensures NextOffset(steps[i..k], h, start, n) == NextOffset(steps[i..j], h, start, n)
    decreases n
  {
    if n > 0 {
      assert steps[i..k][n - 1] == steps[i..j][n - 1];
      NextOffsetWindow(steps, h, start, i, k, j, n - 1);
    }
  }

  // ---------- epoch bumps ----------

  lemma EpochStep(remote: RemoteBytes, run: seq<Sys>, steps: seq<Step>, k: nat, v: string)
    requires IsRun(remote, run, steps) && k < |steps| && v in run[k].m.sessions && v in run[k + 1].m.sessions
    ensures run[k].m.sessions[v].epoch <= run[k + 1].m.sessions[v].epoch <= run[k].m.sessions[v].epoch + 1
  {
    EveryState(remote, run, steps, k);
    assert StepAt(remote, run, steps, k);
    StepEpoch(remote, run[k], steps[k], v);
  }

  /** The session of a version exists in every state from i to j. */
  ghost predicate LivesThrough(run: seq<Sys>, v: string, i: nat, j: nat)
    requires i <= j < |run|
  {
    forall k :: i <= k <= j ==> v in run[k].m.sessions
  }

  /** While a session lives its epoch never decreases, over any stretch of a run, and n steps raise it by at
      most n. */
  lemma {:induction false} EpochMonotone(remote: RemoteBytes, run: seq<Sys>, steps: seq<Step>, i: nat, j: nat, v: string)
    requires IsRun(remote, run, steps) && i <= j < |run| && LivesThrough(run, v, i, j)
    ensures v in run[i].m.sessions && v in run[j].m.sessions
    ensures run[i].m.sessions[v].epoch <= run[j].m.sessions[v].epoch <= run[i].m.sessions[v].epoch + (j - i)
    decreases j
  {
    assert v in run[i].m.sessions && v in run[j].m.sessions;
    if i < j {
      EpochMonotone(remote, run, steps, i, j - 1, v);
      EpochStep(remote, run, steps, j - 1, v);
    }
  }

  /** The start of a read cancels a task exactly when it bumps the epoch and the task is live, of that
      version, of an older epoch, and was not queued as foreground. */
  lemma ReadCancelsExactly(m: Mgr, h: int, file: File, seen: Observation, offset: int, length: int, id: int)
    requires Inv(m) && id in m.table
    ensures var v := ChunkVersion(file, m.cfg.chunkSize);
      var n := Prepare(m, h, file, seen, offset, length).0;
      id in n.table && v in n.sessions
      && (n.table[id].cancelled <==>
           (m.table[id].cancelled
            || (n.sessions[v].epoch > SessionOrNew(m, v).epoch && m.table[id].Live() && m.table[id].key.version == v
                && m.table[id].epoch < n.sessions[v].epoch && m.table[id].priority != FOREGROUND)))
  {
    var v := ChunkVersion(file, m.cfg.chunkSize);
    PrepareSessions(m, h, file, seen, offset, length);
    CancelOlderExact(m, v, SessionOrNew(m, v).epoch + 1, id);
  }

  /** Releasing a handle cancels a task exactly when the handle was the session's active one and the task is live, of
      that version, of the released epoch or an older one, and was not queued as foreground. */
  lemma ReleaseCancelsExactly(m: Mgr, h: int, file: File, id: int)
    requires Inv(m) && id in m.table
    ensures var v := ChunkVersion(file, m.cfg.chunkSize);
      var n := Release(m, h, file);
      id in n.table
      && (n.table[id].cancelled <==>
           (m.table[id].cancelled
            || (v in m.sessions && m.sessions[v].active == h && m.table[id].Live() && m.table[id].key.version == v
                && m.table[id].epoch <= m.sessions[v].epoch && m.table[id].priority != FOREGROUND)))
  {
    var v := ChunkVersion(file, m.cfg.chunkSize);
    if v in m.sessions {
      var s := ReleasedSession(m.sessions[v], h);
      var w := SetSession(m, v, s);
      SameTasks(m, w, {});
      if Holds(m.sessions[v], h) { CancelOlderExact(w, v, s.epoch, id); }
      CleanupFrame(CancelIf(Holds(m.sessions[v], h), w, v, s.epoch), v);
    }
  }

  /** The task a foreground read waits for is cancelled by a bump to epoch k exactly if the read joined it when it was
      already started, as a background task of an older epoch. */
  lemma ForegroundProtects(m: Mgr, file: File, index: int, epoch: int, k: int)
    requires Inv(m) && !m.closed && ChunkLength(m.cfg, file, index) > 0
    ensures var v := ChunkVersion(file, m.cfg.chunkSize);
      var (n, e) := Ensure(m, file, index, epoch, FOREGROUND);
      && (e.Joined? || e.Created?) && e.id in CancelOlder(n, v, k).table
      && (CancelOlder(n, v, k).table[e.id].cancelled <==>
           (e.Joined? && m.table[e.id].started && m.table[e.id].priority != FOREGROUND && m.table[e.id].epoch < k))
  {
    var v := ChunkVersion(file, m.cfg.chunkSize);
    var (n, e) := Ensure(m, file, index, epoch, FOREGROUND);
    EnsureGives(m, file, index, epoch, FOREGROUND);
    EnsureKeeps(m, file, index, epoch, FOREGROUND);
    CancelOlderExact(n, v, k, e.id);
  }

  /** A foreground read that joins a download already under way does not protect it: the task keeps its
      background priority, and the next epoch bump cancels it. */
  lemma JoiningDoesNotProtect(m: Mgr, file: File, index: int, epoch: int, id: int)
    requires Inv(m) && !m.closed && id in m.table && m.table[id].Live() && m.table[id].started
    requires m.table[id].priority != FOREGROUND && m.table[id].key == ChunkKey(ChunkVersion(file, m.cfg.chunkSize), index)
    ensures Ensure(m, file, index, epoch, FOREGROUND) == (m, Joined(id))
    ensures CancelOlder(m, m.table[id].key.version, m.table[id].epoch + 1).table[id].cancelled
  {
    assert TaskOk(m, {}, id);
  }
}
