/** The prefetch window of a session in the runs of the whole engine. */
module ScheduleRuns {
  import opened Arithmetic
  import opened Content
  import opened Naming
  import opened StreamState
  import opened TaskProtocol
  import opened Scheduling
  import opened StreamSystem
  import opened StreamSafety
  import opened StreamSessions
  import opened StreamTheorems
  import opened StreamEpochs

  /** What a step is for the window of a session `a` that becomes `b`. */
  predicate IsMove(cfg: Config, size: int, a: SessionState, move: Move, b: SessionState)
    requires ValidConfig(cfg)
  {
    && (match move
        case Call(cursor, epoch) => cursor >= 0 && b == Schedule(cfg, size, a, cursor, epoch).0
        case Reclaim => b == Reclaimed(a)
        case Forget => b == NEW_SESSION
        case Other(s) => b == s && SameSchedule(a, s) && s.epoch >= a.epoch)
  }

  lemma PlainMove(remote: RemoteBytes, s: Sys, step: Step, v: string)
    requires Enabled(remote, s, step)
    requires !step.NextStep? && !step.HandInStep? && !step.EndRelease? && !step.ReadStep? && !step.ScheduleStep? && !step.ReclaimStep?
    ensures var n := Apply(remote, s, step).m;
      SameSchedule(SessionOrNew(s.m, v), SessionOrNew(n, v)) && SessionOrNew(n, v).epoch == SessionOrNew(s.m, v).epoch
  {
  }

  lemma ScanMove(m: Mgr, v: string)
    requires Inv(m) && v in m.sessions && v in Scan(m, {}).0.sessions
    ensures SameSchedule(m.sessions[v], Scan(m, {}).0.sessions[v])
  {
    ScanPass(m);
    var (n, r) := Scan(m, {});
    assert PassSessions(m, n, r);
  }

  lemma ScanAdds(m: Mgr, v: string)
    requires Inv(m) && v !in m.sessions
    ensures v !in Scan(m, {}).0.sessions
  {
    ScanPass(m);
    var (n, r) := Scan(m, {});
    assert PassSessions(m, n, r);
  }

  lemma HandInMove(m: Mgr, id: int, r: Result, v: string)
    requires id in m.table && v in HandIn(m, id, r).sessions
    ensures v in m.sessions && SameSchedule(m.sessions[v], HandIn(m, id, r).sessions[v])
  {
    HandInCounts(m, id, r);
  }

  lemma ReleaseMove(m: Mgr, g: int, file: File, v: string)
    requires v in Release(m, g, file).sessions
    ensures v in m.sessions && SameSchedule(m.sessions[v], Release(m, g, file).sessions[v])
  {
    if ChunkVersion(file, m.cfg.chunkSize) in m.sessions { ReleaseCounts(m, g, file); }
  }

  lemma PrepareMove(m: Mgr, g: int, file: File, seen: Observation, offset: int, length: int, v: string)
    ensures var n := Prepare(m, g, file, seen, offset, length).0;
      SameSchedule(SessionOrNew(m, v), SessionOrNew(n, v)) && SessionOrNew(n, v).epoch >= SessionOrNew(m, v).epoch
  {
    PrepareSessions(m, g, file, seen, offset, length);
  }

  lemma ScanKeepsWindow(m: Mgr, v: string)
    requires Inv(m)
    ensures var n := Scan(m, {}).0;
      (v in m.sessions && v !in n.sessions)
      || (SameSchedule(SessionOrNew(m, v), SessionOrNew(n, v)) && SessionOrNew(n, v).epoch == SessionOrNew(m, v).epoch)
  {
    if v in m.sessions {
      ScanEpoch(m, v);
      if v in Scan(m, {}).0.sessions { ScanMove(m, v); }
    } else {
      ScanAdds(m, v);
    }
  }

  lemma ScheduleMove(m: Mgr, f: File, cursor: int, epoch: int, file: File)
    requires ValidConfig(m.cfg) && NumericFsid(f.fsid) && NumericFsid(file.fsid) && cursor >= 0
    ensures var v := ChunkVersion(file, m.cfg.chunkSize);
      var n := SetWindow(m, f, cursor, epoch);
      if v in m.sessions && ChunkVersion(f, m.cfg.chunkSize) == v
      then f == file && SessionOrNew(n, v) == Schedule(m.cfg, file.size, m.sessions[v], cursor, epoch).0
      else SessionOrNew(n, v) == SessionOrNew(m, v)
  {
    var v := ChunkVersion(file, m.cfg.chunkSize);
    if ChunkVersion(f, m.cfg.chunkSize) == v { ChunkVersionInjective(f, m.cfg.chunkSize, file, m.cfg.chunkSize); }
  }

  /** The step as a move of the file's session. */
  ghost function MoveOf(remote: RemoteBytes, s: Sys, step: Step, file: File): Move
    requires Enabled(remote, s, step)
  {
    var v := ChunkVersion(file, s.m.cfg.chunkSize);
    var n := Apply(remote, s, step).m;
    if v in s.m.sessions && v !in n.sessions then Forget
    else if step.ScheduleStep? && v in s.m.sessions && ChunkVersion(step.file, s.m.cfg.chunkSize) == v then
      Call(step.cursor, step.epoch)
    else if step.ReclaimStep? && v in s.m.sessions then Reclaim
    else Other(SessionOrNew(n, v))
  }

  lemma StepMove(remote: RemoteBytes, s: Sys, step: Step, file: File)
    requires TaskPart(s) && Enabled(remote, s, step) && NumericFsid(file.fsid)
    ensures var v := ChunkVersion(file, s.m.cfg.chunkSize);
      IsMove(s.m.cfg, file.size, SessionOrNew(s.m, v), MoveOf(remote, s, step, file), SessionOrNew(Apply(remote, s, step).m, v))
  {
    var v := ChunkVersion(file, s.m.cfg.chunkSize);
    if step.ScheduleStep? {
      ScheduleMove(s.m, step.file, step.cursor, step.epoch, file);
    } else if !step.ReclaimStep? && !(v in s.m.sessions && v !in Apply(remote, s, step).m.sessions) {
      StepKeepsWindow(remote, s, step, v);
    }
  }

  /** No other step moves a window that lives on. */
  lemma StepKeepsWindow(remote: RemoteBytes, s: Sys, step: Step, v: string)
    requires TaskPart(s) && Enabled(remote, s, step) && !step.ScheduleStep? && !step.ReclaimStep?
    requires v in s.m.sessions ==> v in Apply(remote, s, step).m.sessions
    ensures var n := Apply(remote, s, step).m;
      SameSchedule(SessionOrNew(s.m, v), SessionOrNew(n, v)) && SessionOrNew(n, v).epoch >= SessionOrNew(s.m, v).epoch
  {
    var n := Apply(remote, s, step).m;
    if v in s.m.sessions { StepEpoch(remote, s, step, v); }
    match step
    case NextStep(w) => if !s.m.closed { ScanKeepsWindow(s.m, v); }
    case HandInStep(w, r) => if v in n.sessions { HandInMove(s.m, s.workers[w].task, r, v); }
    case EndRelease(g) => if v in n.sessions { ReleaseMove(s.m, g, s.handles[g].state.file, v); }
    case ReadStep(g, offset, length) =>
      var (seen, observation) := Observe(s.m.cfg, s.handles[g].state, offset, length);
      PrepareMove(s.m, g, s.handles[g].state.file, observation, offset, length, v);
    case _ => PlainMove(remote, s, step, v);
  }

  /** The session of a file in a state of a run. */
  ghost function SessionAt(run: seq<Sys>, file: File, i: nat): SessionState
    requires i < |run|
  {
    SessionOrNew(run[i].m, ChunkVersion(file, run[0].m.cfg.chunkSize))
  }

  lemma RunMove(remote: RemoteBytes, run: seq<Sys>, steps: seq<Step>, file: File, i: nat) returns (move: Move)
    requires IsRun(remote, run, steps) && i < |steps| && NumericFsid(file.fsid)
    ensures ValidConfig(run[0].m.cfg)
    ensures IsMove(run[0].m.cfg, file.size, SessionAt(run, file, i), move, SessionAt(run, file, i + 1))
  {
    EveryState(remote, run, steps, i);
    RunEvolves(remote, run, steps, 0, i);
    assert StepAt(remote, run, steps, i);
    move := MoveOf(remote, run[i], steps[i], file);
    StepMove(remote, run[i], steps[i], file);
  }

  ghost predicate Traces(run: seq<Sys>, file: File, history: seq<Track>)
    requires |history| <= |run|
  {
    forall k :: 0 <= k < |history| ==> history[k].s == SessionAt(run, file, k)
  }

  /** In every run, the session of a file goes through a history of scheduling moves. */
  lemma {:induction false} RunHistory(remote: RemoteBytes, run: seq<Sys>, steps: seq<Step>, file: File, i: nat)
    returns (history: seq<Track>, moves: seq<Move>)
    requires IsRun(remote, run, steps) && i < |run| && NumericFsid(file.fsid)
    ensures ValidConfig(run[0].m.cfg) && |history| == i + 1 && IsHistory(run[0].m.cfg, file.size, history, moves)
    ensures Traces(run, file, history)
  {
    if i == 0 {
      EveryState(remote, run, steps, 0);
      history, moves := [Track(NEW_SESSION, 0, 0, [])], [];
    } else {
      history, moves := RunHistory(remote, run, steps, file, i - 1);
      var move := RunMove(remote, run, steps, file, i - 1);
      var cfg := run[0].m.cfg;
      var next := Advance(cfg, file.size, history[i - 1], move);
      HistoryGrows(cfg, file.size, history, moves, move, SessionAt(run, file, i));
      history, moves := history + [next], moves + [move];
    }
  }

  lemma HistoryGrows(cfg: Config, size: int, history: seq<Track>, moves: seq<Move>, move: Move, b: SessionState)
    requires ValidConfig(cfg) && IsHistory(cfg, size, history, moves)
    requires IsMove(cfg, size, history[|moves|].s, move, b)
    ensures Advance(cfg, size, history[|moves|], move).s == b
    ensures IsHistory(cfg, size, history + [Advance(cfg, size, history[|moves|], move)], moves + [move])
  {
  }

  /** In every state of every run, a prefetch window that is set is in order. */
  lemma WindowsInOrder(remote: RemoteBytes, run: seq<Sys>, steps: seq<Step>, file: File, i: nat)
    requires IsRun(remote, run, steps) && i < |run| && NumericFsid(file.fsid)
    ensures var s := SessionAt(run, file, i);
      s.scheduleSet ==> 0 <= s.floor <= s.near <= s.end
  {
    var history, moves := RunHistory(remote, run, steps, file, i);
    var cfg := run[0].m.cfg;
    assert history[i].s == SessionAt(run, file, i);
    AlwaysCovered(cfg, file.size, history, moves, i);
    var t := history[i];
    if t.s.scheduleSet { DivMono(0, Max(t.origin - cfg.backBuffer, 0), cfg.chunkSize); }
  }
}
