/** How a handle's reads are classified, and what a read does to its session, said of the fields alone: of the
    position and mode of the handle, of the session, and of the read. */
module AccessLaws {
  import opened Content
  import opened Naming
  import opened StreamState
  import opened StreamSystem
  import opened StreamSessions
  import opened StreamTheorems
  import opened StreamEpochs

  // ---------- probes ----------

  /** A small read that reaches into the end of the file. */
  predicate AtTail(cfg: Config, size: int, offset: int, length: int)
  {
    size > 0
    && (if size < 4 * MIB then length <= Max(cfg.chunkSize / 2, 1) && offset >= size - cfg.chunkSize
        else length <= 0x2_0000 && offset >= size - MIB)
  }

  /** A small read at either end of the file. */
  predicate AtEdge(cfg: Config, size: int, offset: int, length: int)
  {
    || AtTail(cfg, size, offset, length)
    || (if size < 4 * MIB then length <= Max(cfg.chunkSize / 2, 1) && offset < cfg.chunkSize
        else length <= 0x2_0000 && offset < MIB)
  }

  predicate AtHead(size: int, offset: int) { size >= 256 * MIB && offset < 8 * MIB }

  /** What a handle looks like: nothing was read through a handle without a position, one that only looks at the tail
      does not stream, and one that does not stream has made at most one forward read. */
  predicate Shape(h: HandleState)
  {
    && h.forwardReads >= 0 && (!h.stream ==> h.forwardReads <= 1)
    && (h.tailProbe ==> !h.stream && h.forwardReads == 0)
    && (h.lastOffset < 0 ==> h.forwardReads == 0 && !h.stream && !h.tailProbe)
  }

  /** The first read, and every further one as long as they stay there, that only looks at the tail: nothing is
      concluded from it. */
  lemma TailProbe(cfg: Config, h: HandleState, offset: int, length: int)
    requires ValidConfig(cfg) && AtTail(cfg, h.file.size, offset, length) && (h.lastOffset < 0 || h.tailProbe)
    ensures Observe(cfg, h, offset, length)
      == (h.(tailProbe := true, lastOffset := offset, lastLength := length), Observation(false, NoEvent, false))
  {
  }

  /** The first read elsewhere after such looks is like the first read of a new handle. */
  lemma AfterTailProbes(cfg: Config, h: HandleState, offset: int, length: int)
    requires ValidConfig(cfg) && h.tailProbe && !AtTail(cfg, h.file.size, offset, length)
    ensures Observe(cfg, h, offset, length) == Observe(cfg, NewHandle(h.file).(epoch := h.epoch), offset, length)
  {
  }

  /** A read of the first bytes of a large file by a handle that does not stream starts the count anew. */
  lemma HeadProbe(cfg: Config, h: HandleState, offset: int, length: int)
    requires ValidConfig(cfg) && AtHead(h.file.size, offset) && !AtTail(cfg, h.file.size, offset, length)
    requires !h.stream && !h.tailProbe
    ensures Observe(cfg, h, offset, length)
      == (h.(lastOffset := offset, lastLength := length, forwardReads := 0), Observation(false, NoEvent, false))
  {
  }

  /** The read jumps: back, or further forward than the seek threshold. */
  predicate JumpsToEdge(cfg: Config, h: HandleState, offset: int, length: int)
  {
    var end := h.lastOffset + h.lastLength;
    h.lastOffset >= 0 && AtEdge(cfg, h.file.size, offset, length) && offset != h.lastOffset
    && (offset < end || offset > end + cfg.seekThreshold)
  }

  /** Reads of the first bytes of a large file, by handles that do not stream. */
  predicate LooksAtHead(cfg: Config, h: HandleState, offset: int, length: int)
  {
    AtHead(h.file.size, offset) && !h.stream && !AtTail(cfg, h.file.size, offset, length)
  }

  /** A small jump to an edge of the file is not noticed. */
  lemma EdgeProbe(cfg: Config, h: HandleState, offset: int, length: int)
    requires ValidConfig(cfg) && !h.tailProbe && !LooksAtHead(cfg, h, offset, length) && JumpsToEdge(cfg, h, offset, length)
    ensures Observe(cfg, h, offset, length) == (h, Observation(h.stream, NoEvent, false))
  {
  }

  // ---------- all other reads ----------

  /** Neither a probe of the tail, nor of the head, nor of an edge. */
  predicate Ordinary(cfg: Config, h: HandleState, offset: int, length: int)
  {
    && !h.tailProbe && !(h.lastOffset < 0 && AtTail(cfg, h.file.size, offset, length))
    && !LooksAtHead(cfg, h, offset, length) && !JumpsToEdge(cfg, h, offset, length)
  }

  /** The read goes on where the last one ended, or a little later. */
  predicate GoesOn(cfg: Config, h: HandleState, offset: int)
  {
    h.lastOffset >= 0 && offset != h.lastOffset
    && h.lastOffset + h.lastLength <= offset <= h.lastOffset + h.lastLength + cfg.forwardGap
  }

  /** The read is before the end of the last one, or far behind it. */
  predicate JumpsAway(cfg: Config, h: HandleState, offset: int)
  {
    var end := h.lastOffset + h.lastLength;
    offset != h.lastOffset && (offset < end || offset > end + Max(cfg.seekThreshold, cfg.targetBuffer))
  }

  /** The law of all other reads: a jump of a handle that streams is a seek, and ends the stream; the second forward
      read in a row of a handle that does not stream starts a stream; and nothing else does either. */
  lemma OrdinaryRead(cfg: Config, h: HandleState, offset: int, length: int)
    requires ValidConfig(cfg) && Shape(h) && Ordinary(cfg, h, offset, length) && offset >= 0
    ensures var (n, seen) := Observe(cfg, h, offset, length);
      && (seen.event == SeekEvent <==> h.stream && JumpsAway(cfg, h, offset))
      && (seen.event == StartEvent <==> !h.stream && GoesOn(cfg, h, offset) && h.forwardReads == 1)
      && (n.stream <==> seen.event == StartEvent || (h.stream && seen.event != SeekEvent))
      && (seen.stream <==> n.stream) && (seen.streamRead <==> n.stream)
      && n.lastOffset == offset && n.lastLength == length && !n.tailProbe && n.file == h.file && n.epoch == h.epoch
      && n.forwardReads == (if seen.event == SeekEvent || h.lastOffset < 0 then 1
                            else if offset == h.lastOffset then h.forwardReads
                            else if GoesOn(cfg, h, offset) then h.forwardReads + 1 else 1)
  {
  }

  /** Every read is one of these. */
  lemma {:induction false} ShapeKept(cfg: Config, h: HandleState, offset: int, length: int)
    requires ValidConfig(cfg) && Shape(h) && offset >= 0
    ensures Shape(Observe(cfg, h, offset, length).0)
    decreases h.tailProbe
  {
    if AtTail(cfg, h.file.size, offset, length) && (h.lastOffset < 0 || h.tailProbe) {
      TailProbe(cfg, h, offset, length);
    } else if h.tailProbe {
      AfterTailProbes(cfg, h, offset, length);
      ShapeKept(cfg, NewHandle(h.file).(epoch := h.epoch), offset, length);
    } else if LooksAtHead(cfg, h, offset, length) {
      HeadProbe(cfg, h, offset, length);
    } else if JumpsToEdge(cfg, h, offset, length) {
      EdgeProbe(cfg, h, offset, length);
    } else {
      OrdinaryRead(cfg, h, offset, length);
    }
  }

  ghost predicate AllShaped(s: Sys) { forall h :: h in s.handles ==> Shape(s.handles[h].state) }

  lemma StepShaped(remote: RemoteBytes, s: Sys, step: Step)
    requires ValidConfig(s.m.cfg) && AllShaped(s) && Enabled(remote, s, step)
    ensures AllShaped(Apply(remote, s, step))
  {
    if step.ReadStep? { ShapeKept(s.m.cfg, s.handles[step.handle].state, step.offset, step.length); }
  }

  /** In every state of every run every handle looks like that. */
  lemma {:induction false} HandlesShaped(remote: RemoteBytes, run: seq<Sys>, steps: seq<Step>, i: nat)
    requires IsRun(remote, run, steps) && i < |run|
    ensures AllShaped(run[i])
  {
    if i > 0 {
      HandlesShaped(remote, run, steps, i - 1);
      EveryState(remote, run, steps, i - 1);
      assert StepAt(remote, run, steps, i - 1);
      StepShaped(remote, run[i - 1], steps[i - 1]);
    }
  }

  // ---------- the session at the start of a read ----------

  /** The offset lies in a chunk of the window that was scheduled in this epoch. */
  predicate Within(cfg: Config, e: SessionState, offset: int)
    requires cfg.chunkSize > 0
  {
    e.scheduleSet && e.scheduleEpoch == e.epoch && offset >= 0 && e.floor <= offset / cfg.chunkSize <= e.end
  }

  /** The read moves the session to a new epoch: outside the window, a seek of the handle that the session follows, if
      it follows any, or the start of a stream by another one. */
  predicate Bumps(cfg: Config, e: SessionState, h: int, event: Event, offset: int)
    requires cfg.chunkSize > 0
  {
    !Within(cfg, e, offset)
    && ((event == SeekEvent && (e.active == 0 || e.active == h)) || (event == StartEvent && e.active != 0 && e.active != h))
  }

  /** The read makes a session that follows no handle follow this one. */
  predicate Adopts(cfg: Config, e: SessionState, seen: Observation, offset: int)
    requires cfg.chunkSize > 0
  {
    e.active == 0 && (seen.event == StartEvent || (seen.stream && (seen.event == NoEvent || Within(cfg, e, offset))))
  }

  /** A seek, outside the window, of a handle that the session does not follow. */
  predicate Independent(cfg: Config, e: SessionState, h: int, seen: Observation, offset: int)
    requires cfg.chunkSize > 0
  {
    seen.event == SeekEvent && !Within(cfg, e, offset) && e.active != 0 && e.active != h
  }

  /** What the start of a read does to its session and tells the reader: whether the epoch rises, whom the session
      follows, how far its cursor is, and which event is told. */
  lemma ReadStart(m: Mgr, h: int, file: File, seen: Observation, offset: int, length: int)
    requires ValidConfig(m.cfg)
    ensures var v := ChunkVersion(file, m.cfg.chunkSize);
      var e := SessionOrNew(m, v);
      var (n, plan) := Prepare(m, h, file, seen, offset, length);
      var bumps, adopts := Bumps(m.cfg, e, h, seen.event, offset), Adopts(m.cfg, e, seen, offset);
      && v in n.sessions
      && n.sessions[v].epoch == (if bumps then e.epoch + 1 else e.epoch)
      && n.sessions[v].active == (if bumps || adopts then h else e.active)
      && n.sessions[v].anchor == (if bumps || adopts then offset else e.anchor)
      && plan.epoch == n.sessions[v].epoch && plan.stream == seen.stream
      && (plan.streamRead <==>
           seen.streamRead && !Independent(m.cfg, e, h, seen, offset) && (n.sessions[v].active == h || Within(m.cfg, e, offset)))
      && n.sessions[v].cursor == (if plan.streamRead && offset + length > e.cursor then offset + length else e.cursor)
      && plan.event == (if seen.event == StartEvent then StartEvent
                        else if bumps then SeekEvent
                        else if adopts then StartEvent else NoEvent)
      && (plan.log <==> bumps || (e.active == 0 && n.sessions[v].active == h && plan.event == StartEvent))
  {
  }

  /** Nothing else of the session changes, no other session does, and without a bump no task. */
  lemma ReadStartLeaves(m: Mgr, h: int, file: File, seen: Observation, offset: int, length: int)
    requires ValidConfig(m.cfg)
    ensures var v := ChunkVersion(file, m.cfg.chunkSize);
      var e := SessionOrNew(m, v);
      var n := Prepare(m, h, file, seen, offset, length).0;
      && v in n.sessions
      && n == m.(table := n.table, sessions := m.sessions[v := n.sessions[v]])
      && n.sessions[v] == e.(epoch := n.sessions[v].epoch, active := n.sessions[v].active, anchor := n.sessions[v].anchor,
                             cursor := n.sessions[v].cursor)
      && (!Bumps(m.cfg, e, h, seen.event, offset) ==> n.table == m.table)
  {
  }

  /** A handle that neither streams nor starts to stream leaves the stream of another handle alone, wherever and
      however far it jumps: no task, no epoch and no following changes. */
  lemma OthersStreamOn(remote: RemoteBytes, run: seq<Sys>, steps: seq<Step>, i: nat, h: int, offset: int, length: int)
    requires IsRun(remote, run, steps) && i < |steps| && steps[i] == ReadStep(h, offset, length) && h in run[i].handles
    requires var s, v := run[i], VersionOf(run[i], h);
      v in s.m.sessions && s.m.sessions[v].active != 0 && s.m.sessions[v].active != h
    requires h in run[i + 1].handles && !run[i + 1].handles[h].state.stream
    ensures var s, t, v := run[i], run[i + 1], VersionOf(run[i], h);
      t.m.table == s.m.table && v in t.m.sessions
      && t.m.sessions[v].epoch == s.m.sessions[v].epoch && t.m.sessions[v].active == s.m.sessions[v].active
  {
    var s, v := run[i], VersionOf(run[i], h);
    EveryState(remote, run, steps, i);
    HandlesShaped(remote, run, steps, i);
    assert StepAt(remote, run, steps, i);
    var (n, seen) := Observe(s.m.cfg, s.handles[h].state, offset, length);
    NoStreamNoStart(s.m.cfg, s.handles[h].state, offset, length);
    if !s.m.closed {
      ReadStart(s.m, h, s.handles[h].state.file, seen, offset, length);
      ReadStartLeaves(s.m, h, s.handles[h].state.file, seen, offset, length);
    }
  }

  /** A read after which a handle does not stream starts no stream and is not seen as part of one. */
  lemma {:induction false} NoStreamNoStart(cfg: Config, h: HandleState, offset: int, length: int)
    requires ValidConfig(cfg) && Shape(h) && offset >= 0
    ensures var (n, seen) := Observe(cfg, h, offset, length);
      !n.stream ==> seen.event != StartEvent && !seen.stream && !seen.streamRead
    decreases h.tailProbe
  {
    if h.tailProbe && !AtTail(cfg, h.file.size, offset, length) {
      AfterTailProbes(cfg, h, offset, length);
      NoStreamNoStart(cfg, NewHandle(h.file).(epoch := h.epoch), offset, length);
    } else if Ordinary(cfg, h, offset, length) {
      OrdinaryRead(cfg, h, offset, length);
    }
  }

  /** A live task of the version that was made in the session's epoch or before, and not for a reader. */
  predicate InBackground(m: Mgr, id: int, v: string)
    requires v in m.sessions
  {
    id in m.table && m.table[id].Live() && m.table[id].key.version == v
    && m.table[id].epoch <= m.sessions[v].epoch && m.table[id].priority != FOREGROUND
  }

  /** A jump of the handle that its session follows, out of the window, begins a new epoch and cancels the older
      background work; in every run. */
  lemma SeekBumps(remote: RemoteBytes, run: seq<Sys>, steps: seq<Step>, i: nat, h: int, offset: int, length: int)
    requires IsRun(remote, run, steps) && i < |steps| && steps[i] == ReadStep(h, offset, length) && h in run[i].handles
    requires !run[i].m.closed && VersionOf(run[i], h) in run[i].m.sessions
    requires var s, x := run[i], run[i].handles[h].state;
      var e := s.m.sessions[VersionOf(s, h)];
      && x.stream && Ordinary(s.m.cfg, x, offset, length) && JumpsAway(s.m.cfg, x, offset)
      && e.active == h && ValidConfig(s.m.cfg) && !Within(s.m.cfg, e, offset)
    ensures var s, t, v := run[i], run[i + 1], VersionOf(run[i], h);
      && v in t.m.sessions && t.m.sessions[v].epoch == s.m.sessions[v].epoch + 1 && t.m.sessions[v].active == h
      && h in t.handles && !t.handles[h].state.stream
      && forall id :: InBackground(s.m, id, v) ==> id in t.m.table && t.m.table[id].cancelled
  {
    var s, v := run[i], VersionOf(run[i], h);
    EveryState(remote, run, steps, i);
    HandlesShaped(remote, run, steps, i);
    assert StepAt(remote, run, steps, i);
    var x := s.handles[h].state;
    var (n, seen) := Observe(s.m.cfg, x, offset, length);
    OrdinaryRead(s.m.cfg, x, offset, length);
    ReadStart(s.m, h, x.file, seen, offset, length);
    forall id | InBackground(s.m, id, v) ensures id in run[i + 1].m.table && run[i + 1].m.table[id].cancelled {
      ReadCancelsExactly(s.m, h, x.file, seen, offset, length, id);
    }
  }
}
