/** What holds in every state of every run of the stream engine. */
module StreamSafety {
  import opened Content
  import opened StreamState
  import opened TaskProtocol
  import opened Scheduling
  import opened StreamSystem

  // ---------- tasks ----------

  ghost predicate TaskPart(s: Sys)
  {
    ValidConfig(s.m.cfg) && Inv(s.m) && Shapes(s.m)
  }

  lemma TaskPartKept(remote: RemoteBytes, s: Sys, step: Step)
    requires TaskPart(s) && Enabled(remote, s, step)
    ensures TaskPart(Apply(remote, s, step)) && Evolves(s.m, Apply(remote, s, step).m)
  {
    var t := Apply(remote, s, step);
    StepKeeps(remote, s, step);
    if !step.EnsureStep? { EvolvesShapes(s.m, t.m); }
    else { EnsureShapes(s.m, step.file, step.index, step.epoch, step.priority); }
  }

  /** Every step but a pass, a request for a chunk and closing leaves the queue alone, lists nothing new, and
      publishes at most what it says. */
  lemma StepFrame(remote: RemoteBytes, s: Sys, step: Step)
    requires Enabled(remote, s, step) && !step.NextStep? && !step.EnsureStep? && !step.CloseStep?
    ensures Frame(s.m, Apply(remote, s, step).m)
    ensures !step.HandInStep? && !step.PublishStep? ==> ResultsFrame(s.m, Apply(remote, s, step).m, 0, None)
    ensures step.PublishStep? ==> ResultsFrame(s.m, Apply(remote, s, step).m, step.id, Some(Ok(step.data)))
  {
    match step
    case EndRelease(h) => ReleaseFrame(s.m, h, s.handles[h].state.file);
    case ReadStep(h, offset, length) =>
      var (seen, observation) := Observe(s.m.cfg, s.handles[h].state, offset, length);
      PrepareFrame(s.m, h, s.handles[h].state.file, observation, offset, length);
    case MarkStep(id) => FlagsFrame(s.m, id);
    case HedgeStep(id) => FlagsFrame(s.m, id);
    case PublishStep(id, data) => PublishFrame(s.m, id, data);
    case HandInStep(w, r) => HandInFrame(s.m, s.workers[w].task, r);
    case _ =>
  }

  lemma StepKeys(remote: RemoteBytes, s: Sys, step: Step)
    requires Inv(s.m) && Enabled(remote, s, step) && !step.EnsureStep?
    ensures Apply(remote, s, step).m.table.Keys == s.m.table.Keys
  {
    if step.NextStep? {
      ScanPass(s.m);
    } else if !step.CloseStep? {
      StepFrame(remote, s, step);
    }
  }

  lemma StepKeeps(remote: RemoteBytes, s: Sys, step: Step)
    requires Inv(s.m) && Enabled(remote, s, step)
    ensures Inv(Apply(remote, s, step).m) && Evolves(s.m, Apply(remote, s, step).m)
    ensures !step.NextStep? ==> SameStarts(s.m, Apply(remote, s, step).m)
    ensures !step.EnsureStep? ==> Apply(remote, s, step).m.table.Keys == s.m.table.Keys
  {
    if !step.EnsureStep? { StepKeys(remote, s, step); }
    match step
    case OpenStep(file) => OpenKeeps(s.m, file);
    case BeginRelease(h) =>
    case EndRelease(h) => ReleaseKeeps(s.m, h, s.handles[h].state.file);
    case ReadStep(h, offset, length) =>
      var (seen, observation) := Observe(s.m.cfg, s.handles[h].state, offset, length);
      PrepareKeeps(s.m, h, s.handles[h].state.file, observation, offset, length);
    case EnsureStep(file, index, epoch, priority, woken) => EnsureKeeps(s.m, file, index, epoch, priority);
    case ScheduleStep(file, cursor, epoch) => SameTasks(s.m, SetWindow(s.m, file, cursor, epoch), {});
    case ReclaimStep => SameTasks(s.m, ForgetWindows(s.m), {});
    case MarkStep(id) => FlagsKeep(s.m, id);
    case HedgeStep(id) => FlagsKeep(s.m, id);
    case PublishStep(id, data) => PublishHedgeKeeps(s.m, id, data);
    case NextStep(w) =>
      ScanPass(s.m);
      var (n, r) := Scan(s.m, {});
      PassEvolves(s.m, n, r);
    case HandInStep(w, r) => HandInKeeps(s.m, s.workers[w].task, r);
    case BroadcastStep(w) =>
    case CachePut(id, data) =>
    case CacheDrop(keys) =>
    case CloseStep => CloseAllKeeps(s.m);
  }

  // ---------- workers ----------

  ghost predicate Runs(s: Sys, w: int, id: int) { w in s.workers && s.workers[w] == Busy(id) }

  ghost predicate Running(s: Sys, id: int) { exists w :: Runs(s, w, id) }

  /** Each worker downloads a task of its own, and a started task has a worker until it is finished. */
  ghost predicate WorkerPart(s: Sys)
  {
    && (forall w, id :: Runs(s, w, id) ==> id in s.m.table && s.m.table[id].started)
    && (forall v, w, id :: Runs(s, v, id) && Runs(s, w, id) ==> v == w)
    && (forall id :: id in s.m.table && s.m.table[id].started && !s.m.table[id].finished ==> Running(s, id))
    && (!s.m.closed ==> forall w :: w in s.workers ==> s.workers[w] != Exited)
    && s.workers != map[]
  }

  /** Steps that start no task and leave the busy workers alone. */
  lemma WorkersSame(s: Sys, t: Sys)
    requires WorkerPart(s) && Evolves(s.m, t.m)
    requires s.workers.Keys == t.workers.Keys
    requires forall w, id :: Runs(s, w, id) <==> Runs(t, w, id)
    requires SameStarts(s.m, t.m)
    requires !t.m.closed ==> forall w :: w in t.workers ==> t.workers[w] != Exited
    ensures WorkerPart(t)
  {
    forall w, id | Runs(t, w, id) ensures id in t.m.table && t.m.table[id].started { assert Runs(s, w, id); }
    forall id | id in t.m.table && t.m.table[id].started && !t.m.table[id].finished ensures Running(t, id) {
      assert Running(s, id);
      var w :| Runs(s, w, id);
      assert Runs(t, w, id);
    }
    assert t.workers != map[] by { var w := Pick(s.workers.Keys); assert w in t.workers; }
  }

  lemma WorkerPartKept(remote: RemoteBytes, s: Sys, step: Step)
    requires TaskPart(s) && WorkerPart(s) && Enabled(remote, s, step)
    ensures WorkerPart(Apply(remote, s, step))
  {
    var t := Apply(remote, s, step);
    TaskPartKept(remote, s, step);
    if step.NextStep? {
      NextWorkers(remote, s, step.worker);
    } else if step.HandInStep? {
      HandInWorkers(remote, s, step.worker, step.result);
    } else {
      StepKeeps(remote, s, step);
      OtherWorkers(remote, s, step);
      WorkersSame(s, t);
    }
  }

  lemma OtherWorkers(remote: RemoteBytes, s: Sys, step: Step)
    requires WorkerPart(s) && Enabled(remote, s, step) && !step.NextStep? && !step.HandInStep?
    ensures var t := Apply(remote, s, step);
      && s.workers.Keys == t.workers.Keys
      && (forall w, id :: Runs(s, w, id) <==> Runs(t, w, id))
      && (!s.m.closed ==> forall w :: w in t.workers ==> t.workers[w] != Exited)
  {
  }

  lemma NextWorkers(remote: RemoteBytes, s: Sys, w: int)
    requires TaskPart(s) && WorkerPart(s) && Enabled(remote, s, NextStep(w))
    ensures WorkerPart(Apply(remote, s, NextStep(w)))
  {
    var t := Apply(remote, s, NextStep(w));
    if s.m.closed {
      WorkersSame(s, t);
    } else {
      ScanPass(s.m);
      var (n, r) := Scan(s.m, {});
      TakenByOne(s, w, n, r, t);
    }
  }

  lemma TakenByOne(s: Sys, w: int, n: Mgr, r: Option<int>, t: Sys)
    requires WorkerPart(s) && Inv(s.m) && PassSpec(s.m, {}, n, r) && w in s.workers && s.workers[w] == Ready && !s.m.closed
    requires t == s.(m := n, workers := s.workers[w := if r.Some? then Busy(r.value) else Waiting])
    ensures WorkerPart(t)
  {
    forall v, id | Runs(t, v, id) && v != w ensures Runs(s, v, id) && r != Some(id) {
      assert Runs(s, v, id);
      assert TaskOk(s.m, {}, id);
    }
    forall v, id | Runs(s, v, id) ensures Runs(t, v, id) {}
    forall id | id in n.table ensures n.table[id] == PassTask(s.m, r, id) {}
    forall v, id | Runs(t, v, id) ensures id in n.table && n.table[id].started {
      if v != w { assert Runs(s, v, id); }
    }
    forall u, v, id | Runs(t, u, id) && Runs(t, v, id) ensures u == v {
      if u != w && v != w { assert Runs(s, u, id) && Runs(s, v, id); }
    }
    forall id | id in n.table && n.table[id].started && !n.table[id].finished ensures Running(t, id) {
      if r == Some(id) { assert Runs(t, w, id); }
      else { assert Running(s, id); var v :| Runs(s, v, id); assert Runs(t, v, id); }
    }
  }

  lemma HandInWorkers(remote: RemoteBytes, s: Sys, w: int, r: Result)
    requires TaskPart(s) && WorkerPart(s) && Enabled(remote, s, HandInStep(w, r))
    ensures WorkerPart(Apply(remote, s, HandInStep(w, r)))
  {
    var t := Apply(remote, s, HandInStep(w, r));
    var done := s.workers[w].task;
    assert Runs(s, w, done);
    HandInKeeps(s.m, done, r);
    HandInFrame(s.m, done, r);
    forall v, id | Runs(t, v, id) ensures Runs(s, v, id) && id != done { assert v != w && Runs(s, v, id); }
    forall id | id in t.m.table && t.m.table[id].started && !t.m.table[id].finished ensures Running(t, id) {
      assert Running(s, id); var v :| Runs(s, v, id); assert Runs(t, v, id);
    }
  }
}
