/** Reads in flight: the first reader of a window fetches it, later ones wait for what it gets. */
module Flights {
  import opened Content
  import opened ReadCache

  datatype Outcome = Fetched(data: Bytes) | Broken

  /** `closes` counts how often the channel waiters listen on was closed. */
  datatype Flight = Flight(key: CacheKey, closes: nat, outcome: Option<Outcome>)

  /** All flights ever begun, by number, and the current one of each window. */
  datatype Table = Table(flights: map<int, Flight>, current: map<CacheKey, int>, count: nat)

  const NO_FLIGHTS := Table(map[], map[], 0)

  /** The flight of a window to wait for, or a new one that the caller owns. */
  function Begin(t: Table, key: CacheKey): (r: (Table, int, bool))
  {
    if key in t.current then (t, t.current[key], false)
    else
      var id := t.count + 1;
      (Table(t.flights[id := Flight(key, 0, None)], t.current[key := id], id), id, true)
  }

  function Finish(t: Table, id: int, outcome: Outcome): Table
    requires id in t.flights
  {
    var f := t.flights[id];
    var left := if f.key in t.current && t.current[f.key] == id then t.current - {f.key} else t.current;
    t.(flights := t.flights[id := f.(closes := f.closes + 1, outcome := Some(outcome))], current := left)
  }

  /** The owner finishes its flight with what it got, and the window is free for a new one, unless it has another by now. */
  lemma FinishLaw(t: Table, id: int, outcome: Outcome)
    requires id in t.flights
    ensures var u, f := Finish(t, id, outcome), t.flights[id];
      && u.count == t.count && u.flights == t.flights[id := Flight(f.key, f.closes + 1, Some(outcome))]
      && (forall key :: key in u.current <==> key in t.current && !(key == f.key && t.current[key] == id))
      && (forall key :: key in u.current ==> u.current[key] == t.current[key])
  {
  }

  /** Changing the client or the download options forgets the current flights; their owners go on. */
  function Clear(t: Table): Table { t.(current := map[]) }

  // ---------- runs ----------

  datatype Reading = Idle | Owns(flight: int) | Waits(flight: int)

  datatype State = State(table: Table, readers: map<int, Reading>)

  datatype Step =
    | BeginStep(reader: int, key: CacheKey)
    | FinishStep(reader: int, outcome: Outcome)
    | LeaveStep(reader: int)
    | ClearStep

  /** What was fetched for a window is a prefix of the file's bytes from its start. */
  ghost predicate OutcomeTrue(remote: RemoteBytes, key: CacheKey, outcome: Outcome)
  {
    outcome.Fetched? ==> outcome.data == Slice(remote, key.fsid, key.offset, |outcome.data|)
  }

  ghost predicate Enabled(remote: RemoteBytes, s: State, step: Step)
  {
    match step
    case BeginStep(r, key) => r in s.readers && s.readers[r] == Idle
    case FinishStep(r, outcome) =>
      r in s.readers && s.readers[r].Owns? && s.readers[r].flight in s.table.flights
      && OutcomeTrue(remote, s.table.flights[s.readers[r].flight].key, outcome)
    case LeaveStep(r) => r in s.readers && s.readers[r].Waits?
    case ClearStep => true
  }

  ghost function Apply(remote: RemoteBytes, s: State, step: Step): State
    requires Enabled(remote, s, step)
  {
    match step
    case BeginStep(r, key) =>
      var (t, id, owner) := Begin(s.table, key);
      State(t, s.readers[r := if owner then Owns(id) else Waits(id)])
    case FinishStep(r, outcome) => State(Finish(s.table, s.readers[r].flight, outcome), s.readers[r := Idle])
    case LeaveStep(r) => s.(readers := s.readers[r := Idle])
    case ClearStep => s.(table := Clear(s.table))
  }

  ghost predicate OwnedBy(s: State, r: int, id: int) { r in s.readers && s.readers[r] == Owns(id) }

  ghost predicate FlightOk(remote: RemoteBytes, s: State, id: int)
    requires id in s.table.flights
  {
    var f := s.table.flights[id];
    && 1 <= id <= s.table.count
    && f.closes == (if f.outcome.Some? then 1 else 0)
    && (f.outcome.Some? ==> OutcomeTrue(remote, f.key, f.outcome.value))
    && (f.outcome.None? <==> exists r :: OwnedBy(s, r, id))
  }

  ghost predicate ReadersOk(s: State)
  {
    && (forall r :: r in s.readers && !s.readers[r].Idle? ==> s.readers[r].flight in s.table.flights)
    && (forall q, r, id :: OwnedBy(s, q, id) && OwnedBy(s, r, id) ==> q == r)
  }

  ghost predicate CurrentOk(t: Table)
  {
    forall key :: key in t.current ==>
      t.current[key] in t.flights && t.flights[t.current[key]].key == key && t.flights[t.current[key]].outcome == None
  }

  ghost predicate Inv(remote: RemoteBytes, s: State)
  {
    CurrentOk(s.table) && ReadersOk(s) && forall id :: id in s.table.flights ==> FlightOk(remote, s, id)
  }

  lemma BeginKeeps(remote: RemoteBytes, s: State, r: int, key: CacheKey)
    requires Inv(remote, s) && Enabled(remote, s, BeginStep(r, key))
    ensures Inv(remote, Apply(remote, s, BeginStep(r, key)))
  {
    var t := Apply(remote, s, BeginStep(r, key));
    var id := Begin(s.table, key).1;
    forall i | i in s.table.flights ensures FlightOk(remote, s, i) && i <= s.table.count {}
    forall i | i in t.table.flights ensures FlightOk(remote, t, i) {
      if i in s.table.flights {
        assert FlightOk(remote, s, i);
        forall q ensures OwnedBy(t, q, i) <==> OwnedBy(s, q, i) {}
      } else {
        assert OwnedBy(t, r, id);
      }
    }
    forall q, i | OwnedBy(t, q, i) && q != r ensures OwnedBy(s, q, i) && i in s.table.flights {}
    forall q, p, i | OwnedBy(t, q, i) && OwnedBy(t, p, i) ensures q == p {}
  }

  lemma FinishKeeps(remote: RemoteBytes, s: State, r: int, outcome: Outcome)
    requires Inv(remote, s) && Enabled(remote, s, FinishStep(r, outcome))
    ensures Inv(remote, Apply(remote, s, FinishStep(r, outcome)))
  {
    var t := Apply(remote, s, FinishStep(r, outcome));
    var id := s.readers[r].flight;
    assert OwnedBy(s, r, id) && FlightOk(remote, s, id);
    forall i | i in t.table.flights ensures FlightOk(remote, t, i) {
      assert FlightOk(remote, s, i);
      forall q ensures OwnedBy(t, q, i) <==> OwnedBy(s, q, i) && i != id {
        if OwnedBy(s, q, i) && i == id { assert q == r; }
      }
    }
    forall q, p, i | OwnedBy(t, q, i) && OwnedBy(t, p, i) ensures q == p { assert OwnedBy(s, q, i) && OwnedBy(s, p, i); }
  }

  lemma OtherKeeps(remote: RemoteBytes, s: State, step: Step)
    requires Inv(remote, s) && Enabled(remote, s, step) && (step.LeaveStep? || step.ClearStep?)
    ensures Inv(remote, Apply(remote, s, step))
  {
    var t := Apply(remote, s, step);
    forall q, i ensures OwnedBy(t, q, i) <==> OwnedBy(s, q, i) {}
    forall i | i in t.table.flights ensures FlightOk(remote, t, i) { assert FlightOk(remote, s, i); }
    forall q, p, i | OwnedBy(t, q, i) && OwnedBy(t, p, i) ensures q == p { assert OwnedBy(s, q, i) && OwnedBy(s, p, i); }
  }

  ghost predicate StepAt(remote: RemoteBytes, run: seq<State>, steps: seq<Step>, i: int)
    requires |run| == |steps| + 1 && 0 <= i < |steps|
  {
    Enabled(remote, run[i], steps[i]) && run[i + 1] == Apply(remote, run[i], steps[i])
  }

  ghost predicate IsRun(remote: RemoteBytes, run: seq<State>, steps: seq<Step>)
  {
    && |run| == |steps| + 1 && run[0].table == NO_FLIGHTS && (forall r :: r in run[0].readers ==> run[0].readers[r] == Idle)
    && forall i :: 0 <= i < |steps| ==> StepAt(remote, run, steps, i)
  }

  lemma {:induction false} EveryState(remote: RemoteBytes, run: seq<State>, steps: seq<Step>, i: nat)
    requires IsRun(remote, run, steps) && i < |run|
    ensures Inv(remote, run[i])
  {
    if i > 0 {
      EveryState(remote, run, steps, i - 1);
      assert StepAt(remote, run, steps, i - 1);
      match steps[i - 1]
      case BeginStep(r, key) => BeginKeeps(remote, run[i - 1], r, key);
      case FinishStep(r, outcome) => FinishKeeps(remote, run[i - 1], r, outcome);
      case _ => OtherKeeps(remote, run[i - 1], steps[i - 1]);
    }
  }

  /** In every state of every run: a flight is closed exactly once if it is finished and never before; it is
      unfinished exactly as long as it has an owner, and then it has one; what waiters get is true. */
  lemma FinishedOnceByOwner(remote: RemoteBytes, run: seq<State>, steps: seq<Step>, i: nat, id: int)
    requires IsRun(remote, run, steps) && i < |run| && id in run[i].table.flights
    ensures var f := run[i].table.flights[id];
      && f.closes == (if f.outcome.Some? then 1 else 0)
      && (f.outcome.None? <==> exists r :: OwnedBy(run[i], r, id))
      && (forall q, r :: OwnedBy(run[i], q, id) && OwnedBy(run[i], r, id) ==> q == r)
      && (f.outcome.Some? ==> OutcomeTrue(remote, f.key, f.outcome.value))
  {
    EveryState(remote, run, steps, i);
    assert FlightOk(remote, run[i], id);
  }

  /** A window has at most one current flight, and whoever asks for a window in flight waits for that one. */
  lemma JoinsCurrent(remote: RemoteBytes, run: seq<State>, steps: seq<Step>, i: nat, key: CacheKey)
    requires IsRun(remote, run, steps) && i < |run|
    ensures var (t, id, owner) := Begin(run[i].table, key);
      && id in t.flights && t.flights[id].key == key && t.flights[id].outcome == None
      && (owner <==> id !in run[i].table.flights) && t.current[key] == id
      && (owner <==> key !in run[i].table.current) && (!owner ==> t == run[i].table)
      && (owner ==> t.flights == run[i].table.flights[id := Flight(key, 0, None)] && t.current == run[i].table.current[key := id])
  {
    EveryState(remote, run, steps, i);
    forall id | id in run[i].table.flights ensures id <= run[i].table.count { assert FlightOk(remote, run[i], id); }
  }
}
