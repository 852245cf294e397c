/** Giving back memory after a time without activity: one timer, renewed by its own callback. */
module IdleReclaim {
  import opened Content
  import opened StreamState
  import opened Scheduling

  const MILLISECOND := 1_000_000
  const SECOND := 1000 * MILLISECOND

  /** `idle` is the configured time without activity. A timer is named by the epoch it was started in: first
      it is armed, then its callback has started and waits for the lock. `timer` is what the manager holds. */
  datatype Idle = Idle(
    idle: int, closed: bool, epoch: nat, timer: Option<nat>, lastActivity: int, armed: map<nat, int>, fired: set<nat>)

  /** Starts the timer of a new epoch, due after the delay. */
  function StartTimer(s: Idle, now: int, delay: int): Idle
  {
    if s.closed then s
    else
      var e := s.epoch + 1;
      s.(epoch := e, timer := Some(e), armed := s.armed[e := now + (if delay <= 0 then MILLISECOND else delay)])
  }

  function MarkActivity(s: Idle, now: int): Idle
  {
    if s.closed then s
    else
      var t := s.(lastActivity := now);
      if t.timer.None? then StartTimer(t, now, t.idle) else t
  }

  /** The callback of a timer gets the lock: is the memory given back? */
  function Callback(s: Idle, e: nat, now: int, m: Mgr): (Idle, bool)
  {
    var t := s.(fired := s.fired - {e});
    if t.closed || e != t.epoch then (t, false)
    else
      var u := t.(timer := None);
      var remaining := u.idle - (now - u.lastActivity);
      if remaining > 0 then (StartTimer(u, now, remaining), false)
      else if !Quiet(m) then (StartTimer(u, now, SECOND), false)
      else (u, true)
  }

  /** Closing starts a new epoch and stops the timer, which may already have fired. */
  function CloseIdle(s: Idle): Idle
  {
    if s.closed then s
    else s.(closed := true, epoch := s.epoch + 1, timer := None,
            armed := if s.timer.Some? then s.armed - {s.timer.value} else s.armed)
  }

  // ---------- the laws of the timer ----------

  /** When the callback of a timer gets the lock: after closing, or for a timer that was replaced, nothing happens; while
      the idle time is not over, a timer is due when it is; while the manager is not quiet, in a second; otherwise the
      memory is given back and no timer is due. */
  lemma CallbackLaw(s: Idle, e: nat, now: int, m: Mgr)
    ensures var (t, reclaim) := Callback(s, e, now, m);
      var acts := !s.closed && e == s.epoch;
      && (reclaim <==> acts && now - s.lastActivity >= s.idle && Quiet(m))
      && t.idle == s.idle && t.closed == s.closed && t.lastActivity == s.lastActivity && t.fired == s.fired - {e}
      && (!acts ==> t == s.(fired := t.fired))
      && (reclaim ==> t == s.(fired := t.fired, timer := None))
      && (acts && now - s.lastActivity < s.idle ==>
            t.epoch == s.epoch + 1 && t.timer == Some(t.epoch) && t.armed == s.armed[t.epoch := s.lastActivity + s.idle])
      && (acts && now - s.lastActivity >= s.idle && !Quiet(m) ==>
            t.epoch == s.epoch + 1 && t.timer == Some(t.epoch) && t.armed == s.armed[t.epoch := now + 1_000_000_000])
  {
  }

  // ---------- the manager's side ----------

  class Reclaimer {
    const idle: int
    var closed: bool
    var idleEpoch: nat
    var idleTimer: Option<nat>
    var lastActivity: int
    /** The runtime's timers. */
    var armed: map<nat, int>
    var fired: set<nat>

    constructor (idle: int)
      ensures View() == Idle(idle, false, 0, None, 0, map[], {})
    {
      this.idle := idle;
      closed, idleEpoch, idleTimer, lastActivity, armed, fired := false, 0, None, 0, map[], {};
    }

    ghost function View(): Idle
      reads this
    {
      Idle(idle, closed, idleEpoch, idleTimer, lastActivity, armed, fired)
    }

    method ScheduleAfter(now: int, delay: int)
      modifies this
      ensures View() == StartTimer(old(View()), now, delay)
    {
      if closed { return; }
      var wait := delay;
      if wait <= 0 { wait := MILLISECOND; }
      idleEpoch := idleEpoch + 1;
      armed := armed[idleEpoch := now + wait];
      idleTimer := Some(idleEpoch);
    }

    method Mark(now: int)
      modifies this
      ensures View() == MarkActivity(old(View()), now)
      ensures !closed ==> lastActivity == now && idleTimer.Some? && (old(idleTimer).Some? ==> armed == old(armed))
      ensures !closed && old(idleTimer).None? ==>
        idleTimer == Some(idleEpoch) && idleEpoch == old(idleEpoch) + 1 && idleEpoch in armed
        && (idle > 0 ==> armed[idleEpoch] == now + idle)
      ensures closed ==> View() == old(View())
    {
      if closed { return; }
      lastActivity := now;
      if idleTimer.None? { ScheduleAfter(now, idle); }
    }

    /** Reclaims the memory unless something happened lately or is happening now. */
    method ReclaimIdle(e: nat, now: int, quiet: bool, ghost m: Mgr) returns (reclaim: bool)
      requires quiet == Quiet(m)
      modifies this
      ensures (View(), reclaim) == Callback(old(View()), e, now, m)
    {
      fired := fired - {e};
      if closed || e != idleEpoch { return false; }
      idleTimer := None;
      var remaining := idle - (now - lastActivity);
      if remaining > 0 {
        ScheduleAfter(now, remaining);
        return false;
      }
      if !quiet {
        ScheduleAfter(now, SECOND);
        return false;
      }
      reclaim := true;
    }

    method CancelIdle()
      modifies this
      ensures View() == CloseIdle(old(View()))
      ensures closed && fired == old(fired) && forall e :: e in armed <==> e in old(armed) && !(!old(closed) && old(idleTimer) == Some(e))
      ensures !old(closed) ==> idleEpoch == old(idleEpoch) + 1 && idleTimer == None
    {
      if closed { return; }
      closed := true;
      idleEpoch := idleEpoch + 1;
      if idleTimer.Some? {
        armed := armed - {idleTimer.value};
        idleTimer := None;
      }
    }
  }

  // ---------- runs ----------

  datatype Step = Activity | FireStep(e: nat) | CallbackStep(e: nat, m: Mgr) | CloseStep

  /** A step and when it happens. */
  datatype Event = Event(now: int, step: Step)

  predicate Enabled(s: Idle, event: Event)
  {
    match event.step
    case FireStep(e) => e in s.armed && s.armed[e] <= event.now
    case CallbackStep(e, m) => e in s.fired
    case _ => true
  }

  function Apply(s: Idle, event: Event): Idle
  {
    match event.step
    case Activity => MarkActivity(s, event.now)
    case FireStep(e) => s.(armed := s.armed - {e}, fired := s.fired + {e})
    case CallbackStep(e, m) => Callback(s, e, event.now, m).0
    case CloseStep => CloseIdle(s)
  }

  /** The step gives the memory back. */
  predicate Reclaims(s: Idle, event: Event)
  {
    event.step.CallbackStep? && Callback(s, event.step.e, event.now, event.step.m).1
  }

  /** Runs go by a clock that does not run backwards. */
  ghost predicate IsRun(run: seq<Idle>, events: seq<Event>)
  {
    && |run| == |events| + 1
    && run[0] == Idle(run[0].idle, false, 0, None, run[0].lastActivity, map[], {}) && run[0].idle > 0
    && (forall i :: 0 <= i < |events| ==> StepAt(run, events, i))
    && (forall i, j :: 0 <= i < j < |events| ==> events[i].now <= events[j].now)
  }

  ghost predicate StepAt(run: seq<Idle>, events: seq<Event>, i: int)
    requires |run| == |events| + 1 && 0 <= i < |events|
  {
    Enabled(run[i], events[i]) && run[i + 1] == Apply(run[i], events[i])
  }

  /** A timer of this epoch may still act. */
  predicate Pending(s: Idle, e: nat) { e in s.armed || e in s.fired }

  ghost predicate Inv(s: Idle)
  {
    && (forall e: nat :: Pending(s, e) ==> e <= s.epoch)
    && (forall e: nat :: !(e in s.armed && e in s.fired))
    && (s.closed ==> s.timer.None? && !Pending(s, s.epoch))
    && (!s.closed ==> forall e: nat :: Pending(s, e) ==> s.timer == Some(e))
    && (!s.closed && s.timer.Some? ==> s.timer == Some(s.epoch) && Pending(s, s.epoch))
  }

  lemma StepKeeps(s: Idle, event: Event)
    requires Inv(s) && Enabled(s, event)
    ensures Inv(Apply(s, event))
  {
    match event.step
    case Activity => ActivityKeeps(s, event.now);
    case FireStep(e) => FireKeeps(s, e, event.now);
    case CallbackStep(e, m) => CallbackKeeps(s, e, event.now, m);
    case CloseStep => CloseKeeps(s);
  }

  lemma StartKeeps(s: Idle, now: int, delay: int)
    requires Inv(s) && s.timer.None?
    ensures Inv(StartTimer(s, now, delay))
  {
    var t := StartTimer(s, now, delay);
    forall e: nat | Pending(t, e) ensures Pending(s, e) || (!s.closed && e == t.epoch) {}
    if !s.closed { assert t.epoch in t.armed; }
  }

  lemma ActivityKeeps(s: Idle, now: int)
    requires Inv(s)
    ensures Inv(MarkActivity(s, now))
  {
    var t := s.(lastActivity := now);
    forall e: nat ensures Pending(t, e) <==> Pending(s, e) {}
    if !s.closed && s.timer.None? { StartKeeps(t, now, s.idle); }
  }

  lemma FireKeeps(s: Idle, e: nat, now: int)
    requires Inv(s) && e in s.armed
    ensures Inv(Apply(s, Event(now, FireStep(e))))
  {
    var t := Apply(s, Event(now, FireStep(e)));
    forall x: nat ensures Pending(t, x) <==> Pending(s, x) {}
  }

  lemma CallbackKeeps(s: Idle, e: nat, now: int, m: Mgr)
    requires Inv(s) && e in s.fired
    ensures Inv(Callback(s, e, now, m).0)
  {
    assert Pending(s, e);
    var t := s.(fired := s.fired - {e});
    forall x: nat | Pending(t, x) ensures Pending(s, x) && x != e {}
    if !s.closed {
      var u := t.(timer := None);
      forall x: nat ensures Pending(u, x) <==> Pending(t, x) {}
      StartKeeps(u, now, u.idle - (now - u.lastActivity));
      StartKeeps(u, now, SECOND);
    }
  }

  lemma CloseKeeps(s: Idle)
    requires Inv(s)
    ensures Inv(CloseIdle(s))
  {
    var t := CloseIdle(s);
    forall x: nat | Pending(t, x) ensures Pending(s, x) {}
  }

  lemma {:induction false} EveryState(run: seq<Idle>, events: seq<Event>, i: nat)
    requires IsRun(run, events) && i < |run|
    ensures Inv(run[i]) && run[i].idle == run[0].idle
  {
    if i > 0 {
      EveryState(run, events, i - 1);
      assert StepAt(run, events, i - 1);
      StepKeeps(run[i - 1], events[i - 1]);
    }
  }

  /** While the manager is open, only the timer it holds can still act, and it is the one of the current epoch;
      once it is closed, no timer carries the current epoch. */
  lemma OneTimer(run: seq<Idle>, events: seq<Event>, i: nat, e: nat)
    requires IsRun(run, events) && i < |run| && Pending(run[i], e)
    ensures !run[i].closed ==> e == run[i].epoch && run[i].timer == Some(e) && !(e in run[i].armed && e in run[i].fired)
    ensures run[i].closed ==> e < run[i].epoch
  {
    EveryState(run, events, i);
  }

  /** Once the manager is closed, nothing but the running out of old timers ever happens to it again. */
  lemma {:induction false} ClosedForGood(run: seq<Idle>, events: seq<Event>, i: nat, j: nat)
    requires IsRun(run, events) && i <= j < |run| && run[i].closed
    ensures run[j] == run[i].(armed := run[j].armed, fired := run[j].fired)
    ensures forall e :: Pending(run[j], e) ==> Pending(run[i], e)
    decreases j
  {
    if i < j {
      ClosedForGood(run, events, i, j - 1);
      assert StepAt(run, events, j - 1);
    }
  }

  /** No callback of a timer that was pending when the manager was closed ever gives memory back. */
  lemma NoReclaimAfterClose(run: seq<Idle>, events: seq<Event>, i: nat, j: nat)
    requires IsRun(run, events) && i <= j < |events| && run[i].closed
    ensures run[j].closed && !Reclaims(run[j], events[j])
    decreases j
  {
    if i < j {
      NoReclaimAfterClose(run, events, i, j - 1);
      assert StepAt(run, events, j - 1);
    }
  }

  /** The last activity is at least as recent as any that the open manager has noted. */
  lemma {:induction false} ActivityNoted(run: seq<Idle>, events: seq<Event>, i: nat, j: nat)
    requires IsRun(run, events) && i < j < |run| && events[i].step.Activity? && !run[j].closed
    ensures !run[i].closed && events[i].now <= run[j].lastActivity
    decreases j
  {
    assert StepAt(run, events, j - 1);
    if i < j - 1 {
      ActivityNoted(run, events, i, j - 1);
    }
  }

  /** Memory is given back only if every activity is at least the idle time ago, nothing is listed and nothing
      is downloading. */
  lemma ReclaimIsSafe(run: seq<Idle>, events: seq<Event>, i: nat, k: nat)
    requires IsRun(run, events) && k < i < |events| && Reclaims(run[i], events[i])
    ensures events[k].step.Activity? ==> events[i].now - events[k].now >= run[0].idle
    ensures Quiet(events[i].step.m) && !run[i].closed
  {
    EveryState(run, events, i);
    if events[k].step.Activity? { ActivityNoted(run, events, k, i); }
  }

  /** And it is given back then: a callback of the held timer, at least the idle time after the last activity, in an open
      and quiet manager, gives it back. */
  lemma ReclaimHappens(run: seq<Idle>, events: seq<Event>, i: nat)
    requires IsRun(run, events) && i < |events| && events[i].step.CallbackStep? && !run[i].closed
    requires Quiet(events[i].step.m) && events[i].now - run[i].lastActivity >= run[0].idle
    ensures Reclaims(run[i], events[i])
  {
    EveryState(run, events, i);
    assert StepAt(run, events, i);
    assert Pending(run[i], events[i].step.e);
  }

  /** Reclaim is never forgotten: after an activity, until memory is given back or the manager is closed, a
      timer is pending. */
  lemma {:induction false} ReclaimWillBeTried(run: seq<Idle>, events: seq<Event>, k: nat, i: nat)
    requires IsRun(run, events) && k < i < |run| && events[k].step.Activity? && !run[i].closed
    requires forall j :: k < j < i ==> !Reclaims(run[j], events[j])
    ensures run[i].timer == Some(run[i].epoch) && Pending(run[i], run[i].epoch)
    decreases i
  {
    EveryState(run, events, i);
    assert StepAt(run, events, i - 1);
    if k < i - 1 {
      assert !Reclaims(run[i - 1], events[i - 1]);
      ReclaimWillBeTried(run, events, k, i - 1);
    }
  }
}
