/**
 * `useBreakpoint`: the window width classified into three breakpoints, and
 * the resize throttle that decides when the classification is redone. Time
 * is an explicit `now` argument (what `Date.now()` returns), the window
 * width an explicit argument (what `window.innerWidth` holds), and the
 * browser's timer table a map from timer handle to due time.
 */
module Breakpoint {
  import opened Wrappers

  datatype Breakpoint = Mobile | Tablet | Desktop

  /** Interval between two throttled executions when none is given, in milliseconds. */
  const DEFAULT_THROTTLE_MS: int := 100

  /** Tailwind's thresholds: mobile below 640, tablet below 1024, desktop from 1024. */
  function GetBreakpointFromWidth(width: int): (bp: Breakpoint)
    ensures bp == Mobile <==> width < 640
    ensures bp == Tablet <==> 640 <= width < 1024
    ensures bp == Desktop <==> width >= 1024
  {
    if width < 640 then Mobile
    else if width < 1024 then Tablet
    else Desktop
  }

  /** The order of the breakpoints from narrow to wide. */
  function Rank(bp: Breakpoint): (r: nat)
    ensures r < 3
  {
    match bp
    case Mobile => 0
    case Tablet => 1
    case Desktop => 2
  }

  /** A wider window never gets a narrower breakpoint. */
  lemma BreakpointMonotone(w1: int, w2: int)
    requires w1 <= w2
    ensures Rank(GetBreakpointFromWidth(w1)) <= Rank(GetBreakpointFromWidth(w2))
  {
  }

  /** The thresholds at their edges. */
  lemma BreakpointBoundaries()
    ensures GetBreakpointFromWidth(639) == Mobile
    ensures GetBreakpointFromWidth(640) == Tablet
    ensures GetBreakpointFromWidth(1023) == Tablet
    ensures GetBreakpointFromWidth(1024) == Desktop
  {
  }

  /** The first breakpoint: desktop when there is no window, otherwise the window's own. */
  function InitialBreakpoint(innerWidth: Option<int>): (bp: Breakpoint)
    ensures innerWidth.None? ==> bp == Desktop
    ensures innerWidth.Some? ==> bp == GetBreakpointFromWidth(innerWidth.value)
  {
    match innerWidth
    case None => Desktop
    case Some(w) => GetBreakpointFromWidth(w)
  }

  /** Whether a call at now runs at once rather than being deferred. */
  predicate RunsNow(now: int, lastExecutedAt: int, interval: int)
  {
    now - lastExecutedAt >= interval
  }

  /** The delay of the timer a deferred call sets. */
  function TrailingDelay(now: int, lastExecutedAt: int, interval: int): (d: int)
    requires !RunsNow(now, lastExecutedAt, interval)
    ensures d > 0
    ensures now + d == lastExecutedAt + interval
  {
    interval - (now - lastExecutedAt)
  }

  /**
   * `ThrottleState` and the timers it sets. `timeoutId` is the handle of the
   * last timer set; it is not cleared when that timer fires, so it may name
   * a timer that is no longer pending. `timers` is what is still pending,
   * `nextId` the handle the next `setTimeout` returns, and `executions` the
   * times at which the callback ran.
   */
  class Throttle {
    var lastExecutedAt: int
    var timeoutId: Option<nat>
    var timers: map<nat, int>
    var nextId: nat
    var executions: seq<int>

    /** At most one timer is pending, and it is the one timeoutId names. */
    ghost predicate Valid()
      reads this
    {
      && nextId >= 1
      && (forall id :: id in timers ==> timeoutId == Some(id))
      && (timeoutId.Some? ==> 1 <= timeoutId.value < nextId)
    }

    /** `createThrottleState`. */
    constructor()
      ensures Valid()
      ensures lastExecutedAt == 0 && timeoutId.None? && timers == map[] && executions == []
      ensures nextId == 1
    {
      lastExecutedAt := 0;
      timeoutId := None;
      timers := map[];
      nextId := 1;
      executions := [];
    }

    /** `clearTimeout(id)`: forgetting a timer that already fired does nothing. */
    method ClearTimeout(id: nat)
      modifies this
      ensures timers == old(timers) - {id}
      ensures lastExecutedAt == old(lastExecutedAt) && timeoutId == old(timeoutId)
      ensures nextId == old(nextId) && executions == old(executions)
    {
      timers := timers - {id};
    }

    /**
     * `executeWithThrottle(callback, state, interval)` at time now. The
     * result says whether the callback ran during the call.
     */
    method ExecuteWithThrottle(now: int, interval: int) returns (ran: bool)
      requires Valid()
      modifies this
      ensures Valid()
      ensures ran == RunsNow(now, old(lastExecutedAt), interval)
      ensures ran ==> lastExecutedAt == now && executions == old(executions) + [now]
      ensures ran ==> timers == old(timers) && timeoutId == old(timeoutId) && nextId == old(nextId)
      ensures !ran ==> lastExecutedAt == old(lastExecutedAt) && executions == old(executions)
      ensures !ran ==> timeoutId == Some(old(nextId)) && nextId == old(nextId) + 1
      ensures !ran ==> timers == map[old(nextId) := now + TrailingDelay(now, old(lastExecutedAt), interval)]
    {
      var elapsed := now - lastExecutedAt;
      if elapsed >= interval {
        lastExecutedAt := now;
        executions := executions + [now];
        ran := true;
      } else {
        if timeoutId.Some? {
          ClearTimeout(timeoutId.value);
          assert timers == map[];
        }
        var id := nextId;
        nextId := nextId + 1;
        timers := timers[id := now + (interval - elapsed)];
        timeoutId := Some(id);
        ran := false;
      }
    }

    /** The pending timer id fires at time t: the callback runs and the time is recorded. */
    method Fire(id: nat, t: int)
      requires Valid() && id in timers
      modifies this
      ensures Valid()
      ensures lastExecutedAt == t && executions == old(executions) + [t]
      ensures timers == map[] && timeoutId == old(timeoutId) && nextId == old(nextId)
    {
      timers := timers - {id};
      lastExecutedAt := t;
      executions := executions + [t];
    }

    /** `cleanupThrottleState`: cancel the pending timer and forget its handle. */
    method Cleanup()
      requires Valid()
      modifies this
      ensures Valid()
      ensures timeoutId.None? && timers == map[]
      ensures lastExecutedAt == old(lastExecutedAt) && executions == old(executions) && nextId == old(nextId)
    {
      if timeoutId.Some? {
        ClearTimeout(timeoutId.value);
        timeoutId := None;
      }
    }
  }

  /**
   * The hook: the current breakpoint, the resize listener, and the throttle
   * state it keeps between renders.
   */
  class BreakpointHook {
    var breakpoint: Breakpoint
    var listening: bool
    const throttleMs: int
    const throttle: Throttle

    ghost predicate Valid()
      reads this, throttle
    {
      throttle.Valid()
    }

    /** Mounting: the initial breakpoint, a fresh throttle state, the listener added. */
    constructor(innerWidth: Option<int>, throttleMs: int)
      ensures Valid() && fresh(throttle)
      ensures breakpoint == InitialBreakpoint(innerWidth) && listening && this.throttleMs == throttleMs
      ensures throttle.lastExecutedAt == 0 && throttle.timers == map[] && throttle.executions == []
      ensures throttle.timeoutId.None? && throttle.nextId == 1
    {
      breakpoint := InitialBreakpoint(innerWidth);
      listening := true;
      this.throttleMs := throttleMs;
      throttle := new Throttle();
    }

    /**
     * A resize event at time now with the window width at that moment.
     * Either the breakpoint is recomputed now, or exactly one timer is
     * pending that will recompute it: the last resize of a burst is never
     * lost.
     */
    method Resize(now: int, innerWidth: int)
      requires Valid() && listening
      modifies this, throttle
      ensures Valid() && listening
      ensures RunsNow(now, old(throttle.lastExecutedAt), throttleMs) ==>
        && breakpoint == GetBreakpointFromWidth(innerWidth)
        && throttle.lastExecutedAt == now && throttle.executions == old(throttle.executions) + [now]
        && throttle.timers == old(throttle.timers) && throttle.timeoutId == old(throttle.timeoutId)
        && throttle.nextId == old(throttle.nextId)
      ensures !RunsNow(now, old(throttle.lastExecutedAt), throttleMs) ==>
        && breakpoint == old(breakpoint)
        && throttle.lastExecutedAt == old(throttle.lastExecutedAt) && throttle.executions == old(throttle.executions)
        && throttle.timeoutId == Some(old(throttle.nextId)) && throttle.nextId == old(throttle.nextId) + 1
        && throttle.timers == map[old(throttle.nextId) := old(throttle.lastExecutedAt) + throttleMs]
    {
      var ran := throttle.ExecuteWithThrottle(now, throttleMs);
      if ran {
        breakpoint := GetBreakpointFromWidth(innerWidth);
      }
    }

    /** The pending timer fires at t; the callback reads the width at that moment. */
    method FireTimer(id: nat, t: int, innerWidth: int)
      requires Valid() && id in throttle.timers
      modifies this, throttle
      ensures Valid() && listening == old(listening)
      ensures breakpoint == GetBreakpointFromWidth(innerWidth)
      ensures throttle.lastExecutedAt == t && throttle.timers == map[]
      ensures throttle.executions == old(throttle.executions) + [t]
      ensures throttle.timeoutId == old(throttle.timeoutId) && throttle.nextId == old(throttle.nextId)
    {
      throttle.Fire(id, t);
      breakpoint := GetBreakpointFromWidth(innerWidth);
    }

    /** Unmounting: the listener is removed and the pending timer cancelled. */
    method Unmount()
      requires Valid()
      modifies this, throttle
      ensures Valid() && !listening && breakpoint == old(breakpoint)
      ensures throttle.timeoutId.None? && throttle.timers == map[]
      ensures throttle.lastExecutedAt == old(throttle.lastExecutedAt)
      ensures throttle.executions == old(throttle.executions) && throttle.nextId == old(throttle.nextId)
    {
      listening := false;
      throttle.Cleanup();
    }
  }
}
