/** The timers that find out idle clients, as a machine over timed steps. */
module Timers {
  import opened Strings

  /** Points in time and durations, in nanoseconds. */
  type Time = nat

  const IDLE_TIMEOUT: Time := 60_000_000_000
  const QUIT_TIMEOUT: Time := 60_000_000_000

  // --------------------------------------------------------------------- the steps

  /** The armed deadlines, and the idle notices the server has not handled yet. */
  datatype State = State(idleAt: Option<Time>, quitAt: Option<Time>, notices: nat, hasQuit: bool)

  const INITIAL := State(None, None, 0, false)

  datatype Action = Touch | IdleFires | HandleIdle | QuitFires | QuitOtherwise

  /** A timer fires at its deadline or later. */
  predicate Enabled(s: State, now: Time, action: Action) {
    match action
    case Touch => true
    case IdleFires => s.idleAt.Some? && s.idleAt.value <= now
    case HandleIdle => s.notices > 0
    case QuitFires => s.quitAt.Some? && s.quitAt.value <= now
    case QuitOtherwise => true
  }

  function Next(s: State, now: Time, action: Action): State
    requires Enabled(s, now, action)
  {
    match action
    case Touch => s.(quitAt := None, idleAt := Some(now + IDLE_TIMEOUT))
    case IdleFires => s.(idleAt := None, notices := s.notices + 1)
    case HandleIdle => s.(quitAt := Some(now + QUIT_TIMEOUT), notices := s.notices - 1)
    case QuitFires => Destroyed(s.(quitAt := None))
    case QuitOtherwise => Destroyed(s)
  }

  /** Quitting stops both timers, the first time. */
  function Destroyed(s: State): State {
    if s.hasQuit then s else s.(idleAt := None, quitAt := None, hasQuit := true)
  }

  datatype Timed = Timed(time: Time, action: Action)

  /** A run of one client, which is touched when it connects. */
  ghost predicate IsRun(states: seq<State>, steps: seq<Timed>) {
    && |states| == |steps| + 1 && states[0] == INITIAL
    && (steps != [] ==> steps[0].action == Touch)
    && (forall i :: 0 <= i < |steps| - 1 ==> steps[i].time <= steps[i + 1].time)
    && (forall i :: 0 <= i < |steps| ==>
          Enabled(states[i], steps[i].time, steps[i].action)
          && states[i + 1] == Next(states[i], steps[i].time, steps[i].action))
  }

  // --------------------------------------------------------------- the code's own form

  class Timer {
    var deadline: Option<Time>

    constructor (at: Time)
      ensures deadline == Some(at)
    {
      deadline := Some(at);
    }

    method Stop()
      modifies this
      ensures deadline == None
    {
      deadline := None;
    }

    method Reset(at: Time)
      modifies this
      ensures deadline == Some(at)
    {
      deadline := Some(at);
    }
  }

  class ClientTimers {
    var idleTimer: Timer?
    var quitTimer: Timer?
    var hasQuit: bool
    ghost var notices: nat

    predicate Valid()
      reads this
    {
      idleTimer != null ==> idleTimer != quitTimer
    }

    ghost function Abs(): State
      reads this, idleTimer, quitTimer
    {
      State(if idleTimer == null then None else idleTimer.deadline,
            if quitTimer == null then None else quitTimer.deadline, notices, hasQuit)
    }

    method Touch(now: Time)
      requires Valid()
      modifies this, idleTimer, quitTimer
      ensures Valid() && Abs() == Next(old(Abs()), now, Action.Touch)
    {
      if quitTimer != null {
        quitTimer.Stop();
      }
      if idleTimer == null {
        idleTimer := new Timer(now + IDLE_TIMEOUT);
      } else {
        idleTimer.Reset(now + IDLE_TIMEOUT);
      }
    }

    method Idle(now: Time)
      requires Valid() && Enabled(Abs(), now, HandleIdle)
      modifies this, quitTimer
      ensures Valid() && Abs() == Next(old(Abs()), now, HandleIdle)
    {
      notices := notices - 1;
      if quitTimer == null {
        quitTimer := new Timer(now + QUIT_TIMEOUT);
      } else {
        quitTimer.Reset(now + QUIT_TIMEOUT);
      }
    }

    /** The timers' part of quitting. */
    method Destroy()
      requires Valid()
      modifies this, idleTimer, quitTimer
      ensures Valid() && Abs() == Destroyed(old(Abs()))
    {
      if hasQuit {
        return;
      }
      hasQuit := true;
      if idleTimer != null {
        idleTimer.Stop();
      }
      if quitTimer != null {
        quitTimer.Stop();
      }
    }
  }

  // ------------------------------------------------------------------ facts about runs

  ghost predicate NoTouch(steps: seq<Timed>, from: nat, to: nat)
    requires to <= |steps|
  {
    forall j :: from <= j < to ==> steps[j].action != Touch
  }

  /** Every touch so far was at least that long ago. */
  ghost predicate Silent(steps: seq<Timed>, i: nat, length: Time, now: Time)
    requires i <= |steps|
  {
    forall j :: 0 <= j < i && steps[j].action == Touch ==> steps[j].time + length <= now
  }

  lemma {:induction false} TimesAscend(states: seq<State>, steps: seq<Timed>, i: nat, j: nat)
    requires IsRun(states, steps) && i <= j < |steps|
    ensures steps[i].time <= steps[j].time
    decreases j - i
  {
    if i < j {
      TimesAscend(states, steps, i, j - 1);
      assert steps[j - 1].time <= steps[j - 1 + 1].time;
    }
  }

  lemma {:induction false} OnceQuit(states: seq<State>, steps: seq<Timed>, i: nat, j: nat)
    requires IsRun(states, steps) && i <= j <= |steps| && states[i].hasQuit
    ensures states[j].hasQuit
    decreases j - i
  {
    if i < j {
      OnceQuit(states, steps, i, j - 1);
    }
  }

  /** An armed quit timer was armed by handling an idle notice, with no touch since. */
  lemma {:induction false} ArmedByPing(states: seq<State>, steps: seq<Timed>, n: nat) returns (k: nat)
    requires IsRun(states, steps) && n <= |steps| && states[n].quitAt.Some?
    ensures k < n && steps[k].action == HandleIdle && steps[k].time + QUIT_TIMEOUT == states[n].quitAt.value
    ensures NoTouch(steps, k, n)
  {
    assert states[n] == Next(states[n - 1], steps[n - 1].time, steps[n - 1].action);
    if steps[n - 1].action == HandleIdle {
      k := n - 1;
    } else {
      k := ArmedByPing(states, steps, n - 1);
    }
  }

  /** An armed idle timer was armed by the last touch. */
  lemma {:induction false} ArmedByTouch(states: seq<State>, steps: seq<Timed>, n: nat) returns (j: nat)
    requires IsRun(states, steps) && n <= |steps| && states[n].idleAt.Some?
    ensures j < n && steps[j].action == Touch && steps[j].time + IDLE_TIMEOUT == states[n].idleAt.value
    ensures Silent(steps, n, 0, steps[j].time)
  {
    assert states[n] == Next(states[n - 1], steps[n - 1].time, steps[n - 1].action);
    if steps[n - 1].action == Touch {
      j := n - 1;
      forall i | 0 <= i < n
        ensures steps[i].time <= steps[j].time
      {
        TimesAscend(states, steps, i, j);
      }
    } else {
      j := ArmedByTouch(states, steps, n - 1);
    }
  }

  /** If the idle timer of a connected client is off, it has fired since the last touch. */
  lemma {:induction false} FiredSinceTouch(states: seq<State>, steps: seq<Timed>, n: nat)
    requires IsRun(states, steps) && 0 < n <= |steps| && states[n].idleAt.None? && !states[n].hasQuit
    ensures Silent(steps, n, IDLE_TIMEOUT, steps[n - 1].time)
  {
    assert states[n] == Next(states[n - 1], steps[n - 1].time, steps[n - 1].action);
    if steps[n - 1].action == IdleFires {
      var _ := ArmedByTouch(states, steps, n - 1);
    } else {
      FiredSinceTouch(states, steps, n - 1);
      TimesAscend(states, steps, n - 2, n - 1);
    }
  }

  /** By then, the idle timer is off or due. */
  predicate IdleDue(s: State, now: int) {
    s.idleAt.Some? ==> s.idleAt.value <= now
  }

  /** A connected client has been silent for the idle timeout exactly if its idle timer is off or due. */
  lemma IdleExactly(states: seq<State>, steps: seq<Timed>, n: nat, now: Time)
    requires IsRun(states, steps) && 0 < n <= |steps| && !states[n].hasQuit && steps[n - 1].time <= now
    ensures Silent(steps, n, IDLE_TIMEOUT, now) <==> IdleDue(states[n], now)
  {
    if states[n].idleAt.Some? {
      var _ := ArmedByTouch(states, steps, n);
    } else {
      FiredSinceTouch(states, steps, n);
    }
  }

  /** The client quits because its quit timer fired. */
  ghost predicate TimesOut(states: seq<State>, steps: seq<Timed>, i: nat)
    requires IsRun(states, steps)
  {
    i < |steps| && steps[i].action == QuitFires && !states[i].hasQuit
  }

  /**
   * A client that times out was sent a PING, when it had not quit, at least the quit timeout ago, and has not been
   * touched since; so it was not touched at all during the quit timeout.
   */
  lemma TimeoutIsSafe(states: seq<State>, steps: seq<Timed>, i: nat) returns (ping: nat)
    requires IsRun(states, steps) && TimesOut(states, steps, i)
    ensures ping < i && steps[ping].action == HandleIdle && !states[ping].hasQuit
    ensures steps[ping].time + QUIT_TIMEOUT <= steps[i].time
    ensures NoTouch(steps, ping, i)
    ensures Silent(steps, i, QUIT_TIMEOUT, steps[i].time)
  {
    ping := ArmedByPing(states, steps, i);
    if states[ping].hasQuit {
      OnceQuit(states, steps, ping, i);
      assert false;
    }
    forall j | 0 <= j < i && steps[j].action == Touch
      ensures steps[j].time + QUIT_TIMEOUT <= steps[i].time
    {
      TimesAscend(states, steps, j, ping);
    }
  }

  /**
   * A client that times out has been silent for both timeouts exactly if, when its last PING was sent, its idle
   * timer was off or due by the quit timeout before now. If the quit timer fires on time, that is the time of the
   * PING itself, so whoever handles an idle notice can tell.
   */
  lemma LongSilenceExactly(states: seq<State>, steps: seq<Timed>, i: nat) returns (ping: nat)
    requires IsRun(states, steps) && TimesOut(states, steps, i)
    ensures ping < i && steps[ping].action == HandleIdle && NoTouch(steps, ping, i)
    ensures states[i].quitAt == Some(steps[ping].time + QUIT_TIMEOUT)
    ensures Silent(steps, i, IDLE_TIMEOUT + QUIT_TIMEOUT, steps[i].time)
       <==> IdleDue(states[ping], steps[i].time - QUIT_TIMEOUT)
    ensures steps[i].time == states[i].quitAt.value ==>
              (Silent(steps, i, IDLE_TIMEOUT + QUIT_TIMEOUT, steps[i].time) <==> IdleDue(states[ping], steps[ping].time))
  {
    ping := ArmedByPing(states, steps, i);
    if states[ping].hasQuit {
      OnceQuit(states, steps, ping, i);
      assert false;
    }
    TimesAscend(states, steps, ping - 1, ping);
    IdleExactly(states, steps, ping, steps[i].time - QUIT_TIMEOUT);
    assert forall j :: 0 <= j < i && steps[j].action == Touch ==> j < ping;
  }

  /** An idle timer that was off or due when the PING was sent is always enough, however late the quit timer fires. */
  lemma IdleTimeoutIsLong(states: seq<State>, steps: seq<Timed>, i: nat)
    requires IsRun(states, steps) && TimesOut(states, steps, i)
    requires forall k :: 0 <= k < i && steps[k].action == HandleIdle ==> IdleDue(states[k], steps[k].time)
    ensures Silent(steps, i, IDLE_TIMEOUT + QUIT_TIMEOUT, steps[i].time)
  {
    var _ := LongSilenceExactly(states, steps, i);
  }

  /** Every idle notice is handled at once. */
  ghost predicate Prompt(steps: seq<Timed>) {
    forall k :: 0 < k < |steps| && steps[k].action == HandleIdle ==>
      steps[k - 1].action == IdleFires && steps[k - 1].time == steps[k].time
  }

  /** So if idle notices are handled at once, a client that times out has been silent for both timeouts. */
  lemma PromptTimeoutIsLong(states: seq<State>, steps: seq<Timed>, i: nat)
    requires IsRun(states, steps) && TimesOut(states, steps, i) && Prompt(steps)
    ensures Silent(steps, i, IDLE_TIMEOUT + QUIT_TIMEOUT, steps[i].time)
  {
    forall k | 0 <= k < i && steps[k].action == HandleIdle
      ensures IdleDue(states[k], steps[k].time)
    {
      assert states[k] == Next(states[k - 1], steps[k - 1].time, steps[k - 1].action);
    }
    IdleTimeoutIsLong(states, steps, i);
  }

  /** If they are not, a notice from before the last touch can cut the silence short. */
  lemma LateNotice() returns (states: seq<State>, steps: seq<Timed>)
    ensures IsRun(states, steps) && |steps| == 5 && TimesOut(states, steps, 4)
    ensures !Silent(steps, 4, IDLE_TIMEOUT + QUIT_TIMEOUT, steps[4].time)
  {
    var late := IDLE_TIMEOUT + 1;
    steps := [Timed(0, Touch), Timed(IDLE_TIMEOUT, IdleFires), Timed(late, Touch), Timed(late, HandleIdle),
              Timed(late + QUIT_TIMEOUT, QuitFires)];
    var armed := State(Some(late + IDLE_TIMEOUT), Some(late + QUIT_TIMEOUT), 0, false);
    states := [INITIAL, State(Some(IDLE_TIMEOUT), None, 0, false), State(None, None, 1, false),
               armed.(quitAt := None, notices := 1), armed, State(None, None, 0, true)];
    assert steps[2].action == Touch;
  }

  /** Nothing but time passes for the timers, except that the idle timer may fire. */
  ghost predicate Undisturbed(steps: seq<Timed>, from: nat, to: nat)
    requires to <= |steps|
  {
    forall j :: from <= j < to ==> steps[j].action == IdleFires
  }

  /** A PING is followed up: unless something happens first, the quit timer can fire when the quit timeout is over. */
  lemma {:induction false} PingIsFollowedUp(states: seq<State>, steps: seq<Timed>, k: nat, n: nat, now: Time)
    requires IsRun(states, steps) && k < n <= |steps| && steps[k].action == HandleIdle && Undisturbed(steps, k + 1, n)
    ensures Enabled(states[n], now, QuitFires) <==> steps[k].time + QUIT_TIMEOUT <= now
    ensures states[n].hasQuit == states[k].hasQuit
    decreases n
  {
    assert states[n] == Next(states[n - 1], steps[n - 1].time, steps[n - 1].action);
    if k < n - 1 {
      PingIsFollowedUp(states, steps, k, n - 1, now);
    }
  }

  /** And silence is noticed: after a touch the idle timer can fire when the idle timeout is over. */
  lemma SilenceIsNoticed(states: seq<State>, steps: seq<Timed>, k: nat, now: Time)
    requires IsRun(states, steps) && k < |steps| && steps[k].action == Touch
    ensures Enabled(states[k + 1], now, IdleFires) <==> steps[k].time + IDLE_TIMEOUT <= now
    ensures Next(states[k], steps[k].time, Touch) == states[k + 1] && states[k + 1].quitAt == None
  {
  }

  /** Quitting stops both timers. */
  lemma QuitStopsTimers(states: seq<State>, steps: seq<Timed>, i: nat)
    requires IsRun(states, steps) && i < |steps| && states[i + 1].hasQuit && !states[i].hasQuit
    ensures states[i + 1].idleAt == None && states[i + 1].quitAt == None
  {
    assert states[i + 1] == Next(states[i], steps[i].time, steps[i].action);
  }
}
