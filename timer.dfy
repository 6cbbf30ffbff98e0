/**
 * The interval timer's tick handler.  Each tick counts down to the next
 * pre-emptive context switch, and tracks how long the runtime has been idle to
 * decide when to request an idle GC (or, without idle GC, when to stop the
 * timer).  The calls it makes into the scheduler are recorded as events.
 */
module Timer {

  /** recent_activity. */
  datatype Activity = Yes | MaybeNo | Inactive | DoneGc

  /** The calls handle_tick makes out of this file. */
  datatype Event = ContextSwitchAll | WakeUpRts | StopTimerCalled

  /** The RTS flags handle_tick reads.  Times are in nanoseconds. */
  datatype Flags = Flags(
    ctxtSwitchTicks: int,
    idleGCDelayTime: int,
    interIdleGCWait: int,
    tickInterval: int,
    doIdleGC: bool,
    doHeapProfile: bool,
    doCostCentres: bool)

  /** THREADED_RTS and PROFILING. */
  datatype Build = Build(threaded: bool, profiling: bool)

  /** C's integer division, which truncates toward zero. */
  function CDiv(a: int, b: int): int
    requires b > 0
  {
    if a >= 0 then a / b else -((-a) / b)
  }

  // ---------------------------------------------------------------------------
  // One tick
  // ---------------------------------------------------------------------------

  /** The context-switch countdown after a tick, and whether the tick asked
      every capability to switch. */
  datatype CtxtStep = CtxtStep(ticks: int, fired: bool)

  /** The first half of handle_tick: count down ticks_to_ctxt_switch. */
  function CtxtSwitchTick(ticks: int, ctxtSwitchTicks: int, timerDisabled: nat): (r: CtxtStep)
    ensures ctxtSwitchTicks <= 0 || timerDisabled != 0 ==> r == CtxtStep(ticks, false)
    ensures ctxtSwitchTicks > 0 && timerDisabled == 0 ==> (r.fired <==> ticks <= 1)
    ensures ctxtSwitchTicks > 0 && timerDisabled == 0 && !r.fired ==> r.ticks == ticks - 1
    ensures r.fired ==> r.ticks == ctxtSwitchTicks
    ensures ctxtSwitchTicks > 0 && timerDisabled == 0 && ticks <= ctxtSwitchTicks ==>
              1 <= r.ticks <= ctxtSwitchTicks
  {
    if ctxtSwitchTicks > 0 && timerDisabled == 0 then
      if ticks - 1 <= 0 then CtxtStep(ctxtSwitchTicks, true) else CtxtStep(ticks - 1, false)
    else
      CtxtStep(ticks, false)
  }

  /** recent_activity with the two idle countdowns. */
  datatype IdleState = IdleState(activity: Activity, idleTicksToGc: int, interGcTicksToGc: int)

  /** The idle state after a tick and the calls the tick made. */
  datatype IdleStep = IdleStep(state: IdleState, events: seq<Event>)

  /** A countdown's step in ACTIVITY_MAYBE_NO: decremented unless zero. */
  function CountDown(c: int): int
  {
    if c != 0 then c - 1 else c
  }

  /** Both countdowns at zero: the moment to act on idleness. */
  predicate Expired(s: IdleState)
  {
    s.idleTicksToGc == 0 && s.interGcTicksToGc == 0
  }

  /** The second half of handle_tick: the idle-GC state machine. */
  function IdleTick(s: IdleState, f: Flags, b: Build): (r: IdleStep)
    requires f.tickInterval > 0
    ensures s.activity == Yes ==>
              r == IdleStep(IdleState(MaybeNo, CDiv(f.idleGCDelayTime, f.tickInterval), s.interGcTicksToGc), [])
    ensures s.activity == MaybeNo && !Expired(s) ==>
              r.events == [] && r.state.activity == MaybeNo &&
              (s.idleTicksToGc != 0 ==> r.state.idleTicksToGc == s.idleTicksToGc - 1) &&
              (s.idleTicksToGc == 0 ==> r.state.idleTicksToGc == 0) &&
              (s.interGcTicksToGc != 0 ==> r.state.interGcTicksToGc == s.interGcTicksToGc - 1) &&
              (s.interGcTicksToGc == 0 ==> r.state.interGcTicksToGc == 0)
    ensures s.activity == MaybeNo && Expired(s) && f.doIdleGC ==>
              r.state == IdleState(Inactive, 0, CDiv(f.interIdleGCWait, f.tickInterval)) &&
              r.events == (if b.threaded then [WakeUpRts] else [])
    ensures s.activity == MaybeNo && Expired(s) && !f.doIdleGC ==>
              r.state == IdleState(DoneGc, 0, 0) &&
              r.events == (if b.profiling && (f.doHeapProfile || f.doCostCentres) then [] else [StopTimerCalled])
    ensures s.activity == Inactive || s.activity == DoneGc ==> r == IdleStep(s, [])
    ensures r.events != [] ==> s.activity == MaybeNo && Expired(s) && |r.events| == 1
  {
    match s.activity
    case Yes =>
      IdleStep(IdleState(MaybeNo, CDiv(f.idleGCDelayTime, f.tickInterval), s.interGcTicksToGc), [])
    case MaybeNo =>
      if Expired(s) then
        if f.doIdleGC then
          IdleStep(IdleState(Inactive, s.idleTicksToGc, CDiv(f.interIdleGCWait, f.tickInterval)),
                   if b.threaded then [WakeUpRts] else [])
        else
          IdleStep(IdleState(DoneGc, s.idleTicksToGc, s.interGcTicksToGc),
                   if b.profiling && (f.doHeapProfile || f.doCostCentres) then [] else [StopTimerCalled])
      else
        IdleStep(IdleState(MaybeNo, CountDown(s.idleTicksToGc), CountDown(s.interGcTicksToGc)), [])
    case Inactive => IdleStep(s, [])
    case DoneGc => IdleStep(s, [])
  }

  /** True when the flags make every countdown start non-negative. */
  predicate NonNegativeFlags(f: Flags)
  {
    f.tickInterval > 0 && f.idleGCDelayTime >= 0 && f.interIdleGCWait >= 0
  }

  /** A tick never drives an idle countdown below zero. */
  lemma IdleCountdownsStayNonNegative(s: IdleState, f: Flags, b: Build)
    requires NonNegativeFlags(f)
    requires s.idleTicksToGc >= 0 && s.interGcTicksToGc >= 0
    ensures IdleTick(s, f, b).state.idleTicksToGc >= 0
    ensures IdleTick(s, f, b).state.interGcTicksToGc >= 0
  {
  }

  // ---------------------------------------------------------------------------
  // The handler's static state
  // ---------------------------------------------------------------------------

  /** The statics of the timer: timer_disabled, the three countdowns and
      recent_activity, plus the calls made out of the file so far. */
  class Timer {
    var timerDisabled: nat
    var ticksToCtxtSwitch: int
    var idleTicksToGc: int
    var interGcTicksToGc: int
    var recentActivity: Activity
    var events: seq<Event>

    /** The statics start at zero; recent_activity is owned by the scheduler. */
    constructor (activity: Activity)
      ensures timerDisabled == 0 && ticksToCtxtSwitch == 0
      ensures idleTicksToGc == 0 && interGcTicksToGc == 0
      ensures recentActivity == activity && events == []
    {
      timerDisabled := 0;
      ticksToCtxtSwitch := 0;
      idleTicksToGc := 0;
      interGcTicksToGc := 0;
      recentActivity := activity;
      events := [];
    }

    function Idle(): IdleState
      reads this
    {
      IdleState(recentActivity, idleTicksToGc, interGcTicksToGc)
    }

    /** handle_tick. */
    method HandleTick(f: Flags, b: Build)
      requires f.tickInterval > 0
      modifies this
      ensures timerDisabled == old(timerDisabled)
      ensures var c := CtxtSwitchTick(old(ticksToCtxtSwitch), f.ctxtSwitchTicks, old(timerDisabled));
              ticksToCtxtSwitch == c.ticks &&
              Idle() == IdleTick(old(Idle()), f, b).state &&
              events == old(events) + (if c.fired then [ContextSwitchAll] else []) + IdleTick(old(Idle()), f, b).events
    {
      ghost var idle0 := Idle();
      ghost var events0 := events;
      if f.ctxtSwitchTicks > 0 && timerDisabled == 0 {
        ticksToCtxtSwitch := ticksToCtxtSwitch - 1;
        if ticksToCtxtSwitch <= 0 {
          ticksToCtxtSwitch := f.ctxtSwitchTicks;
          events := events + [ContextSwitchAll];   // contextSwitchAllCapabilities()
        }
      }
      ghost var events1 := events;
      match recentActivity {
      case Yes =>
        recentActivity := MaybeNo;
        idleTicksToGc := CDiv(f.idleGCDelayTime, f.tickInterval);
      case MaybeNo =>
        if idleTicksToGc == 0 && interGcTicksToGc == 0 {
          if f.doIdleGC {
            recentActivity := Inactive;
            interGcTicksToGc := CDiv(f.interIdleGCWait, f.tickInterval);
            if b.threaded {
              events := events + [WakeUpRts];      // wakeUpRts()
            }
          } else {
            recentActivity := DoneGc;
            if !(b.profiling && (f.doHeapProfile || f.doCostCentres)) {
              events := events + [StopTimerCalled];
              StopTimer();
            }
          }
        } else {
          if idleTicksToGc != 0 {
            idleTicksToGc := idleTicksToGc - 1;
          }
          if interGcTicksToGc != 0 {
            interGcTicksToGc := interGcTicksToGc - 1;
          }
        }
      case Inactive =>
      case DoneGc =>
      }
      assert events == events1 + IdleTick(idle0, f, b).events;
    }

    /** initTimer: empty in this file. */
    method InitTimer()
      ensures unchanged(this)
    {
    }

    /** startTimer: empty in this file. */
    method StartTimer()
      ensures unchanged(this)
    {
    }

    /** stopTimer: empty in this file. */
    method StopTimer()
      ensures unchanged(this)
    {
    }

    /** exitTimer: empty in this file. */
    method ExitTimer(wait: bool)
      ensures unchanged(this)
    {
    }
  }

  // ---------------------------------------------------------------------------
  // Many ticks
  // ---------------------------------------------------------------------------

  /** `n` ticks of the context-switch countdown with the timer enabled: the
      final countdown and the number of context-switch requests made. */
  function RunCtxt(ticks: int, ctxtSwitchTicks: int, n: nat): (int, nat)
    decreases n
  {
    if n == 0 then (ticks, 0)
    else
      var c := CtxtSwitchTick(ticks, ctxtSwitchTicks, 0);
      var rest := RunCtxt(c.ticks, ctxtSwitchTicks, n - 1);
      (rest.0, rest.1 + if c.fired then 1 else 0)
  }

  /** Running a + b ticks is running a ticks, then b more. */
  lemma {:induction false} RunCtxtSplit(ticks: int, cst: int, a: nat, b: nat)
    ensures RunCtxt(ticks, cst, a + b) ==
            var first := RunCtxt(ticks, cst, a);
            var second := RunCtxt(first.0, cst, b);
            (second.0, first.1 + second.1)
    decreases a
  {
    if a > 0 {
      var c := CtxtSwitchTick(ticks, cst, 0);
      RunCtxtSplit(c.ticks, cst, a - 1, b);
      assert a + b - 1 == (a - 1) + b;
    }
  }

  /** From a countdown k in [1, ctxtSwitchTicks], the next k - 1 ticks make no
      request and the k-th makes one and reloads the countdown. */
  lemma {:induction false} CountdownToSwitch(k: int, cst: int, j: nat)
    requires 1 <= k <= cst
    requires j <= k
    ensures j < k ==> RunCtxt(k, cst, j) == (k - j, 0)
    ensures j == k ==> RunCtxt(k, cst, j) == (cst, 1)
    decreases j
  {
    if j > 0 {
      var c := CtxtSwitchTick(k, cst, 0);
      if k == 1 {
        assert c == CtxtStep(cst, true);
        assert RunCtxt(cst, cst, 0) == (cst, 0);
      } else {
        assert c == CtxtStep(k - 1, false);
        CountdownToSwitch(k - 1, cst, j - 1);
      }
    }
  }

  /** Starting from ticks_to_ctxt_switch == 0 (its initial value) with the timer
      enabled, after 1 + m * ctxtSwitchTicks + j ticks (j < ctxtSwitchTicks)
      exactly m + 1 context-switch requests have been made: one on the first
      tick, then one every ctxtSwitchTicks ticks. */
  lemma {:induction false} ContextSwitchSchedule(cst: int, m: nat, j: nat)
    requires cst > 0 && j < cst
    ensures RunCtxt(0, cst, 1 + m * cst + j) == (cst - j, m + 1)
    decreases m
  {
    if m == 0 {
      RunCtxtSplit(0, cst, 1, j);
      assert RunCtxt(cst, cst, 0) == (cst, 0);
      assert RunCtxt(0, cst, 1) == (cst, 1);
      CountdownToSwitch(cst, cst, j);
      if j == 0 {
        assert RunCtxt(cst, cst, j) == (cst, 0);
      }
    } else {
      assert 1 + m * cst + j == (1 + (m - 1) * cst + j) + cst;
      RunCtxtSplit(0, cst, 1 + (m - 1) * cst + j, cst);
      ContextSwitchSchedule(cst, m - 1, j);
      if j == 0 {
        CountdownToSwitch(cst, cst, cst);
      } else {
        // cst - j ticks reach the next request, j more bring the countdown to cst - j
        RunCtxtSplit(cst - j, cst, cst - j, j);
        CountdownToSwitch(cst - j, cst, cst - j);
        CountdownToSwitch(cst, cst, j);
      }
    }
  }

  /** `n` ticks of the idle-GC state machine with no activity reported in
      between: the final state, the calls made, and how many ticks acted on
      idleness (left ACTIVITY_MAYBE_NO). */
  datatype IdleRun = IdleRun(state: IdleState, events: seq<Event>, triggers: nat)

  function RunIdle(s: IdleState, f: Flags, b: Build, n: nat): IdleRun
    requires f.tickInterval > 0
    decreases n
  {
    if n == 0 then IdleRun(s, [], 0)
    else
      var t := IdleTick(s, f, b);
      var rest := RunIdle(t.state, f, b, n - 1);
      var trig := if s.activity == MaybeNo && t.state.activity != MaybeNo then 1 else 0;
      IdleRun(rest.state, t.events + rest.events, trig + rest.triggers)
  }

  /** Running a + b ticks is running a ticks, then b more. */
  lemma {:induction false} RunIdleSplit(s: IdleState, f: Flags, b: Build, x: nat, y: nat)
    requires f.tickInterval > 0
    ensures RunIdle(s, f, b, x + y) ==
            var first := RunIdle(s, f, b, x);
            var second := RunIdle(first.state, f, b, y);
            IdleRun(second.state, first.events + second.events, first.triggers + second.triggers)
    decreases x
  {
    if x > 0 {
      var t := IdleTick(s, f, b);
      RunIdleSplit(t.state, f, b, x - 1, y);
      assert x + y - 1 == (x - 1) + y;
      assert t.events + (RunIdle(t.state, f, b, x - 1).events + RunIdle(RunIdle(t.state, f, b, x - 1).state, f, b, y).events)
          == (t.events + RunIdle(t.state, f, b, x - 1).events) + RunIdle(RunIdle(t.state, f, b, x - 1).state, f, b, y).events;
    }
  }

  function Max(a: int, b: int): int
  {
    if a >= b then a else b
  }

  /** In ACTIVITY_MAYBE_NO with countdowns a, c >= 0, the first max(a, c)
      ticks only count down (to zero at the least) and make no calls. */
  lemma {:induction false} QuietCountdown(a: int, c: int, f: Flags, b: Build, j: nat)
    requires f.tickInterval > 0
    requires a >= 0 && c >= 0 && j <= Max(a, c)
    ensures RunIdle(IdleState(MaybeNo, a, c), f, b, j) ==
            IdleRun(IdleState(MaybeNo, Max(a - j, 0), Max(c - j, 0)), [], 0)
    decreases j
  {
    if j > 0 {
      var s := IdleState(MaybeNo, a, c);
      assert !Expired(s);
      var t := IdleTick(s, f, b);
      assert t == IdleStep(IdleState(MaybeNo, Max(a - 1, 0), Max(c - 1, 0)), []);
      QuietCountdown(Max(a - 1, 0), Max(c - 1, 0), f, b, j - 1);
    }
  }

  /** INACTIVE and DONE_GC are left only by activity: ticks change nothing. */
  lemma {:induction false} SettledStaysSettled(s: IdleState, f: Flags, b: Build, n: nat)
    requires f.tickInterval > 0
    requires s.activity == Inactive || s.activity == DoneGc
    ensures RunIdle(s, f, b, n) == IdleRun(s, [], 0)
    decreases n
  {
    if n > 0 {
      SettledStaysSettled(s, f, b, n - 1);
    }
  }

  /** The number of ticks, from ACTIVITY_YES with inter-GC countdown `inter`,
      until the timer acts on idleness. */
  function IdleDeadline(f: Flags, inter: int): (n: nat)
    requires NonNegativeFlags(f) && inter >= 0
    ensures n >= 2
  {
    Max(CDiv(f.idleGCDelayTime, f.tickInterval), inter) + 2
  }

  /**
   * With no activity after the last ACTIVITY_YES, the timer acts on idleness
   * exactly once: no trigger before IdleDeadline ticks, exactly one from then
   * on, however many ticks follow.  The trigger is the single wakeUpRts
   * (threaded idle GC) or stopTimer call, or neither when the build or the
   * profiling flags call for none.
   */
  lemma {:induction false} IdleGcFiresOnce(f: Flags, b: Build, idle: int, inter: int, n: nat)
    requires NonNegativeFlags(f) && inter >= 0
    ensures var r := RunIdle(IdleState(Yes, idle, inter), f, b, n);
            (n < IdleDeadline(f, inter) ==> r.triggers == 0 && r.events == []) &&
            (n >= IdleDeadline(f, inter) ==>
               r.triggers == 1 && |r.events| <= 1 && r.state.activity != MaybeNo)
  {
    var s := IdleState(Yes, idle, inter);
    var d := CDiv(f.idleGCDelayTime, f.tickInterval);
    var m := Max(d, inter);
    var s1 := IdleState(MaybeNo, d, inter);
    assert IdleTick(s, f, b).state == s1;
    if n == 0 {
    } else if n < m + 2 {
      RunIdleSplit(s, f, b, 1, n - 1);
      assert RunIdle(s1, f, b, 0) == IdleRun(s1, [], 0);
      QuietCountdown(d, inter, f, b, n - 1);
    } else {
      RunIdleSplit(s, f, b, 1, m);
      assert RunIdle(s1, f, b, 0) == IdleRun(s1, [], 0);
      QuietCountdown(d, inter, f, b, m);
      var sz := IdleState(MaybeNo, 0, 0);
      assert RunIdle(s, f, b, 1 + m) == IdleRun(sz, [], 0);
      RunIdleSplit(s, f, b, 1 + m, n - 1 - m);
      RunIdleSplit(sz, f, b, 1, n - 2 - m);
      var t := IdleTick(sz, f, b);
      assert t.state.activity == Inactive || t.state.activity == DoneGc;
      assert RunIdle(t.state, f, b, 0) == IdleRun(t.state, [], 0);
      SettledStaysSettled(t.state, f, b, n - 2 - m);
    }
  }
}
