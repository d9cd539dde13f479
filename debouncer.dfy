/**
 * The trailing-edge debouncer of the sync calls (debouncer.go), on a discrete clock. Every
 * trigger cancels the pending call and schedules one `interval` after itself; when the clock
 * reaches the deadline the function runs once and its result, nil or error, is sent on a result
 * channel buffered to 10. A send to a full channel waits, in order, until the consumer
 * receives. The function's result is a parameter of the step that reaches the deadline.
 */
module Debouncer {
  import opened Wrappers

  /** The capacity of the result channel. */
  const ChanBuffer: nat := 10

  /** What one call of the debounced function returned. */
  datatype CallResult = Nil | Err(message: string)

  /**
   * The debouncer at one instant: the clock, the deadline of the pending call if a timer is
   * armed, the results in the channel buffer, the results whose sends wait for room, and how
   * many times the function has run.
   */
  datatype DebounceState = DebounceState(
    clock: nat,
    deadline: Option<nat>,
    buffer: seq<CallResult>,
    blocked: seq<CallResult>,
    calls: nat)

  function Initial(): DebounceState {
    DebounceState(0, None, [], [], 0)
  }

  /** Results produced and not yet received, oldest first. */
  function Outstanding(s: DebounceState): seq<CallResult> {
    s.buffer + s.blocked
  }

  /**
   * The channel holds at most 10 results, a send waits only while it is full, and an armed
   * timer's deadline has not passed.
   */
  ghost predicate Inv(s: DebounceState) {
    && |s.buffer| <= ChanBuffer
    && (s.blocked != [] ==> |s.buffer| == ChanBuffer)
    && (s.deadline.Some? ==> s.clock <= s.deadline.value)
  }

  /** The debounced closure: stop the armed timer, if any, and arm a new one `interval` from now. */
  function TriggerStep(s: DebounceState, interval: nat): DebounceState {
    s.(deadline := Some(s.clock + interval))
  }

  /** The timer callback's send of `r`: into the buffer when there is room, else behind the waiting sends. */
  function Send(s: DebounceState, r: CallResult): (t: DebounceState)
    ensures Inv(s) ==> Outstanding(t) == Outstanding(s) + [r]
    ensures t.clock == s.clock && t.deadline == s.deadline && t.calls == s.calls
  {
    if |s.buffer| < ChanBuffer then s.(buffer := s.buffer + [r]) else s.(blocked := s.blocked + [r])
  }

  /** The clock moves on by `dt`; if it reaches the deadline the function runs once and returns `r`. */
  function AdvanceStep(s: DebounceState, dt: nat, r: CallResult): DebounceState {
    var now := s.clock + dt;
    if s.deadline.Some? && s.deadline.value <= now
    then Send(s.(clock := now, deadline := None, calls := s.calls + 1), r)
    else s.(clock := now)
  }

  /** The consumer takes the oldest buffered result, and the oldest waiting send moves into the buffer. */
  function ReceiveStep(s: DebounceState): (DebounceState, Option<CallResult>) {
    if s.buffer == [] then (s, None)
    else if s.blocked == [] then (s.(buffer := s.buffer[1..]), Some(s.buffer[0]))
    else (s.(buffer := s.buffer[1..] + [s.blocked[0]], blocked := s.blocked[1..]), Some(s.buffer[0]))
  }

  /** What can happen next: a trigger, time passing, or the consumer receiving. */
  datatype Event = Trigger | Advance(dt: nat, result: CallResult) | Receive

  function Step(s: DebounceState, interval: nat, e: Event): DebounceState {
    match e
    case Trigger => TriggerStep(s, interval)
    case Advance(dt, r) => AdvanceStep(s, dt, r)
    case Receive => ReceiveStep(s).0
  }

  function Run(s: DebounceState, interval: nat, events: seq<Event>): DebounceState
    decreases |events|
  {
    if events == [] then s else Run(Step(s, interval, events[0]), interval, events[1..])
  }

  /** The time the events let pass. */
  function Elapsed(events: seq<Event>): nat
    decreases |events|
  {
    if events == [] then 0
    else (if events[0].Advance? then events[0].dt else 0) + Elapsed(events[1..])
  }

  ghost predicate NoTriggers(events: seq<Event>) {
    forall k :: 0 <= k < |events| ==> !events[k].Trigger?
  }

  // Invariants and the result channel

  /** Every step keeps the channel within its capacity and the deadline ahead of the clock. */
  lemma StepKeepsInv(s: DebounceState, interval: nat, e: Event)
    requires Inv(s)
    ensures Inv(Step(s, interval, e))
  {
  }

  lemma {:induction false} RunKeepsInv(s: DebounceState, interval: nat, events: seq<Event>)
    requires Inv(s)
    ensures Inv(Run(s, interval, events))
    decreases |events|
  {
    if events != [] {
      StepKeepsInv(s, interval, events[0]);
      RunKeepsInv(Step(s, interval, events[0]), interval, events[1..]);
    }
  }

  /**
   * Results leave in the order the calls produced them, unchanged: a call appends its result to
   * the outstanding ones, a trigger leaves them alone, and a receive takes the oldest, or nothing
   * when none is outstanding.
   */
  lemma StepOutstanding(s: DebounceState, interval: nat, e: Event)
    requires Inv(s)
    ensures e.Trigger? ==> Outstanding(Step(s, interval, e)) == Outstanding(s)
    ensures e.Advance? ==>
              Outstanding(Step(s, interval, e))
              == Outstanding(s) + (if Step(s, interval, e).calls > s.calls then [e.result] else [])
    ensures e.Receive? ==>
              var (t, r) := ReceiveStep(s);
              && (r.None? <==> Outstanding(s) == [])
              && (r.Some? ==> r.value == Outstanding(s)[0] && Outstanding(t) == Outstanding(s)[1..])
  {
    if e.Receive? && s.buffer != [] {
      var (t, r) := ReceiveStep(s);
      if s.blocked == [] {
        assert Outstanding(s) == s.buffer;
        assert Outstanding(t) == s.buffer[1..];
      } else {
        assert Outstanding(t) == s.buffer[1..] + [s.blocked[0]] + s.blocked[1..];
        assert s.blocked == [s.blocked[0]] + s.blocked[1..];
        assert Outstanding(s)[1..] == s.buffer[1..] + s.blocked;
      }
    }
  }

  // Timing of the calls

  lemma {:induction false} RunAppend(s: DebounceState, interval: nat, a: seq<Event>, b: seq<Event>)
    ensures Run(s, interval, a + b) == Run(Run(s, interval, a), interval, b)
    decreases |a|
  {
    if a != [] {
      assert (a + b)[0] == a[0] && (a + b)[1..] == a[1..] + b;
      RunAppend(Step(s, interval, a[0]), interval, a[1..], b);
    } else {
      assert a + b == b;
    }
  }

  /**
   * Without triggers the function runs at most once: exactly once if the clock reaches the armed
   * deadline, and never if no timer is armed or its deadline lies beyond the elapsed time. The
   * armed deadline is taken to lie in the future, so that it is some passing of time that meets it.
   */
  lemma {:induction false} RunWithoutTriggers(s: DebounceState, interval: nat, events: seq<Event>)
    requires NoTriggers(events)
    requires s.deadline.Some? ==> s.clock < s.deadline.value
    ensures var t := Run(s, interval, events);
            var fires := s.deadline.Some? && s.deadline.value <= s.clock + Elapsed(events);
            && t.clock == s.clock + Elapsed(events)
            && t.calls == s.calls + (if fires then 1 else 0)
            && t.deadline == (if fires then None else s.deadline)
    decreases |events|
  {
    if events != [] {
      var next := Step(s, interval, events[0]);
      assert NoTriggers(events[1..]) by {
        forall k | 0 <= k < |events[1..]| ensures !events[1..][k].Trigger? {
          assert events[1..][k] == events[k + 1];
        }
      }
      assert !events[0].Trigger?;
      RunWithoutTriggers(next, interval, events[1..]);
      match events[0]
      case Receive =>
        assert next.clock == s.clock && next.deadline == s.deadline && next.calls == s.calls;
      case Advance(dt, r) =>
        assert Elapsed(events) == dt + Elapsed(events[1..]);
        if s.deadline.Some? && s.deadline.value <= s.clock + dt {
          assert next.deadline == None && next.calls == s.calls + 1 && next.clock == s.clock + dt;
        } else {
          assert next == s.(clock := s.clock + dt);
        }
    }
  }

  /** The function never runs before `interval` has passed since the most recent trigger. */
  lemma NoCallBeforeInterval(s: DebounceState, interval: nat, events: seq<Event>)
    requires NoTriggers(events)
    requires Elapsed(events) < interval
    ensures Run(TriggerStep(s, interval), interval, events).calls == s.calls
  {
    RunWithoutTriggers(TriggerStep(s, interval), interval, events);
  }

  /** Once `interval` has passed since the last trigger, the function has run exactly once more. */
  lemma OneCallAfterInterval(s: DebounceState, interval: nat, events: seq<Event>)
    requires interval > 0
    requires NoTriggers(events)
    requires Elapsed(events) >= interval
    ensures Run(TriggerStep(s, interval), interval, events).calls == s.calls + 1
    ensures Run(TriggerStep(s, interval), interval, events).deadline == None
  {
    RunWithoutTriggers(TriggerStep(s, interval), interval, events);
  }

  /** A burst: a trigger, then pauses each followed by another trigger. */
  function Burst(gaps: seq<nat>, r: CallResult): (events: seq<Event>)
    ensures |events| == 2 * |gaps| + 1 && events[0] == Trigger && events[|events| - 1] == Trigger
    decreases |gaps|
  {
    if gaps == [] then [Trigger] else [Trigger, Advance(gaps[0], r)] + Burst(gaps[1..], r)
  }

  /**
   * While every pause of a burst is shorter than `interval`, the function does not run; the last
   * trigger leaves one call pending, `interval` after it, and no result appears.
   */
  lemma {:induction false} BurstDefers(s: DebounceState, interval: nat, gaps: seq<nat>, r: CallResult)
    requires forall k :: 0 <= k < |gaps| ==> gaps[k] < interval
    ensures var t := Run(s, interval, Burst(gaps, r));
            && t.calls == s.calls
            && t.deadline == Some(t.clock + interval)
            && t.buffer == s.buffer && t.blocked == s.blocked
    decreases |gaps|
  {
    if gaps != [] {
      var rest := Burst(gaps[1..], r);
      var events := [Trigger, Advance(gaps[0], r)] + rest;
      var armed := TriggerStep(s, interval);
      var paused := AdvanceStep(armed, gaps[0], r);
      assert paused == s.(clock := s.clock + gaps[0], deadline := Some(s.clock + interval));
      assert events[1..] == [Advance(gaps[0], r)] + rest;
      assert ([Advance(gaps[0], r)] + rest)[1..] == rest;
      assert Run(s, interval, events) == Run(armed, interval, [Advance(gaps[0], r)] + rest);
      assert Run(armed, interval, [Advance(gaps[0], r)] + rest) == Run(paused, interval, rest);
      BurstDefers(paused, interval, gaps[1..], r);
    } else {
      assert Run(s, interval, [Trigger]) == Run(TriggerStep(s, interval), interval, []);
    }
  }

  /**
   * Triggers that come closer together than `interval` produce exactly one call once the clock
   * passes `interval` beyond the last of them, and exactly that call's result is queued.
   */
  lemma DebounceBurst(s: DebounceState, interval: nat, gaps: seq<nat>, r: CallResult, wait: nat, result: CallResult)
    requires Inv(s)
    requires forall k :: 0 <= k < |gaps| ==> gaps[k] < interval
    requires wait >= interval
    ensures var t := Run(s, interval, Burst(gaps, r) + [Advance(wait, result)]);
            && t.calls == s.calls + 1
            && t.deadline == None
            && Outstanding(t) == Outstanding(s) + [result]
  {
    var burst := Burst(gaps, r);
    RunAppend(s, interval, burst, [Advance(wait, result)]);
    BurstDefers(s, interval, gaps, r);
    var mid := Run(s, interval, burst);
    assert Outstanding(mid) == Outstanding(s);
    assert Run(mid, interval, [Advance(wait, result)]) == AdvanceStep(mid, wait, result);
    RunKeepsInv(s, interval, burst);
  }

  /**
   * After a call has run, a fresh trigger needs no reset: two rounds of trigger-then-wait run
   * the function twice and queue both results in order.
   */
  lemma RetriggerAfterCall(s: DebounceState, interval: nat, w1: nat, r1: CallResult, w2: nat, r2: CallResult)
    requires Inv(s)
    requires w1 >= interval && w2 >= interval
    ensures var t := Run(s, interval, [Trigger, Advance(w1, r1), Trigger, Advance(w2, r2)]);
            t.calls == s.calls + 2 && Outstanding(t) == Outstanding(s) + [r1, r2]
  {
    var none: seq<nat> := [];
    DebounceBurst(s, interval, none, r1, w1, r1);
    var a: seq<Event> := [Trigger, Advance(w1, r1)];
    var b: seq<Event> := [Trigger, Advance(w2, r2)];
    assert Burst(none, r1) + [Advance(w1, r1)] == a;
    var mid := Run(s, interval, a);
    RunKeepsInv(s, interval, a);
    DebounceBurst(mid, interval, none, r2, w2, r2);
    assert Burst(none, r2) + [Advance(w2, r2)] == b;
    RunAppend(s, interval, a, b);
    assert a + b == [Trigger, Advance(w1, r1), Trigger, Advance(w2, r2)];
  }

  /**
   * debounceNoArgsFunc: the closure's captured timer and the buffered error channel as fields.
   * `Debounced` is the returned function; `Advance` lets time pass, running the function when
   * the timer fires; `Receive` is the consumer reading the channel.
   */
  class Debouncer {
    const interval: nat
    var clock: nat
    var deadline: Option<nat>
    var buffer: seq<CallResult>
    var blocked: seq<CallResult>
    var calls: nat

    function State(): DebounceState
      reads this
    {
      DebounceState(clock, deadline, buffer, blocked, calls)
    }

    ghost predicate Valid()
      reads this
    {
      Inv(State())
    }

    constructor (interval: nat)
      ensures this.interval == interval && State() == Initial() && Valid()
    {
      this.interval := interval;
      clock := 0;
      deadline := None;
      buffer := [];
      blocked := [];
      calls := 0;
    }

    method Debounced()
      requires Valid()
      modifies this
      ensures Valid() && State() == TriggerStep(old(State()), interval)
    {
      deadline := Some(clock + interval);
    }

    method Advance(dt: nat, result: CallResult)
      requires Valid()
      modifies this
      ensures Valid() && State() == AdvanceStep(old(State()), dt, result)
    {
      clock := clock + dt;
      if deadline.Some? && deadline.value <= clock {
        deadline := None;
        calls := calls + 1;
        if |buffer| < ChanBuffer {
          buffer := buffer + [result];
        } else {
          blocked := blocked + [result];
        }
      }
    }

    method Receive() returns (r: Option<CallResult>)
      requires Valid()
      modifies this
      ensures Valid() && (State(), r) == ReceiveStep(old(State()))
    {
      if buffer == [] {
        return None;
      }
      r := Some(buffer[0]);
      if blocked == [] {
        buffer := buffer[1..];
      } else {
        buffer := buffer[1..] + [blocked[0]];
        blocked := blocked[1..];
      }
    }
  }
}
