/**
 * The crate root of slint-evdev-input: the `Collector` that folds raw evdev
 * events into Slint pointer events, the blocking iterator that drains raw
 * events into it, and the wrapper that creates a collector per batch.
 *
 * The collector is a class whose `Push` is proved against the pure `Step`;
 * the iterator's `Next` is proved against the pure `Drain`. Properties of
 * whole event streams are lemmas about `Run`, the fold of `Step`.
 */
module SlintEvdevInput {
  import Options
  import opened Evdev
  import opened Slint

  /** The button transition observed since the last synchronization. */
  datatype ButtonChange = None | Up | Down

  /** `LogicalPosition::from_physical(PhysicalPosition::new(x, y), scaleFactor)`. */
  function At(x: i32, y: i32, scaleFactor: real): LogicalPosition
  {
    FromPhysical(PhysicalPosition(x, y), scaleFactor)
  }

  /** The fields of a `Collector`, as a value. */
  datatype CollectorState = CollectorState(lastPosition: (i32, i32), scaleFactor: real, buttonChange: ButtonChange)
  {
    /** `Collector::last_logical_position`: the stored physical position, scaled. */
    function LastLogicalPosition(): (p: LogicalPosition)
      ensures p.scaleFactor == scaleFactor
      ensures scaleFactor != 0.0 ==>
        p.Coordinates() == (lastPosition.0 as real / scaleFactor, lastPosition.1 as real / scaleFactor)
    {
      At(lastPosition.0, lastPosition.1, scaleFactor)
    }
  }

  /** `Collector`, whose fields `Collector::push` updates in place. */
  class Collector {
    var lastPosition: (i32, i32)
    var scaleFactor: real
    var buttonChange: ButtonChange

    function State(): CollectorState
      reads this
    {
      CollectorState(lastPosition, scaleFactor, buttonChange)
    }

    /** `Collector::new`: the given position, no pending button change. */
    constructor (scaleFactor: real, lastPosition: (i32, i32))
      ensures State() == CollectorState(lastPosition, scaleFactor, ButtonChange.None)
    {
      this.lastPosition := lastPosition;
      this.scaleFactor := scaleFactor;
      this.buttonChange := ButtonChange.None;
    }

    /** `Collector::push`: one raw event in, at most one window event out. */
    method Push(event: EventSummary) returns (r: Options.Option<WindowEvent>)
      modifies this
      ensures (State(), r) == Step(old(State()), event)
    {
      match event {
        case Synchronization =>
          var change := buttonChange;
          buttonChange := ButtonChange.None;
          if change == ButtonChange.Down {
            return Options.Some(PointerPressed(State().LastLogicalPosition(), Left));
          } else if change == ButtonChange.Up {
            return Options.Some(PointerReleased(State().LastLogicalPosition(), Left));
          } else {
            return Options.Some(PointerMoved(State().LastLogicalPosition()));
          }
        case AbsoluteAxis(axis, value) =>
          if axis == ABS_X {
            lastPosition := (value, lastPosition.1);
          } else if axis == ABS_Y {
            lastPosition := (lastPosition.0, value);
          }
        case Key(key, value) =>
          if key == BTN_TOUCH {
            if value == 1 {
              buttonChange := ButtonChange.Down;
            } else {
              buttonChange := ButtonChange.Up;
            }
          }
        case Other =>
      }
      r := Options.None;
    }
  }

  /**
   * One step of the collector on a value: the new state and what `push`
   * returns. Synchronization is the only event that yields anything, and it
   * always yields an event at the current position.
   */
  function Step(s: CollectorState, event: EventSummary): (r: (CollectorState, Options.Option<WindowEvent>))
    ensures r.0.scaleFactor == s.scaleFactor
    ensures r.1.Some? <==> event.Synchronization?
    ensures event.Synchronization? ==>
      r.0.buttonChange == ButtonChange.None && r.0.lastPosition == s.lastPosition
    ensures r.1.Some? ==> r.1.value.position == s.LastLogicalPosition()
    ensures r.1.Some? ==> (r.1.value.PointerPressed? <==> s.buttonChange == ButtonChange.Down)
    ensures r.1.Some? ==> (r.1.value.PointerReleased? <==> s.buttonChange == ButtonChange.Up)
    ensures r.1.Some? && !r.1.value.PointerMoved? ==> r.1.value.button == Left
  {
    match event
    case Synchronization =>
      var next := s.(buttonChange := ButtonChange.None);
      if s.buttonChange == ButtonChange.Down then
        (next, Options.Some(PointerPressed(s.LastLogicalPosition(), Left)))
      else if s.buttonChange == ButtonChange.Up then
        (next, Options.Some(PointerReleased(s.LastLogicalPosition(), Left)))
      else
        (next, Options.Some(PointerMoved(s.LastLogicalPosition())))
    case AbsoluteAxis(axis, value) =>
      if axis == ABS_X then (s.(lastPosition := (value, s.lastPosition.1)), Options.None)
      else if axis == ABS_Y then (s.(lastPosition := (s.lastPosition.0, value)), Options.None)
      else (s, Options.None)
    case Key(key, value) =>
      if key == BTN_TOUCH then
        (s.(buttonChange := if value == 1 then ButtonChange.Down else ButtonChange.Up), Options.None)
      else (s, Options.None)
    case Other => (s, Options.None)
  }

  // ---------------------------------------------------------------------------
  // Single events

  /** An absolute-axis event sets one coordinate, and only for ABS_X or ABS_Y. */
  lemma AbsoluteAxisSetsOneCoordinate(s: CollectorState, axis: u16, value: i32)
    ensures Step(s, AbsoluteAxis(axis, value)).1 == Options.None
    ensures Step(s, AbsoluteAxis(axis, value)).0.buttonChange == s.buttonChange
    ensures axis == ABS_X ==> Step(s, AbsoluteAxis(axis, value)).0.lastPosition == (value, s.lastPosition.1)
    ensures axis == ABS_Y ==> Step(s, AbsoluteAxis(axis, value)).0.lastPosition == (s.lastPosition.0, value)
    ensures axis != ABS_X && axis != ABS_Y ==> Step(s, AbsoluteAxis(axis, value)).0 == s
  {
  }

  /** Only BTN_TOUCH matters; the value 1 is a press and every other value a release. */
  lemma KeyOverwritesButtonChange(s: CollectorState, key: u16, value: i32)
    ensures Step(s, Key(key, value)).1 == Options.None
    ensures key != BTN_TOUCH ==> Step(s, Key(key, value)).0 == s
    ensures key == BTN_TOUCH && value == 1 ==>
      Step(s, Key(key, value)).0 == s.(buttonChange := ButtonChange.Down)
    ensures key == BTN_TOUCH && value != 1 ==>
      Step(s, Key(key, value)).0 == s.(buttonChange := ButtonChange.Up)
  {
  }

  /** Every other kind of raw event is ignored. */
  lemma OtherIsIgnored(s: CollectorState)
    ensures Step(s, EventSummary.Other) == (s, Options.None)
  {
  }

  // ---------------------------------------------------------------------------
  // Streams of events

  function SyncCount(input: seq<EventSummary>): nat
  {
    if input == [] then 0
    else (if input[0].Synchronization? then 1 else 0) + SyncCount(input[1..])
  }

  ghost predicate NoSync(input: seq<EventSummary>)
  {
    forall i :: 0 <= i < |input| ==> !input[i].Synchronization?
  }

  predicate IsTouchKey(e: EventSummary)
  {
    e.Key? && e.key == BTN_TOUCH
  }

  predicate IsAxis(e: EventSummary, axis: u16)
  {
    e.AbsoluteAxis? && e.axis == axis
  }

  function Emitted(out: Options.Option<WindowEvent>): seq<WindowEvent>
  {
    if out.Some? then [out.value] else []
  }

  /**
   * The collector folded over a stream: the final state and every window
   * event pushed out on the way. Exactly one event per synchronization.
   */
  function Run(s: CollectorState, input: seq<EventSummary>): (r: (CollectorState, seq<WindowEvent>))
    ensures |r.1| == SyncCount(input)
    ensures r.0.scaleFactor == s.scaleFactor
    decreases |input|
  {
    if input == [] then (s, [])
    else
      var step := Step(s, input[0]);
      var rest := Run(step.0, input[1..]);
      (rest.0, Emitted(step.1) + rest.1)
  }

  /** Running over two pieces is running over the first and then the second. */
  lemma {:induction false} RunAppend(s: CollectorState, a: seq<EventSummary>, b: seq<EventSummary>)
    ensures Run(s, a + b) == (Run(Run(s, a).0, b).0, Run(s, a).1 + Run(Run(s, a).0, b).1)
    decreases |a|
  {
    if a == [] {
      assert a + b == b;
      assert Run(s, a).1 + Run(s, b).1 == Run(s, b).1;
    } else {
      var step := Step(s, a[0]);
      assert (a + b)[0] == a[0];
      assert (a + b)[1..] == a[1..] + b;
      RunAppend(step.0, a[1..], b);
      var mid := Run(step.0, a[1..]);
      assert Run(s, a) == (mid.0, Emitted(step.1) + mid.1);
      assert Run(s, a + b) == (Run(mid.0, b).0, Emitted(step.1) + (mid.1 + Run(mid.0, b).1));
      assert Emitted(step.1) + (mid.1 + Run(mid.0, b).1) == (Emitted(step.1) + mid.1) + Run(mid.0, b).1;
    }
  }

  /** Running over `[e] + rest` is one step on `e`, then running over `rest`. */
  lemma RunCons(s: CollectorState, e: EventSummary, rest: seq<EventSummary>)
    ensures Run(s, [e] + rest) ==
      (Run(Step(s, e).0, rest).0, Emitted(Step(s, e).1) + Run(Step(s, e).0, rest).1)
    ensures rest == [] ==> Run(s, [e]) == (Step(s, e).0, Emitted(Step(s, e).1))
    ensures Step(s, e).1.None? ==> Run(s, [e] + rest) == Run(Step(s, e).0, rest)
  {
    assert ([e] + rest)[0] == e;
    assert ([e] + rest)[1..] == rest;
    assert [] + Run(Step(s, e).0, rest).1 == Run(Step(s, e).0, rest).1;
    if rest == [] {
      assert [e] + rest == [e];
      assert Emitted(Step(s, e).1) + [] == Emitted(Step(s, e).1);
    }
  }

  /** The value of the last BTN_TOUCH key event in the stream, if any. */
  ghost function LastTouchValue(input: seq<EventSummary>): Options.Option<i32>
  {
    if input == [] then Options.None
    else if IsTouchKey(input[|input| - 1]) then Options.Some(input[|input| - 1].value)
    else LastTouchValue(input[..|input| - 1])
  }

  /** The button change pending after `input`, decided by its last BTN_TOUCH key alone. */
  ghost function PendingAfter(b: ButtonChange, input: seq<EventSummary>): ButtonChange
  {
    match LastTouchValue(input)
    case None => b
    case Some(v) => if v == 1 then ButtonChange.Down else ButtonChange.Up
  }

  /** Within one synchronization cycle the last BTN_TOUCH key wins. */
  lemma {:induction false} LastTouchKeyWins(s: CollectorState, input: seq<EventSummary>)
    requires NoSync(input)
    ensures Run(s, input).0.buttonChange == PendingAfter(s.buttonChange, input)
    decreases |input|
  {
    if input != [] {
      var init, last := input[..|input| - 1], input[|input| - 1];
      assert input == init + [last];
      assert NoSync(init) by {
        forall i | 0 <= i < |init| ensures !init[i].Synchronization? {
          assert init[i] == input[i];
        }
      }
      RunAppend(s, init, [last]);
      LastTouchKeyWins(s, init);
    }
  }

  /**
   * A whole cycle: whatever came before the synchronization, it yields one
   * event at the position reached, pressed or released as the last BTN_TOUCH
   * key of the cycle says, moved if there was none and nothing was pending.
   */
  lemma CycleYieldsOneEvent(s: CollectorState, input: seq<EventSummary>)
    requires NoSync(input)
    ensures |Run(s, input + [Synchronization]).1| == 1
    ensures Run(s, input + [Synchronization]).1[0].position == Run(s, input).0.LastLogicalPosition()
    ensures Run(s, input + [Synchronization]).1[0].PointerPressed? <==>
      PendingAfter(s.buttonChange, input) == ButtonChange.Down
    ensures Run(s, input + [Synchronization]).1[0].PointerReleased? <==>
      PendingAfter(s.buttonChange, input) == ButtonChange.Up
    ensures Run(s, input + [Synchronization]).0.buttonChange == ButtonChange.None
  {
    RunAppend(s, input, [Synchronization]);
    LastTouchKeyWins(s, input);
    NoSyncEmitsNothing(s, input);
  }

  lemma NoSyncEmitsNothing(s: CollectorState, input: seq<EventSummary>)
    requires NoSync(input)
    ensures Run(s, input).1 == []
  {
    NoSyncCountsZero(input);
  }

  lemma {:induction false} NoSyncCountsZero(input: seq<EventSummary>)
    requires NoSync(input)
    ensures SyncCount(input) == 0
    decreases |input|
  {
    if input != [] {
      assert !input[0].Synchronization?;
      assert NoSync(input[1..]) by {
        forall i | 0 <= i < |input[1..]| ensures !input[1..][i].Synchronization? {
          assert input[1..][i] == input[i + 1];
        }
      }
      NoSyncCountsZero(input[1..]);
    }
  }

  /** Without BTN_TOUCH keys, the collector stays idle, across syncs too. */
  lemma {:induction false} NoTouchKeyKeepsIdle(s: CollectorState, input: seq<EventSummary>)
    requires s.buttonChange == ButtonChange.None
    requires forall i :: 0 <= i < |input| ==> !IsTouchKey(input[i])
    ensures Run(s, input).0.buttonChange == ButtonChange.None
    decreases |input|
  {
    if input != [] {
      assert !IsTouchKey(input[0]);
      assert forall i :: 0 <= i < |input[1..]| ==> !IsTouchKey(input[1..][i]) by {
        forall i | 0 <= i < |input[1..]| ensures !IsTouchKey(input[1..][i]) {
          assert input[1..][i] == input[i + 1];
        }
      }
      NoTouchKeyKeepsIdle(Step(s, input[0]).0, input[1..]);
    }
  }

  /**
   * After a synchronization, the next synchronization reached without a
   * BTN_TOUCH key in between yields `PointerMoved`, whatever the first one yielded.
   */
  lemma MovedAfterSyncWithoutTouchKey(s: CollectorState, between: seq<EventSummary>)
    requires forall i :: 0 <= i < |between| ==> !IsTouchKey(between[i])
    ensures |Run(s, [Synchronization] + between + [Synchronization]).1| >= 1
    ensures var out := Run(s, [Synchronization] + between + [Synchronization]).1;
      out[|out| - 1].PointerMoved?
  {
    var first := Step(s, Synchronization).0;
    NoTouchKeyKeepsIdle(first, between);
    RunAppend(s, [Synchronization], between);
    RunAppend(s, [Synchronization] + between, [Synchronization]);
  }

  /** The stored coordinate of `axis` (one of ABS_X, ABS_Y). */
  function Coordinate(position: (i32, i32), axis: u16): i32
  {
    if axis == ABS_X then position.0 else position.1
  }

  /**
   * A coordinate whose axis never occurs in the stream keeps its value, in
   * the final state and in every event emitted, across any number of syncs.
   */
  lemma {:induction false} UntouchedCoordinatePersists(s: CollectorState, input: seq<EventSummary>, axis: u16)
    requires axis == ABS_X || axis == ABS_Y
    requires forall i :: 0 <= i < |input| ==> !IsAxis(input[i], axis)
    ensures Coordinate(Run(s, input).0.lastPosition, axis) == Coordinate(s.lastPosition, axis)
    ensures forall k :: 0 <= k < |Run(s, input).1| ==>
      var p := Run(s, input).1[k].position.physical;
      Coordinate((p.x, p.y), axis) == Coordinate(s.lastPosition, axis)
    decreases |input|
  {
    if input != [] {
      var step := Step(s, input[0]);
      assert !IsAxis(input[0], axis);
      assert Coordinate(step.0.lastPosition, axis) == Coordinate(s.lastPosition, axis);
      assert forall i :: 0 <= i < |input[1..]| ==> !IsAxis(input[1..][i], axis) by {
        forall i | 0 <= i < |input[1..]| ensures !IsAxis(input[1..][i], axis) {
          assert input[1..][i] == input[i + 1];
        }
      }
      UntouchedCoordinatePersists(step.0, input[1..], axis);
    }
  }

  /** The value of the last event on `axis` in the stream, or `default`. */
  ghost function LatestAxisValue(input: seq<EventSummary>, axis: u16, default: i32): i32
  {
    if input == [] then default
    else if IsAxis(input[|input| - 1], axis) then input[|input| - 1].value
    else LatestAxisValue(input[..|input| - 1], axis, default)
  }

  /** The stored position is, per axis, the latest value seen for that axis. */
  lemma {:induction false} PositionIsLatestAxisValues(s: CollectorState, input: seq<EventSummary>)
    ensures Run(s, input).0.lastPosition ==
      (LatestAxisValue(input, ABS_X, s.lastPosition.0), LatestAxisValue(input, ABS_Y, s.lastPosition.1))
    decreases |input|
  {
    if input != [] {
      var init, last := input[..|input| - 1], input[|input| - 1];
      assert input == init + [last];
      RunAppend(s, init, [last]);
      PositionIsLatestAxisValues(s, init);
    }
  }

  /** A press followed by a release in one cycle yields `PointerReleased`. */
  lemma PressThenReleaseYieldsReleased(s: CollectorState)
    ensures Run(s, [Key(BTN_TOUCH, 1), Key(BTN_TOUCH, 0), Synchronization]).1 ==
      [PointerReleased(s.LastLogicalPosition(), Left)]
  {
    var pressed := Step(s, Key(BTN_TOUCH, 1)).0;
    var released := Step(pressed, Key(BTN_TOUCH, 0)).0;
    RunCons(released, Synchronization, []);
    RunCons(pressed, Key(BTN_TOUCH, 0), [Synchronization]);
    RunCons(s, Key(BTN_TOUCH, 1), [Key(BTN_TOUCH, 0), Synchronization]);
  }

  // ---------------------------------------------------------------------------
  // The blocking iterator

  /** What one call of `next` leaves: the collector, the result, the unread input. */
  datatype Drained = Drained(state: CollectorState, event: Options.Option<WindowEvent>, rest: seq<EventSummary>)

  /**
   * `SlintEventsIterator::next` on a value: push raw events until one yields
   * a window event, or the batch runs out. What it reads is stated by
   * `DrainStopsAtFirstSync`.
   */
  function Drain(s: CollectorState, input: seq<EventSummary>): (r: Drained)
    ensures |r.rest| <= |input|
    ensures r.event.None? ==> r.rest == []
    ensures r.event.Some? ==> |r.rest| < |input|
    decreases |input|
  {
    if input == [] then Drained(s, Options.None, [])
    else
      var step := Step(s, input[0]);
      if step.1.Some? then Drained(step.0, step.1, input[1..])
      else Drain(step.0, input[1..])
  }

  /**
   * `next` leaves a suffix of its input unread. It yields nothing exactly
   * when there is no synchronization; otherwise it has read up to and
   * including the first one.
   */
  lemma {:induction false} DrainStopsAtFirstSync(s: CollectorState, input: seq<EventSummary>)
    ensures var r := Drain(s, input); r.rest == input[|input| - |r.rest|..]
    ensures Drain(s, input).event.None? <==> NoSync(input)
    ensures var r := Drain(s, input); r.event.Some? ==>
      input[|input| - |r.rest| - 1].Synchronization? && NoSync(input[..|input| - |r.rest| - 1])
    decreases |input|
  {
    if input != [] {
      var step := Step(s, input[0]);
      NoSyncTail(input);
      if step.1.None? {
        var r := Drain(step.0, input[1..]);
        assert Drain(s, input) == r;
        DrainStopsAtFirstSync(step.0, input[1..]);
        var k := |input| - |r.rest|;
        assert input[1..][k - 1..] == input[k..];
        if r.event.Some? {
          assert input[..k - 1][1..] == input[1..][..k - 2];
          NoSyncTail(input[..k - 1]);
        }
      }
    }
  }

  lemma NoSyncTail(input: seq<EventSummary>)
    requires input != []
    ensures NoSync(input) <==> !input[0].Synchronization? && NoSync(input[1..])
  {
    assert forall i :: 1 <= i < |input| ==> input[i] == input[1..][i - 1];
  }

  /** What `Drain` returns is what the collector yields on the input it consumed. */
  lemma {:induction false} DrainRunsConsumedPrefix(s: CollectorState, input: seq<EventSummary>)
    ensures Run(s, input[..|input| - |Drain(s, input).rest|]) ==
      (Drain(s, input).state, Emitted(Drain(s, input).event))
    decreases |input|
  {
    if input != [] {
      var step := Step(s, input[0]);
      if step.1.None? {
        var r := Drain(step.0, input[1..]);
        assert Drain(s, input) == r;
        var k := |input| - |r.rest|;
        var tail := input[1..][..k - 1];
        assert input[..k] == [input[0]] + tail by {
          assert tail == input[1..k];
        }
        DrainRunsConsumedPrefix(step.0, input[1..]);
        assert Run(step.0, tail) == (r.state, Emitted(r.event));
        RunCons(s, input[0], tail);
      } else {
        assert input[..|input| - |input[1..]|] == [input[0]] + [];
        RunCons(s, input[0], []);
        assert Emitted(step.1) + [] == Emitted(step.1);
      }
    }
  }

  /** Calling `next` until it gives `None`: the final collector and every event. */
  function Collect(s: CollectorState, input: seq<EventSummary>): (CollectorState, seq<WindowEvent>)
    decreases |input|
  {
    var d := Drain(s, input);
    if d.event.None? then (d.state, [])
    else
      var c := Collect(d.state, d.rest);
      (c.0, [d.event.value] + c.1)
  }

  /** Draining call by call yields exactly what the collector yields on the whole stream. */
  lemma {:induction false} CollectIsRun(s: CollectorState, input: seq<EventSummary>)
    ensures Collect(s, input) == Run(s, input)
    decreases |input|
  {
    var d := Drain(s, input);
    var k := |input| - |d.rest|;
    DrainRunsConsumedPrefix(s, input);
    if d.event.None? {
      assert d.rest == [] && input[..k] == input;
    } else {
      DrainStopsAtFirstSync(s, input);
      assert input == input[..k] + d.rest;
      RunAppend(s, input[..k], d.rest);
      CollectIsRun(d.state, d.rest);
    }
  }

  /** One step of `Collect`: one call of `next`, then the rest. */
  lemma CollectUnfold(s: CollectorState, input: seq<EventSummary>, d: Drained)
    requires d == Drain(s, input)
    ensures d.event.None? ==> Collect(s, input) == (d.state, [])
    ensures d.event.Some? ==>
      Collect(s, input) == (Collect(d.state, d.rest).0, [d.event.value] + Collect(d.state, d.rest).1)
  {
  }

  /** The iterator over one batch of raw events; `inner` is what is still unread. */
  class EventsIterator {
    var inner: seq<EventSummary>
    const collector: Collector

    constructor (inner: seq<EventSummary>, collector: Collector)
      ensures this.inner == inner && this.collector == collector
    {
      this.inner := inner;
      this.collector := collector;
    }

    /** `Iterator::next`: push raw events until the collector yields one. */
    method Next() returns (r: Options.Option<WindowEvent>)
      modifies this, collector
      ensures Drained(collector.State(), r, inner) == Drain(old(collector.State()), old(inner))
    {
      while inner != []
        invariant Drain(collector.State(), inner) == Drain(old(collector.State()), old(inner))
        decreases |inner|
      {
        var event := inner[0];
        inner := inner[1..];
        var out := collector.Push(event);
        if out.Some? {
          return out;
        }
      }
      r := Options.None;
    }

    /** `for event in iterator { … }`: call `next` until it gives `None`. */
    method CollectAll() returns (events: seq<WindowEvent>)
      modifies this, collector
      ensures (collector.State(), events) == Collect(old(collector.State()), old(inner))
    {
      ghost var all := Collect(collector.State(), inner);
      events := [];
      while true
        invariant Collect(collector.State(), inner).0 == all.0
        invariant events + Collect(collector.State(), inner).1 == all.1
        decreases |inner|
      {
        ghost var state, unread := collector.State(), inner;
        var r := Next();
        ghost var rest := Collect(collector.State(), inner);
        CollectUnfold(state, unread, Drained(collector.State(), r, inner));
        if r.None? {
          assert events + [] == events;
          return;
        }
        assert events + ([r.value] + rest.1) == (events + [r.value]) + rest.1;
        events := events + [r.value];
      }
    }
  }

  // ---------------------------------------------------------------------------
  // The wrapper

  /** `SlintEventsWrapper`; the device is replaced by the batch `FetchEvents` is given. */
  class EventsWrapper {
    var lastPosition: (i32, i32)
    var scaleFactor: real

    /** `SlintEventsWrapper::new`, after the device has been opened. */
    constructor (scaleFactor: real)
      ensures lastPosition == (0, 0) && this.scaleFactor == scaleFactor
    {
      lastPosition := (0, 0);
      this.scaleFactor := scaleFactor;
    }

    /**
     * `fetch_events`: a fresh collector at the wrapper's stored position. The
     * wrapper itself is left as it was, so its position stays (0, 0).
     */
    method FetchEvents(batch: seq<EventSummary>) returns (it: EventsIterator)
      ensures fresh(it) && fresh(it.collector) && it.inner == batch
      ensures it.collector.State() == CollectorState(lastPosition, scaleFactor, ButtonChange.None)
    {
      var collector := new Collector(scaleFactor, lastPosition);
      it := new EventsIterator(batch, collector);
    }

    /**
     * The caller loop `loop { for event in wrapper.fetch_events() { … } }`,
     * over the batches the device delivers: one iterator per batch.
     */
    method FetchAll(batches: seq<seq<EventSummary>>) returns (events: seq<WindowEvent>)
      ensures events == FetchAllAsWritten(lastPosition, scaleFactor, batches)
    {
      events := [];
      var i := 0;
      while i < |batches|
        invariant 0 <= i <= |batches|
        invariant events + FetchAllAsWritten(lastPosition, scaleFactor, batches[i..]) ==
          FetchAllAsWritten(lastPosition, scaleFactor, batches)
      {
        var it := FetchEvents(batches[i]);
        ghost var start := it.collector.State();
        var batchEvents := it.CollectAll();
        assert batchEvents == Collect(start, batches[i]).1;
        AsWrittenUnfold(lastPosition, scaleFactor, batches, i);
        ghost var later := FetchAllAsWritten(lastPosition, scaleFactor, batches[i + 1..]);
        assert events + (batchEvents + later) == (events + batchEvents) + later;
        events := events + batchEvents;
        i := i + 1;
      }
      assert batches[i..] == [];
    }
  }

  /**
   * The caller loop `loop { for event in wrapper.fetch_events() { … } }`:
   * every batch is drained by its own iterator, whose collector `fetch_events`
   * builds at the wrapper's stored position.
   */
  function FetchAllAsWritten(wrapper: (i32, i32), scaleFactor: real, batches: seq<seq<EventSummary>>): seq<WindowEvent>
  {
    if batches == [] then []
    else
      Collect(CollectorState(wrapper, scaleFactor, ButtonChange.None), batches[0]).1 +
      FetchAllAsWritten(wrapper, scaleFactor, batches[1..])
  }

  /** The batches from the `i`-th on: the `i`-th drained by a fresh iterator, then the rest. */
  lemma AsWrittenUnfold(wrapper: (i32, i32), scaleFactor: real, batches: seq<seq<EventSummary>>, i: int)
    requires 0 <= i < |batches|
    ensures FetchAllAsWritten(wrapper, scaleFactor, batches[i..]) ==
      Collect(CollectorState(wrapper, scaleFactor, ButtonChange.None), batches[i]).1 +
      FetchAllAsWritten(wrapper, scaleFactor, batches[i + 1..])
  {
    assert batches[i..][0] == batches[i] && batches[i..][1..] == batches[i + 1..];
  }

  /** Every batch drained by one collector that outlives the batches. */
  function FetchAllCarried(s: CollectorState, batches: seq<seq<EventSummary>>): seq<WindowEvent>
    decreases |batches|
  {
    if batches == [] then []
    else
      var c := Collect(s, batches[0]);
      c.1 + FetchAllCarried(c.0, batches[1..])
  }

  function Concat(batches: seq<seq<EventSummary>>): seq<EventSummary>
  {
    if batches == [] then [] else batches[0] + Concat(batches[1..])
  }

  /** Carrying the collector across batches makes the split into batches irrelevant. */
  lemma {:induction false} CarriedIgnoresBatching(s: CollectorState, batches: seq<seq<EventSummary>>)
    ensures FetchAllCarried(s, batches) == Run(s, Concat(batches)).1
    decreases |batches|
  {
    if batches != [] {
      CollectIsRun(s, batches[0]);
      RunAppend(s, batches[0], Concat(batches[1..]));
      CarriedIgnoresBatching(Run(s, batches[0]).0, batches[1..]);
    }
  }

  /** As written, each batch is run from a fresh collector at the wrapper's position. */
  lemma AsWrittenCons(wrapper: (i32, i32), scaleFactor: real, batch: seq<EventSummary>, later: seq<seq<EventSummary>>)
    ensures FetchAllAsWritten(wrapper, scaleFactor, [batch] + later) ==
      Run(CollectorState(wrapper, scaleFactor, ButtonChange.None), batch).1 + FetchAllAsWritten(wrapper, scaleFactor, later)
  {
    assert ([batch] + later)[0] == batch;
    assert ([batch] + later)[1..] == later;
    CollectIsRun(CollectorState(wrapper, scaleFactor, ButtonChange.None), batch);
  }

  /** Carried, each batch is run from the state the previous one left. */
  lemma CarriedCons(s: CollectorState, batch: seq<EventSummary>, later: seq<seq<EventSummary>>)
    ensures FetchAllCarried(s, [batch] + later) == Run(s, batch).1 + FetchAllCarried(Run(s, batch).0, later)
  {
    assert ([batch] + later)[0] == batch;
    assert ([batch] + later)[1..] == later;
    CollectIsRun(s, batch);
  }

  /**
   * As written, a batch boundary forgets the position: the second move is
   * reported at x = 0, where one collector for both batches reports it at x = 5.
   */
  lemma AsWrittenForgetsPosition(scaleFactor: real)
    ensures FetchAllAsWritten((0, 0), scaleFactor,
        [[AbsoluteAxis(ABS_X, 5), AbsoluteAxis(ABS_Y, 7), Synchronization], [AbsoluteAxis(ABS_Y, 9), Synchronization]]) ==
      [PointerMoved(At(5, 7, scaleFactor)), PointerMoved(At(0, 9, scaleFactor))]
    ensures FetchAllCarried(CollectorState((0, 0), scaleFactor, ButtonChange.None),
        [[AbsoluteAxis(ABS_X, 5), AbsoluteAxis(ABS_Y, 7), Synchronization], [AbsoluteAxis(ABS_Y, 9), Synchronization]]) ==
      [PointerMoved(At(5, 7, scaleFactor)), PointerMoved(At(5, 9, scaleFactor))]
  {
    var s0 := CollectorState((0, 0), scaleFactor, ButtonChange.None);
    var b1 := [AbsoluteAxis(ABS_X, 5), AbsoluteAxis(ABS_Y, 7), Synchronization];
    var b2 := [AbsoluteAxis(ABS_Y, 9), Synchronization];
    MoveCycle(s0, 5, 7);
    MoveYCycle(s0, 9);
    MoveYCycle(Run(s0, b1).0, 9);
    assert [b1, b2] == [b1] + ([b2] + []);
    AsWrittenCons((0, 0), scaleFactor, b1, [b2]);
    AsWrittenCons((0, 0), scaleFactor, b2, []);
    CarriedCons(s0, b1, [b2]);
    CarriedCons(Run(s0, b1).0, b2, []);
  }

  /**
   * As written, a press whose synchronization falls in the next batch is
   * reported as a move.
   */
  lemma AsWrittenForgetsPress(scaleFactor: real)
    ensures FetchAllAsWritten((0, 0), scaleFactor, [[Key(BTN_TOUCH, 1)], [Synchronization]]) ==
      [PointerMoved(At(0, 0, scaleFactor))]
  {
    var s0 := CollectorState((0, 0), scaleFactor, ButtonChange.None);
    RunCons(s0, Key(BTN_TOUCH, 1), []);
    assert Run(s0, [Key(BTN_TOUCH, 1)]).1 == [];
    RunCons(s0, Synchronization, []);
    assert Run(s0, [Synchronization]).1 == [PointerMoved(At(0, 0, scaleFactor))];
    assert [[Key(BTN_TOUCH, 1)], [Synchronization]] == [[Key(BTN_TOUCH, 1)]] + ([[Synchronization]] + []);
    AsWrittenCons((0, 0), scaleFactor, [Key(BTN_TOUCH, 1)], [[Synchronization]]);
    AsWrittenCons((0, 0), scaleFactor, [Synchronization], []);
  }

  /** One collector kept across the same two batches reports the press. */
  lemma CarriedKeepsPress(scaleFactor: real)
    ensures FetchAllCarried(CollectorState((0, 0), scaleFactor, ButtonChange.None), [[Key(BTN_TOUCH, 1)], [Synchronization]]) ==
      [PointerPressed(At(0, 0, scaleFactor), Left)]
  {
    var s0 := CollectorState((0, 0), scaleFactor, ButtonChange.None);
    var pressed := CollectorState((0, 0), scaleFactor, ButtonChange.Down);
    RunCons(s0, Key(BTN_TOUCH, 1), []);
    assert Run(s0, [Key(BTN_TOUCH, 1)]) == (pressed, []);
    RunCons(pressed, Synchronization, []);
    assert Run(pressed, [Synchronization]).1 == [PointerPressed(At(0, 0, scaleFactor), Left)];
    assert [[Key(BTN_TOUCH, 1)], [Synchronization]] == [[Key(BTN_TOUCH, 1)]] + ([[Synchronization]] + []);
    CarriedCons(s0, [Key(BTN_TOUCH, 1)], [[Synchronization]]);
    CarriedCons(pressed, [Synchronization], []);
  }

  // ---------------------------------------------------------------------------
  // The expected trace of the integration tests

  /** The four emits of the touch test, each closed by the synchronization uinput appends. */
  const PressEmit: seq<EventSummary> := [AbsoluteAxis(ABS_X, 120), AbsoluteAxis(ABS_Y, 12), Key(BTN_TOUCH, 1), Synchronization]
  const MoveEmit: seq<EventSummary> := [AbsoluteAxis(ABS_X, 122), AbsoluteAxis(ABS_Y, 13), Synchronization]
  const MoveYEmit: seq<EventSummary> := [AbsoluteAxis(ABS_Y, 14), Synchronization]
  const ReleaseEmit: seq<EventSummary> := [Key(BTN_TOUCH, 0), Synchronization]

  /** The whole test trace as one stream. */
  const TouchTrace: seq<EventSummary> := PressEmit + (MoveEmit + (MoveYEmit + ReleaseEmit))

  lemma PressCycle(s: CollectorState, x: i32, y: i32)
    ensures Run(s, [AbsoluteAxis(ABS_X, x), AbsoluteAxis(ABS_Y, y), Key(BTN_TOUCH, 1), Synchronization]) ==
      (CollectorState((x, y), s.scaleFactor, ButtonChange.None), [PointerPressed(At(x, y, s.scaleFactor), Left)])
  {
    var s1 := Step(s, AbsoluteAxis(ABS_X, x)).0;
    var s2 := Step(s1, AbsoluteAxis(ABS_Y, y)).0;
    var s3 := Step(s2, Key(BTN_TOUCH, 1)).0;
    RunCons(s3, Synchronization, []);
    RunCons(s2, Key(BTN_TOUCH, 1), [Synchronization]);
    RunCons(s1, AbsoluteAxis(ABS_Y, y), [Key(BTN_TOUCH, 1), Synchronization]);
    RunCons(s, AbsoluteAxis(ABS_X, x), [AbsoluteAxis(ABS_Y, y), Key(BTN_TOUCH, 1), Synchronization]);
  }

  lemma MoveCycle(s: CollectorState, x: i32, y: i32)
    requires s.buttonChange == ButtonChange.None
    ensures Run(s, [AbsoluteAxis(ABS_X, x), AbsoluteAxis(ABS_Y, y), Synchronization]) ==
      (CollectorState((x, y), s.scaleFactor, ButtonChange.None), [PointerMoved(At(x, y, s.scaleFactor))])
  {
    var s1 := Step(s, AbsoluteAxis(ABS_X, x)).0;
    var s2 := Step(s1, AbsoluteAxis(ABS_Y, y)).0;
    RunCons(s2, Synchronization, []);
    RunCons(s1, AbsoluteAxis(ABS_Y, y), [Synchronization]);
    RunCons(s, AbsoluteAxis(ABS_X, x), [AbsoluteAxis(ABS_Y, y), Synchronization]);
  }

  lemma MoveYCycle(s: CollectorState, y: i32)
    requires s.buttonChange == ButtonChange.None
    ensures Run(s, [AbsoluteAxis(ABS_Y, y), Synchronization]) ==
      (CollectorState((s.lastPosition.0, y), s.scaleFactor, ButtonChange.None),
       [PointerMoved(At(s.lastPosition.0, y, s.scaleFactor))])
  {
    var s1 := Step(s, AbsoluteAxis(ABS_Y, y)).0;
    RunCons(s1, Synchronization, []);
    RunCons(s, AbsoluteAxis(ABS_Y, y), [Synchronization]);
  }

  lemma ReleaseCycle(s: CollectorState)
    ensures Run(s, [Key(BTN_TOUCH, 0), Synchronization]) ==
      (s.(buttonChange := ButtonChange.None), [PointerReleased(s.LastLogicalPosition(), Left)])
  {
    var s1 := Step(s, Key(BTN_TOUCH, 0)).0;
    RunCons(s1, Synchronization, []);
    RunCons(s, Key(BTN_TOUCH, 0), [Synchronization]);
  }

  /**
   * Press, two moves and a release, at any scale factor, from a fresh
   * collector at (0, 0).
   */
  lemma TouchTraceYieldsExpectedEvents(scaleFactor: real)
    ensures Run(CollectorState((0, 0), scaleFactor, ButtonChange.None), TouchTrace).1 == [
      PointerPressed(At(120, 12, scaleFactor), Left),
      PointerMoved(At(122, 13, scaleFactor)),
      PointerMoved(At(122, 14, scaleFactor)),
      PointerReleased(At(122, 14, scaleFactor), Left)
    ]
  {
    var s0 := CollectorState((0, 0), scaleFactor, ButtonChange.None);
    var c1, c2, c3, c4 := PressEmit, MoveEmit, MoveYEmit, ReleaseEmit;
    PressCycle(s0, 120, 12);
    var s1 := CollectorState((120, 12), scaleFactor, ButtonChange.None);
    MoveCycle(s1, 122, 13);
    var s2 := CollectorState((122, 13), scaleFactor, ButtonChange.None);
    MoveYCycle(s2, 14);
    var s3 := CollectorState((122, 14), scaleFactor, ButtonChange.None);
    ReleaseCycle(s3);
    RunAppend(s2, c3, c4);
    RunAppend(s1, c2, c3 + c4);
    RunAppend(s0, c1, c2 + (c3 + c4));
  }

  /** The same trace arriving as one batch, read through its iterator's `next` until it gives `None`. */
  lemma TouchTraceThroughIterator(scaleFactor: real)
    ensures Collect(CollectorState((0, 0), scaleFactor, ButtonChange.None), TouchTrace).1 == [
      PointerPressed(At(120, 12, scaleFactor), Left),
      PointerMoved(At(122, 13, scaleFactor)),
      PointerMoved(At(122, 14, scaleFactor)),
      PointerReleased(At(122, 14, scaleFactor), Left)
    ]
  {
    TouchTraceYieldsExpectedEvents(scaleFactor);
    CollectIsRun(CollectorState((0, 0), scaleFactor, ButtonChange.None), TouchTrace);
  }

  /**
   * The same trace as written, when every emit reaches `fetch_events` in a
   * batch of its own: from the third emit on, the position restarts at (0, 0).
   */
  lemma AsWrittenSplitsLastEmits(scaleFactor: real)
    ensures FetchAllAsWritten((0, 0), scaleFactor, [MoveYEmit, ReleaseEmit]) ==
      [PointerMoved(At(0, 14, scaleFactor)), PointerReleased(At(0, 0, scaleFactor), Left)]
  {
    var s0 := CollectorState((0, 0), scaleFactor, ButtonChange.None);
    ReleaseCycle(s0);
    AsWrittenCons((0, 0), scaleFactor, ReleaseEmit, []);
    assert [ReleaseEmit] + [] == [ReleaseEmit];
    MoveYCycle(s0, 14);
    AsWrittenCons((0, 0), scaleFactor, MoveYEmit, [ReleaseEmit]);
    assert [MoveYEmit] + [ReleaseEmit] == [MoveYEmit, ReleaseEmit];
  }

  lemma AsWrittenSplitsTouchTrace(scaleFactor: real)
    ensures FetchAllAsWritten((0, 0), scaleFactor, [PressEmit, MoveEmit, MoveYEmit, ReleaseEmit]) == [
      PointerPressed(At(120, 12, scaleFactor), Left),
      PointerMoved(At(122, 13, scaleFactor)),
      PointerMoved(At(0, 14, scaleFactor)),
      PointerReleased(At(0, 0, scaleFactor), Left)
    ]
  {
    var s0 := CollectorState((0, 0), scaleFactor, ButtonChange.None);
    var c1, c2, c3, c4 := PressEmit, MoveEmit, MoveYEmit, ReleaseEmit;
    var e3 := [PointerMoved(At(0, 14, scaleFactor)), PointerReleased(At(0, 0, scaleFactor), Left)];
    var e2 := [PointerMoved(At(122, 13, scaleFactor))] + e3;
    AsWrittenSplitsLastEmits(scaleFactor);
    MoveCycle(s0, 122, 13);
    AsWrittenCons((0, 0), scaleFactor, c2, [c3, c4]);
    assert [c2] + [c3, c4] == [c2, c3, c4];
    assert FetchAllAsWritten((0, 0), scaleFactor, [c2, c3, c4]) == e2;
    PressCycle(s0, 120, 12);
    AsWrittenCons((0, 0), scaleFactor, c1, [c2, c3, c4]);
    assert [c1] + [c2, c3, c4] == [c1, c2, c3, c4];
  }

  /** At scale factor 1 the logical coordinates the integration tests expect are the physical ones. */
  lemma TouchTraceAtUnitScale()
    ensures At(120, 12, 1.0).Coordinates() == (120.0, 12.0)
    ensures At(122, 13, 1.0).Coordinates() == (122.0, 13.0)
    ensures At(122, 14, 1.0).Coordinates() == (122.0, 14.0)
  {
  }

  /** At scale factor 2, (100, 50) is reported at logical (50, 25). */
  lemma ScaledMoveYieldsHalvedCoordinates()
    ensures Run(CollectorState((0, 0), 2.0, ButtonChange.None),
        [AbsoluteAxis(ABS_X, 100), AbsoluteAxis(ABS_Y, 50), Synchronization]).1 == [PointerMoved(At(100, 50, 2.0))]
    ensures At(100, 50, 2.0).Coordinates() == (50.0, 25.0)
  {
    MoveCycle(CollectorState((0, 0), 2.0, ButtonChange.None), 100, 50);
  }
}
