/** The public entry points and their sink adapters (ScrollEngine.swift).

    Three entry points wire a drag recorder with no `onEnded` closure and a
    vertical default axis: one writes to a `Double` binding, one to an `Int`
    binding through an adapter that truncates toward zero on write, and one
    keeps a private offset starting at 0 and calls a closure whenever that
    offset changes. */
module ScrollEngine {
  import opened ScrollAxis
  import opened Wrappers
  import opened GestureRecorder

  /** Bounds of Swift's 64-bit `Int`. */
  const IntMin: int := -0x8000_0000_0000_0000
  const IntMax: int := 0x7FFF_FFFF_FFFF_FFFF

  /** `Int(x)` is defined exactly when x truncated toward zero fits in an
      `Int`; otherwise it traps. */
  predicate InIntRange(x: real)
    ensures InIntRange(x) <==> IntMin <= Trunc(x) <= IntMax
  {
    (IntMin - 1) as real < x < (IntMax + 1) as real
  }

  /** Truncation toward zero (not floor): the integer part of x, keeping its
      sign. */
  function Trunc(x: real): (n: int)
    ensures 0.0 <= x ==> n as real <= x < n as real + 1.0
    ensures x < 0.0 ==> n as real - 1.0 < x <= n as real
  {
    if x >= 0.0 then x.Floor else -((-x).Floor)
  }

  /** The `Int` binding's getter: the stored integer as a `Double`. */
  function IntGet(stored: int): (x: real)
    ensures x.Floor == stored && x == x.Floor as real
  {
    stored as real
  }

  /** The `Int` binding's setter: the written value truncated toward zero. */
  function IntSet(x: real): (n: int)
    requires InIntRange(x)
    ensures IntMin <= n <= IntMax
    ensures -1.0 < x - n as real < 1.0
    ensures 0.0 <= x ==> 0 <= n && n as real <= x
    ensures x <= 0.0 ==> n <= 0 && x <= n as real
  {
    Trunc(x)
  }

  /** The `Int` entry point's state: the recorder, and the integer the
      caller's binding holds. The recorder's `offset` is what its binding's
      getter returns, the stored integer read back exactly; `IntSynced`
      states this. */
  datatype IntAttachment = IntAttachment(recorder: Recorder, stored: int)

  /** `scrollGesture(offset: Binding<Double>, axis:)`. */
  function ScrollGestureDouble(offset: real, axis: Axis := Vertical): (r: Recorder)
    ensures r.axis == axis && !r.notifiesEnd
    ensures r.baseOffset == 0.0 && r.offset == offset
  {
    Make(offset, axis, false)
  }

  /** `scrollGesture(offset: Binding<Int>, axis:)`. The recorder sees the
      adapter's getter, which reads the integer exactly. */
  function ScrollGestureInt(stored: int, axis: Axis := Vertical): (a: IntAttachment)
    ensures a.recorder.axis == axis && !a.recorder.notifiesEnd
    ensures a.recorder.baseOffset == 0.0
    ensures a.stored == stored && a.recorder.offset == stored as real
  {
    IntAttachment(Make(IntGet(stored), axis, false), stored)
  }

  /** `scrollGesture(axis:onChange:)`: the private offset starts at 0. */
  function ScrollGestureCallback(axis: Axis := Vertical): (r: Recorder)
    ensures r.axis == axis && !r.notifiesEnd
    ensures r.baseOffset == 0.0 && r.offset == 0.0
  {
    Make(0.0, axis, false)
  }

  /** Every entry point defaults to the vertical axis and wires no
      `onEnded` closure. */
  lemma EntryPointsDefaults(offset: real, stored: int)
    ensures ScrollGestureDouble(offset).axis == Vertical
    ensures ScrollGestureInt(stored).recorder.axis == Vertical
    ensures ScrollGestureCallback().axis == Vertical
    ensures !ScrollGestureDouble(offset).notifiesEnd
    ensures !ScrollGestureInt(stored).recorder.notifiesEnd
    ensures !ScrollGestureCallback().notifiesEnd
  {
  }

  // ---------------------------------------------------------------------
  // Integer sink

  /** The recorder's view of the binding is the stored integer. */
  predicate IntSynced(a: IntAttachment)
  {
    a.recorder.offset == IntGet(a.stored)
  }

  /** Every value the recorder writes while handling the events can be
      converted to `Int` without trapping. */
  predicate WritesInRange(r: Recorder, events: seq<DragEvent>)
    decreases |events|
  {
    |events| == 0 || (InIntRange(Step(r, events[0]).offset) && WritesInRange(Step(r, events[0]), events[1..]))
  }

  /** Whether every write is in range never depends on the binding's
      value, since the recorder's steps do not. */
  lemma WritesInRangeIgnoresOffset(r: Recorder, external: real, events: seq<DragEvent>)
    ensures WritesInRange(r.(offset := external), events) == WritesInRange(r, events)
  {
    if |events| > 0 {
      StepIgnoresOffset(r, external, events[0]);
    }
  }

  /** One drag callback through the `Int` adapter: the recorder writes
      `x`, the caller's binding stores `Int(x)`, and the recorder's binding
      afterwards reads back that integer. */
  function IntStep(a: IntAttachment, e: DragEvent): (a': IntAttachment)
    requires InIntRange(Step(a.recorder, e).offset)
    ensures IntSynced(a')
    ensures a'.recorder.axis == a.recorder.axis && a'.recorder.notifiesEnd == a.recorder.notifiesEnd
    ensures a'.recorder.baseOffset == Step(a.recorder, e).baseOffset
    ensures a'.stored == Trunc(Step(a.recorder, e).offset)
    ensures e.Changed? ==> a'.stored == Trunc(a.recorder.baseOffset + Projected(a.recorder.axis, e.translation))
    ensures e.Ended? ==> a'.recorder.baseOffset == a.recorder.baseOffset + Projected(a.recorder.axis, e.translation)
  {
    var next := Step(a.recorder, e);
    var n := IntSet(next.offset);
    IntAttachment(next.(offset := IntGet(n)), n)
  }

  function RunInt(a: IntAttachment, events: seq<DragEvent>): IntAttachment
    requires WritesInRange(a.recorder, events)
    decreases |events|
  {
    if |events| == 0 then a
    else
      var next := Step(a.recorder, events[0]);
      WritesInRangeIgnoresOffset(next, IntGet(IntSet(next.offset)), events[1..]);
      RunInt(IntStep(a, events[0]), events[1..])
  }

  lemma TruncExamples()
    ensures Trunc(3.9) == 3 && Trunc(-3.9) == -3
    ensures Trunc(0.5) == 0 && Trunc(-0.5) == 0
  {
  }

  /** Reading back what was written through the `Int` binding returns the
      written value exactly when it was already whole. */
  lemma IntWriteReadExactIffWhole(x: real)
    requires InIntRange(x)
    ensures IntGet(IntSet(x)) == x <==> x == x.Floor as real
  {
  }

  /** Writing what was read through the `Int` binding changes nothing. */
  lemma IntReadWriteRoundTrip(n: int)
    requires IntMin <= n <= IntMax
    ensures InIntRange(IntGet(n))
    ensures IntSet(IntGet(n)) == n
  {
  }

  /** Composition of the recorder with the `Int` adapter. The recorder
      reads back truncated integers, but since its next state never depends
      on the binding, it runs exactly as it would with a `Double` binding
      apart from that read-back: its `baseOffset` is never truncated, and
      the caller's integer is the truncation of the last value written. */
  lemma {:induction false} IntSinkComposition(a: IntAttachment, events: seq<DragEvent>)
    requires WritesInRange(a.recorder, events)
    ensures var b := RunInt(a, events);
      b.recorder == Run(a.recorder, events).(offset := b.recorder.offset)
    ensures |events| > 0 ==> IntSynced(RunInt(a, events))
    ensures |events| > 0 ==> RunInt(a, events).stored == Trunc(Run(a.recorder, events).offset)
    ensures |events| == 0 ==> RunInt(a, events) == a
    decreases |events|
  {
    if |events| > 0 {
      var next := Step(a.recorder, events[0]);
      var a1 := IntStep(a, events[0]);
      WritesInRangeIgnoresOffset(next, a1.recorder.offset, events[1..]);
      IntSinkComposition(a1, events[1..]);
      assert a1.recorder == next.(offset := a1.recorder.offset);
      if |events| > 1 {
        RunIgnoresOffset(next, a1.recorder.offset, events[1..]);
      }
    }
  }

  /** Over completed sessions through the `Int` binding, the base is the
      exact (untruncated) sum of the final translations, and the caller's
      integer is that sum truncated toward zero. */
  lemma {:induction false} IntSinkSessions(a: IntAttachment, ss: seq<Session>)
    requires WritesInRange(a.recorder, Flatten(ss))
    requires |ss| > 0
    ensures RunInt(a, Flatten(ss)).recorder.baseOffset == a.recorder.baseOffset + SumOfFinals(a.recorder.axis, ss)
    ensures RunInt(a, Flatten(ss)).stored == Trunc(a.recorder.baseOffset + SumOfFinals(a.recorder.axis, ss))
  {
    IntSinkComposition(a, Flatten(ss));
    SessionsAccumulate(a.recorder, ss);
  }

  // ---------------------------------------------------------------------
  // Callback sink

  /** One drag callback in the callback variant: the recorder writes its
      private offset, and `onChange` sees the new value only if it differs
      from the previous one. */
  function CallbackStep(r: Recorder, e: DragEvent): (s: EndStep)
    ensures s.next == Step(r, e)
    ensures s.reported.Some? <==> s.next.offset != r.offset
    ensures s.reported.Some? ==> s.reported.value == s.next.offset
  {
    var next := Step(r, e);
    EndStep(next, if next.offset != r.offset then Some(next.offset) else None)
  }

  /** The values `onChange` is called with, in order. */
  function Notifications(r: Recorder, events: seq<DragEvent>): seq<real>
    decreases |events|
  {
    if |events| == 0 then []
    else
      var s := CallbackStep(r, events[0]);
      (if s.reported.Some? then [s.reported.value] else []) + Notifications(s.next, events[1..])
  }

  /** `onChange` is never stale: the last value it received is the current
      private offset, it was silent only if the offset never moved away
      from its start, its first value differs from the start, and no two
      consecutive calls carry the same value. */
  lemma {:induction false} NotificationsTrackOffset(r: Recorder, events: seq<DragEvent>)
    ensures var ns := Notifications(r, events);
      |ns| == 0 ==> Run(r, events).offset == r.offset
    ensures var ns := Notifications(r, events);
      |ns| > 0 ==> ns[|ns| - 1] == Run(r, events).offset && ns[0] != r.offset
    ensures var ns := Notifications(r, events);
      forall i :: 0 <= i < |ns| - 1 ==> ns[i] != ns[i + 1]
    decreases |events|
  {
    if |events| > 0 {
      var s := CallbackStep(r, events[0]);
      NotificationsTrackOffset(s.next, events[1..]);
      var tail := Notifications(s.next, events[1..]);
      var ns := Notifications(r, events);
      if s.reported.Some? {
        assert ns == [s.next.offset] + tail;
      } else {
        assert ns == tail;
      }
    }
  }

  /** From the callback entry point: if the private offset is no longer 0,
      `onChange` has been called; and whenever it has been called, its last
      value is the current offset. (The offset can also return to 0 after
      calls, so the converse does not hold.) */
  lemma CallbackFromStart(axis: Axis, events: seq<DragEvent>)
    ensures var r := ScrollGestureCallback(axis);
      var ns := Notifications(r, events);
      (|ns| > 0 ==> ns[|ns| - 1] == Run(r, events).offset)
      && (Run(r, events).offset != 0.0 ==> |ns| > 0)
  {
    NotificationsTrackOffset(ScrollGestureCallback(axis), events);
  }
}
