/** Native scroll-wheel capture on macOS (ScrollWheelCapture.swift).

    A coordinator owns one local event monitor, installed at most once. For
    every scroll-wheel event the monitor filters by the coordinator's view
    (still alive, inside a window, event located within its bounds),
    projects the event's scrolling delta onto the axis, forwards it unless
    it is zero, and fires the end closure when the gesture or its momentum
    ended. The event itself is always handed back, never consumed.

    No accumulation happens here: this component forwards deltas only. */
module WheelCapture {
  import opened ScrollAxis
  import opened Wrappers

  /** NSEvent.Phase as an enumeration (`none` is NoPhase). */
  datatype Phase = NoPhase | Began | Stationary | Changed | Ended | Cancelled | MayBegin

  datatype Point = Point(x: real, y: real)

  datatype Rect = Rect(origin: Point, width: real, height: real)

  /** Identity of a window. */
  type WindowId = nat

  /** A scroll-wheel event: the window it was delivered to, where it
      happened in that window's coordinates, its scrolling deltas and its
      two phases. */
  datatype WheelEvent = WheelEvent(
    window: WindowId,
    locationInWindow: Point,
    scrollingDeltaX: real,
    scrollingDeltaY: real,
    phase: Phase,
    momentumPhase: Phase)

  /** What the coordinator knows of its view: the window it is in, if any,
      where its frame starts in window coordinates, and its bounds. */
  datatype View = View(window: Option<WindowId>, frameOrigin: Point, bounds: Rect)

  /** Opaque token returned when a monitor is registered. */
  type Monitor = nat

  /** The coordinator. `view` is a weak reference (None once the view is
      gone); `hasOnDelta`/`hasOnEnded` record whether those closures are set;
      `monitor` is the optional slot holding the installed monitor. */
  datatype Coordinator = Coordinator(
    axis: Axis,
    hasOnDelta: bool,
    hasOnEnded: bool,
    view: Option<View>,
    monitor: Option<Monitor>)

  /** What handling one event did: the delta handed to `onDelta`, if any,
      and whether `onEnded` was called. */
  datatype Dispatch = Dispatch(forwarded: Option<real>, endFired: bool)

  /** What the monitor closure does with one event: the dispatch, and the
      event it returns to the event system. */
  datatype MonitorReply = MonitorReply(dispatch: Dispatch, passedOn: WheelEvent)

  /** CGRect containment: half-open on the standardised rectangle. A
      rectangle without area contains nothing; one with non-negative sides
      contains exactly the points from its origin up to, but excluding, its
      far edges. */
  predicate Contains(r: Rect, p: Point)
    ensures r.width == 0.0 || r.height == 0.0 ==> !Contains(r, p)
    ensures 0.0 <= r.width && 0.0 <= r.height ==>
      (Contains(r, p) <==> r.origin.x <= p.x < r.origin.x + r.width && r.origin.y <= p.y < r.origin.y + r.height)
  {
    var minX := if r.width < 0.0 then r.origin.x + r.width else r.origin.x;
    var minY := if r.height < 0.0 then r.origin.y + r.height else r.origin.y;
    var w := if r.width < 0.0 then -r.width else r.width;
    var h := if r.height < 0.0 then -r.height else r.height;
    minX <= p.x < minX + w && minY <= p.y < minY + h
  }

  /** Conversion from window coordinates into the view's own coordinates,
      for an unflipped, unscaled, unrotated view: the frame's origin maps to
      the bounds' origin, and distances are preserved. */
  function ConvertFromWindow(v: View, p: Point): (q: Point)
    ensures p == v.frameOrigin ==> q == v.bounds.origin
    ensures q.x - v.bounds.origin.x == p.x - v.frameOrigin.x
    ensures q.y - v.bounds.origin.y == p.y - v.frameOrigin.y
  {
    Point(p.x - v.frameOrigin.x + v.bounds.origin.x, p.y - v.frameOrigin.y + v.bounds.origin.y)
  }

  /** The coordinator attends to an event only if its view is alive, in a
      window, and the event's location lies within the view's bounds. Which
      window the event came from is not compared. A view whose bounds have
      no area receives nothing. */
  predicate Receives(c: Coordinator, e: WheelEvent)
    ensures Receives(c, e) ==> c.view.Some? && c.view.value.window.Some?
    ensures Receives(c, e) ==> c.view.value.bounds.width != 0.0 && c.view.value.bounds.height != 0.0
  {
    && c.view.Some?
    && c.view.value.window.Some?
    && Contains(c.view.value.bounds, ConvertFromWindow(c.view.value, e.locationInWindow))
  }

  /** The event's scrolling delta projected onto the coordinator's axis. */
  function AxisDelta(axis: Axis, e: WheelEvent): (d: real)
    ensures axis == Vertical ==> d == e.scrollingDeltaY
    ensures axis == Horizontal ==> d == e.scrollingDeltaX
  {
    Component(axis, e.scrollingDeltaX, e.scrollingDeltaY)
  }

  /** The gesture ended or was cancelled, or its momentum ended. A
      cancelled momentum phase alone does not count as an end. */
  predicate SignalsEnd(e: WheelEvent)
    ensures e.phase == Ended || e.phase == Cancelled || e.momentumPhase == Ended ==> SignalsEnd(e)
    ensures e.phase != Ended && e.phase != Cancelled && e.momentumPhase == Cancelled ==> !SignalsEnd(e)
  {
    e.phase == Ended || e.phase == Cancelled || e.momentumPhase == Ended
  }

  /** A coordinator as `makeCoordinator` creates it. */
  function NewCoordinator(): (c: Coordinator)
    ensures c.axis == Vertical
    ensures !c.hasOnDelta && !c.hasOnEnded
    ensures c.view.None? && c.monitor.None?
  {
    Coordinator(Vertical, false, false, None, None)
  }

  /** `installMonitor`: register only if the slot is empty. `registered`
      is what the event system hands back on registration, which may be
      no monitor at all; the slot then stays empty and a later install
      registers again. */
  function InstallMonitor(c: Coordinator, registered: Option<Monitor>): (c': Coordinator)
    ensures c.monitor.Some? ==> c' == c
    ensures c.monitor.None? ==> c' == c.(monitor := registered)
    ensures c'.monitor.Some? <==> c.monitor.Some? || registered.Some?
  {
    if c.monitor.Some? then c else c.(monitor := registered)
  }

  /** `handleScrollWheel`. */
  function HandleScrollWheel(c: Coordinator, e: WheelEvent): (d: Dispatch)
    ensures d.forwarded.Some? <==> Receives(c, e) && c.hasOnDelta && AxisDelta(c.axis, e) != 0.0
    ensures d.forwarded.Some? ==> d.forwarded.value == AxisDelta(c.axis, e)
    ensures d.endFired <==> Receives(c, e) && c.hasOnEnded && SignalsEnd(e)
  {
    if !Receives(c, e) then Dispatch(None, false)
    else
      var delta := AxisDelta(c.axis, e);
      var forwarded := if delta != 0.0 && c.hasOnDelta then Some(delta) else None;
      Dispatch(forwarded, c.hasOnEnded && SignalsEnd(e))
  }

  /** The monitor closure: handle the event, then return it unchanged. */
  function MonitorHandler(c: Coordinator, e: WheelEvent): (r: MonitorReply)
    ensures r.passedOn == e
    ensures r.dispatch == HandleScrollWheel(c, e)
  {
    MonitorReply(HandleScrollWheel(c, e), e)
  }

  /** `makeNSView`: a new zero-frame view outside any window, the given
      configuration, and the monitor installed. `onDelta` is not optional
      in the representable, so the coordinator always has one afterwards. */
  function MakeNSView(c: Coordinator, axis: Axis, hasOnEnded: bool, registered: Option<Monitor>): (c': Coordinator)
    ensures c'.axis == axis && c'.hasOnDelta && c'.hasOnEnded == hasOnEnded
    ensures c'.view == Some(View(None, Point(0.0, 0.0), Rect(Point(0.0, 0.0), 0.0, 0.0)))
    ensures c'.monitor.Some? <==> c.monitor.Some? || registered.Some?
    ensures c.monitor.Some? ==> c'.monitor == c.monitor
    ensures c.monitor.None? ==> c'.monitor == registered
  {
    var zero := Point(0.0, 0.0);
    var configured := c.(view := Some(View(None, zero, Rect(zero, 0.0, 0.0))),
                         axis := axis, hasOnDelta := true, hasOnEnded := hasOnEnded);
    InstallMonitor(configured, registered)
  }

  /** `updateNSView`: replace the axis and the closures; the view and the
      monitor are left alone (no reinstall). */
  function UpdateNSView(c: Coordinator, axis: Axis, hasOnEnded: bool): (c': Coordinator)
    ensures c'.axis == axis && c'.hasOnDelta && c'.hasOnEnded == hasOnEnded
    ensures c'.monitor == c.monitor && c'.view == c.view
  {
    c.(axis := axis, hasOnDelta := true, hasOnEnded := hasOnEnded)
  }

  /** `deinit`: the monitor to remove, if one was installed. */
  function Teardown(c: Coordinator): (removed: Option<Monitor>)
    ensures removed.Some? <==> c.monitor.Some?
    ensures removed.Some? ==> Some(removed.value) == c.monitor
  {
    c.monitor
  }

  /** Installs once per registration result, in order. */
  function InstallAll(c: Coordinator, results: seq<Option<Monitor>>): Coordinator
    decreases |results|
  {
    if |results| == 0 then c else InstallAll(InstallMonitor(c, results[0]), results[1..])
  }

  /** The first registration that produced a monitor, if any. */
  function FirstRegistered(results: seq<Option<Monitor>>): (m: Option<Monitor>)
    ensures m.Some? <==> exists i :: 0 <= i < |results| && results[i].Some?
    ensures m.Some? ==> exists i :: 0 <= i < |results| && results[i] == m
                          && forall j :: 0 <= j < i ==> results[j].None?
    decreases |results|
  {
    if |results| == 0 then None
    else if results[0].Some? then results[0]
    else
      var m := FirstRegistered(results[1..]);
      assert forall i :: 1 <= i < |results| ==> results[i] == results[1..][i - 1];
      m
  }

  /** The arguments of one `updateNSView` call. */
  datatype Update = Update(axis: Axis, hasOnEnded: bool)

  /** Applies `updateNSView` once per update, in order: the last update's
      configuration wins, and the view and monitor slot never change. */
  function UpdateAll(c: Coordinator, updates: seq<Update>): (c': Coordinator)
    ensures c'.monitor == c.monitor && c'.view == c.view
    ensures |updates| > 0 ==> c'.hasOnDelta
    ensures |updates| > 0 ==> c'.axis == updates[|updates| - 1].axis
    ensures |updates| > 0 ==> c'.hasOnEnded == updates[|updates| - 1].hasOnEnded
    decreases |updates|
  {
    if |updates| == 0 then c
    else UpdateAll(UpdateNSView(c, updates[0].axis, updates[0].hasOnEnded), updates[1..])
  }

  /** Reference for a stream: the projected deltas of the received events
      that are non-zero, in the order the events arrived. */
  function NonZeroReceived(c: Coordinator, events: seq<WheelEvent>): seq<real>
    decreases |events|
  {
    if |events| == 0 then []
    else
      var n := |events| - 1;
      var d := AxisDelta(c.axis, events[n]);
      NonZeroReceived(c, events[..n]) + (if Receives(c, events[n]) && d != 0.0 then [d] else [])
  }

  /** Reference for a stream: the positions of received events that signal
      the end of a gesture. */
  function EndingIndices(c: Coordinator, events: seq<WheelEvent>): set<nat>
  {
    set i: nat | i < |events| && Receives(c, events[i]) && SignalsEnd(events[i])
  }

  lemma EndingIndicesStep(c: Coordinator, events: seq<WheelEvent>, i: nat)
    requires i < |events|
    ensures EndingIndices(c, events[..i + 1])
         == EndingIndices(c, events[..i]) + (if Receives(c, events[i]) && SignalsEnd(events[i]) then {i} else {})
    ensures i !in EndingIndices(c, events[..i])
  {
    var a := events[..i + 1];
    var b := events[..i];
    assert forall j :: 0 <= j < i ==> a[j] == b[j];
  }

  /** The monitor driven over events delivered one at a time, in order,
      collecting what reaches `onDelta` and counting `onEnded` calls. */
  method MonitorStream(c: Coordinator, events: seq<WheelEvent>) returns (deltas: seq<real>, ends: nat)
    ensures deltas == (if c.hasOnDelta then NonZeroReceived(c, events) else [])
    ensures ends == (if c.hasOnEnded then |EndingIndices(c, events)| else 0)
  {
    deltas := [];
    ends := 0;
    var i := 0;
    while i < |events|
      invariant 0 <= i <= |events|
      invariant deltas == (if c.hasOnDelta then NonZeroReceived(c, events[..i]) else [])
      invariant ends == (if c.hasOnEnded then |EndingIndices(c, events[..i])| else 0)
    {
      var reply := MonitorHandler(c, events[i]);
      assert events[..i + 1][..i] == events[..i];
      assert events[..i + 1][i] == events[i];
      EndingIndicesStep(c, events, i);
      if reply.dispatch.forwarded.Some? {
        deltas := deltas + [reply.dispatch.forwarded.value];
      }
      if reply.dispatch.endFired {
        ends := ends + 1;
      }
      i := i + 1;
    }
    assert events[..|events|] == events;
  }

  // ---------------------------------------------------------------------
  // Properties

  /** Repeated installs before teardown never replace a filled slot; an
      empty slot ends up holding the first monitor any registration
      produced, and stays empty while registrations produce none. */
  lemma {:induction false} InstallIsIdempotent(c: Coordinator, results: seq<Option<Monitor>>)
    ensures c.monitor.Some? ==> InstallAll(c, results) == c
    ensures c.monitor.None? ==> InstallAll(c, results) == c.(monitor := FirstRegistered(results))
    decreases |results|
  {
    if |results| > 0 {
      InstallIsIdempotent(InstallMonitor(c, results[0]), results[1..]);
    }
  }

  /** Without a live view in a window, an event has no effect at all. */
  lemma NoWindowNoEffect(c: Coordinator, e: WheelEvent)
    requires c.view.None? || c.view.value.window.None?
    ensures HandleScrollWheel(c, e) == Dispatch(None, false)
  {
  }

  /** An event outside the view's bounds has no effect at all. */
  lemma OutOfBoundsNoEffect(c: Coordinator, e: WheelEvent)
    requires c.view.Some?
    requires !Contains(c.view.value.bounds, ConvertFromWindow(c.view.value, e.locationInWindow))
    ensures HandleScrollWheel(c, e) == Dispatch(None, false)
  {
  }

  /** The window an event was delivered to plays no part: the monitor sees
      the events of every window, and only the location is tested. */
  lemma EventWindowIgnored(c: Coordinator, e: WheelEvent, w: WindowId)
    ensures HandleScrollWheel(c, e.(window := w)) == HandleScrollWheel(c, e)
  {
  }

  /** A concrete case: the view is in window 1, and an event delivered to
      window 2 at a location that converts into the view's bounds is
      forwarded. */
  lemma CrossWindowEventForwarded(c: Coordinator, e: WheelEvent)
    requires c == Coordinator(Vertical, true, false,
      Some(View(Some(1), Point(0.0, 0.0), Rect(Point(0.0, 0.0), 100.0, 100.0))), Some(0))
    requires e == WheelEvent(2, Point(10.0, 10.0), 0.0, 5.0, Changed, NoPhase)
    ensures Some(e.window) != c.view.value.window
    ensures HandleScrollWheel(c, e).forwarded == Some(5.0)
  {
    SampleLocationInBounds(c.view.value, e.locationInWindow);
    assert Receives(c, e);
  }

  lemma SampleLocationInBounds(v: View, p: Point)
    requires v == View(Some(1), Point(0.0, 0.0), Rect(Point(0.0, 0.0), 100.0, 100.0))
    requires p == Point(10.0, 10.0)
    ensures Contains(v.bounds, ConvertFromWindow(v, p))
  {
    assert ConvertFromWindow(v, p) == p;
  }

  /** Right after `makeNSView` the view has a zero frame and no window, so
      every event is ignored until the host lays it out in a window. */
  lemma FreshViewIgnoresEvents(c: Coordinator, axis: Axis, hasOnEnded: bool, registered: Option<Monitor>, e: WheelEvent)
    ensures HandleScrollWheel(MakeNSView(c, axis, hasOnEnded, registered), e) == Dispatch(None, false)
  {
  }

  /** Whether the end closure fires does not depend on the deltas, that is,
      on whether anything was forwarded. */
  lemma EndIndependentOfDelta(c: Coordinator, e: WheelEvent, dx: real, dy: real)
    ensures HandleScrollWheel(c, e.(scrollingDeltaX := dx, scrollingDeltaY := dy)).endFired
         == HandleScrollWheel(c, e).endFired
  {
  }

  /** A stream forwards only non-zero deltas, never more than there were
      events; and when every event is received and non-zero, each event's
      projected delta is forwarded exactly once, in order. */
  lemma {:induction false} ForwardedAreNonZero(c: Coordinator, events: seq<WheelEvent>)
    ensures var f := NonZeroReceived(c, events);
      forall k :: 0 <= k < |f| ==> f[k] != 0.0
    ensures |NonZeroReceived(c, events)| <= |events|
    ensures (forall i :: 0 <= i < |events| ==> Receives(c, events[i]) && AxisDelta(c.axis, events[i]) != 0.0)
        ==> |NonZeroReceived(c, events)| == |events|
            && forall i :: 0 <= i < |events| ==> NonZeroReceived(c, events)[i] == AxisDelta(c.axis, events[i])
    decreases |events|
  {
    if |events| > 0 {
      var n := |events| - 1;
      var prefix := events[..n];
      ForwardedAreNonZero(c, prefix);
      assert forall i :: 0 <= i < n ==> prefix[i] == events[i];
    }
  }

  /** `updateNSView` never reinstalls: after an install and any number of
      updates, teardown removes the monitor that the install left. */
  lemma UpdateKeepsMonitor(c: Coordinator, registered: Option<Monitor>, updates: seq<Update>)
    ensures Teardown(UpdateAll(InstallMonitor(c, registered), updates))
         == (if c.monitor.Some? then c.monitor else registered)
  {
  }
}
