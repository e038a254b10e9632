# Scroll Engine: a Dafny model of its gesture core

Scroll Engine is a small SwiftUI/AppKit library. It attaches a gesture to a
view and exposes the offset accumulated along one axis as reactive state.
Most of it is view-composition glue. This project models the three pieces
that have behaviour, as pure step functions over immutable state:

- **`GestureRecorder`** (`ScrollGestureRecorder.swift`) is the drag offset
  accumulator. Its state is the axis, whether an `onEnded` closure was
  supplied, the private `baseOffset` (starts at 0) and `offset`, the value
  last written to the caller's binding. `onChanged(t)` overwrites `offset`
  with `baseOffset + t`. `onEnded(t)` commits `baseOffset + t`, writes it to
  the binding and passes it to the closure. The next state never depends on
  the binding's current value. `t` is the drag translation
  projected onto the axis: height for vertical, width for horizontal.
- **`WheelCapture`** (`ScrollWheelCapture.swift`) is the macOS scroll-wheel
  coordinator. It has an optional monitor slot that is filled at most once.
  Each event passes a filter: the view is alive, it is in a window, and the
  event's location lies inside its bounds. The monitor sees the events of
  every window of the application, and the code never checks which window
  an event came from. An event from another window whose location converts
  into the bounds is therefore handled too; `WheelCapture.EventWindowIgnored`
  and `WheelCapture.CrossWindowEventForwarded` state this. The event's scrolling delta is projected
  onto the axis and forwarded unless it is zero. The end closure fires when
  the phase is ended or cancelled, or the momentum phase is ended. The event
  is always passed on. This component is not connected to the recorder and
  accumulates nothing.
- **`ScrollEngine`** (`ScrollEngine.swift`) holds the three public entry
  points. Each wires a recorder with no `onEnded` closure and a vertical
  default axis. The `Int` binding adapter reads exactly and truncates toward
  zero on write. The callback variant keeps a private offset that starts at
  0 and calls `onChange` whenever that offset changes.
- **`ScrollAxis`** (`ScrollAxis.swift`) is the two-constructor `Axis`
  that all three pieces share. It also holds the projection of a
  two-dimensional quantity onto the axis, which the recorder and the wheel
  capture both use.

Swift's `Double` and `CGFloat` are modelled as Dafny `real`. This is an
abstraction: the code only adds and truncates, so exact arithmetic gives
the intended result. Rounding, NaN and infinities are not modelled.
`Int(Double)` is modelled as truncation toward zero. It requires the value
to lie strictly between −2^63 − 1 and 2^63, because Swift traps outside
that range.

Sequences of drag events are folded with `GestureRecorder.Run`.
`GestureRecorder.Session` groups a run of `onChanged` samples with the
closing `onEnded`. The wheel monitor is driven over a stream of events, one
at a time and in order, by the method `WheelCapture.MonitorStream`.

The drag gesture has no explicit session-start event. A new `onChanged`
always overwrites the offset relative to the committed base, so an
overlapping start needs no special policy.

## Model

| member | source | states |
|---|---|---|
| ScrollAxis.Component | Sources/ScrollEngine/ScrollGestureRecorder.swift:23-28 | the vertical axis selects the height/y component and the horizontal axis the width/x component |
| ScrollAxis.ComponentIgnoresOtherAxis | Sources/ScrollEngine/ScrollGestureRecorder.swift:23-28 | the projection never mixes components: the component that is not selected has no influence |
| GestureRecorder.Projected | Sources/ScrollEngine/ScrollGestureRecorder.swift:22-28 | the drag translation projects to its height when vertical and to its width when horizontal |
| GestureRecorder.Make | Sources/ScrollEngine/ScrollGestureRecorder.swift:11-15 | a fresh recorder has baseOffset 0, stores the given axis and closure unchanged, and leaves the binding as it was |
| GestureRecorder.OnChanged | Sources/ScrollEngine/ScrollGestureRecorder.swift:21-30 | after onChanged the binding exceeds the base by exactly the projected translation; the base, axis and closure are unchanged |
| GestureRecorder.OnEnded | Sources/ScrollEngine/ScrollGestureRecorder.swift:31-42 | onEnded grows the base by exactly the projected translation, the binding then equals the base, and the closure (if any) receives that value; nothing is reported without a closure |
| GestureRecorder.OnChangedOverwrites | Sources/ScrollEngine/ScrollGestureRecorder.swift:29 | overwrite semantics: the last onChanged wins, and repeating one is idempotent |
| GestureRecorder.EndWithoutTranslationNoDrift | Sources/ScrollEngine/ScrollGestureRecorder.swift:39-40 | ending a session with zero projected translation leaves the base unchanged |
| GestureRecorder.Step | Sources/ScrollEngine/ScrollGestureRecorder.swift:21-42 | a drag callback keeps the axis and closure; onChanged sets the binding to base plus projected translation without moving the base; onEnded grows the base by the projected translation and the binding then equals the base |
| GestureRecorder.Reconfigure | Sources/ScrollEngine/ScrollGestureRecorder.swift:11-15 | re-creating the modifier with a new axis or closure replaces only the configuration; the @State base and the binding survive |
| GestureRecorder.StepIgnoresOffset | Sources/ScrollEngine/ScrollGestureRecorder.swift:29-40 | the next state never depends on the binding: a state that differs only in offset gives the same next state |
| GestureRecorder.RunIgnoresOffset | Sources/ScrollEngine/ScrollGestureRecorder.swift:21-42 | after any non-empty stream of events, an external write to the binding before it has no effect |
| GestureRecorder.RunKeepsConfiguration | Sources/ScrollEngine/ScrollGestureRecorder.swift:12-13 | drag events never change the axis or the presence of the onEnded closure (only re-creating the modifier does) |
| GestureRecorder.MovesKeepBase | Sources/ScrollEngine/ScrollGestureRecorder.swift:21-30 | intermediate samples never change the base, and the binding shows base plus the latest sample |
| GestureRecorder.SessionCommitsLast | Sources/ScrollEngine/ScrollGestureRecorder.swift:31-42 | a completed session commits exactly its final translation, whatever its intermediate samples, and leaves binding equal to base |
| GestureRecorder.SessionsAccumulate | Sources/ScrollEngine/ScrollGestureRecorder.swift:15-42 | after any sequence of completed sessions the base has grown by the sum of their final translations, and the binding equals the base |
| GestureRecorder.FreshSessionsSum | Sources/ScrollEngine/ScrollGestureRecorder.swift:15-42 | from a fresh recorder the base is exactly the sum of the sessions' final translations |
| GestureRecorder.IdleMeansSettled | Sources/ScrollEngine/ScrollGestureRecorder.swift:39-40 | whenever the last event was an end, the binding equals the base |
| GestureRecorder.ReportsTrackBase | Sources/ScrollEngine/ScrollGestureRecorder.swift:41 | the onEnded closure is never called when absent, and the last value it received is the current base |
| GestureRecorder.TwoSessionScenario | Sources/ScrollEngine/ScrollGestureRecorder.swift:21-42 | samples 0, 10, 25 ending at 25 settle at 25; a second session 0, −5 ending at −5 settles at 20 |
| WheelCapture.NewCoordinator | Sources/ScrollEngine/ScrollWheelCapture.swift:46-51 | a new coordinator is vertical, has no closures, no view and an empty monitor slot |
| WheelCapture.InstallMonitor | Sources/ScrollEngine/ScrollWheelCapture.swift:51-59 | a filled slot is left alone; an empty slot takes whatever registration returned, so a registration that returns no monitor leaves it empty; afterwards the slot is filled iff it was filled or registration produced a monitor |
| WheelCapture.Contains | Sources/ScrollEngine/ScrollWheelCapture.swift:64 | a bounds rectangle without area contains nothing; one with non-negative sides contains exactly the points from its origin up to, excluding, its far edges |
| WheelCapture.ConvertFromWindow | Sources/ScrollEngine/ScrollWheelCapture.swift:63 | conversion maps the frame's origin to the bounds' origin and preserves distances |
| WheelCapture.Receives | Sources/ScrollEngine/ScrollWheelCapture.swift:62-64 | an event is received only by a live view that is in a window and whose bounds have area |
| WheelCapture.SignalsEnd | Sources/ScrollEngine/ScrollWheelCapture.swift:78-80 | a phase of ended or cancelled, or a momentum phase of ended, signals the end; a cancelled momentum phase alone does not |
| WheelCapture.AxisDelta | Sources/ScrollEngine/ScrollWheelCapture.swift:66-72 | the delta is scrollingDeltaY for vertical and scrollingDeltaX for horizontal |
| WheelCapture.HandleScrollWheel | Sources/ScrollEngine/ScrollWheelCapture.swift:61-83 | a delta is forwarded iff the view is alive, in a window, the event is inside its bounds, onDelta is set and the projected delta is non-zero, and then it is forwarded unchanged; the end closure fires iff the same filter passes, onEnded is set and the phase is ended/cancelled or momentum ended |
| WheelCapture.MonitorHandler | Sources/ScrollEngine/ScrollWheelCapture.swift:55-58 | the monitor handles the event and returns the original event unchanged (observed, never consumed) |
| WheelCapture.MakeNSView | Sources/ScrollEngine/ScrollWheelCapture.swift:24-33 | makeNSView stores a zero-frame view without window and the axis and closures; an existing monitor is kept, otherwise the slot holds the registration result, which may be empty |
| WheelCapture.UpdateNSView | Sources/ScrollEngine/ScrollWheelCapture.swift:35-40 | updateNSView replaces the axis and closures and never touches the view or the monitor slot |
| WheelCapture.Teardown | Sources/ScrollEngine/ScrollWheelCapture.swift:85-89 | teardown removes a monitor iff one is installed, and exactly that one |
| WheelCapture.UpdateAll | Sources/ScrollEngine/ScrollWheelCapture.swift:35-40 | after any number of updateNSView calls the last one's configuration is in force, and the view and monitor slot are as before |
| WheelCapture.MonitorStream | Sources/ScrollEngine/ScrollWheelCapture.swift:55-83 | for events delivered one at a time in order, onDelta receives exactly the non-zero projected deltas of the received events, in order (nothing without onDelta), and onEnded fires once per received event that signals an end (never without onEnded) |
| WheelCapture.FirstRegistered | Sources/ScrollEngine/ScrollWheelCapture.swift:54-55 | reference: the first registration result that is a monitor, characterised by position (present iff some result is a monitor, and every earlier result is empty) |
| WheelCapture.InstallIsIdempotent | Sources/ScrollEngine/ScrollWheelCapture.swift:51-55 | any number of installs never replaces a filled slot; an empty slot ends up holding the first monitor any registration produced, and stays empty if none did |
| WheelCapture.NoWindowNoEffect | Sources/ScrollEngine/ScrollWheelCapture.swift:62 | without a live view in a window an event forwards nothing and fires no end |
| WheelCapture.OutOfBoundsNoEffect | Sources/ScrollEngine/ScrollWheelCapture.swift:63-64 | an event outside the view's bounds forwards nothing and fires no end |
| WheelCapture.EventWindowIgnored | Sources/ScrollEngine/ScrollWheelCapture.swift:61-64 | the window an event was delivered to plays no part in how it is handled |
| WheelCapture.CrossWindowEventForwarded | Sources/ScrollEngine/ScrollWheelCapture.swift:55-64 | an event delivered to another window, at a location that converts into the view's bounds, is forwarded |
| WheelCapture.FreshViewIgnoresEvents | Sources/ScrollEngine/ScrollWheelCapture.swift:25-31 | right after makeNSView every event is ignored, because the new view has no window yet |
| WheelCapture.EndIndependentOfDelta | Sources/ScrollEngine/ScrollWheelCapture.swift:74-82 | whether the end closure fires does not depend on the deltas, that is, on whether anything was forwarded |
| WheelCapture.ForwardedAreNonZero | Sources/ScrollEngine/ScrollWheelCapture.swift:74-76 | a stream forwards only non-zero deltas, no more than there were events; when every event is received and non-zero, each event's delta is forwarded once, in order |
| WheelCapture.UpdateKeepsMonitor | Sources/ScrollEngine/ScrollWheelCapture.swift:35-40 | after an install and any number of updates, teardown removes exactly the monitor the install left (the existing one, else the registration result, possibly none): updates never reinstall |
| ScrollEngine.InIntRange | Sources/ScrollEngine/ScrollEngine.swift:78 | the write is defined exactly when the value truncated toward zero fits in a 64-bit Int |
| ScrollEngine.Trunc | Sources/ScrollEngine/ScrollEngine.swift:62-63 | truncation toward zero: for x ≥ 0 the result is the greatest integer ≤ x, and for x < 0 the least integer ≥ x |
| ScrollEngine.IntGet | Sources/ScrollEngine/ScrollEngine.swift:77 | reading the Int binding yields the stored integer as an exact whole real |
| ScrollEngine.IntSet | Sources/ScrollEngine/ScrollEngine.swift:78 | writing x stores an Int within 64-bit range, less than 1 away from x, on the same side of zero and no farther from zero than x |
| ScrollEngine.TruncExamples | Sources/ScrollEngine/ScrollEngine.swift:62-63 | 3.9 truncates to 3 and −3.9 to −3 |
| ScrollEngine.IntWriteReadExactIffWhole | Sources/ScrollEngine/ScrollEngine.swift:76-79 | reading back a written value returns it exactly iff it was whole |
| ScrollEngine.IntReadWriteRoundTrip | Sources/ScrollEngine/ScrollEngine.swift:76-79 | writing back what was read through the Int binding changes nothing |
| ScrollEngine.ScrollGestureDouble | Sources/ScrollEngine/ScrollEngine.swift:27-32 | the Double entry point gives a recorder on the given (default vertical) axis with no onEnded closure and base 0 |
| ScrollEngine.ScrollGestureInt | Sources/ScrollEngine/ScrollEngine.swift:72-83 | the Int entry point gives a recorder on the given (default vertical) axis with no onEnded closure, base 0, seeing the stored integer exactly |
| ScrollEngine.ScrollGestureCallback | Sources/ScrollEngine/ScrollEngine.swift:89-103 | the callback entry point gives a recorder with no onEnded closure whose private offset starts at 0 |
| ScrollEngine.EntryPointsDefaults | Sources/ScrollEngine/ScrollEngine.swift:27-83 | all three entry points default to the vertical axis and wire no onEnded closure |
| ScrollEngine.IntStep | Sources/ScrollEngine/ScrollEngine.swift:76-82 | one drag callback through the Int adapter: the caller's integer is Int of the value written (base plus projected translation on a change), the base moves as with a Double binding, and the recorder's binding then reads back that integer |
| ScrollEngine.IntSinkComposition | Sources/ScrollEngine/ScrollEngine.swift:76-82 | although the recorder reads back truncated integers through the Int adapter, it evolves as with a Double binding apart from that read-back, because its next state never depends on the binding: its base is never truncated, and the integer is the truncation of the last written value |
| ScrollEngine.IntSinkSessions | Sources/ScrollEngine/ScrollEngine.swift:76-82 | after completed sessions through the Int adapter the base is the exact sum of final translations and the integer is that sum truncated toward zero |
| ScrollEngine.CallbackStep | Sources/ScrollEngine/ScrollEngine.swift:104-106 | onChange is called iff the private offset changed, and then with the new value |
| ScrollEngine.NotificationsTrackOffset | Sources/ScrollEngine/ScrollEngine.swift:93-106 | onChange is never stale: its last value is the current offset, silence means the offset equals its start value, the first value differs from the start, and consecutive values differ |
| ScrollEngine.CallbackFromStart | Sources/ScrollEngine/ScrollEngine.swift:50-51 | from the callback entry point, a private offset other than 0 implies onChange has been called, and its last value is the current offset |

## Left out

- SwiftUI and AppKit plumbing is not modelled: `ViewModifier` bodies, `DragGesture` recognition, and `@State`/`@Binding` storage. A binding is a value in the state. The gesture is a sequence of `Changed`/`Ended` events. Because the sequence is arbitrary, sessions that never end are allowed, such as a cancelled drag for which SwiftUI never calls `onEnded`.
- SwiftUI `onChange(of:)` coalescing is not modelled. Several writes within one render pass may produce a single call in SwiftUI. The model compares every write with the previous value.
- `NSEvent.addLocalMonitorForEvents` and `removeMonitor` are not modelled. The registration result is a parameter, an optional token (`Any?` in the code), and teardown returns the token to remove.
- Weak references are only partly modelled. A missing view is `None`. The coordinator itself is assumed alive while its monitor runs, so `[weak self]` is not modelled.
- `view.convert(_:from:)` is modelled only as a translation by the frame origin plus the bounds origin. Flipped, scaled and rotated views are not modelled.
- `CGRect.contains` is a half-open test on the standardised rectangle. Null and infinite rectangles are not modelled.
- IEEE-754 behaviour is not modelled: rounding, NaN, infinities and non-associativity. `Double`/`CGFloat` are `real`. Trapping in `Int(Double)` is excluded by a range precondition.
- The doc comment saying that `hitTest` returns nil is not modelled, because no code implements it.
- Accumulating wheel deltas into an offset, and falling back from wheel capture to dragging, are not modelled. No code implements them, and the wheel capture is not wired to any recorder.
- GestureRecorder.OnEnded: the closure receives the value just written. In the code it receives the binding read back through its getter. The two agree for a plain value binding, but not for a getter that changes the value; no entry point wires an `onEnded` closure, so this never arises in the library.
- ScrollEngine.IntReadWriteRoundTrip: holds under the exact-real model. In Swift, integers beyond 2^53 are rounded by `Double(_:)`, and `Int.max` reads back as 2^63, which traps on write.
- Window identity is only partly modelled. An event carries the window it was delivered to, and a view the window it is in. The code never compares the two, so the model does not compare them either.
- `Package.swift` (build manifest) and the remaining compile-only tests are not modelled.
