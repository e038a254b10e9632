/** The drag-based offset accumulator (ScrollGestureRecorder.swift).

    The recorder privately owns `baseOffset`, the total committed by every
    completed drag session, and writes the live value to its `offset`
    binding. A drag reports translations measured from the session's start,
    so `onChanged` overwrites the binding with `baseOffset + translation`
    and `onEnded` commits the final translation into `baseOffset`.

    `offset` in the state below is the value most recently written to the
    binding (or the binding's value before any write). The next state never
    depends on it; the lemmas below make that precise. The value handed to
    the `onEnded` closure is taken to be the value just written. */
module GestureRecorder {
  import opened ScrollAxis
  import opened Wrappers

  /** The drag gesture's translation from its start point (a CGSize). */
  datatype Translation = Translation(width: real, height: real)

  /** One callback of the drag gesture. */
  datatype DragEvent =
    | Changed(translation: Translation)
    | Ended(translation: Translation)

  /** `notifiesEnd` records whether an `onEnded` closure was supplied. */
  datatype Recorder = Recorder(axis: Axis, notifiesEnd: bool, baseOffset: real, offset: real)

  /** One completed drag session: its intermediate samples and its final
      translation. */
  datatype Session = Session(moves: seq<Translation>, last: Translation)

  /** The translation projected onto the recorder's axis. */
  function Projected(axis: Axis, t: Translation): (d: real)
    ensures axis == Vertical ==> d == t.height
    ensures axis == Horizontal ==> d == t.width
  {
    Component(axis, t.width, t.height)
  }

  /** A freshly created recorder: the axis and the closure are stored as
      given, the binding keeps whatever it held, and nothing is committed. */
  function Make(offset: real, axis: Axis, notifiesEnd: bool): (r: Recorder)
    ensures r.baseOffset == 0.0
    ensures r.axis == axis && r.notifiesEnd == notifiesEnd
    ensures r.offset == offset
  {
    Recorder(axis, notifiesEnd, 0.0, offset)
  }

  /** `onChanged`: the binding shows the committed base plus the current
      session's translation; nothing is committed. */
  function OnChanged(r: Recorder, t: Translation): (r': Recorder)
    ensures r'.offset - r'.baseOffset == Projected(r.axis, t)
    ensures r'.baseOffset == r.baseOffset
    ensures r'.axis == r.axis && r'.notifiesEnd == r.notifiesEnd
  {
    r.(offset := r.baseOffset + Projected(r.axis, t))
  }

  /** Result of `onEnded`: the new state and the value passed to the
      optional `onEnded` closure (None when no closure is wired). */
  datatype EndStep = EndStep(next: Recorder, reported: Option<real>)

  /** `onEnded`: commit the final translation, show the committed value,
      and hand that same value to the closure if there is one. */
  function OnEnded(r: Recorder, t: Translation): (s: EndStep)
    ensures s.next.baseOffset - r.baseOffset == Projected(r.axis, t)
    ensures s.next.offset == s.next.baseOffset
    ensures s.next.axis == r.axis && s.next.notifiesEnd == r.notifiesEnd
    ensures s.reported.Some? <==> r.notifiesEnd
    ensures s.reported.Some? ==> s.reported.value == s.next.offset
  {
    var committed := r.baseOffset + Projected(r.axis, t);
    var next := r.(baseOffset := committed, offset := committed);
    EndStep(next, if r.notifiesEnd then Some(next.offset) else None)
  }

  /** One drag callback: `onChanged` shows base plus translation, `onEnded`
      commits the translation into the base and shows it. The configuration
      is kept. */
  function Step(r: Recorder, e: DragEvent): (r': Recorder)
    ensures r'.axis == r.axis && r'.notifiesEnd == r.notifiesEnd
    ensures e.Changed? ==> r'.baseOffset == r.baseOffset
    ensures e.Changed? ==> r'.offset == r.baseOffset + Projected(r.axis, e.translation)
    ensures e.Ended? ==> r'.baseOffset == r.baseOffset + Projected(r.axis, e.translation)
    ensures e.Ended? ==> r'.offset == r'.baseOffset
  {
    match e
    case Changed(t) => OnChanged(r, t)
    case Ended(t) => OnEnded(r, t).next
  }

  /** The modifier re-created by its parent with a new axis or closure:
      the `@State` base and the binding survive, only the configuration is
      replaced. */
  function Reconfigure(r: Recorder, axis: Axis, notifiesEnd: bool): (r': Recorder)
    ensures r'.axis == axis && r'.notifiesEnd == notifiesEnd
    ensures r'.baseOffset == r.baseOffset && r'.offset == r.offset
  {
    r.(axis := axis, notifiesEnd := notifiesEnd)
  }

  /** The state after handling the events in order. */
  function Run(r: Recorder, events: seq<DragEvent>): Recorder
    decreases |events|
  {
    if |events| == 0 then r else Run(Step(r, events[0]), events[1..])
  }

  /** The values handed to the `onEnded` closure, in order. */
  function Reports(r: Recorder, events: seq<DragEvent>): seq<real>
    decreases |events|
  {
    if |events| == 0 then []
    else
      var here := match events[0]
        case Changed(_) => []
        case Ended(t) => var s := OnEnded(r, t); if s.reported.Some? then [s.reported.value] else [];
      here + Reports(Step(r, events[0]), events[1..])
  }

  function Moves(ts: seq<Translation>): (es: seq<DragEvent>)
    ensures |es| == |ts|
    ensures forall i :: 0 <= i < |ts| ==> es[i] == Changed(ts[i])
  {
    if |ts| == 0 then [] else [Changed(ts[0])] + Moves(ts[1..])
  }

  function SessionEvents(s: Session): seq<DragEvent>
  {
    Moves(s.moves) + [Ended(s.last)]
  }

  /** The event stream of consecutive completed sessions. */
  function Flatten(ss: seq<Session>): seq<DragEvent>
    decreases |ss|
  {
    if |ss| == 0 then [] else SessionEvents(ss[0]) + Flatten(ss[1..])
  }

  /** The sum of each session's final projected translation. */
  function SumOfFinals(axis: Axis, ss: seq<Session>): real
    decreases |ss|
  {
    if |ss| == 0 then 0.0 else Projected(axis, ss[0].last) + SumOfFinals(axis, ss[1..])
  }

  // ---------------------------------------------------------------------
  // Single-step properties

  /** Overwrite semantics: the last `onChanged` wins, so repeating one has
      no further effect. */
  lemma OnChangedOverwrites(r: Recorder, t1: Translation, t2: Translation)
    ensures OnChanged(OnChanged(r, t1), t2) == OnChanged(r, t2)
    ensures OnChanged(OnChanged(r, t2), t2) == OnChanged(r, t2)
  {
  }

  /** Ending a session that did not move along the axis causes no drift. */
  lemma EndWithoutTranslationNoDrift(r: Recorder, t: Translation)
    requires Projected(r.axis, t) == 0.0
    ensures OnEnded(r, t).next.baseOffset == r.baseOffset
    ensures OnEnded(r, t).next.offset == r.baseOffset
  {
  }

  /** The next state never depends on the binding: any external write to
      `offset` is replaced by the next event. */
  lemma StepIgnoresOffset(r: Recorder, external: real, e: DragEvent)
    ensures Step(r.(offset := external), e) == Step(r, e)
  {
  }

  // ---------------------------------------------------------------------
  // Properties of event sequences

  lemma {:induction false} RunAppend(r: Recorder, a: seq<DragEvent>, b: seq<DragEvent>)
    ensures Run(r, a + b) == Run(Run(r, a), b)
    decreases |a|
  {
    if |a| == 0 {
      assert a + b == b;
    } else {
      assert (a + b)[0] == a[0];
      assert (a + b)[1..] == a[1..] + b;
      RunAppend(Step(r, a[0]), a[1..], b);
    }
  }

  /** Drag events never change the axis or the closure; only
      `Reconfigure` does. */
  lemma {:induction false} RunKeepsConfiguration(r: Recorder, events: seq<DragEvent>)
    ensures Run(r, events).axis == r.axis
    ensures Run(r, events).notifiesEnd == r.notifiesEnd
    decreases |events|
  {
    if |events| > 0 {
      RunKeepsConfiguration(Step(r, events[0]), events[1..]);
    }
  }

  /** Any non-empty stream of events leaves the binding independent of what
      it held before: external writes never influence the result. */
  lemma {:induction false} RunIgnoresOffset(r: Recorder, external: real, events: seq<DragEvent>)
    requires |events| > 0
    ensures Run(r.(offset := external), events) == Run(r, events)
  {
    StepIgnoresOffset(r, external, events[0]);
  }

  /** Intermediate samples never contribute to the committed base. */
  lemma {:induction false} MovesKeepBase(r: Recorder, ts: seq<Translation>)
    ensures Run(r, Moves(ts)).baseOffset == r.baseOffset
    ensures Run(r, Moves(ts)).axis == r.axis
    ensures |ts| > 0 ==> Run(r, Moves(ts)).offset == r.baseOffset + Projected(r.axis, ts[|ts| - 1])
    decreases |ts|
  {
    if |ts| > 0 {
      var es := Moves(ts);
      assert es[1..] == Moves(ts[1..]);
      MovesKeepBase(Step(r, es[0]), ts[1..]);
    }
  }

  /** A completed session commits exactly its final translation, and
      afterwards the binding equals the base. */
  lemma SessionCommitsLast(r: Recorder, s: Session)
    ensures Run(r, SessionEvents(s)).baseOffset == r.baseOffset + Projected(r.axis, s.last)
    ensures Run(r, SessionEvents(s)).offset == Run(r, SessionEvents(s)).baseOffset
    ensures Run(r, SessionEvents(s)).axis == r.axis
  {
    RunAppend(r, Moves(s.moves), [Ended(s.last)]);
    MovesKeepBase(r, s.moves);
    var mid := Run(r, Moves(s.moves));
    assert Run(mid, [Ended(s.last)]) == Run(Step(mid, Ended(s.last)), []);
  }

  /** After any sequence of completed sessions, the committed base has grown
      by the sum of the sessions' final translations, whatever the
      intermediate samples were, and the binding equals the base. */
  lemma {:induction false} SessionsAccumulate(r: Recorder, ss: seq<Session>)
    ensures Run(r, Flatten(ss)).baseOffset == r.baseOffset + SumOfFinals(r.axis, ss)
    ensures |ss| > 0 ==> Run(r, Flatten(ss)).offset == Run(r, Flatten(ss)).baseOffset
    decreases |ss|
  {
    if |ss| > 0 {
      RunAppend(r, SessionEvents(ss[0]), Flatten(ss[1..]));
      SessionCommitsLast(r, ss[0]);
      var mid := Run(r, SessionEvents(ss[0]));
      SessionsAccumulate(mid, ss[1..]);
    }
  }

  /** From a fresh recorder, the base after any sequence of sessions is the
      sum of their final translations. */
  lemma FreshSessionsSum(offset: real, axis: Axis, notifiesEnd: bool, ss: seq<Session>)
    ensures Run(Make(offset, axis, notifiesEnd), Flatten(ss)).baseOffset == SumOfFinals(axis, ss)
  {
    SessionsAccumulate(Make(offset, axis, notifiesEnd), ss);
  }

  /** Whenever the last event was an end, the binding equals the base. */
  lemma IdleMeansSettled(r: Recorder, events: seq<DragEvent>)
    requires |events| > 0 && events[|events| - 1].Ended?
    ensures Run(r, events).offset == Run(r, events).baseOffset
  {
    var n := |events| - 1;
    assert events == events[..n] + [events[n]];
    RunAppend(r, events[..n], [events[n]]);
    var mid := Run(r, events[..n]);
    assert Run(mid, [events[n]]) == Run(Step(mid, events[n]), []);
  }

  /** The `onEnded` closure is only called when one was supplied, and the
      last value it received is the current committed base. */
  lemma {:induction false} ReportsTrackBase(r: Recorder, events: seq<DragEvent>)
    ensures !r.notifiesEnd ==> Reports(r, events) == []
    ensures var rs := Reports(r, events);
      |rs| > 0 ==> rs[|rs| - 1] == Run(r, events).baseOffset
    ensures Reports(r, events) == [] && r.notifiesEnd ==> Run(r, events).baseOffset == r.baseOffset
    decreases |events|
  {
    if |events| > 0 {
      var next := Step(r, events[0]);
      ReportsTrackBase(next, events[1..]);
    }
  }

  /** The scenario of two sessions: 0, 10, 25 then end at 25; then 0, -5
      and end at -5. The binding settles at 25 and then at 20. */
  lemma TwoSessionScenario()
    ensures var r := Make(0.0, Vertical, false);
      var s1 := Session([Translation(0.0, 0.0), Translation(0.0, 10.0), Translation(0.0, 25.0)], Translation(0.0, 25.0));
      var s2 := Session([Translation(0.0, 0.0), Translation(0.0, -5.0)], Translation(0.0, -5.0));
      && Run(r, Flatten([s1])).offset == 25.0
      && Run(r, Flatten([s1, s2])).offset == 20.0
      && Run(r, Flatten([s1, s2])).baseOffset == 20.0
  {
    var r := Make(0.0, Vertical, false);
    var s1 := Session([Translation(0.0, 0.0), Translation(0.0, 10.0), Translation(0.0, 25.0)], Translation(0.0, 25.0));
    var s2 := Session([Translation(0.0, 0.0), Translation(0.0, -5.0)], Translation(0.0, -5.0));
    assert SumOfFinals(Vertical, [s2]) == -5.0 by {
      assert [s2][1..] == [];
    }
    assert SumOfFinals(Vertical, [s1]) == 25.0 by {
      assert [s1][1..] == [];
    }
    assert SumOfFinals(Vertical, [s1, s2]) == 20.0 by {
      assert [s1, s2][1..] == [s2];
    }
    SessionsAccumulate(r, [s1]);
    SessionsAccumulate(r, [s1, s2]);
  }
}
