/** The axis along which a scroll gesture is tracked (ScrollAxis.swift). */
module ScrollAxis {

  datatype Axis = Vertical | Horizontal

  /** Projects a two-dimensional quantity onto the axis: the vertical axis
      selects the height / y component, the horizontal axis the width / x
      component. Both the drag recorder and the wheel capture use this. */
  function Component(axis: Axis, lateral: real, perpendicular: real): (c: real)
    ensures axis == Vertical ==> c == perpendicular
    ensures axis == Horizontal ==> c == lateral
  {
    match axis
    case Vertical => perpendicular
    case Horizontal => lateral
  }

  /** The projection never mixes components: the unselected component can
      change arbitrarily without changing the result. */
  lemma ComponentIgnoresOtherAxis(axis: Axis, x1: real, y1: real, x2: real, y2: real)
    ensures axis == Vertical && y1 == y2 ==> Component(axis, x1, y1) == Component(axis, x2, y2)
    ensures axis == Horizontal && x1 == x2 ==> Component(axis, x1, y1) == Component(axis, x2, y2)
  {
  }
}
