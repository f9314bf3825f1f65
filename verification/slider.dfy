/** The before/after comparison slider (ComparisonSlider.tsx): a pointer's x-coordinate over the
    container becomes a percentage clamped to [0, 100], which sets both how much of the "before"
    image shows and where the handle is drawn. */
module Slider {
  import opened Wrappers
  import opened RealMath
  import opened FlowGeometry

  const InitialPosition: real := 50.0

  /** The slider position a pointer at `clientX` asks for over a container of positive width. */
  function PositionAt(clientX: real, container: Rect): (p: real)
    requires container.width > 0.0
    ensures 0.0 <= p <= 100.0
    ensures clientX <= container.left ==> p == 0.0
    ensures container.left + container.width <= clientX ==> p == 100.0
    ensures container.left <= clientX <= container.left + container.width ==>
      p * container.width == (clientX - container.left) * 100.0
  {
    var percentage := (clientX - container.left) / container.width * 100.0;
    assert clientX <= container.left ==> percentage <= 0.0 by {
      if clientX <= container.left {
        assert (clientX - container.left) / container.width <= 0.0;
      }
    }
    assert container.left + container.width <= clientX ==> percentage >= 100.0 by {
      if container.left + container.width <= clientX {
        RatioMonotone(container.width, clientX - container.left, container.width);
        assert container.width / container.width == 1.0;
      }
    }
    Clamp(percentage, 0.0, 100.0)
  }

  /** Further right never moves the slider left. */
  lemma PositionMonotone(x1: real, x2: real, container: Rect)
    requires container.width > 0.0
    requires x1 <= x2
    ensures PositionAt(x1, container) <= PositionAt(x2, container)
  {
    assert (x1 - container.left) / container.width <= (x2 - container.left) / container.width by {
      RatioMonotone(x1 - container.left, x2 - container.left, container.width);
    }
  }

  lemma RatioMonotone(a: real, b: real, w: real)
    requires a <= b && w > 0.0
    ensures a / w <= b / w
  {
  }

  /** A container, when one is mounted, has positive width. */
  predicate Measurable(container: Option<Rect>) {
    container.Some? ==> container.value.width > 0.0
  }

  /** `handleMove`: without a container the position stays as it is. */
  function Move(pos: real, container: Option<Rect>, clientX: real): (p: real)
    requires Measurable(container)
    ensures container.None? ==> p == pos
    ensures container.Some? ==> p == PositionAt(clientX, container.value)
    ensures 0.0 <= pos <= 100.0 ==> 0.0 <= p <= 100.0
  {
    match container
    case None => pos
    case Some(rect) => PositionAt(clientX, rect)
  }

  /** The pointer input the slider listens to; `buttons` is the mouse's pressed-buttons mask. */
  datatype Input = MouseMove(buttons: int, clientX: real) | TouchMove(touchX: real) | Click(clickX: real)

  /** One input: a mouse move counts only while exactly the primary button is held; touches
      and clicks always count. */
  function Handle(pos: real, container: Option<Rect>, input: Input): (p: real)
    requires Measurable(container)
    ensures input.MouseMove? && input.buttons != 1 ==> p == pos
    ensures input.MouseMove? && input.buttons == 1 ==> p == Move(pos, container, input.clientX)
    ensures input.TouchMove? ==> p == Move(pos, container, input.touchX)
    ensures input.Click? ==> p == Move(pos, container, input.clickX)
    ensures 0.0 <= pos <= 100.0 ==> 0.0 <= p <= 100.0
  {
    match input
    case MouseMove(buttons, x) => if buttons == 1 then Move(pos, container, x) else pos
    case TouchMove(x) => Move(pos, container, x)
    case Click(x) => Move(pos, container, x)
  }

  /** The position after a run of inputs, starting from `pos`. */
  function Replay(pos: real, container: Option<Rect>, inputs: seq<Input>): real
    requires Measurable(container)
    decreases |inputs|
  {
    if inputs == [] then pos
    else Replay(Handle(pos, container, inputs[0]), container, inputs[1..])
  }

  /** Whatever the user does, the slider stays within [0, 100]. */
  lemma {:induction false} ReplayInRange(pos: real, container: Option<Rect>, inputs: seq<Input>)
    requires Measurable(container)
    requires 0.0 <= pos <= 100.0
    ensures 0.0 <= Replay(pos, container, inputs) <= 100.0
    decreases |inputs|
  {
    if inputs != [] {
      ReplayInRange(Handle(pos, container, inputs[0]), container, inputs[1..]);
    }
  }

  /** Hovering without a button pressed never moves the slider. */
  lemma {:induction false} HoverLeavesSlider(pos: real, container: Option<Rect>, inputs: seq<Input>)
    requires Measurable(container)
    requires forall k :: 0 <= k < |inputs| ==> inputs[k].MouseMove? && inputs[k].buttons != 1
    ensures Replay(pos, container, inputs) == pos
    decreases |inputs|
  {
    if inputs != [] {
      HoverLeavesSlider(Handle(pos, container, inputs[0]), container, inputs[1..]);
    }
  }

  /** What is drawn for a position: the "before" image clipped from the right by
      `clipRight` percent, and the handle `handleLeft` percent from the left. */
  datatype View = View(clipRight: real, handleLeft: real)

  function Render(pos: real): (v: View)
    ensures v.clipRight + v.handleLeft == 100.0
    ensures v.handleLeft == pos
    ensures 0.0 <= pos <= 100.0 ==> 0.0 <= v.clipRight <= 100.0
  {
    View(100.0 - pos, pos)
  }

  /** The handle sits exactly on the clip edge: the visible part of the "before" image ends
      where the handle is drawn, for every state the slider can reach. */
  lemma {:induction false} HandleOnClipEdge(container: Option<Rect>, inputs: seq<Input>)
    requires Measurable(container)
    ensures var v := Render(Replay(InitialPosition, container, inputs));
      && 100.0 - v.clipRight == v.handleLeft
      && 0.0 <= v.handleLeft <= 100.0
  {
    ReplayInRange(InitialPosition, container, inputs);
  }
}
