/** The bento grid's pointer effects (MagicBento.tsx): a spotlight that follows the pointer
    over the section, a glow on each card that fades with the card's distance from the
    pointer, a tilt and a magnetic pull on the card under the pointer, and the rule that turns
    all of it off. Distances come from a Euclidean-distance oracle. */
module Spotlight {
  import opened Wrappers
  import opened RealMath
  import opened FlowGeometry

  /** Full glow up to `proximity`, none beyond `fadeDistance`. */
  datatype Falloff = Falloff(proximity: real, fadeDistance: real)

  /** Proximity is half the spotlight radius and the fade distance three quarters of it. */
  function FalloffFor(radius: real): (v: Falloff)
    ensures v.proximity * 2.0 == radius && v.fadeDistance * 4.0 == radius * 3.0
    ensures radius > 0.0 ==> 0.0 < v.proximity < v.fadeDistance
  {
    Falloff(radius * 0.5, radius * 0.75)
  }

  /** Glow for a distance: 1 up to the proximity, falling linearly to 0 at the fade distance,
      0 beyond. No radius can make it divide by zero: the falling branch is reached only when
      the fade distance exceeds the proximity. */
  function Glow(v: Falloff, d: real): (g: real)
    ensures 0.0 <= g <= 1.0
    ensures d <= v.proximity ==> g == 1.0
    ensures v.proximity < d && v.fadeDistance <= d ==> g == 0.0
    ensures v.proximity < d < v.fadeDistance ==> 0.0 < g < 1.0
  {
    if d <= v.proximity then 1.0
    else if d <= v.fadeDistance then
      FractionBelowOne(v.fadeDistance - d, v.fadeDistance - v.proximity);
      (v.fadeDistance - d) / (v.fadeDistance - v.proximity)
    else 0.0
  }

  lemma FractionBelowOne(a: real, w: real)
    requires 0.0 <= a < w
    ensures 0.0 <= a / w < 1.0
  {
  }

  /** The glow never grows with distance. */
  lemma GlowNonIncreasing(v: Falloff, d1: real, d2: real)
    requires d1 <= d2
    ensures Glow(v, d2) <= Glow(v, d1)
  {
    if v.proximity < d1 && d2 <= v.fadeDistance {
      var w := v.fadeDistance - v.proximity;
      assert (v.fadeDistance - d2) / w <= (v.fadeDistance - d1) / w by {
        DivideMonotone(v.fadeDistance - d2, v.fadeDistance - d1, w);
      }
    }
  }

  lemma DivideMonotone(a: real, b: real, w: real)
    requires a <= b && w > 0.0
    ensures a / w <= b / w
  {
  }

  /** The glow is continuous: it changes by at most the change in distance over the width of
      the fade band (a Lipschitz bound), so it has no jumps at the band's ends. */
  lemma GlowContinuous(v: Falloff, d1: real, d2: real)
    requires v.proximity < v.fadeDistance
    requires d1 <= d2
    ensures (Glow(v, d1) - Glow(v, d2)) * (v.fadeDistance - v.proximity) <= d2 - d1
  {
    var w := v.fadeDistance - v.proximity;
    var lo := if d1 <= v.proximity then v.proximity else if d1 <= v.fadeDistance then d1 else v.fadeDistance;
    var hi := if d2 <= v.proximity then v.proximity else if d2 <= v.fadeDistance then d2 else v.fadeDistance;
    ClampedGlow(v, d1, lo);
    ClampedGlow(v, d2, hi);
    assert (Glow(v, d1) - Glow(v, d2)) * w == hi - lo;
  }

  /** On the band the glow is linear in the distance clamped to the band. */
  lemma ClampedGlow(v: Falloff, d: real, c: real)
    requires v.proximity < v.fadeDistance
    requires c == (if d <= v.proximity then v.proximity else if d <= v.fadeDistance then d else v.fadeDistance)
    ensures Glow(v, d) * (v.fadeDistance - v.proximity) == v.fadeDistance - c
  {
    var w := v.fadeDistance - v.proximity;
    if v.proximity < d <= v.fadeDistance {
      assert (v.fadeDistance - d) / w * w == v.fadeDistance - d;
    }
  }

  /** How far the pointer is from a card: from the card's centre, less half its larger side,
      and never below 0. */
  function EffectiveDistance(pointer: Point, card: Rect, hypot: (real, real) -> NonNeg): (d: real)
    ensures d >= 0.0
    ensures var centre := hypot(pointer.x - (card.left + card.width / 2.0), pointer.y - (card.top + card.height / 2.0));
      && d >= centre - MaxR(card.width, card.height) / 2.0
      && (d == 0.0 || d == centre - MaxR(card.width, card.height) / 2.0)
  {
    var cx := card.left + card.width / 2.0;
    var cy := card.top + card.height / 2.0;
    MaxR(0.0, hypot(pointer.x - cx, pointer.y - cy) - MaxR(card.width, card.height) / 2.0)
  }

  /** The smallest of the distances, or None (infinity) when there are none. */
  function MinDistance(ds: seq<real>): (m: Option<real>)
    ensures m.None? <==> ds == []
    ensures m.Some? ==> m.value in ds && forall k :: 0 <= k < |ds| ==> m.value <= ds[k]
  {
    if ds == [] then None
    else
      match MinDistance(ds[1..])
      case None => Some(ds[0])
      case Some(rest) => Some(if ds[0] <= rest then ds[0] else rest)
  }

  /** The spotlight's target opacity for the nearest card's distance: 0.8 near, fading to 0,
      and 0 with no cards at all. */
  function TargetOpacity(v: Falloff, minDistance: Option<real>): (o: real)
    ensures 0.0 <= o <= 0.8
    ensures minDistance.None? ==> o == 0.0
    ensures minDistance.Some? ==> o == 0.8 * Glow(v, minDistance.value)
  {
    match minDistance
    case None => 0.0
    case Some(d) =>
      if d <= v.proximity then 0.8
      else if d <= v.fadeDistance then
        assert Glow(v, d) == (v.fadeDistance - d) / (v.fadeDistance - v.proximity);
        (v.fadeDistance - d) / (v.fadeDistance - v.proximity) * 0.8
      else 0.0
  }

  /** Whether the pointer is over the section (edges included); no section means it is not. */
  predicate Inside(section: Option<Rect>, p: Point) {
    && section.Some?
    && section.value.left <= p.x <= section.value.left + section.value.width
    && section.value.top <= p.y <= section.value.top + section.value.height
  }

  /** What one pointer move does to the grid: each card's glow intensity, and the spotlight's
      target opacity. */
  datatype Frame = Frame(glows: seq<real>, opacity: real)

  /** One pointer move over the page (`GlobalSpotlight`'s handler). Outside the section every
      card goes dark and the spotlight fades out; inside, each card glows by its own distance
      and the spotlight by the nearest card's. */
  function PointerMove(radius: real, section: Option<Rect>, pointer: Point, cards: seq<Rect>,
                       hypot: (real, real) -> NonNeg): (r: Frame)
    ensures |r.glows| == |cards|
    ensures forall k :: 0 <= k < |r.glows| ==> 0.0 <= r.glows[k] <= 1.0
    ensures 0.0 <= r.opacity <= 0.8
    ensures !Inside(section, pointer) ==> r.opacity == 0.0 && forall k :: 0 <= k < |r.glows| ==> r.glows[k] == 0.0
    ensures Inside(section, pointer) ==> forall k :: 0 <= k < |cards| ==>
      r.glows[k] == Glow(FalloffFor(radius), EffectiveDistance(pointer, cards[k], hypot))
  {
    if !Inside(section, pointer) then Frame(seq(|cards|, _ => 0.0), 0.0)
    else
      var v := FalloffFor(radius);
      var ds := seq(|cards|, k requires 0 <= k < |cards| => EffectiveDistance(pointer, cards[k], hypot));
      Frame(seq(|cards|, k requires 0 <= k < |cards| => Glow(v, ds[k])), TargetOpacity(v, MinDistance(ds)))
  }

  /** Over the section, the spotlight is exactly 0.8 times the brightest card's glow. */
  lemma SpotlightFollowsBrightestCard(radius: real, section: Option<Rect>, pointer: Point, cards: seq<Rect>,
                                      hypot: (real, real) -> NonNeg)
    requires Inside(section, pointer) && cards != []
    ensures var r := PointerMove(radius, section, pointer, cards, hypot);
      && (exists k :: 0 <= k < |cards| && r.opacity == 0.8 * r.glows[k])
      && (forall k :: 0 <= k < |cards| ==> 0.8 * r.glows[k] <= r.opacity)
  {
    var v := FalloffFor(radius);
    var ds := seq(|cards|, k requires 0 <= k < |cards| => EffectiveDistance(pointer, cards[k], hypot));
    var r := PointerMove(radius, section, pointer, cards, hypot);
    var m := MinDistance(ds).value;
    var k0 :| 0 <= k0 < |ds| && ds[k0] == m;
    assert r.opacity == 0.8 * Glow(v, m);
    assert r.glows[k0] == Glow(v, m);
    forall k | 0 <= k < |cards|
      ensures 0.8 * r.glows[k] <= r.opacity
    {
      GlowNonIncreasing(v, m, ds[k]);
    }
  }

  /** The pointer leaving the grid (`handleMouseLeave`): every card goes dark and the
      spotlight fades out. */
  function PointerLeave(cardCount: nat): (r: Frame)
    ensures |r.glows| == cardCount && r.opacity == 0.0
    ensures forall k :: 0 <= k < |r.glows| ==> r.glows[k] == 0.0
  {
    Frame(seq(cardCount, _ => 0.0), 0.0)
  }

  /** Leaving the grid has the same effect as a move outside the section. */
  lemma LeaveIsMoveOutside(radius: real, section: Option<Rect>, pointer: Point, cards: seq<Rect>,
                           hypot: (real, real) -> NonNeg)
    requires !Inside(section, pointer)
    ensures PointerLeave(|cards|) == PointerMove(radius, section, pointer, cards, hypot)
  {
  }

  /** The pointer's position inside a card, as percentages of the card's width and height. */
  function RelativeGlowPosition(pointer: Point, card: Rect): (p: Point)
    requires card.width > 0.0 && card.height > 0.0
    ensures card.left <= pointer.x <= card.left + card.width ==> 0.0 <= p.x <= 100.0
    ensures card.top <= pointer.y <= card.top + card.height ==> 0.0 <= p.y <= 100.0
    ensures p.x * card.width == (pointer.x - card.left) * 100.0
    ensures p.y * card.height == (pointer.y - card.top) * 100.0
  {
    Point((pointer.x - card.left) / card.width * 100.0, (pointer.y - card.top) / card.height * 100.0)
  }

  /** The card's tilt in degrees about its horizontal and vertical axes: the pointer's offset
      from the centre as a fraction of the half-size, times -10 and 10. */
  function Tilt(pointer: Point, card: Rect): (r: (real, real))
    requires card.width > 0.0 && card.height > 0.0
    ensures card.top <= pointer.y <= card.top + card.height ==> -10.0 <= r.0 <= 10.0
    ensures card.left <= pointer.x <= card.left + card.width ==> -10.0 <= r.1 <= 10.0
    ensures pointer.y == card.top + card.height / 2.0 ==> r.0 == 0.0
    ensures pointer.x == card.left + card.width / 2.0 ==> r.1 == 0.0
    ensures pointer.y < card.top + card.height / 2.0 <==> r.0 > 0.0
    ensures pointer.x > card.left + card.width / 2.0 <==> r.1 > 0.0
  {
    var x, y := pointer.x - card.left, pointer.y - card.top;
    var cx, cy := card.width / 2.0, card.height / 2.0;
    UnitRatio(y - cy, cy);
    UnitRatio(x - cx, cx);
    ((y - cy) / cy * -10.0, (x - cx) / cx * 10.0)
  }

  /** Dividing by a positive half-size keeps the sign, and maps [-b, b] into [-1, 1]. */
  lemma UnitRatio(a: real, b: real)
    requires b > 0.0
    ensures a / b > 0.0 <==> a > 0.0
    ensures a / b < 0.0 <==> a < 0.0
    ensures a == 0.0 ==> a / b == 0.0
    ensures -b <= a <= b ==> -1.0 <= a / b <= 1.0
  {
    var q := a / b;
    assert q * b == a;
    if q > 0.0 {
      assert q * b > 0.0;
    } else if q < 0.0 {
      assert q * b < 0.0;
    }
  }

  /** The magnetic pull: a twentieth of the pointer's offset from the card's centre. */
  function Magnet(pointer: Point, card: Rect): (m: Point)
    ensures m.x * 20.0 == pointer.x - (card.left + card.width / 2.0)
    ensures m.y * 20.0 == pointer.y - (card.top + card.height / 2.0)
  {
    var x, y := pointer.x - card.left, pointer.y - card.top;
    Point((x - card.width / 2.0) * 0.05, (y - card.height / 2.0) * 0.05)
  }

  const MobileBreakpoint := 768.0

  /** Animations are off when the page asks for it or the viewport is at most 768 px wide. */
  function ShouldDisableAnimations(disableFlag: bool, viewportWidth: real): (off: bool)
    ensures off <==> disableFlag || viewportWidth <= 768.0
  {
    disableFlag || viewportWidth <= MobileBreakpoint
  }

  /** What a pointer move over a card does to it. */
  datatype CardMotion = CardMotion(tilt: Option<(real, real)>, magnet: Option<Point>)

  /** A pointer move over a card (the card's own handler): nothing when animations are off for
      the page or for that card; otherwise a tilt and a magnetic pull, each when enabled. */
  function CardPointerMove(pageDisabled: bool, cardDisabled: bool, enableTilt: bool, enableMagnetism: bool,
                           pointer: Point, card: Rect): (r: CardMotion)
    requires card.width > 0.0 && card.height > 0.0
    ensures r.tilt.Some? <==> !pageDisabled && !cardDisabled && enableTilt
    ensures r.magnet.Some? <==> !pageDisabled && !cardDisabled && enableMagnetism
    ensures r.tilt.Some? ==> r.tilt.value == Tilt(pointer, card)
    ensures r.magnet.Some? ==> r.magnet.value == Magnet(pointer, card)
  {
    if pageDisabled || cardDisabled then CardMotion(None, None)
    else CardMotion(
      if enableTilt then Some(Tilt(pointer, card)) else None,
      if enableMagnetism then Some(Magnet(pointer, card)) else None)
  }

  /** The page-wide spotlight is set up only when it is enabled, animations are on, and the grid
      exists. */
  function SpotlightInstalled(enabled: bool, animationsOff: bool, gridPresent: bool): (on: bool)
    ensures on <==> enabled && !animationsOff && gridPresent
  {
    !(animationsOff || !gridPresent || !enabled)
  }
}
