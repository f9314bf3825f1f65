/** The quality-inspection conveyor behind the hero (threejs.ts), logic only: products ride the
    belt left to right, are scanned while they cross the inspection zone, are counted once as
    OK or defective, and are dropped once they leave the belt; the belt's stripe lines wrap
    around. Positions are the x-coordinate along the belt; random draws are parameters. */
module InspectionLine {
  import opened Wrappers
  import opened RealMath

  /** The line's shared counters. */
  datatype Counters = Counters(totalInspected: nat, okCount: nat, defectCount: nat)

  const InitialCounters: Counters := Counters(0, 0, 0)

  /** Every inspected product is either OK or defective. */
  predicate Consistent(c: Counters) {
    c.totalInspected == c.okCount + c.defectCount
  }

  /** Count one inspected product. */
  function Record(c: Counters, defective: bool): (r: Counters)
    ensures r.totalInspected == c.totalInspected + 1
    ensures defective ==> r.defectCount == c.defectCount + 1 && r.okCount == c.okCount
    ensures !defective ==> r.okCount == c.okCount + 1 && r.defectCount == c.defectCount
    ensures Consistent(c) ==> Consistent(r)
  {
    if defective then Counters(c.totalInspected + 1, c.okCount, c.defectCount + 1)
    else Counters(c.totalInspected + 1, c.okCount + 1, c.defectCount)
  }

  /** A product on the belt. `hasUI` says whether its bounding box and label exist; their
      opacities mean something only when they do. */
  datatype Product = Product(
    x: real, defective: bool, detected: bool, scanProgress: real,
    hasUI: bool, boxOpacity: real, labelOpacity: real)

  const Step: real := 0.02
  const ZoneLow: real := -1.2
  const ZoneHigh: real := 1.2
  const UIThreshold: real := 0.3
  const DetectThreshold: real := 0.8
  const BoxOpacityCap: real := 0.9
  const BeltEnd: real := 14.0
  const SpawnX: real := -13.0
  const FrameDelta: real := 0.016

  /** Whether a product at `x` is strictly inside the inspection zone. */
  predicate InZone(x: real) {
    ZoneLow < x < ZoneHigh
  }

  /** Whether an update moving `p` scans it: only inside the zone and only until detected. */
  predicate Scans(p: Product) {
    InZone(p.x + Step) && !p.detected
  }

  /** The product's new state after one update (`Product.update`). */
  function Advance(p: Product, dt: real): (r: Product)
    ensures r.x == p.x + 0.02 && r.defective == p.defective
    ensures !Scans(p) ==> r == p.(x := p.x + 0.02)
    ensures Scans(p) ==> r.scanProgress == p.scanProgress + dt * 2.0
    ensures Scans(p) ==> (r.hasUI <==> p.hasUI || r.scanProgress > 0.3)
    ensures Scans(p) && r.hasUI ==> r.boxOpacity == MinR(r.scanProgress, 0.9)
    ensures Scans(p) ==> (r.detected <==> r.scanProgress > 0.8)
    ensures r.detected && !p.detected ==> r.labelOpacity == 1.0
    ensures p.hasUI ==> r.hasUI
    ensures p.detected ==> r.detected
  {
    var x := p.x + Step;
    if !(InZone(x) && !p.detected) then p.(x := x)
    else
      var progress := p.scanProgress + dt * 2.0;
      var created := progress > UIThreshold && !p.hasUI;
      var labelOpacity := if created then 0.0 else p.labelOpacity;
      var hasUI := p.hasUI || created;
      var boxOpacity := if hasUI then MinR(progress, BoxOpacityCap) else p.boxOpacity;
      var detected := progress > DetectThreshold;
      Product(x, p.defective, detected, progress, hasUI, boxOpacity,
              if detected && hasUI then 1.0 else labelOpacity)
  }

  /** Whether this update is the one that detects the product. */
  predicate NewlyDetected(p: Product, dt: real) {
    !p.detected && Advance(p, dt).detected
  }

  /** The outcome of one update: the product, the counters, and whether it stays on the belt. */
  datatype Update = Update(product: Product, counters: Counters, alive: bool)

  /** One `Product.update`: move, scan, maybe detect and count, and report whether the product
      is still on the belt (x at most 14). */
  function UpdateProduct(p: Product, c: Counters, dt: real): (u: Update)
    ensures u.product == Advance(p, dt)
    ensures u.alive <==> p.x + 0.02 <= 14.0
    ensures NewlyDetected(p, dt) ==> u.counters == Record(c, p.defective)
    ensures !NewlyDetected(p, dt) ==> u.counters == c
    ensures Consistent(c) ==> Consistent(u.counters)
  {
    var r := Advance(p, dt);
    Update(r, if !p.detected && r.detected then Record(c, p.defective) else c, !(r.x > BeltEnd))
  }

  /** What a product's state always satisfies: detected products have their box and label,
      past the detection threshold, with the label shown; an existing box shows the capped
      scan progress. */
  predicate WellFormed(p: Product) {
    && (p.detected ==> p.hasUI && p.scanProgress > 0.8 && p.labelOpacity == 1.0)
    && (p.hasUI ==> p.boxOpacity == MinR(p.scanProgress, 0.9))
  }

  /** A new product: at the start of the belt, unscanned, with no box or label. */
  function NewProduct(defective: bool): (p: Product)
    ensures WellFormed(p) && !p.detected && !p.hasUI && p.x == -13.0
  {
    Product(SpawnX, defective, false, 0.0, false, 0.0, 0.0)
  }

  /** Updating keeps a product well formed. */
  lemma AdvanceWellFormed(p: Product, dt: real)
    requires WellFormed(p)
    ensures WellFormed(Advance(p, dt))
  {
  }

  /** A product's updates until it leaves the belt, one frame time per update, threading the
      counters; the result is the last state and whether it is still on the belt. */
  function Life(p: Product, c: Counters, dts: seq<real>): (Product, Counters, bool)
    decreases |dts|
  {
    if dts == [] then (p, c, true)
    else
      var u := UpdateProduct(p, c, dts[0]);
      if !u.alive then (u.product, u.counters, false)
      else Life(u.product, u.counters, dts[1..])
  }

  /** Each product is counted at most once in its life: the counters move by exactly one,
      on the matching side, if and only if the product ends detected having started
      undetected, and not at all otherwise. */
  lemma {:induction false} CountedOnce(p: Product, c: Counters, dts: seq<real>)
    ensures var (q, d, _) := Life(p, c, dts);
      var counted := q.detected && !p.detected;
      && d.totalInspected == c.totalInspected + (if counted then 1 else 0)
      && d.defectCount == c.defectCount + (if counted && p.defective then 1 else 0)
      && d.okCount == c.okCount + (if counted && !p.defective then 1 else 0)
      && q.defective == p.defective
      && (p.detected ==> q.detected)
    decreases |dts|
  {
    if dts != [] {
      var u := UpdateProduct(p, c, dts[0]);
      if u.alive {
        CountedOnce(u.product, u.counters, dts[1..]);
      }
    }
  }

  /** The scan progress moves only while the product is inside the zone and undetected. */
  lemma ProgressOnlyInZone(p: Product, dt: real)
    requires Advance(p, dt).scanProgress != p.scanProgress
    ensures InZone(p.x + 0.02) && !p.detected
  {
  }

  /** The bounding box and label are built only when absent; from then on they stay. */
  lemma {:induction false} UIBuiltOnce(p: Product, c: Counters, dts: seq<real>)
    requires p.hasUI
    ensures Life(p, c, dts).0.hasUI
    decreases |dts|
  {
    if dts != [] {
      var u := UpdateProduct(p, c, dts[0]);
      if u.alive {
        UIBuiltOnce(u.product, u.counters, dts[1..]);
      }
    }
  }

  /** What one backward sweep over the product list (the splice loop of `animate`) leaves:
      the list of updated products still on the belt, and the counters. The loop visits the
      last product first, so the counters run through the tail before the head. */
  function Sweep(products: seq<Product>, c: Counters, dt: real): (r: (seq<Product>, Counters))
    decreases |products|
  {
    if products == [] then ([], c)
    else
      var rest := Sweep(products[1..], c, dt);
      var u := UpdateProduct(products[0], rest.1, dt);
      ((if u.alive then [u.product] else []) + rest.0, u.counters)
  }

  /** The products that survive an update, in the original order. */
  function Survivors(products: seq<Product>, dt: real): (r: seq<Product>)
    ensures |r| <= |products|
    decreases |products|
  {
    if products == [] then []
    else
      (if products[0].x + Step <= BeltEnd then [Advance(products[0], dt)] else []) + Survivors(products[1..], dt)
  }

  /** The sweep keeps exactly the products whose update returned true, updated and in
      order, whatever the counters; it keeps the counters consistent. */
  lemma {:induction false} SweepKeepsSurvivors(products: seq<Product>, c: Counters, dt: real)
    ensures Sweep(products, c, dt).0 == Survivors(products, dt)
    ensures Consistent(c) ==> Consistent(Sweep(products, c, dt).1)
    decreases |products|
  {
    if products != [] {
      SweepKeepsSurvivors(products[1..], c, dt);
    }
  }

  /** The splice loop as written: walk the list from the end, update each product, and cut
      out those that report they are gone. */
  method SweepInPlace(products: seq<Product>, c: Counters, dt: real) returns (kept: seq<Product>, counters: Counters)
    ensures kept == Sweep(products, c, dt).0 && counters == Sweep(products, c, dt).1
    ensures kept == Survivors(products, dt)
  {
    kept, counters := products, c;
    var i := |products|;
    while i > 0
      invariant 0 <= i <= |products|
      invariant kept == products[..i] + Sweep(products[i..], c, dt).0
      invariant counters == Sweep(products[i..], c, dt).1
      decreases i
    {
      i := i - 1;
      assert products[i..][1..] == products[i + 1..];
      var u := UpdateProduct(kept[i], counters, dt);
      if u.alive {
        kept := kept[i := u.product];
        assert kept == products[..i] + [u.product] + Sweep(products[i + 1..], c, dt).0;
      } else {
        kept := kept[..i] + kept[i + 1..];
        assert kept == products[..i] + Sweep(products[i + 1..], c, dt).0;
      }
      counters := u.counters;
    }
    assert products[..0] == [] && products[0..] == products;
    SweepKeepsSurvivors(products, c, dt);
  }

  /** Defect probabilities of the five product kinds, in table order. */
  const DefectRates: seq<real> := [0.12, 0.08, 0.15, 0.18, 0.10]

  const SpawnInterval: int := 2500

  /** A draw of `Math.random()`. */
  type Draw = r: real | 0.0 <= r < 1.0

  /** The product kind a draw picks: `floor(r * 5)`. */
  function KindOf(r: Draw): (k: nat)
    ensures k < |DefectRates|
    ensures k as real <= r * 5.0 < k as real + 1.0
  {
    (r * 5.0).Floor
  }

  /** The spawn rule: more than 2.5 s after the last spawn, a new product of a random kind
      enters, defective when the second draw falls below its kind's rate. Returns the list and
      the new last-spawn time. */
  function Spawn(products: seq<Product>, now: int, last: int, kindDraw: Draw, defectDraw: Draw): (r: (seq<Product>, int))
    ensures now - last > 2500 ==>
      r.0 == products + [NewProduct(defectDraw < DefectRates[KindOf(kindDraw)])] && r.1 == now
    ensures now - last <= 2500 ==> r == (products, last)
  {
    if now - last > SpawnInterval then
      (products + [NewProduct(defectDraw < DefectRates[KindOf(kindDraw)])], now)
    else (products, last)
  }

  /** One stripe line's move: 0.02 to the right, back to -12 once past 12. */
  function BeltStep(x: real): (y: real)
    ensures -12.0 <= x <= 12.0 ==> -12.0 <= y <= 12.0
    ensures x + 0.02 > 12.0 ==> y == -12.0
    ensures x + 0.02 <= 12.0 ==> y == x + 0.02
  {
    var y := x + Step;
    if y > 12.0 then -12.0 else y
  }

  /** The stripe lines as laid out: from -12 to 12 every 0.4. */
  const InitialBelt: seq<real> := seq(61, k => -12.0 + 0.4 * k as real)

  predicate OnBelt(lines: seq<real>) {
    forall k :: 0 <= k < |lines| ==> -12.0 <= lines[k] <= 12.0
  }

  function BeltTick(lines: seq<real>): (r: seq<real>)
    ensures |r| == |lines|
    ensures forall k :: 0 <= k < |lines| ==> r[k] == BeltStep(lines[k])
    ensures OnBelt(lines) ==> OnBelt(r)
  {
    seq(|lines|, k requires 0 <= k < |lines| => BeltStep(lines[k]))
  }

  function BeltAfter(lines: seq<real>, frames: nat): seq<real>
    decreases frames
  {
    if frames == 0 then lines else BeltAfter(BeltTick(lines), frames - 1)
  }

  /** The stripes never leave [-12, 12], however long the page runs. */
  lemma {:induction false} BeltStaysOnBelt(frames: nat)
    ensures |BeltAfter(InitialBelt, frames)| == 61
    ensures OnBelt(BeltAfter(InitialBelt, frames))
  {
    assert OnBelt(InitialBelt);
    BeltInvariant(InitialBelt, frames);
  }

  lemma {:induction false} BeltInvariant(lines: seq<real>, frames: nat)
    requires OnBelt(lines)
    ensures |BeltAfter(lines, frames)| == |lines|
    ensures OnBelt(BeltAfter(lines, frames))
    decreases frames
  {
    if frames > 0 {
      BeltInvariant(BeltTick(lines), frames - 1);
    }
  }

  /** The line's whole state between frames. */
  datatype Line = Line(products: seq<Product>, counters: Counters, belt: seq<real>, lastSpawn: int)

  predicate Valid(l: Line) {
    && Consistent(l.counters)
    && OnBelt(l.belt)
    && forall k :: 0 <= k < |l.products| ==> WellFormed(l.products[k])
  }

  /** One animation frame: maybe spawn, update every product with the frame time, drop the
      ones that left, and move the stripes. */
  function Frame(l: Line, now: int, kindDraw: Draw, defectDraw: Draw): (r: Line)
    ensures Valid(l) ==> Valid(r)
    ensures |r.products| <= |l.products| + 1
  {
    var (spawned, last) := Spawn(l.products, now, l.lastSpawn, kindDraw, defectDraw);
    var (kept, counters) := Sweep(spawned, l.counters, FrameDelta);
    SweepKeepsSurvivors(spawned, l.counters, FrameDelta);
    if Valid(l) then
      SurvivorsWellFormed(spawned, FrameDelta);
      Line(kept, counters, BeltTick(l.belt), last)
    else
      Line(kept, counters, BeltTick(l.belt), last)
  }

  lemma {:induction false} SurvivorsWellFormed(products: seq<Product>, dt: real)
    requires forall k :: 0 <= k < |products| ==> WellFormed(products[k])
    ensures forall k :: 0 <= k < |Survivors(products, dt)| ==> WellFormed(Survivors(products, dt)[k])
    decreases |products|
  {
    if products != [] {
      AdvanceWellFormed(products[0], dt);
      SurvivorsWellFormed(products[1..], dt);
    }
  }
}
