/** The route runner (AnimatedRunner.jsx): a marker that hops along a fixed cyclic route of
    diagram nodes, one hop at a time, forever. Timers, animation frames and the DOM are
    replaced by an explicit step function: each hop returns the runner's new state, the
    ordered trace of what it does, and the index the next scheduled hop starts from. */
module Runner {
  import opened Wrappers
  import opened RealMath
  import opened PerformanceTier
  import opened FlowGeometry

  /** The diagram nodes the runner visits; each is the page element `node-<name>`. */
  datatype Node = Trigger | Ai | Action | Pipeline | Email | Chat | WhatsApp | Api | Crm | Targeting | Forms | Notify

  function ElementId(n: Node): string {
    match n
    case Trigger => "node-trigger"
    case Ai => "node-ai"
    case Action => "node-action"
    case Pipeline => "node-pipeline"
    case Email => "node-email"
    case Chat => "node-chat"
    case WhatsApp => "node-whatsapp"
    case Api => "node-api"
    case Crm => "node-crm"
    case Targeting => "node-targeting"
    case Forms => "node-forms"
    case Notify => "node-notify"
  }

  /** The patrol route; nodes repeat. */
  const Route: seq<Node> := [
    Trigger, Ai, Action, Pipeline, Email, Pipeline, Chat, Action,
    WhatsApp, Api, Crm, Action, Targeting, Forms, Action, Notify
  ]

  /** The route index after `i`: the following entry, wrapping from the last to the first. */
  function NextIndex(i: nat): (j: nat)
    requires i < |Route|
    ensures j < |Route|
    ensures i < |Route| - 1 ==> j == i + 1
    ensures i == |Route| - 1 ==> j == 0
  {
    (i + 1) % |Route|
  }

  /** The index reached after `n` hops from `i`. */
  function Advance(i: nat, n: nat): (j: nat)
    requires i < |Route|
    ensures j < |Route|
  {
    if n == 0 then i else NextIndex(Advance(i, n - 1))
  }

  /** `n` hops advance the index by `n` modulo the route length. */
  lemma {:induction false} AdvanceIsModular(i: nat, n: nat)
    requires i < |Route|
    ensures Advance(i, n) == (i + n) % |Route|
  {
    if n > 0 {
      AdvanceIsModular(i, n - 1);
      ModSuccessor(i + n - 1);
    }
  }

  lemma ModSuccessor(a: nat)
    ensures (a % 16 + 1) % 16 == (a + 1) % 16
  {
    var q, r := a / 16, a % 16;
    assert a == 16 * q + r;
    if r < 15 {
      assert a + 1 == 16 * q + (r + 1);
    } else {
      assert a + 1 == 16 * (q + 1);
    }
  }

  /** A node's position: the centre of its rectangle relative to the visual container, or the
      origin when no container is found. A node element that has left the page reports an
      all-zero rectangle. */
  function NodePosition(container: Option<Rect>, rects: map<Node, Rect>, id: Node): (p: Point)
    ensures container.None? ==> p == Point(0.0, 0.0)
    ensures container.Some? && id in rects ==>
      var (r, c) := (rects[id], container.value);
      && p.x - (r.left - c.left) == (r.left + r.width - c.left) - p.x
      && p.y - (r.top - c.top) == (r.top + r.height - c.top) - p.y
  {
    match container
    case None => Point(0.0, 0.0)
    case Some(c) =>
      var r := if id in rects then rects[id] else Rect(0.0, 0.0, 0.0, 0.0);
      Point(r.left - c.left + r.width / 2.0, r.top - c.top + r.height / 2.0)
  }

  /** Pixels per second of the move. */
  function BaseSpeed(t: Tier): real {
    if t == Low then 400.0 else 600.0
  }

  /** Milliseconds for a move over `distance` pixels at the tier's speed, clamped to
      [400, 1500]. */
  function HopDuration(t: Tier, distance: NonNeg): (ms: real)
    ensures 400.0 <= ms <= 1500.0
    ensures 400.0 < distance / BaseSpeed(t) * 1000.0 < 1500.0 ==> ms == distance / BaseSpeed(t) * 1000.0
    ensures distance / BaseSpeed(t) * 1000.0 <= 400.0 ==> ms == 400.0
    ensures distance / BaseSpeed(t) * 1000.0 >= 1500.0 ==> ms == 1500.0
  {
    MaxR(400.0, MinR(1500.0, distance / BaseSpeed(t) * 1000.0))
  }

  /** A longer hop never takes less time. */
  lemma HopDurationMonotone(t: Tier, d1: NonNeg, d2: NonNeg)
    requires d1 <= d2
    ensures HopDuration(t, d1) <= HopDuration(t, d2)
  {
    var s := BaseSpeed(t);
    assert d1 / s <= d2 / s;
  }

  function PressDuration(t: Tier): real {
    if t == Low then 200.0 else 300.0
  }

  function PauseDuration(t: Tier): real {
    if t == Low then 800.0 else 1000.0
  }

  /** Fraction of a rotation done after `elapsed` of `duration` milliseconds. */
  function RotationProgress(elapsed: real, duration: real): (p: real)
    requires duration > 0.0
    ensures elapsed >= 0.0 ==> 0.0 <= p <= 1.0
    ensures p == 1.0 <==> elapsed >= duration
    ensures p < 1.0 ==> p * duration == elapsed
  {
    var q := elapsed / duration;
    assert q * duration == elapsed;
    assert q >= 1.0 <==> elapsed >= duration by {
      if q >= 1.0 {
        assert q * duration >= 1.0 * duration;
      } else {
        assert q * duration < 1.0 * duration;
      }
    }
    assert elapsed >= 0.0 ==> q >= 0.0;
    MinR(q, 1.0)
  }

  /** One animation frame of a rotation from `start` to `target`: the angle shown and whether
      the rotation has finished. The low tier jumps to the target at once. */
  function RotationFrame(t: Tier, start: real, target: real, elapsed: real, duration: real): (r: (real, bool))
    requires duration > 0.0
    ensures r.1 ==> r.0 == target
    ensures t == Low ==> r == (target, true)
    ensures elapsed >= 0.0 ==> MinR(start, target) <= r.0 <= MaxR(start, target)
    ensures t != Low ==> (r.1 <==> elapsed >= duration)
  {
    if t == Low then (target, true)
    else
      var p := RotationProgress(elapsed, duration);
      var angle := start + (target - start) * p;
      assert elapsed >= 0.0 ==> 0.0 <= (target - start) * p <= target - start || target - start <= (target - start) * p <= 0.0 by {
        if elapsed >= 0.0 {
          if target >= start {
            assert (target - start) * p <= (target - start) * 1.0;
          } else {
            assert (target - start) * p >= (target - start) * 1.0;
          }
        }
      }
      (angle, p >= 1.0)
  }

  /** How long a requested turn takes: the low tier sets the angle at once. */
  function TurnDuration(t: Tier, requested: real): real {
    if t == Low then 0.0 else requested
  }

  /** A turn is finished, on the target angle, once its tier's turn duration has elapsed,
      and not a frame earlier. */
  lemma TurnTakesTurnDuration(t: Tier, start: real, target: real, requested: real)
    requires requested > 0.0
    ensures RotationFrame(t, start, target, TurnDuration(t, requested), requested) == (target, true)
    ensures forall e :: 0.0 <= e < TurnDuration(t, requested) ==> !RotationFrame(t, start, target, e, requested).1
  { }

  /** A movement trail is drawn only above the low tier, for hops of at least 50 pixels, and
      only when the trail host element exists. */
  function TrailDrawn(t: Tier, distance: NonNeg, hostPresent: bool): (drawn: bool)
    ensures drawn ==> t != Low && distance >= 50.0
    ensures t != Low && distance >= 50.0 && hostPresent ==> drawn
  {
    !(t == Low || distance < 50.0) && hostPresent
  }

  /** What a hop does, in order. */
  datatype Event =
    | BusyOn
    | TrailOn
    | TurnTo(angle: real, ms: real)
    | MovingOn
    | Move(to: Point, ms: real)
    | MovingOff
    | TurnBack(ms: real)
    | TrailOff
    | Press(node: Node, ms: real)
    | SetIndex(index: nat)
    | BusyOff
    | Wait(ms: real)

  /** The phase of each event; a hop's trace visits phases in strictly increasing order. */
  function Phase(e: Event): nat {
    match e
    case BusyOn => 0
    case TrailOn => 1
    case TurnTo(_, _) => 2
    case MovingOn => 3
    case Move(_, _) => 4
    case MovingOff => 5
    case TurnBack(_) => 6
    case TrailOff => 7
    case Press(_, _) => 8
    case SetIndex(_) => 9
    case BusyOff => 10
    case Wait(_) => 11
  }

  ghost predicate InPhaseOrder(events: seq<Event>) {
    forall k, l :: 0 <= k < l < |events| ==> Phase(events[k]) < Phase(events[l])
  }

  /** Adjacent events step up in phase. */
  predicate StepsUp(events: seq<Event>) {
    forall k :: 0 <= k < |events| - 1 ==> Phase(events[k]) < Phase(events[k + 1])
  }

  lemma {:induction false} StepsUpIsPhaseOrder(events: seq<Event>)
    requires StepsUp(events)
    ensures InPhaseOrder(events)
  {
    if |events| > 1 {
      StepsUpIsPhaseOrder(events[1..]);
      assert forall k, l :: 0 <= k < l < |events| ==> Phase(events[k]) < Phase(events[l]) by {
        forall k, l | 0 <= k < l < |events|
          ensures Phase(events[k]) < Phase(events[l])
        {
          if k > 0 {
            assert events[k] == events[1..][k - 1] && events[l] == events[1..][l - 1];
          } else if l > 1 {
            assert Phase(events[0]) < Phase(events[1]);
            assert events[1] == events[1..][0] && events[l] == events[1..][l - 1];
          }
        }
      }
    }
  }

  predicate HasPhase(events: seq<Event>, phase: nat) {
    exists e :: e in events && Phase(e) == phase
  }

  /** The phases every completed hop goes through; only the trail phases are optional. */
  const MandatoryPhases: set<nat> := {0, 2, 3, 4, 5, 6, 8, 9, 10, 11}

  datatype RunnerState = RunnerState(index: nat, busy: bool, position: Point)

  predicate ValidState(s: RunnerState) {
    s.index < |Route|
  }

  /** The outcome of one call of the hop routine: the new state, what happened, and the index
      the hop it schedules will start from (None: nothing scheduled). */
  datatype HopResult = HopResult(state: RunnerState, events: seq<Event>, next: Option<nat>)

  /** Everything a hop reads from the page at the moment it runs. `nodes` are the route nodes
      captured when the runner started; `bearing` stands for `Math.atan2` and `hypot` for the
      Euclidean distance. */
  datatype Page = Page(
    nodes: set<Node>,
    container: Option<Rect>,
    rects: map<Node, Rect>,
    trailHost: bool,
    bearing: (real, real) -> real,
    hypot: (real, real) -> NonNeg)

  /** Both ends of the hop from `i` are captured nodes and not both at the origin. */
  predicate Ready(page: Page, i: nat)
    requires i < |Route|
  {
    var j := NextIndex(i);
    && Route[i] in page.nodes
    && Route[j] in page.nodes
    && !(NodePosition(page.container, page.rects, Route[i]) == Point(0.0, 0.0)
         && NodePosition(page.container, page.rects, Route[j]) == Point(0.0, 0.0))
  }

  /** The retry path: release the busy flag and try the same hop again after a second. */
  const RetryEvents: seq<Event> := [BusyOn, BusyOff, Wait(1000.0)]

  /** The phase witnesses every completed hop trace holds. */
  lemma MandatoryPhasesPresent(events: seq<Event>, t: Tier, angle: real, toPos: Point, moveMs: real, to: nat, node: Node)
    requires BusyOn in events && TurnTo(angle, TurnDuration(t, 200.0)) in events && MovingOn in events
    requires Move(toPos, moveMs) in events && MovingOff in events && TurnBack(TurnDuration(t, 300.0)) in events
    requires Press(node, PressDuration(t)) in events && SetIndex(to) in events
    requires BusyOff in events && Wait(PauseDuration(t)) in events
    ensures forall phase :: phase in MandatoryPhases ==> HasPhase(events, phase)
  {
    forall phase | phase in MandatoryPhases
      ensures HasPhase(events, phase)
    {
      var e :=
        if phase == 0 then BusyOn
        else if phase == 2 then TurnTo(angle, TurnDuration(t, 200.0))
        else if phase == 3 then MovingOn
        else if phase == 4 then Move(toPos, moveMs)
        else if phase == 5 then MovingOff
        else if phase == 6 then TurnBack(TurnDuration(t, 300.0))
        else if phase == 8 then Press(node, PressDuration(t))
        else if phase == 9 then SetIndex(to)
        else if phase == 10 then BusyOff
        else Wait(PauseDuration(t));
      assert Phase(e) == phase;
    }
  }

  /** The trace of a completed hop to route index `to`: turn, move, turn back, press the
      node, commit the index, release the busy flag, pause; a trail wraps the movement when
      drawn. */
  function HopTrace(t: Tier, trail: bool, angle: real, toPos: Point, moveMs: real, to: nat, node: Node): (events: seq<Event>)
  {
    if trail then
      [BusyOn, TrailOn, TurnTo(angle, TurnDuration(t, 200.0)), MovingOn, Move(toPos, moveMs), MovingOff, TurnBack(TurnDuration(t, 300.0)),
       TrailOff, Press(node, PressDuration(t)), SetIndex(to), BusyOff, Wait(PauseDuration(t))]
    else
      [BusyOn, TurnTo(angle, TurnDuration(t, 200.0)), MovingOn, Move(toPos, moveMs), MovingOff, TurnBack(TurnDuration(t, 300.0)),
       Press(node, PressDuration(t)), SetIndex(to), BusyOff, Wait(PauseDuration(t))]
  }

  /** A completed hop's trace opens by taking the busy flag, closes by releasing it and
      pausing for the tier's pause, and on the way moves to the target, presses its node and
      commits its index. */
  lemma HopTraceShape(t: Tier, trail: bool, angle: real, toPos: Point, moveMs: real, to: nat, node: Node)
    ensures var events := HopTrace(t, trail, angle, toPos, moveMs, to, node);
      && |events| >= 10
      && events[0] == BusyOn
      && events[|events| - 2] == BusyOff
      && events[|events| - 1] == Wait(PauseDuration(t))
      && TurnTo(angle, TurnDuration(t, 200.0)) in events && Move(toPos, moveMs) in events
      && Press(node, PressDuration(t)) in events && SetIndex(to) in events
  {
    var events := HopTrace(t, trail, angle, toPos, moveMs, to, node);
    if trail {
      assert events[2] == TurnTo(angle, TurnDuration(t, 200.0)) && events[4] == Move(toPos, moveMs);
    } else {
      assert events[1] == TurnTo(angle, TurnDuration(t, 200.0)) && events[3] == Move(toPos, moveMs);
    }
  }

  /** A completed hop's trace runs through its phases in order. */
  lemma HopTraceInOrder(t: Tier, trail: bool, angle: real, toPos: Point, moveMs: real, to: nat, node: Node)
    ensures InPhaseOrder(HopTrace(t, trail, angle, toPos, moveMs, to, node))
  {
    var events := HopTrace(t, trail, angle, toPos, moveMs, to, node);
    assert StepsUp(events);
    StepsUpIsPhaseOrder(events);
  }

  /** A completed hop's trace holds every mandatory phase, and trail phases exactly when a
      trail is drawn. */
  lemma HopTraceHasPhases(t: Tier, trail: bool, angle: real, toPos: Point, moveMs: real, to: nat, node: Node)
    ensures var events := HopTrace(t, trail, angle, toPos, moveMs, to, node);
      && (forall phase :: phase in MandatoryPhases ==> HasPhase(events, phase))
      && (HasPhase(events, 1) <==> trail)
      && (HasPhase(events, 7) <==> trail)
  {
    HopTraceMandatory(t, trail, angle, toPos, moveMs, to, node);
    if trail {
      TrailPhases(t, angle, toPos, moveMs, to, node);
    } else {
      NoTrailPhases(t, angle, toPos, moveMs, to, node);
    }
  }

  lemma HopTraceMandatory(t: Tier, trail: bool, angle: real, toPos: Point, moveMs: real, to: nat, node: Node)
    ensures var events := HopTrace(t, trail, angle, toPos, moveMs, to, node);
      forall phase :: phase in MandatoryPhases ==> HasPhase(events, phase)
  {
    var events := HopTrace(t, trail, angle, toPos, moveMs, to, node);
    MandatoryPhasesPresent(events, t, angle, toPos, moveMs, to, node);
  }

  lemma TrailPhases(t: Tier, angle: real, toPos: Point, moveMs: real, to: nat, node: Node)
    ensures var events := HopTrace(t, true, angle, toPos, moveMs, to, node);
      HasPhase(events, 1) && HasPhase(events, 7)
  {
    var events := HopTrace(t, true, angle, toPos, moveMs, to, node);
    assert TrailOn in events && TrailOff in events;
  }

  lemma NoTrailPhases(t: Tier, angle: real, toPos: Point, moveMs: real, to: nat, node: Node)
    ensures var events := HopTrace(t, false, angle, toPos, moveMs, to, node);
      !HasPhase(events, 1) && !HasPhase(events, 7)
  {
    var events := HopTrace(t, false, angle, toPos, moveMs, to, node);
    forall e | e in events
      ensures Phase(e) != 1 && Phase(e) != 7
    {
    }
  }

  /** One hop from the state's index (`moveToNextNodeWithNodes`). A call while busy does
      nothing. A missing node or a degenerate layout releases the busy flag and schedules a
      retry from the same index. Otherwise the runner turns towards the next node, moves there
      for a time set by the distance, turns back, presses it, commits the new index, and
      schedules the next hop after a pause. */
  function Hop(t: Tier, page: Page, s: RunnerState): (r: HopResult)
    requires ValidState(s)
    ensures ValidState(r.state)
    ensures s.busy ==> r == HopResult(s, [], None)
    ensures !s.busy ==> !r.state.busy && r.next == Some(r.state.index)
    ensures !s.busy && Ready(page, s.index) ==> r.state.index == NextIndex(s.index)
    ensures !s.busy && !Ready(page, s.index) ==> r.state == s && r.events == RetryEvents
  {
    if s.busy then HopResult(s, [], None)
    else if !Ready(page, s.index) then HopResult(s, RetryEvents, Some(s.index))
    else
      var to := NextIndex(s.index);
      var fromPos := NodePosition(page.container, page.rects, Route[s.index]);
      var toPos := NodePosition(page.container, page.rects, Route[to]);
      var dx, dy := toPos.x - fromPos.x, toPos.y - fromPos.y;
      var distance := page.hypot(dx, dy);
      var trail := TrailDrawn(t, distance, page.trailHost);
      HopResult(RunnerState(to, false, toPos), HopTrace(t, trail, page.bearing(dx, dy), toPos, HopDuration(t, distance), to, Route[to]), Some(to))
  }

  /** A completed hop lands the runner on the centre of the next route node, and its trace
      is the completed-hop trace to that node (see `HopTrace` and the lemmas after it) with a
      move of between 400 and 1500 ms. */
  lemma HopCompletes(t: Tier, page: Page, s: RunnerState)
    requires ValidState(s) && !s.busy && Ready(page, s.index)
    ensures var r := Hop(t, page, s);
      && r.state.index == NextIndex(s.index)
      && r.state.position == NodePosition(page.container, page.rects, Route[r.state.index])
      && exists trail, angle, ms ::
           && 400.0 <= ms <= 1500.0
           && r.events == HopTrace(t, trail, angle, r.state.position, ms, r.state.index, Route[r.state.index])
  {
    var to := NextIndex(s.index);
    var fromPos := NodePosition(page.container, page.rects, Route[s.index]);
    var toPos := NodePosition(page.container, page.rects, Route[to]);
    var dx, dy := toPos.x - fromPos.x, toPos.y - fromPos.y;
    var distance := page.hypot(dx, dy);
    var trail := TrailDrawn(t, distance, page.trailHost);
    var ms := HopDuration(t, distance);
    assert Hop(t, page, s).events == HopTrace(t, trail, page.bearing(dx, dy), toPos, ms, to, Route[to]);
  }

  /** `k` scheduled hops in a row, each starting from the index the previous one scheduled
      (the page stays the same throughout): the final state and each hop's trace. A hop that
      schedules nothing ends the chain. */
  function Chain(t: Tier, page: Page, s: RunnerState, k: nat): (r: (RunnerState, seq<seq<Event>>))
    requires ValidState(s)
    ensures ValidState(r.0)
    ensures !s.busy ==> !r.0.busy && |r.1| == k
    decreases k
  {
    if k == 0 then (s, [])
    else
      var h := Hop(t, page, s);
      match h.next
      case None => (h.state, [h.events])
      case Some(i) =>
        var rest := Chain(t, page, h.state.(index := i), k - 1);
        (rest.0, [h.events] + rest.1)
  }

  /** A hop trace as the chain produces it: it takes the busy flag first, releases it before
      the closing pause, and keeps its phases in order. */
  ghost predicate WellFormedTrace(events: seq<Event>) {
    && |events| >= 3
    && events[0] == BusyOn
    && events[|events| - 1].Wait?
    && events[|events| - 2] == BusyOff
    && InPhaseOrder(events)
  }

  /** No hop of a chain is ever refused as busy: every scheduled hop runs and leaves a
      well-formed trace, so hops never overlap. */
  lemma {:induction false} ChainNeverBlocked(t: Tier, page: Page, s: RunnerState, k: nat)
    requires ValidState(s) && !s.busy
    ensures forall j :: 0 <= j < k ==> WellFormedTrace(Chain(t, page, s, k).1[j])
    decreases k
  {
    if k > 0 {
      var h := Hop(t, page, s);
      var s' := h.state.(index := h.next.value);
      ChainNeverBlocked(t, page, s', k - 1);
      var traces := Chain(t, page, s, k).1;
      assert traces == [h.events] + Chain(t, page, s', k - 1).1;
      HopTraceWellFormed(t, page, s);
    }
  }

  lemma HopTraceWellFormed(t: Tier, page: Page, s: RunnerState)
    requires ValidState(s) && !s.busy
    ensures WellFormedTrace(Hop(t, page, s).events)
  {
    if Ready(page, s.index) {
      HopCompletes(t, page, s);
      var r := Hop(t, page, s);
      var trail, angle, ms :| r.events == HopTrace(t, trail, angle, r.state.position, ms, r.state.index, Route[r.state.index]);
      HopTraceInOrder(t, trail, angle, r.state.position, ms, r.state.index, Route[r.state.index]);
      HopTraceShape(t, trail, angle, r.state.position, ms, r.state.index, Route[r.state.index]);
    } else {
      assert InPhaseOrder(RetryEvents);
    }
  }

  /** With every hop possible, `k` chained hops advance the runner `k` places round the route. */
  lemma {:induction false} ChainAdvances(t: Tier, page: Page, s: RunnerState, k: nat)
    requires ValidState(s) && !s.busy
    requires forall i :: 0 <= i < |Route| ==> Ready(page, i)
    ensures Chain(t, page, s, k).0.index == Advance(s.index, k)
    decreases k
  {
    if k > 0 {
      var h := Hop(t, page, s);
      var s' := h.state.(index := h.next.value);
      assert s'.index == NextIndex(s.index);
      ChainAdvances(t, page, s', k - 1);
      AdvanceShift(s.index, k - 1);
    }
  }

  lemma {:induction false} AdvanceShift(i: nat, n: nat)
    requires i < |Route|
    ensures Advance(NextIndex(i), n) == Advance(i, n + 1)
  {
    if n > 0 {
      AdvanceShift(i, n - 1);
    }
  }

  /** Whole laps of the route bring the runner back to the node it left. */
  lemma ChainLaps(t: Tier, page: Page, s: RunnerState, k: nat)
    requires ValidState(s) && !s.busy
    requires forall i :: 0 <= i < |Route| ==> Ready(page, i)
    requires k % |Route| == 0
    ensures Chain(t, page, s, k).0.index == s.index
  {
    ChainAdvances(t, page, s, k);
    AdvanceIsModular(s.index, k);
    WholeLaps(s.index, k);
  }

  lemma WholeLaps(i: nat, k: nat)
    requires i < 16 && k % 16 == 0
    ensures (i + k) % 16 == i
  {
    assert i + k == 16 * (k / 16) + i;
  }

  /** A hop that cannot be made is retried from the same index for as long as the page does
      not change: the runner never skips a node. */
  lemma {:induction false} ChainWaitsAtBlockedHop(t: Tier, page: Page, s: RunnerState, k: nat)
    requires ValidState(s) && !s.busy && !Ready(page, s.index)
    ensures Chain(t, page, s, k).0 == s
    ensures forall j :: 0 <= j < k ==> Chain(t, page, s, k).1[j] == RetryEvents
    decreases k
  {
    if k > 0 {
      ChainWaitsAtBlockedHop(t, page, s, k - 1);
      var rest := Chain(t, page, s, k - 1);
      assert Chain(t, page, s, k) == (rest.0, [RetryEvents] + rest.1);
    }
  }

  /** Number of the first `n` route entries (with repetition) whose node is on the page. */
  function FoundCount(route: seq<Node>, present: set<Node>, n: nat): (c: nat)
    requires n <= |route|
    ensures c <= n
    ensures c == n <==> forall i :: 0 <= i < n ==> route[i] in present
    ensures c == 0 <==> forall i :: 0 <= i < n ==> route[i] !in present
  {
    if n == 0 then 0
    else FoundCount(route, present, n - 1) + (if route[n - 1] in present then 1 else 0)
  }

  /** How the runner's start-up attempt ends. */
  datatype Startup =
    | RetryLater(ms: real)
    | Stalled
    | Begin(state: RunnerState, nodes: set<Node>, events: seq<Event>)

  /** The route nodes found on the page. */
  function Captured(present: set<Node>): (nodes: set<Node>)
    ensures forall id :: id in nodes <==> id in present && id in Route
  {
    set i | 0 <= i < |Route| && Route[i] in present :: Route[i]
  }

  /** One start-up attempt (`initializeRunner`). With fewer than four route entries found it
      tries again after half a second. Otherwise it needs the first route node and the runner
      element: it places the runner on the first node, unrotated, presses that node after a
      second, and starts hopping from index 0 half a second later. Without either element it
      stops and never tries again. */
  function Start(t: Tier, present: set<Node>, runnerPresent: bool, container: Option<Rect>, rects: map<Node, Rect>): (r: Startup)
    ensures r.RetryLater? <==> FoundCount(Route, present, |Route|) < 4
    ensures r.RetryLater? ==> r.ms == 500.0
    ensures r.Stalled? <==> FoundCount(Route, present, |Route|) >= 4 && (Route[0] !in present || !runnerPresent)
    ensures r.Begin? ==>
      && r.state == RunnerState(0, false, NodePosition(container, rects, Route[0]))
      && r.nodes == Captured(present)
      && r.events == [Wait(1000.0), Press(Route[0], PressDuration(t)), Wait(500.0)]
  {
    if FoundCount(Route, present, |Route|) < 4 then RetryLater(500.0)
    else if Route[0] !in present || !runnerPresent then Stalled
    else
      Begin(
        RunnerState(0, false, NodePosition(container, rects, Route[0])),
        Captured(present),
        [Wait(1000.0), Press(Route[0], PressDuration(t)), Wait(500.0)])
  }

  /** Entries are counted with repetition: the action node alone fills four route places,
      enough to pass the threshold, yet without the first node the start-up stalls for good. */
  lemma ActionNodeAloneStalls(t: Tier, container: Option<Rect>, rects: map<Node, Rect>)
    ensures FoundCount(Route, {Action}, |Route|) == 4
    ensures Start(t, {Action}, true, container, rects) == Stalled
  {
    var p: set<Node> := {Action};
    forall i | 0 <= i < |Route|
      ensures (Route[i] in p) == (i == 2 || i == 7 || i == 11 || i == 14)
    {
    }
    FoundActions(p, |Route|);
  }

  /** Counting route entries when exactly entries 2, 7, 11 and 14 (the four `node-action`
      entries) are on the page. */
  lemma {:induction false} FoundActions(p: set<Node>, n: nat)
    requires n <= |Route|
    requires forall i :: 0 <= i < |Route| ==> (Route[i] in p) == (i == 2 || i == 7 || i == 11 || i == 14)
    ensures FoundCount(Route, p, n) ==
      (if n > 2 then 1 else 0) + (if n > 7 then 1 else 0) + (if n > 11 then 1 else 0) + (if n > 14 then 1 else 0)
  {
    if n > 0 {
      FoundActions(p, n - 1);
    }
  }

  /** Where a window resize puts the runner: on the centre of the node at the current index,
      once the runner has started and holds its nodes; otherwise the runner stays put (None). */
  function ResizePosition(initialized: bool, nodes: set<Node>, index: nat, container: Option<Rect>, rects: map<Node, Rect>): (p: Option<Point>)
    requires index < |Route|
    ensures p.Some? <==> initialized && nodes != {} && Route[index] in nodes
    ensures p.Some? ==> p == Some(NodePosition(container, rects, Route[index]))
  {
    if initialized && nodes != {} && Route[index] in nodes then Some(NodePosition(container, rects, Route[index]))
    else None
  }

  /** The resize listener as registered: it is set up once at mount and so always sees the
      mount-time state, before start-up (not initialized, no nodes, index 0). */
  function ResizeAsWritten(container: Option<Rect>, rects: map<Node, Rect>): (p: Option<Point>)
  {
    ResizePosition(false, {}, 0, container, rects)
  }

  /** As written, a resize never moves the runner, whatever the layout. */
  lemma ResizeAsWrittenNeverMoves(container: Option<Rect>, rects: map<Node, Rect>)
    ensures ResizeAsWritten(container, rects) == None
  {
  }

  /** The resize handler reading the live state: the runner's started flag, captured nodes and
      current index. */
  function Resize(started: bool, nodes: set<Node>, s: RunnerState, container: Option<Rect>, rects: map<Node, Rect>): (p: Option<Point>)
    requires ValidState(s)
  {
    ResizePosition(started, nodes, s.index, container, rects)
  }

  /** Reading the live state, a resize after a completed hop puts the runner exactly where the
      hop left it, on the node it has just reached. */
  lemma ResizeFollowsRunner(t: Tier, page: Page, s: RunnerState)
    requires ValidState(s) && !s.busy && Ready(page, s.index)
    ensures var r := Hop(t, page, s);
      Resize(true, page.nodes, r.state, page.container, page.rects) == Some(r.state.position)
  {
    HopCompletes(t, page, s);
  }
}

