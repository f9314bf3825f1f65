# Insytech landing site: the logic behind its animated and interactive parts

This project is a Dafny model of the logic in the landing site's interactive components. The
rendering libraries (React, GSAP, Three.js), timers and the DOM are replaced by plain inputs and
pure step functions. Numbers are exact reals. Random draws, `Math.hypot`/`Math.sqrt` and
`Math.atan2` are parameters. The modules are:

- `PerformanceTier` (`tier.dfy`): the device tier (`low` / `medium` / `high`) that the automation
  diagram and the route runner both use to scale down their effects.
- `FlowSelection` (`flow_selection.dfy`): which of the eleven declared diagram connections are
  drawn at each tier. It covers the stable sort by importance and the per-tier cap.
- `FlowGeometry` (`flow_geometry.dfy`): the path drawn for each connection, in container
  percentages. This covers edge endpoints, cubic "curve" and quadratic "line" paths, the low-tier
  straight segment, and the rebuilt path list.
- `Runner` (`runner.dfy`): the marker that patrols a fixed 16-stop route of diagram nodes. It
  models start-up, hops (turn, move, turn back, press, commit, pause), retries, rotation frames,
  trails and the resize handler.
- `LeadCapture` (`lead_capture.dfy`): the contact-form endpoint that feeds the CRM. It trims and
  validates the form, looks up the API key, then sends organization, person, lead and note
  requests. It also covers the fetch helper's error handling and the HTTP answers.
- `Spotlight` (`spotlight.dfy`): the bento grid's pointer spotlight, per-card glow, tilt and
  magnetism, and the switch that turns animations off.
- `Slider` (`slider.dfy`): the before/after comparison slider.
- `DashboardStats` (`dashboard_stats.dfy`): the hero dashboard's fluctuating figures.
- `InspectionLine` (`inspection_line.dfy`): the 3D quality-inspection conveyor's logic. It covers
  scanning, detection, counting, product removal, spawning and the belt stripes.
- `Wrappers` (`wrappers.dfy`): the `Option` type.
- `RealMath` (`real_math.dfy`): `Math.min`, `Math.max` and the clamp built from them.

The diagram's control points are displaced vertically only: by `±curveFactor` for curves and
upwards by the bow for lines (`FlowGeometry.CurvedPath` and `FlowGeometry.BowedPath`).

## Model

| member | source | states |
|---|---|---|
| PerformanceTier.Classify | src/components/automatizacion/AnimatedFlowConnections.jsx:85-98 | Low exactly when (mobile and small screen) or Safari; Medium exactly when not Low but mobile or small; High exactly when no signal is set. The three cases partition all devices. |
| PerformanceTier.ClassifyMonotone | src/components/automatizacion/AnimatedRunner.jsx:24-31 | Turning on any degrading signal (mobile, Safari, small screen) never raises the tier. |
| FlowSelection.Select | src/components/automatizacion/AnimatedFlowConnections.jsx:115-125 | The selection has min(cap, available) connections, where the cap is 6 / 10 / min(n, 12). Its importance ranks never increase. It is a prefix of the reference order (all primary, then secondary, then tertiary). For each importance, the selected connections are the first ones of that importance in declaration order (stability). |
| FlowSelection.SortPermutes | src/components/automatizacion/AnimatedFlowConnections.jsx:120-124 | Sorting by importance only reorders: the multiset of connections is unchanged. |
| FlowSelection.InsertPermutes | src/components/automatizacion/AnimatedFlowConnections.jsx:120-124 | One insertion step adds exactly the inserted connection to the multiset. |
| FlowSelection.SortIsBuckets | src/components/automatizacion/AnimatedFlowConnections.jsx:120-124 | The comparator sort equals the reference order: all primary, then secondary, then tertiary, each in declaration order. |
| FlowSelection.InsertIntoBuckets | src/components/automatizacion/AnimatedFlowConnections.jsx:121-124 | Inserting into a list already in reference order puts the connection at the front of its importance block. |
| FlowSelection.PrefixOfBuckets | src/components/automatizacion/AnimatedFlowConnections.jsx:120-125 | Truncating the reference order keeps, for every importance, a prefix of that importance's declared connections. |
| FlowSelection.BucketsLength | src/components/automatizacion/AnimatedFlowConnections.jsx:120-124 | The reference order has as many connections as the input. |
| FlowSelection.DefinitionsInReferenceOrder | src/components/automatizacion/AnimatedFlowConnections.jsx:5-76 | The declared list is already in reference order: its 3 primary, then 5 secondary, then 3 tertiary connections. |
| FlowSelection.SelectOfOrdered | src/components/automatizacion/AnimatedFlowConnections.jsx:115-125 | On a list already in reference order, selection is plain truncation to the cap. |
| FlowSelection.SelectionOfDefinitions | src/components/automatizacion/AnimatedFlowConnections.jsx:115-125 | For the declared list, low keeps the first 6 connections (3 primary and the first 3 secondary), medium the first 10 and high all 11. |
| FlowGeometry.ToPercent | src/components/automatizacion/AnimatedFlowConnections.jsx:229-238 | An anchor's centre is its offset from the container plus half its size, as a percentage of the container. Its width and height are its size as a percentage of the container's. A rectangle of non-negative size keeps a non-negative size. |
| FlowGeometry.CentreInsideContainer | src/components/automatizacion/AnimatedFlowConnections.jsx:229-238 | An anchor that lies inside its container has its centre between 0% and 100% on both axes. |
| FlowGeometry.PrimaryEndpointsOnFacingEdges | src/components/automatizacion/AnimatedFlowConnections.jsx:253-265 | If the anchors are further apart horizontally: both ends keep their centre's y and sit half a width out. Otherwise both keep their centre's x. For distinct centres both ends lie on their anchor's edge, on the side facing the other anchor. |
| FlowGeometry.LineEndpointsOnCentreLine | src/components/automatizacion/AnimatedFlowConnections.jsx:266-278 | Secondary and tertiary endpoints lie on the centre-to-centre line and face the other anchor. They sit half a width out when the line is wide and half a height out when it is tall. |
| FlowGeometry.LineEndpointsSymmetric | src/components/automatizacion/AnimatedFlowConnections.jsx:266-278 | The end of the a-to-b connection is the start of the b-to-a connection. |
| FlowGeometry.EdgeCrossing | src/components/automatizacion/AnimatedFlowConnections.jsx:268-272 | Moving half an anchor's size along the dominant axis and by the slope times that along the other stays on the centre line, towards the target. |
| FlowGeometry.CurveFactor | src/components/automatizacion/AnimatedFlowConnections.jsx:293-296 | The control-point push is in [3, 15] for primary and [5, 20] otherwise. Inside the unclamped range it is 10% or 15% of the distance. Below that range it is the lower bound (3 or 5), above it the upper bound (15 or 20). |
| FlowGeometry.Bow | src/components/automatizacion/AnimatedFlowConnections.jsx:313-315 | The bow of a "line" is in [0, 2], never more than 2% of the distance, and exactly 2% up to distance 100. From distance 100 on it is exactly 2. |
| FlowGeometry.CurvedPath | src/components/automatizacion/AnimatedFlowConnections.jsx:297-306 | Control points sit at 30% and 70% of the way in x. Each is exactly the factor away in y from its endpoint, above it exactly when the source centre is below the target's. |
| FlowGeometry.BowedPath | src/components/automatizacion/AnimatedFlowConnections.jsx:309-318 | The quadratic control point is the midpoint in x, raised by exactly the bow. |
| FlowGeometry.ConnectionPath | src/components/automatizacion/AnimatedFlowConnections.jsx:206-318 | Low tier: a straight segment between the anchor centres. Above it, a "curve" becomes a cubic and a "line" a quadratic between the importance-specific endpoints, with the control-point bounds above. |
| FlowGeometry.BuildPaths | src/components/automatizacion/AnimatedFlowConnections.jsx:170-326 | A missing container keeps the previous paths. Otherwise a connection yields a path exactly when both anchors are mounted, in list order. Each path's id is its position in the selected list, and each path is that connection's geometry. |
| FlowGeometry.SideBySideAnchors | src/components/automatizacion/AnimatedFlowConnections.jsx:253-259 | Worked example: two anchors side by side are joined from the right edge of the first to the left edge of the second, at the centres' height. |
| Runner.NextIndex | src/components/automatizacion/AnimatedRunner.jsx:348 | The next route index is always in range. It is the following entry, wrapping from the last entry to the first. |
| Runner.AdvanceIsModular | src/components/automatizacion/AnimatedRunner.jsx:348 | n successive steps from index i reach (i + n) mod 16. |
| Runner.ChainAdvances | src/components/automatizacion/AnimatedRunner.jsx:339-444 | When every hop can be made, k scheduled hops move the runner k places round the route. |
| Runner.ChainLaps | src/components/automatizacion/AnimatedRunner.jsx:4-21 | Any whole number of laps (a multiple of 16 hops) brings the runner back to the index it left. |
| Runner.NodePosition | src/components/automatizacion/AnimatedRunner.jsx:171-204 | A node's position is the centre of its rectangle relative to the container, or the origin when there is no container. |
| Runner.HopDuration | src/components/automatizacion/AnimatedRunner.jsx:399-401 | A move takes between 400 and 1500 ms. Inside that range it is distance / speed (400 px/s at the low tier, 600 otherwise). A hop that would be quicker takes exactly 400 ms, and one that would be slower exactly 1500 ms. |
| Runner.HopDurationMonotone | src/components/automatizacion/AnimatedRunner.jsx:398-401 | A longer hop never takes less time. |
| Runner.RotationProgress | src/components/automatizacion/AnimatedRunner.jsx:245-258 | Progress is in [0, 1] for non-negative elapsed time. It is 1 exactly when the duration has passed, and proportional to the elapsed time before that. |
| Runner.RotationFrame | src/components/automatizacion/AnimatedRunner.jsx:231-264 | The low tier jumps to the target at once. Otherwise the rotation finishes exactly when the duration has passed, and then shows the target. The angle shown always lies between start and target. |
| Runner.TurnTakesTurnDuration | src/components/automatizacion/AnimatedRunner.jsx:231-264 | A turn is finished on the target angle once its tier's turn duration has elapsed (the requested time, or none at the low tier), and not at any earlier frame. |
| Runner.TrailDrawn | src/components/automatizacion/AnimatedRunner.jsx:267-279 | A trail is drawn only above the low tier and for hops of at least 50 px. It is always drawn then, if its host element exists. |
| Runner.Hop | src/components/automatizacion/AnimatedRunner.jsx:339-445 | A hop called while busy does nothing. A missing node or an all-origin layout retries from the same index. Otherwise the runner advances to the next index. It is never left busy, and it always schedules the next hop from the index it holds. |
| Runner.HopCompletes | src/components/automatizacion/AnimatedRunner.jsx:380-444 | A completed hop puts the runner on the centre of the next node. Its trace is the completed-hop trace with a 400–1500 ms move. |
| Runner.HopTraceShape | src/components/automatizacion/AnimatedRunner.jsx:339-444 | A hop opens by taking the busy flag and turns towards the target, in 200 ms above the low tier and at once at the low tier, then moves there. The turn back takes 300 ms, or no time at the low tier. It presses the target node, commits its index, releases the flag, and closes with the tier's pause (800 or 1000 ms). |
| Runner.HopTraceInOrder | src/components/automatizacion/AnimatedRunner.jsx:388-444 | The steps of a hop happen in the source's order: rotate, moving on, move, moving off, rotate back, press, commit, release, pause. |
| Runner.HopTraceHasPhases | src/components/automatizacion/AnimatedRunner.jsx:388-444 | Every mandatory step is present, and the trail steps appear exactly when a trail is drawn. |
| Runner.HopTraceWellFormed | src/components/automatizacion/AnimatedRunner.jsx:339-444 | Every non-busy hop, completed or retried, starts by taking the busy flag and ends by releasing it before a wait, in phase order. |
| Runner.ChainNeverBlocked | src/components/automatizacion/AnimatedRunner.jsx:340-343 | In a chain of scheduled hops each hop runs to a well-formed trace: hops never overlap, so none is refused as busy. |
| Runner.ChainWaitsAtBlockedHop | src/components/automatizacion/AnimatedRunner.jsx:358-377 | While a hop cannot be made, the runner keeps retrying it from the same index and never skips a node. |
| Runner.FoundCount | src/components/automatizacion/AnimatedRunner.jsx:56-69 | The count of found route entries is at most the number scanned. It is full exactly when every entry is found, and zero exactly when none is. |
| Runner.Captured | src/components/automatizacion/AnimatedRunner.jsx:56-72 | The captured nodes are exactly the route nodes present on the page. |
| Runner.Start | src/components/automatizacion/AnimatedRunner.jsx:60-128 | Fewer than four found entries: retry after 500 ms. Otherwise a missing first node or runner stalls for good. Otherwise the runner sits unrotated on the first node, presses it after a second, and starts hopping from index 0. |
| Runner.ActionNodeAloneStalls | src/components/automatizacion/AnimatedRunner.jsx:60-123 | Entries are counted with repetition, so the action node alone passes the threshold of four. Without the first node the start-up then stalls. |
| Runner.ResizePosition | src/components/automatizacion/AnimatedRunner.jsx:138-151 | A resize moves the runner only once it has started and holds its nodes, and then onto the centre of the current node. |
| Runner.ResizeAsWrittenNeverMoves | src/components/automatizacion/AnimatedRunner.jsx:138-154 | As registered, the resize handler sees only the mount-time state, so a resize never moves the runner. |
| Runner.ResizeFollowsRunner | src/components/automatizacion/AnimatedRunner.jsx:138-154 | Reading the live state, a resize after a completed hop puts the runner exactly where the hop left it. |
| LeadCapture.Trim | src/pages/api/sendToPipedrive.ts:38-42 | The result is a slice of the input with only white space cut from either end. It is empty exactly when the input is all white space, and otherwise neither starts nor ends with white space. |
| LeadCapture.TrimIdempotent | src/pages/api/sendToPipedrive.ts:38-42 | Trimming twice is trimming once. |
| LeadCapture.Clean | src/pages/api/sendToPipedrive.ts:37-42 | Every field is the posted one trimmed. A body that does not parse reads as an empty form. |
| LeadCapture.RequestUrlParts | src/pages/api/sendToPipedrive.ts:11-12 | The URL is the API base, the path, "&" if the path has a "?" (else "?"), then `api_token=` and the key. |
| LeadCapture.RequestUrlInjective | src/pages/api/sendToPipedrive.ts:11-12 | For paths of equal length, the URL determines the path and the token. |
| LeadCapture.FailureMessage | src/pages/api/sendToPipedrive.ts:24-26 | The thrown message is never empty. It is the first non-empty of `error`, `message` and `error_info`, else "HTTP <status>". |
| LeadCapture.Fetch | src/pages/api/sendToPipedrive.ts:22-28 | A request fails exactly on a transport failure, a non-ok status, or `success: false`. Otherwise it returns the reply body. |
| LeadCapture.Options | src/pages/api/sendToPipedrive.ts:31-33 | The pre-flight answer is 204 with no body. |
| LeadCapture.ApiKey | src/pages/api/sendToPipedrive.ts:52-55 | The build-time key wins when non-empty, then the process key. There is no key exactly when both are absent or empty. |
| LeadCapture.ThrownResponse | src/pages/api/sendToPipedrive.ts:131-136 | A thrown error is answered 500 with its message, or "Error interno" when it has none. |
| LeadCapture.PersonCall | src/pages/api/sendToPipedrive.ts:78-91 | The person is named by the name, else the email. Email and phone are attached exactly when non-empty, and the organization exactly when one was kept. |
| LeadCapture.LeadCall | src/pages/api/sendToPipedrive.ts:100-104 | The title is "Lead de " plus the first non-empty of company, name and email. The lead carries the person's id and the kept organization. |
| LeadCapture.OrganizationStep | src/pages/api/sendToPipedrive.ts:63-75 | The organization request is sent exactly when there is a company, and its failure is ignored. An id is kept exactly when the reply was accepted and its id is truthy. |
| LeadCapture.NoteStep | src/pages/api/sendToPipedrive.ts:113-130 | A note with the message and the lead id is sent exactly when there is a message. The answer is 200 with the lead id unless that note is refused. |
| LeadCapture.Deliver | src/pages/api/sendToPipedrive.ts:62-125 | Requests go out in strict order (organization, person, lead, note), each to its endpoint's URL with the key. |
| LeadCapture.Submit | src/pages/api/sendToPipedrive.ts:35-137 | Without a key nothing is sent. With one, every request is sent in order to its URL with that key. |
| LeadCapture.SubmitRejectsIncomplete | src/pages/api/sendToPipedrive.ts:44-49 | The answer is 400 exactly when the trimmed name and email are both empty. It then carries the fixed missing-fields message, and no request is sent. |
| LeadCapture.SubmitNeedsKey | src/pages/api/sendToPipedrive.ts:52-60 | For a complete form, nothing is sent exactly when there is no key, and the answer is then 500 "API key no configurada". |
| LeadCapture.DeliverAnswers | src/pages/api/sendToPipedrive.ts:127-136 | Delivery answers 200 or 500. A 500 carries the message of the last request sent, which is the one refused. |
| LeadCapture.DeliverSendsPerson | src/pages/api/sendToPipedrive.ts:63-97 | The organization request goes first exactly when there is a company. The person request always follows, whatever the organization's reply. |
| LeadCapture.DeliverSendsLead | src/pages/api/sendToPipedrive.ts:93-110 | A refused person request ends delivery. An accepted one is followed by the lead request for that person's id. |
| LeadCapture.DeliverSendsNote | src/pages/api/sendToPipedrive.ts:106-125 | After an accepted lead, a note request follows exactly when there is a message. A refused lead ends delivery. |
| LeadCapture.DeliverSucceeds | src/pages/api/sendToPipedrive.ts:127-130 | The answer is 200 exactly when the person, lead and (if any) note requests are all accepted. It then carries the lead's id. |
| Spotlight.FalloffFor | src/components/react-bits/MagicBento.tsx:90-93 | Proximity is half the radius and the fade distance three quarters of it. For a positive radius, 0 < proximity < fade distance. |
| Spotlight.Glow | src/components/react-bits/MagicBento.tsx:433-438 | The glow is in [0, 1]: full up to the proximity, none from the fade distance, and strictly in between inside the band. |
| Spotlight.GlowNonIncreasing | src/components/react-bits/MagicBento.tsx:433-438 | A card further away never glows more. |
| Spotlight.GlowContinuous | src/components/react-bits/MagicBento.tsx:433-438 | The glow changes by at most the change in distance divided by the band's width, so it has no jumps. |
| Spotlight.EffectiveDistance | src/components/react-bits/MagicBento.tsx:424-429 | The distance is never negative. It equals the centre distance less half the card's larger side, floored at 0. |
| Spotlight.MinDistance | src/components/react-bits/MagicBento.tsx:420-431 | There is no minimum exactly when there are no cards. Otherwise it is one of the distances and at most every one of them. |
| Spotlight.TargetOpacity | src/components/react-bits/MagicBento.tsx:450-455 | The target opacity is in [0, 0.8]. It is 0 with no card, and otherwise 0.8 times the glow at the nearest card's distance. |
| Spotlight.PointerMove | src/components/react-bits/MagicBento.tsx:396-441 | Outside the section every card's glow and the spotlight go to 0. Inside, each card glows by its own effective distance. |
| Spotlight.SpotlightFollowsBrightestCard | src/components/react-bits/MagicBento.tsx:419-455 | Inside the section the spotlight is exactly 0.8 times the brightest card's glow. |
| Spotlight.PointerLeave | src/components/react-bits/MagicBento.tsx:464-476 | Leaving the grid darkens every card and fades the spotlight to 0. |
| Spotlight.LeaveIsMoveOutside | src/components/react-bits/MagicBento.tsx:401-417 | Leaving the grid has the same effect as a move outside the section. |
| Spotlight.RelativeGlowPosition | src/components/react-bits/MagicBento.tsx:95-99 | The glow centre is the pointer's offset as a percentage of the card's size, and lies in [0, 100] when the pointer is over the card. |
| Spotlight.Tilt | src/components/react-bits/MagicBento.tsx:602-621 | Over the card both tilt angles are in [-10, 10] degrees, and both are zero at the centre. The card tips back exactly when the pointer is above centre, and turns right exactly when it is right of centre. |
| Spotlight.Magnet | src/components/react-bits/MagicBento.tsx:623-632 | The card is pulled by a twentieth of the pointer's offset from its centre. |
| Spotlight.ShouldDisableAnimations | src/components/react-bits/MagicBento.tsx:502-529 | Animations are off exactly when the flag is set or the viewport is at most 768 px wide. |
| Spotlight.CardPointerMove | src/components/react-bits/MagicBento.tsx:600-633 | A card tilts (or is pulled) exactly when animations are on for the page and the card and tilt (or magnetism) is enabled. The tilt and pull are then the ones above. |
| Spotlight.SpotlightInstalled | src/components/react-bits/MagicBento.tsx:369-371 | The spotlight exists exactly when it is enabled, animations are on, and the grid is mounted. |
| Slider.PositionAt | src/components/react-bits/ComparisonSlider.tsx:39-42 | The position is in [0, 100]. It is 0 at or left of the container, 100 at or right of it, and proportional to the offset in between. |
| Slider.PositionMonotone | src/components/react-bits/ComparisonSlider.tsx:40-42 | Moving the pointer right never moves the slider left. |
| Slider.Move | src/components/react-bits/ComparisonSlider.tsx:37-43 | Without a container the position is unchanged. With one it is the pointer's position, and it stays in [0, 100]. |
| Slider.Handle | src/components/react-bits/ComparisonSlider.tsx:44-56 | A mouse move counts only while exactly the primary button is held. Touches and clicks always count. |
| Slider.ReplayInRange | src/components/react-bits/ComparisonSlider.tsx:34-56 | From the initial 50, any sequence of inputs keeps the slider in [0, 100]. |
| Slider.HoverLeavesSlider | src/components/react-bits/ComparisonSlider.tsx:54 | Mouse moves without the primary button never move the slider. |
| Slider.Render | src/components/react-bits/ComparisonSlider.tsx:103-149 | The clip's right inset and the handle's left offset sum to 100, and the handle is at the position. |
| Slider.HandleOnClipEdge | src/components/react-bits/ComparisonSlider.tsx:103-149 | In every reachable state, the visible part of the "before" image ends where the handle is drawn, inside the frame. |
| DashboardStats.Tick | src/components/hero/DashboardShowcase.tsx:20-26 | Whatever the draws, a tick leaves efficiency in [45, 98], predictions in [95, 99.9] and uptime at 99.9. |
| DashboardStats.InitialInBands | src/components/hero/DashboardShowcase.tsx:12-16 | The starting figures are inside their bands. |
| DashboardStats.TickStepBounded | src/components/hero/DashboardShowcase.tsx:22-23 | From inside the bands a tick moves efficiency by at most 2.5 and predictions by at most 0.5. |
| DashboardStats.RunStaysInBands | src/components/hero/DashboardShowcase.tsx:12-26 | However long the page runs, the figures stay in their bands and uptime stays 99.9. |
| DashboardStats.BarWidthInTrack | src/components/hero/DashboardShowcase.tsx:195 | The efficiency bar shows the current efficiency and its width always stays between 45% and 98%. |
| InspectionLine.Record | src/utils/threejs.ts:569-574 | Counting a product adds one to the total and one to exactly the matching side, which keeps total = OK + defective. |
| InspectionLine.Advance | src/utils/threejs.ts:537-577 | An update moves a product 0.02 along the belt. It scans only inside the zone until detection. The box and label appear past 0.3, and the box opacity is the progress capped at 0.9. Detection happens past 0.8 and shows the label. Box and detection are never lost. |
| InspectionLine.UpdateProduct | src/utils/threejs.ts:537-586 | The product stays exactly when its new x is at most 14. The counters change only on the update that detects it. |
| InspectionLine.NewProduct | src/utils/threejs.ts:406-412 | A new product starts at x = -13, undetected, with no box or label. |
| InspectionLine.AdvanceWellFormed | src/utils/threejs.ts:552-566 | Updates keep a product consistent: detected implies a box and a shown label, and the box shows the capped progress. |
| InspectionLine.CountedOnce | src/utils/threejs.ts:548-575 | Over a product's whole life the counters move by one, on its side, exactly when it ends detected having started undetected. |
| InspectionLine.ProgressOnlyInZone | src/utils/threejs.ts:547-549 | The scan progress changes only inside the inspection zone and only before detection. |
| InspectionLine.UIBuiltOnce | src/utils/threejs.ts:552-554 | Once the box and label exist they stay for the product's whole life. |
| InspectionLine.SweepKeepsSurvivors | src/utils/threejs.ts:626-630 | The backward sweep keeps exactly the products whose update returned true, updated and in their original order. It keeps the counters consistent. |
| InspectionLine.SweepInPlace | src/utils/threejs.ts:626-630 | The in-place splice loop leaves exactly the survivors and the counters of the sweep. |
| InspectionLine.KindOf | src/utils/threejs.ts:619 | A draw picks one of the five kinds, the one whose fifth of [0, 1) the draw falls in. |
| InspectionLine.Spawn | src/utils/threejs.ts:618-623 | More than 2500 ms after the last spawn a new product of the drawn kind is appended, and the spawn time is reset. Otherwise nothing changes. |
| InspectionLine.BeltStep | src/utils/threejs.ts:633-638 | A stripe moves 0.02 right and wraps to -12 once past 12, so it stays in [-12, 12]. |
| InspectionLine.BeltTick | src/utils/threejs.ts:633-638 | Every stripe takes one step, and a belt within [-12, 12] stays within it. |
| InspectionLine.BeltStaysOnBelt | src/utils/threejs.ts:346-355 | The 61 stripes laid out from -12 to 12 stay in [-12, 12] forever. |
| InspectionLine.Frame | src/utils/threejs.ts:612-638 | A frame keeps the counters consistent, the belt on the belt and every product well formed. It adds at most one product. |

## Left out

- Rendering is not modelled: SVG, CSS and Three.js scene building, GSAP tweens, particles, ripples, stars, the laser curtain, the LED and zone blinking, and `toFixed` number formatting.
- Time is not modelled: timers, `requestAnimationFrame`, debounce delays and `requestIdleCallback` scheduling. A hop or frame is one step of a pure function, and its waits appear as `Wait` events.
- DOM reads are inputs: bounding rectangles, element presence, the user agent and the viewport.
- Floating-point arithmetic is modelled as exact reals. One consequence is the belt layout: the loop from -12 to 12 in steps of 0.4 is taken to lay 61 stripes, and accumulated float error could change the last one.
- FlowGeometry.LineEndpoints: the source goes through `atan2` and `tan`. The model uses the exact identities `tan(atan2(dy, dx)) = dy/dx` and `|cos| > |sin|` iff `|dx| > |dy|`. In exact arithmetic the source's NaN fallback is never reached, so it is not modelled.
- FlowGeometry.ToPercent: it requires a container of positive width and height, because the source divides by them.
- Slider.PositionAt: it requires a container of positive width, for the same reason.
- Spotlight.RelativeGlowPosition: it requires a card of positive width and height, for the same reason.
- Spotlight.Tilt: it requires a card of positive width and height, for the same reason.
- PerformanceTier.Classify: it takes the three signals as booleans. The user-agent regular expressions are not modelled.
- The tier is an explicit parameter. In the source it is React state that starts as 'high'. Handlers created before the state updates still see 'high', and so does the runner's whole hop chain.
- Runner.RotationFrame: it takes the start angle as a parameter, and the model does not track which angle a turn starts from. In the source the hop chain starts in the mount effect (AnimatedRunner.jsx:44-155), so `rotateRunner` reads the mount-time `currentRotation` of 0 (lines 41 and 243). The turn back to 0 at line 417 therefore shows 0 from its first frame instead of easing back.
- The runner's busy flag is modelled as live state. In the source the chained handlers read a captured `isAnimating`.
- The page (nodes present, rectangles, container) is fixed across a `Runner.Chain`. Layout changes between hops are not modelled.
- The legacy `moveToNextNode` / `startRunner` pair in AnimatedRunner.jsx (lines 448-563) is never started by the component and is not modelled.
- LeadCapture models the CRM, the JSON parser and the environment variables as inputs. Non-string form values, which the source converts with `String(...)`, are not modelled: fields are strings.
- LeadCapture models CRM ids only as numbers or strings.
- DashboardShowcase's interval timer and its cleanup are not modelled. A tick is a function of two random draws.
- The spotlight's position tween and the per-card CSS variables other than the glow are not modelled.

## Findings

| source | as written | input that shows it | evidently intended | confidence | as-written member | corrected member |
|---|---|---|---|---|---|---|
| src/components/automatizacion/AnimatedRunner.jsx:138-154 | The resize handler is registered once at mount, in an effect with no dependencies. It therefore reads the mount-time `isInitialized` (false), `nodes` ({}) and `currentIndex` (0), and its guard never passes. | Any window resize after the runner has started and moved: the runner stays at its old pixel position instead of following its node. | A resize re-centres the runner on the node at its current index. | not executed | Runner.ResizeAsWrittenNeverMoves | Runner.ResizeFollowsRunner |
