/** The device performance tier shared by the flow connections and the route runner
    (`detectPerformanceLevel` in AnimatedFlowConnections.jsx and AnimatedRunner.jsx).
    The user-agent and viewport probes are taken as three booleans. */
module PerformanceTier {

  datatype Tier = Low | Medium | High

  /** Classifies the device: Safari, or a mobile user agent on a small screen, is `Low`;
      otherwise a mobile agent or a small screen is `Medium`; everything else is `High`.
      A screen is small when the viewport is narrower than 768 pixels. */
  function Classify(isMobile: bool, isSafari: bool, isSmallScreen: bool): (t: Tier)
    ensures t == Low <==> (isMobile && isSmallScreen) || isSafari
    ensures t == Medium <==> !((isMobile && isSmallScreen) || isSafari) && (isMobile || isSmallScreen)
    ensures t == High <==> !isMobile && !isSafari && !isSmallScreen
  {
    if (isMobile && isSmallScreen) || isSafari then Low
    else if isMobile || isSmallScreen then Medium
    else High
  }

  /** Monotone policy: turning on any degrading signal never raises the tier. */
  function Rank(t: Tier): nat {
    match t
    case Low => 0
    case Medium => 1
    case High => 2
  }

  lemma ClassifyMonotone(m: bool, s: bool, sm: bool, m': bool, s': bool, sm': bool)
    requires m ==> m'
    requires s ==> s'
    requires sm ==> sm'
    ensures Rank(Classify(m', s', sm')) <= Rank(Classify(m, s, sm))
  {
  }
}
