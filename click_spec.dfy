/** The double-click detector as values: the band classification of one
    horizontal sample and the transition one sample (or one reset) makes on
    the detector's six mutable fields.  The class in ClickChecker is proved to
    perform exactly these transitions. */
module ClickSpec {

  /** C# `int`, the type of the two click counters. */
  newtype Int32 = x: int | -0x8000_0000 <= x < 0x8000_0000

  const INT32_MAX: Int32 := 0x7FFF_FFFF

  /** `c++` on a C# `int` in the default (unchecked) context: wraps at the top. */
  function Increment(c: Int32): Int32
  {
    if c == INT32_MAX then -0x8000_0000 else c + 1
  }

  /** The five bands of the horizontal axis, from left to right. */
  datatype Region = LeftEnd | LeftSide | Middle | RightSide | RightEnd

  /** Position of a band on the axis, left to right. */
  function Rank(r: Region): nat
  {
    match r
    case LeftEnd => 0
    case LeftSide => 1
    case Middle => 2
    case RightSide => 3
    case RightEnd => 4
  }

  /** The falling-through comparison chain that picks the band of `inputX`. */
  function Classify(inputX: real): (r: Region)
    ensures r == LeftEnd <==> inputX < -0.8
    ensures r == LeftSide <==> -0.8 <= inputX < -0.2
    ensures r == Middle <==> -0.2 <= inputX < 0.2
    ensures r == RightSide <==> 0.2 <= inputX < 0.8
    ensures r == RightEnd <==> 0.8 <= inputX
  {
    if inputX < -0.8 then LeftEnd
    else if inputX < -0.2 then LeftSide
    else if inputX < 0.2 then Middle
    else if inputX < 0.8 then RightSide
    else RightEnd
  }

  /** The two windows given to the constructor, in seconds. */
  datatype Config = Config(clickChanceTime: real, doubleClickChanceTime: real)

  /** The detector's mutable fields. */
  datatype State = State(
    lastClickCountedTime: real,
    lastNotInLeftSideTime: real,
    lastNotInRightSideTime: real,
    leftClickCount: Int32,
    rightClickCount: Int32,
    returnedToMiddle: bool)

  /** The fields of a freshly constructed detector: C# default values. */
  const Initial: State := State(0.0, 0.0, 0.0, 0, 0, false)

  /** The invariant the detector keeps: the two counters are never both positive. */
  predicate NotBothPositive(s: State)
  {
    s.leftClickCount <= 0 || s.rightClickCount <= 0
  }

  /** Whether a sample in band `r` at time `now` counts a click for its end:
      the sample is at an end, the value has returned to the middle since the
      last end sample, and the click window since the value last left that
      side has not passed. */
  predicate ClickCounted(c: Config, s: State, r: Region, now: real)
  {
    match r
    case LeftEnd => now < s.lastNotInLeftSideTime + c.clickChanceTime && s.returnedToMiddle
    case RightEnd => now < s.lastNotInRightSideTime + c.clickChanceTime && s.returnedToMiddle
    case _ => false
  }

  /** The band-specific part of ProcessInput, before the double-click check. */
  function ApplyRegion(c: Config, s: State, r: Region, now: real): State
  {
    match r
    case LeftEnd =>
      var counted := ClickCounted(c, s, r, now);
      s.(lastNotInRightSideTime := now,
         rightClickCount := 0,
         leftClickCount := if counted then Increment(s.leftClickCount) else s.leftClickCount,
         lastClickCountedTime := if counted then now else s.lastClickCountedTime,
         returnedToMiddle := false)
    case LeftSide =>
      s.(lastNotInRightSideTime := now)
    case Middle =>
      s.(lastNotInLeftSideTime := now, lastNotInRightSideTime := now, returnedToMiddle := true)
    case RightSide =>
      s.(lastNotInLeftSideTime := now)
    case RightEnd =>
      var counted := ClickCounted(c, s, r, now);
      s.(lastNotInLeftSideTime := now,
         leftClickCount := 0,
         rightClickCount := if counted then Increment(s.rightClickCount) else s.rightClickCount,
         lastClickCountedTime := if counted then now else s.lastClickCountedTime,
         returnedToMiddle := false)
  }

  /** The double-click check that ends every ProcessInput call. */
  function Decay(c: Config, s: State, now: real): State
  {
    if now > s.lastClickCountedTime + c.doubleClickChanceTime then
      s.(leftClickCount := 0, rightClickCount := 0)
    else
      s
  }

  /** One ProcessInput(inputX) call made at time `now`. */
  function Step(c: Config, s: State, inputX: real, now: real): State
  {
    Decay(c, ApplyRegion(c, s, Classify(inputX), now), now)
  }

  /** One ResetClickCount call. */
  function Reset(s: State): State
  {
    s.(leftClickCount := 0, rightClickCount := 0)
  }

  /** A call a client can make on the detector. */
  datatype Call = Sample(inputX: real, now: real) | ResetCounts

  function Apply(c: Config, s: State, call: Call): State
  {
    match call
    case Sample(x, t) => Step(c, s, x, t)
    case ResetCounts => Reset(s)
  }

  /** The state after the calls `calls`, made in order, starting from `s`. */
  function Run(c: Config, s: State, calls: seq<Call>): State
    decreases |calls|
  {
    if calls == [] then s else Run(c, Apply(c, s, calls[0]), calls[1..])
  }
}
