/** The detector as the object the program uses: the configuration and the
    six mutable fields of HorizontalInputDoubleClickChecker, updated in place.
    The ambient clock is the explicit `now` argument of ProcessInput. */
module ClickChecker {
  import opened ClickSpec

  class HorizontalInputDoubleClickChecker {
    const clickChanceTime: real
    const doubleClickChanceTime: real

    var lastClickCountedTime: real
    var lastNotInLeftSideTime: real
    var lastNotInRightSideTime: real
    var leftClickCount: Int32
    var rightClickCount: Int32
    var returnedToMiddle: bool

    /** The two windows, as a value. */
    function Settings(): Config
    {
      Config(clickChanceTime, doubleClickChanceTime)
    }

    /** The mutable fields, as a value. */
    function Snapshot(): State
      reads this
    {
      State(lastClickCountedTime, lastNotInLeftSideTime, lastNotInRightSideTime,
            leftClickCount, rightClickCount, returnedToMiddle)
    }

    /** The object invariant: never both counters positive. */
    ghost predicate Valid()
      reads this
    {
      NotBothPositive(Snapshot())
    }

    /** Stores the two windows; every other field keeps its C# default. */
    constructor (clickChanceTime: real, doubleClickChanceTime: real)
      ensures Settings() == Config(clickChanceTime, doubleClickChanceTime)
      ensures Snapshot() == Initial
      ensures Valid()
    {
      this.clickChanceTime := clickChanceTime;
      this.doubleClickChanceTime := doubleClickChanceTime;
      lastClickCountedTime, lastNotInLeftSideTime, lastNotInRightSideTime := 0.0, 0.0, 0.0;
      leftClickCount, rightClickCount := 0, 0;
      returnedToMiddle := false;
    }

    /** The left counter; a positive one excludes a positive right counter. */
    function LeftClickCount(): (n: Int32)
      reads this
      requires Valid()
      ensures n > 0 ==> rightClickCount <= 0
    {
      leftClickCount
    }

    /** The right counter; a positive one excludes a positive left counter. */
    function RightClickCount(): (n: Int32)
      reads this
      requires Valid()
      ensures n > 0 ==> leftClickCount <= 0
    {
      rightClickCount
    }

    /** Zeroes both counters and nothing else. */
    method ResetClickCount()
      modifies this`leftClickCount, this`rightClickCount
      ensures Snapshot() == Reset(old(Snapshot()))
      ensures leftClickCount == 0 && rightClickCount == 0
      ensures Valid()
    {
      leftClickCount := 0;
      rightClickCount := 0;
    }

    /** Feeds one horizontal sample taken at time `now`. */
    method ProcessInput(inputX: real, now: real)
      requires Valid()
      modifies this
      ensures Snapshot() == Step(Settings(), old(Snapshot()), inputX, now)
      ensures Valid()
      ensures now > lastClickCountedTime + doubleClickChanceTime ==> leftClickCount == 0 && rightClickCount == 0
    {
      if inputX < -0.8 {
        // left end
        lastNotInRightSideTime := now;
        rightClickCount := 0;
        if now < lastNotInLeftSideTime + clickChanceTime && returnedToMiddle {
          leftClickCount := Increment(leftClickCount);
          lastClickCountedTime := now;
        }
        returnedToMiddle := false;
      } else if inputX < -0.2 {
        // left side
        lastNotInRightSideTime := now;
      } else if inputX < 0.2 {
        // middle
        lastNotInLeftSideTime := now;
        lastNotInRightSideTime := now;
        returnedToMiddle := true;
      } else if inputX < 0.8 {
        // right side
        lastNotInLeftSideTime := now;
      } else {
        // right end
        lastNotInLeftSideTime := now;
        leftClickCount := 0;
        if now < lastNotInRightSideTime + clickChanceTime && returnedToMiddle {
          rightClickCount := Increment(rightClickCount);
          lastClickCountedTime := now;
        }
        returnedToMiddle := false;
      }

      // double-click check
      if now > lastClickCountedTime + doubleClickChanceTime {
        leftClickCount := 0;
        rightClickCount := 0;
      }
    }
  }

  /** A client feeding the detector a flick-and-return sequence twice on the
      left end, with windows of 0.1 s and 0.2 s: the left counter reaches 2,
      and a middle sample after the double-click window zeroes it. */
  method DoubleClickScenario() returns (leftAtDouble: Int32, rightAtDouble: Int32, leftAfterPause: Int32)
    ensures leftAtDouble == 2 && rightAtDouble == 0
    ensures leftAfterPause == 0
  {
    var checker := new HorizontalInputDoubleClickChecker(0.1, 0.2);
    checker.ProcessInput(-1.0, 0.0);
    checker.ProcessInput(0.0, 0.01);
    checker.ProcessInput(-1.0, 0.05);
    checker.ProcessInput(0.0, 0.06);
    checker.ProcessInput(-1.0, 0.10);
    leftAtDouble := checker.LeftClickCount();
    rightAtDouble := checker.RightClickCount();
    checker.ProcessInput(0.0, 0.35);
    leftAfterPause := checker.LeftClickCount();
  }
}
