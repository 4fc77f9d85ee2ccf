/** What the detector promises, proved about the transition functions of
    ClickSpec: per call (one Step or Reset) and over any sequence of calls. */
module ClickProperties {
  import opened ClickSpec

  // ---------------------------------------------------------------------
  // Classification

  /** The bands are ordered along the axis: a larger value never falls in a
      band further left. */
  lemma ClassifyMonotone(x: real, y: real)
    requires x <= y
    ensures Rank(Classify(x)) <= Rank(Classify(y))
  {
  }

  /** Which branch a call takes depends only on the band of the current value:
      two values of the same band produce the same transition. */
  lemma StepDependsOnlyOnBand(c: Config, s: State, x: real, y: real, now: real)
    requires Classify(x) == Classify(y)
    ensures Step(c, s, x, now) == Step(c, s, y, now)
  {
  }

  // ---------------------------------------------------------------------
  // One ProcessInput call

  /** Entering an end band zeroes the opposite counter, and no call makes both
      counters positive. */
  lemma StepKeepsNotBothPositive(c: Config, s: State, x: real, now: real)
    requires NotBothPositive(s)
    ensures Classify(x) == LeftEnd ==> Step(c, s, x, now).rightClickCount == 0
    ensures Classify(x) == RightEnd ==> Step(c, s, x, now).leftClickCount == 0
    ensures NotBothPositive(Step(c, s, x, now))
  {
  }

  /** A counter changes in one call only by being zeroed or by one counted
      click on its own end; a counted click also records `now` as the time of
      the last click. */
  lemma StepCounterChanges(c: Config, s: State, x: real, now: real)
    ensures var r := Step(c, s, x, now);
      (r.leftClickCount == s.leftClickCount || r.leftClickCount == 0 ||
       (ClickCounted(c, s, LeftEnd, now) && Classify(x) == LeftEnd &&
        r.leftClickCount == Increment(s.leftClickCount) && r.lastClickCountedTime == now))
    ensures var r := Step(c, s, x, now);
      (r.rightClickCount == s.rightClickCount || r.rightClickCount == 0 ||
       (ClickCounted(c, s, RightEnd, now) && Classify(x) == RightEnd &&
        r.rightClickCount == Increment(s.rightClickCount) && r.lastClickCountedTime == now))
  {
  }

  /** Below the top of the `int` range, a non-negative counter stays
      non-negative, rises by at most one per call, and rises only on a counted
      click at its own end, which then becomes the last counted click. */
  lemma StepCounterRisesByAtMostOne(c: Config, s: State, x: real, now: real)
    requires 0 <= s.leftClickCount < INT32_MAX && 0 <= s.rightClickCount < INT32_MAX
    ensures var r := Step(c, s, x, now);
      0 <= r.leftClickCount <= s.leftClickCount + 1 &&
      0 <= r.rightClickCount <= s.rightClickCount + 1
    ensures var r := Step(c, s, x, now);
      r.leftClickCount > s.leftClickCount ==>
        Classify(x) == LeftEnd && s.returnedToMiddle &&
        now < s.lastNotInLeftSideTime + c.clickChanceTime && r.lastClickCountedTime == now
    ensures var r := Step(c, s, x, now);
      r.rightClickCount > s.rightClickCount ==>
        Classify(x) == RightEnd && s.returnedToMiddle &&
        now < s.lastNotInRightSideTime + c.clickChanceTime && r.lastClickCountedTime == now
  {
    StepCounterChanges(c, s, x, now);
  }

  /** The `returnedToMiddle` gate: cleared by an end sample, set by a middle
      sample, untouched by a side sample. */
  lemma StepReturnedToMiddle(c: Config, s: State, x: real, now: real)
    ensures Classify(x) in {LeftEnd, RightEnd} ==> !Step(c, s, x, now).returnedToMiddle
    ensures Classify(x) == Middle ==> Step(c, s, x, now).returnedToMiddle
    ensures Classify(x) in {LeftSide, RightSide} ==>
      Step(c, s, x, now).returnedToMiddle == s.returnedToMiddle
  {
  }

  /** The "last not in side" timestamps: a middle sample refreshes both, a
      sample on the left half refreshes only the right one, a sample on the
      right half refreshes only the left one. */
  lemma StepTimestamps(c: Config, s: State, x: real, now: real)
    ensures var r := Step(c, s, x, now);
      Classify(x) == Middle ==>
        r.lastNotInLeftSideTime == now && r.lastNotInRightSideTime == now
    ensures var r := Step(c, s, x, now);
      Classify(x) in {LeftEnd, LeftSide} ==>
        r.lastNotInRightSideTime == now && r.lastNotInLeftSideTime == s.lastNotInLeftSideTime
    ensures var r := Step(c, s, x, now);
      Classify(x) in {RightSide, RightEnd} ==>
        r.lastNotInLeftSideTime == now && r.lastNotInRightSideTime == s.lastNotInRightSideTime
  {
  }

  /** The double-click check: once the double-click window has passed since
      the last counted click (as it stands after the band update), both
      counters are zero; a call that counts no click keeps that time. */
  lemma StepDecay(c: Config, s: State, x: real, now: real)
    ensures var r := Step(c, s, x, now);
      now > r.lastClickCountedTime + c.doubleClickChanceTime ==>
        r.leftClickCount == 0 && r.rightClickCount == 0
    ensures var r := Step(c, s, x, now);
      !ClickCounted(c, s, Classify(x), now) ==>
        r.lastClickCountedTime == s.lastClickCountedTime &&
        (now > s.lastClickCountedTime + c.doubleClickChanceTime ==>
           r.leftClickCount == 0 && r.rightClickCount == 0)
  {
  }

  /** With a non-negative double-click window the check never undoes the
      click that the same call has just counted. */
  lemma CountedClickSurvivesDecay(c: Config, s: State, x: real, now: real)
    requires c.doubleClickChanceTime >= 0.0
    requires ClickCounted(c, s, Classify(x), now)
    ensures var r := Step(c, s, x, now);
      r.lastClickCountedTime == now && !r.returnedToMiddle &&
      (Classify(x) == LeftEnd ==>
         r.leftClickCount == Increment(s.leftClickCount) && r.rightClickCount == 0) &&
      (Classify(x) == RightEnd ==>
         r.rightClickCount == Increment(s.rightClickCount) && r.leftClickCount == 0)
  {
  }

  /** With the gate closed no click can be counted, so a sample taken after
      the double-click window has passed since the last click zeroes both
      counters, whatever its band. */
  lemma GateClosedDecay(c: Config, s: State, x: real, now: real)
    requires !s.returnedToMiddle
    requires now > s.lastClickCountedTime + c.doubleClickChanceTime
    ensures Step(c, s, x, now).leftClickCount == 0 && Step(c, s, x, now).rightClickCount == 0
  {
  }

  /** Decay after a pause: when the call after a counted click comes later
      than the double-click window, that call finds both counters zeroed
      (the counted click closed the gate, so it cannot count a new one). */
  lemma DecayAfterPause(c: Config, s: State, x0: real, t0: real, x1: real, t1: real)
    requires ClickCounted(c, s, Classify(x0), t0)
    requires t1 > t0 + c.doubleClickChanceTime
    ensures var s1 := Step(c, Step(c, s, x0, t0), x1, t1);
      s1.leftClickCount == 0 && s1.rightClickCount == 0
  {
  }

  /** Dwelling in the middle: a middle sample leaves the counters as they were
      (or decays both), keeps the time of the last click, and a second middle
      sample at the same time changes nothing. */
  lemma MiddleDwell(c: Config, s: State, x: real, y: real, now: real)
    requires Classify(x) == Middle && Classify(y) == Middle
    ensures var r := Step(c, s, x, now);
      r.lastClickCountedTime == s.lastClickCountedTime &&
      ((r.leftClickCount == s.leftClickCount && r.rightClickCount == s.rightClickCount) ||
       (r.leftClickCount == 0 && r.rightClickCount == 0))
    ensures Step(c, Step(c, s, x, now), y, now) == Step(c, s, x, now)
  {
  }

  // ---------------------------------------------------------------------
  // ResetClickCount

  /** A reset zeroes both counters and leaves the timestamps, the gate and
      the time of the last click alone. */
  lemma ResetKeepsMemory(s: State)
    ensures var r := Reset(s);
      r.leftClickCount == 0 && r.rightClickCount == 0 && NotBothPositive(r) &&
      r.lastClickCountedTime == s.lastClickCountedTime &&
      r.lastNotInLeftSideTime == s.lastNotInLeftSideTime &&
      r.lastNotInRightSideTime == s.lastNotInRightSideTime &&
      r.returnedToMiddle == s.returnedToMiddle
  {
  }

  // ---------------------------------------------------------------------
  // Any sequence of calls

  /** Whatever the calls, the two counters are never both positive. */
  lemma {:induction false} RunKeepsNotBothPositive(c: Config, s: State, calls: seq<Call>)
    requires NotBothPositive(s)
    ensures NotBothPositive(Run(c, s, calls))
    decreases |calls|
  {
    if calls != [] {
      match calls[0] {
        case Sample(x, t) => StepKeepsNotBothPositive(c, s, x, t);
        case ResetCounts =>
      }
      RunKeepsNotBothPositive(c, Apply(c, s, calls[0]), calls[1..]);
    }
  }

  /** Counters that start non-negative stay non-negative and grow by at most
      one per call, as long as they cannot reach the top of the `int` range. */
  lemma {:induction false} RunCountersBounded(c: Config, s: State, calls: seq<Call>)
    requires 0 <= s.leftClickCount && 0 <= s.rightClickCount
    requires s.leftClickCount as int + |calls| <= INT32_MAX as int
    requires s.rightClickCount as int + |calls| <= INT32_MAX as int
    ensures var r := Run(c, s, calls);
      0 <= r.leftClickCount as int <= s.leftClickCount as int + |calls| &&
      0 <= r.rightClickCount as int <= s.rightClickCount as int + |calls|
    decreases |calls|
  {
    if calls != [] {
      match calls[0] {
        case Sample(x, t) => StepCounterRisesByAtMostOne(c, s, x, t);
        case ResetCounts =>
      }
      RunCountersBounded(c, Apply(c, s, calls[0]), calls[1..]);
    }
  }

  /** From a fresh detector, any run of fewer than 2^31 calls leaves both
      counters non-negative and at most one of them positive. */
  lemma FreshDetectorCounters(c: Config, calls: seq<Call>)
    requires |calls| <= INT32_MAX as int
    ensures var r := Run(c, Initial, calls);
      0 <= r.leftClickCount && 0 <= r.rightClickCount &&
      (r.leftClickCount == 0 || r.rightClickCount == 0)
  {
    RunCountersBounded(c, Initial, calls);
    RunKeepsNotBothPositive(c, Initial, calls);
  }

  predicate IsMiddleSample(call: Call)
  {
    call.Sample? && Classify(call.inputX) == Middle
  }

  /** Without a visit to the middle no click is counted: once the gate is
      closed, calls with no middle sample among them keep it closed, keep the
      time of the last click, and leave each counter at its value or zero. */
  lemma {:induction false} NoClickWithoutMiddle(c: Config, s: State, calls: seq<Call>)
    requires !s.returnedToMiddle
    requires forall i :: 0 <= i < |calls| ==> !IsMiddleSample(calls[i])
    ensures var r := Run(c, s, calls);
      !r.returnedToMiddle && r.lastClickCountedTime == s.lastClickCountedTime &&
      (r.leftClickCount == s.leftClickCount || r.leftClickCount == 0) &&
      (r.rightClickCount == s.rightClickCount || r.rightClickCount == 0)
    decreases |calls|
  {
    if calls != [] {
      var s' := Apply(c, s, calls[0]);
      assert !IsMiddleSample(calls[0]);
      assert !s'.returnedToMiddle && s'.lastClickCountedTime == s.lastClickCountedTime;
      assert s'.leftClickCount == s.leftClickCount || s'.leftClickCount == 0;
      assert s'.rightClickCount == s.rightClickCount || s'.rightClickCount == 0;
      assert forall i :: 0 <= i < |calls[1..]| ==> !IsMiddleSample(calls[1..][i]) by {
        forall i | 0 <= i < |calls[1..]|
          ensures !IsMiddleSample(calls[1..][i])
        {
          assert calls[1..][i] == calls[i + 1];
        }
      }
      NoClickWithoutMiddle(c, s', calls[1..]);
    }
  }

  /** A right flick, a move back to the right side and a second right flick,
      with no middle sample between: the second flick counts nothing. */
  lemma FlickWithoutMiddleDoesNotCount(c: Config, s: State, x1: real, t1: real, x2: real, t2: real, x3: real, t3: real)
    requires Classify(x1) == RightEnd && Classify(x2) == RightSide && Classify(x3) == RightEnd
    ensures var s1 := Step(c, s, x1, t1);
      var s3 := Step(c, Step(c, s1, x2, t2), x3, t3);
      s3.rightClickCount == s1.rightClickCount || s3.rightClickCount == 0
  {
  }

  // ---------------------------------------------------------------------
  // Concrete traces

  /** Windows 0.1 s and 0.2 s: left flick (gate closed, no count), middle,
      left flick (1), middle, left flick (2); after a pause past the
      double-click window a middle sample finds both counters zeroed, and a
      right flick right after a double click zeroes the left counter. */
  lemma DoubleClickTrace()
    ensures var c := Config(0.1, 0.2);
      var s := Run(c, Initial, [Sample(-1.0, 0.0), Sample(0.0, 0.01), Sample(-1.0, 0.05),
                                Sample(0.0, 0.06), Sample(-1.0, 0.10)]);
      s.leftClickCount == 2 && s.rightClickCount == 0 &&
      Step(c, s, 0.0, 0.35).leftClickCount == 0 &&
      Step(c, s, 1.0, 0.11).leftClickCount == 0
  {
  }

  /** The double-click check runs after the band update and only against the
      time of the last click, so a click that arrives more than the
      double-click window after the previous click (here 0.21 s after it),
      with a middle sample in between that came inside the window, continues
      the old count (here 2 to 3) instead of starting over. */
  lemma StaleClickContinuesCount()
    ensures var c := Config(0.1, 0.2);
      var s := State(0.10, 0.06, 0.10, 2, 0, false);
      var s1 := Step(c, s, 0.0, 0.29);
      var s2 := Step(c, s1, -1.0, 0.31);
      s1.leftClickCount == 2 &&
      0.31 > s.lastClickCountedTime + c.doubleClickChanceTime &&
      s2.leftClickCount == 3
  {
  }

  /** At the top of the C# `int` range one more counted click wraps the
      counter to the most negative value. */
  lemma CounterWrapsAtIntMax(c: Config, s: State, x: real, now: real)
    requires c.doubleClickChanceTime >= 0.0
    requires s.leftClickCount == INT32_MAX
    requires ClickCounted(c, s, Classify(x), now) && Classify(x) == LeftEnd
    ensures Step(c, s, x, now).leftClickCount == -0x8000_0000
  {
  }
}
