/** The laser's calibrated light-current curve, read between its points in integers. */
module Calibration {
  import opened Words

  datatype Point = Point(current: u32, power: u32)

  datatype Answer = Power(nanowatts: u32) | Refused(status: Status)

  /** Currents and powers never fall along the curve. */
  predicate Rising(li: seq<Point>)
  {
    forall i, j :: 0 <= i < j < |li| ==> li[i].current <= li[j].current && li[i].power <= li[j].power
  }

  predicate Increasing(li: seq<Point>)
  {
    forall i, j :: 0 <= i < j < |li| ==> li[i].current < li[j].current
  }

  predicate OnSpan(li: seq<Point>, current: u32)
    requires |li| >= 2
  {
    li[0].current <= current <= li[|li| - 1].current
  }

  /** Point i closes the first segment that reaches the current. */
  predicate Closes(li: seq<Point>, current: u32, i: nat)
  {
    1 <= i < |li| && current <= li[i].current && forall j :: 1 <= j < i ==> li[j].current < current
  }

  /** The differences are unsigned 32-bit, the product unsigned 64-bit. */
  function Between(lo: Point, hi: Point, current: u32): u32
  {
    var span := Wrap((hi.current as int) - lo.current);
    if span == 0 then lo.power
    else
      var rise := Wrap((hi.power as int) - lo.power);
      var run := Wrap((current as int) - lo.current);
      Wrap(lo.power + Wrap(((rise * run) % TWO_64) / span))
  }

  /** The answer given on the segment that point i closes. */
  ghost predicate AnswerAt(li: seq<Point>, c: u32, i: nat, a: Answer)
  {
    Closes(li, c, i) && a == Power(Between(li[i - 1], li[i], c))
  }

  /** svc_config_li_expected_nw. */
  method Expected(valid: bool, li: seq<Point>, current: u32) returns (a: Answer)
    ensures !valid || |li| < 2 ==> a == Refused(ErrUnsupported)
    ensures valid && |li| >= 2 && !OnSpan(li, current) ==> a == Refused(ErrRange)
    ensures valid && |li| >= 2 && OnSpan(li, current) ==> exists i: nat :: AnswerAt(li, current, i, a)
  {
    hide Wrap;
    if !valid || |li| < 2 {
      return Refused(ErrUnsupported);
    }
    if current < li[0].current || current > li[|li| - 1].current {
      return Refused(ErrRange);
    }
    var i := 1;
    while i < |li|
      invariant 1 <= i <= |li| && forall j :: 1 <= j < i ==> li[j].current < current
    {
      var lo, hi := li[i - 1], li[i];
      if current > hi.current {
        i := i + 1;
        continue;
      }
      assert Closes(li, current, i);
      var span := Wrap((hi.current as int) - lo.current);
      if span == 0 {
        assert AnswerAt(li, current, i, Power(lo.power));
        return Power(lo.power);
      }
      var rise := Wrap((hi.power as int) - lo.power);
      var run := Wrap((current as int) - lo.current);
      a := Power(Wrap(lo.power + Wrap(((rise * run) % TWO_64) / span)));
      assert AnswerAt(li, current, i, a);
      return;
    }
    a := Refused(ErrRange);
  }

  lemma ClosesIsOne(li: seq<Point>, current: u32, i: nat, j: nat)
    requires Closes(li, current, i) && Closes(li, current, j)
    ensures i == j
  {
  }

  // ---------- the arithmetic of one segment ----------

  lemma Product(a: nat, b: nat, x: nat, y: nat)
    requires a <= x && b <= y
    ensures a * b <= x * y
  {
    assert x * y - a * b == x * (y - b) + (x - a) * b;
  }

  /** The product of two unsigned 32-bit differences always fits 64 bits. */
  lemma ProductFits(rise: u32, run: u32)
    ensures 0 <= rise * run < TWO_64
  {
    Product(rise, run, TWO_32 - 1, TWO_32 - 1);
  }

  lemma QuotientAtMost(rise: nat, run: nat, span: nat)
    requires run <= span && span > 0
    ensures (rise * run) / span <= rise
  {
    Product(rise, run, rise, span);
    QuotientOrdered(rise * run, rise * span, span);
    ExactQuotient(rise, span);
  }

  lemma QuotientBelow(a: nat, p: nat, d: nat)
    requires d > 0 && a < (p + 1) * d
    ensures a / d <= p
  {
    var q := a / d;
    assert q * d <= a;
    if q > p {
      Product(p + 1, d, q, d);
    }
  }

  lemma QuotientOrdered(a: nat, b: nat, d: nat)
    requires a <= b && d > 0
    ensures a / d <= b / d
  {
    QuotientBelow(a, b / d, d);
  }

  lemma ExactQuotient(n: nat, d: nat)
    requires d > 0
    ensures (n * d) / d == n
  {
    var q := (n * d) / d;
    assert n * d < (n + 1) * d;
    QuotientBelow(n * d, n, d);
    assert n * d < q * d + d;
    if q < n {
      Product(q + 1, d, n, d);
    }
  }

  /** On a rising segment nothing wraps. */
  lemma PlainArithmetic(lo: Point, hi: Point, current: u32)
    requires lo.current <= current <= hi.current && lo.power <= hi.power && lo.current < hi.current
    ensures var span, rise, run := (hi.current as int) - lo.current, (hi.power as int) - lo.power, (current as int) - lo.current;
      && (rise * run) / span <= rise
      && Between(lo, hi, current) == lo.power + (rise * run) / span
  {
    hide Wrap;
    var span: u32, rise: u32, run: u32 := (hi.current as int) - lo.current, (hi.power as int) - lo.power, (current as int) - lo.current;
    ProductFits(rise, run);
    QuotientAtMost(rise, run, span);
    var q := (rise * run) / span;
    WrapSmall(span);
    WrapSmall(rise);
    WrapSmall(run);
    WrapSmall(q);
    WrapSmall(lo.power + q);
    assert (rise * run) % TWO_64 == rise * run;
  }

  /** The straight line between two points, exactly. */
  ghost function Line(lo: Point, hi: Point, current: u32): real
    requires lo.current < hi.current
  {
    lo.power as real + (((hi.power as int) - lo.power) * ((current as int) - lo.current)) as real / ((hi.current as int) - lo.current) as real
  }

  lemma FloorOfQuotient(base: int, n: nat, d: nat)
    requires d > 0
    ensures var exact := base as real + n as real / d as real;
      (base + n / d) as real <= exact < (base + n / d + 1) as real
  {
    var q := n / d;
    assert q * d <= n < (q + 1) * d;
    assert (q as real) * (d as real) <= n as real;
    assert n as real < ((q + 1) as real) * (d as real);
    assert q as real <= n as real / d as real < (q + 1) as real;
  }

  /** The answer is the exact line rounded down: never above it, and below by less than one. */
  lemma LineRoundedDown(lo: Point, hi: Point, current: u32)
    requires lo.current <= current <= hi.current && lo.power <= hi.power && lo.current < hi.current
    ensures var r := Between(lo, hi, current);
      && lo.power <= r <= hi.power
      && r as real <= Line(lo, hi, current) < (r + 1) as real
  {
    hide Wrap;
    PlainArithmetic(lo, hi, current);
    var span, rise, run := (hi.current as int) - lo.current, (hi.power as int) - lo.power, (current as int) - lo.current;
    Product(0, 0, rise, run);
    FloorOfQuotient(lo.power, rise * run, span);
  }

  lemma StaysBetween(lo: Point, hi: Point, current: u32)
    requires lo.current <= current <= hi.current && lo.power <= hi.power
    ensures lo.power <= Between(lo, hi, current) <= hi.power
  {
    hide Wrap;
    if lo.current < hi.current {
      LineRoundedDown(lo, hi, current);
    } else {
      WrapSmall(0);
    }
  }

  lemma RisesWithin(lo: Point, hi: Point, c: u32, d: u32)
    requires lo.current <= c <= d <= hi.current && lo.power <= hi.power
    ensures Between(lo, hi, c) <= Between(lo, hi, d)
  {
    hide Wrap;
    if lo.current < hi.current {
      var span, rise := (hi.current as int) - lo.current, (hi.power as int) - lo.power;
      PlainArithmetic(lo, hi, c);
      PlainArithmetic(lo, hi, d);
      Product(rise, (c as int) - lo.current, rise, (d as int) - lo.current);
      QuotientOrdered(rise * ((c as int) - lo.current), rise * ((d as int) - lo.current), span);
    }
  }

  // ---------- the whole curve ----------

  lemma SegmentHolds(li: seq<Point>, current: u32, i: nat)
    requires Rising(li) && |li| >= 2 && OnSpan(li, current) && Closes(li, current, i)
    ensures li[i - 1].current <= current <= li[i].current && li[i - 1].power <= li[i].power
  {
  }

  /** What the curve answers lies between the powers of the two points around it. */
  lemma AnswerIsBracketed(li: seq<Point>, current: u32, i: nat)
    requires Rising(li) && |li| >= 2 && OnSpan(li, current) && Closes(li, current, i)
    ensures li[i - 1].power <= Between(li[i - 1], li[i], current) <= li[i].power
    ensures li[i - 1].current < li[i].current ==>
      var r := Between(li[i - 1], li[i], current);
      r as real <= Line(li[i - 1], li[i], current) < (r + 1) as real
    ensures li[i - 1].current == li[i].current ==> i == 1 && Between(li[i - 1], li[i], current) == li[0].power
  {
    hide Line, Rising, Wrap;
    WrapSmall(0);
    SegmentHolds(li, current, i);
    StaysBetween(li[i - 1], li[i], current);
    if li[i - 1].current < li[i].current {
      LineRoundedDown(li[i - 1], li[i], current);
    }
  }

  /** A larger current is never answered with a smaller power, across the whole curve. */
  lemma CurveNeverFalls(li: seq<Point>, c: u32, d: u32, i: nat, j: nat)
    requires Rising(li) && |li| >= 2 && OnSpan(li, c) && OnSpan(li, d) && c <= d
    requires Closes(li, c, i) && Closes(li, d, j)
    ensures Between(li[i - 1], li[i], c) <= Between(li[j - 1], li[j], d)
  {
    hide Between;
    assert i <= j;
    SegmentHolds(li, c, i);
    SegmentHolds(li, d, j);
    if i == j {
      RisesWithin(li[i - 1], li[i], c, d);
    } else {
      StaysBetween(li[i - 1], li[i], c);
      StaysBetween(li[j - 1], li[j], d);
    }
  }

  lemma PointClosesItsSegment(li: seq<Point>, k: nat, i: nat)
    requires Increasing(li) && k < |li| && Closes(li, li[k].current, i)
    ensures i == if k == 0 then 1 else k
  {
    if i > 1 {
      assert li[1].current < li[k].current;
    }
  }

  lemma LowEndIsExact(lo: Point, hi: Point)
    requires lo.current < hi.current && lo.power <= hi.power
    ensures Between(lo, hi, lo.current) == lo.power
  {
    hide Between;
    PlainArithmetic(lo, hi, lo.current);
    assert ((hi.power as int) - lo.power) * 0 == 0;
  }

  lemma HighEndIsExact(lo: Point, hi: Point)
    requires lo.current < hi.current && lo.power <= hi.power
    ensures Between(lo, hi, hi.current) == hi.power
  {
    hide Between;
    PlainArithmetic(lo, hi, hi.current);
    ExactQuotient((hi.power as int) - lo.power, (hi.current as int) - lo.current);
  }

  /** At a calibrated point the answer is that point's power. */
  lemma ExactAtPoints(li: seq<Point>, k: nat, i: nat)
    requires Rising(li) && Increasing(li) && |li| >= 2 && k < |li| && Closes(li, li[k].current, i)
    ensures Between(li[i - 1], li[i], li[k].current) == li[k].power
  {
    hide Between;
    PointClosesItsSegment(li, k, i);
    SegmentHolds(li, li[k].current, i);
    if k == 0 {
      LowEndIsExact(li[i - 1], li[i]);
    } else {
      HighEndIsExact(li[i - 1], li[i]);
    }
  }

  /** What Expected may give for a current on or off the span of a usable curve. */
  ghost predicate AnswerOf(li: seq<Point>, c: u32, a: Answer)
    requires |li| >= 2
  {
    if OnSpan(li, c) then exists i: nat :: AnswerAt(li, c, i, a) else a == Refused(ErrRange)
  }

  lemma TwoAnswers(li: seq<Point>, c: u32, d: u32, i: nat, j: nat, a: Answer, b: Answer)
    requires |li| >= 2 && Rising(li) && OnSpan(li, c) && OnSpan(li, d) && c <= d
    requires AnswerAt(li, c, i, a) && AnswerAt(li, d, j, b)
    ensures a.Power? && b.Power? && a.nanowatts <= b.nanowatts
  {
    hide Between, Rising, OnSpan;
    CurveNeverFalls(li, c, d, i, j);
  }

  lemma AnswersInOrder(li: seq<Point>, c: u32, d: u32, a: Answer, b: Answer)
    requires |li| >= 2 && Rising(li) && c <= d
    requires AnswerOf(li, c, a) && AnswerOf(li, d, b)
    ensures a.Power? && b.Power? ==> a.nanowatts <= b.nanowatts
  {
    hide Rising, OnSpan, AnswerAt;
    if a.Power? && b.Power? {
      var i: nat :| AnswerAt(li, c, i, a);
      var j: nat :| AnswerAt(li, d, j, b);
      TwoAnswers(li, c, d, i, j, a, b);
    }
  }

  lemma AnswerAtPoints(li: seq<Point>, c: u32, a: Answer)
    requires |li| >= 2 && Rising(li) && Increasing(li) && AnswerOf(li, c, a)
    ensures forall k :: 0 <= k < |li| && li[k].current == c ==> a == Power(li[k].power)
  {
    hide Between, Rising, Increasing, OnSpan;
    PointsAreOnSpan(li);
    if OnSpan(li, c) {
      var i: nat :| AnswerAt(li, c, i, a);
      PointsAnswered(li, c, i);
    }
  }

  /** Two readings of one rising curve: both succeed exactly on its span, and they are in
      the order of their currents. */
  method Compare(li: seq<Point>, c: u32, d: u32) returns (a: Answer, b: Answer)
    requires |li| >= 2 && Rising(li) && c <= d
    ensures a.Power? <==> OnSpan(li, c)
    ensures b.Power? <==> OnSpan(li, d)
    ensures a.Power? && b.Power? ==> a.nanowatts <= b.nanowatts
    ensures Increasing(li) ==> forall k :: 0 <= k < |li| && li[k].current == c ==> a == Power(li[k].power)
  {
    hide Between, Rising, Increasing, Closes;
    a := Expected(true, li, c);
    assert AnswerOf(li, c, a);
    b := Expected(true, li, d);
    assert AnswerOf(li, d, b);
    AnswersInOrder(li, c, d, a, b);
    if Increasing(li) {
      AnswerAtPoints(li, c, a);
    }
  }

  lemma PointsAnswered(li: seq<Point>, c: u32, i: nat)
    requires |li| >= 2 && Rising(li) && Closes(li, c, i)
    ensures Increasing(li) ==> forall k :: 0 <= k < |li| && li[k].current == c ==> Between(li[i - 1], li[i], c) == li[k].power
  {
    hide Between, Rising, Increasing;
    if Increasing(li) {
      forall k | 0 <= k < |li| && li[k].current == c
        ensures Between(li[i - 1], li[i], c) == li[k].power
      {
        ExactAtPoints(li, k, i);
      }
    }
  }

  lemma PointsAreOnSpan(li: seq<Point>)
    requires |li| >= 2 && Rising(li)
    ensures forall k :: 0 <= k < |li| ==> OnSpan(li, li[k].current)
  {
  }
}
