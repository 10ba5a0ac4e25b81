/**
 The running frame interval of the plugin: `(min, max)` plus a counter of the tracks
 that contributed. With no contribution it is (0, 0); the first contribution sets
 both ends; later ones only widen it.
 */
module Intervals {
  import opened Scene

  /** The first and last key time of one track. */
  type Bounds = (Time, Time)

  datatype Interval = Interval(min: Time, max: Time, count: nat)

  /** The state `resetMinMax` leaves. */
  const RESET: Interval := Interval(0, 0, 0)

  function Min(a: Time, b: Time): Time {
    if a <= b then a else b
  }

  function Max(a: Time, b: Time): Time {
    if a >= b then a else b
  }

  /**
   `updateMinMax`: at count 0 both ends are overwritten; otherwise the start never
   rises, the end never falls, and the new track is covered. The counter grows by one.
   */
  function Update(acc: Interval, b: Bounds): (r: Interval)
    ensures r.count == acc.count + 1
    ensures acc.count == 0 ==> r.min == b.0 && r.max == b.1
    ensures acc.count > 0 ==> r.min == Min(acc.min, b.0) && r.max == Max(acc.max, b.1)
  {
    Interval(
      if b.0 < acc.min || acc.count == 0 then b.0 else acc.min,
      if b.1 > acc.max || acc.count == 0 then b.1 else acc.max,
      acc.count + 1)
  }

  /** The interval after a reset followed by one update per contribution, in order. */
  function Fold(bs: seq<Bounds>): Interval {
    if bs == [] then RESET else Update(Fold(bs[..|bs| - 1]), bs[|bs| - 1])
  }

  /** `m` is the least start among the contributions, and is one of them. */
  ghost predicate IsLeastStart(m: Time, bs: seq<Bounds>) {
    && (exists b :: b in bs && b.0 == m)
    && (forall b :: b in bs ==> m <= b.0)
  }

  /** `m` is the greatest end among the contributions, and is one of them. */
  ghost predicate IsGreatestEnd(m: Time, bs: seq<Bounds>) {
    && (exists b :: b in bs && b.1 == m)
    && (forall b :: b in bs ==> b.1 <= m)
  }

  /**
   After any sequence of contributions the counter is their number, and the interval
   is (0, 0) when there were none and otherwise spans from the least start to the
   greatest end.
   */
  lemma {:induction false} FoldSpan(bs: seq<Bounds>)
    ensures Fold(bs).count == |bs|
    ensures bs == [] ==> Fold(bs) == RESET
    ensures bs != [] ==> IsLeastStart(Fold(bs).min, bs) && IsGreatestEnd(Fold(bs).max, bs)
  {
    if bs != [] {
      var init, last := bs[..|bs| - 1], bs[|bs| - 1];
      FoldSpan(init);
      assert bs == init + [last];
      assert forall b :: b in bs ==> b in init || b == last;
      if init != [] {
        var lo :| lo in init && lo.0 == Fold(init).min;
        var hi :| hi in init && hi.1 == Fold(init).max;
        assert lo in bs && hi in bs;
      }
    }
  }

  /** The order in which tracks contribute does not change the interval. */
  lemma FoldOrderIrrelevant(a: seq<Bounds>, b: seq<Bounds>)
    requires forall x :: x in a <==> x in b
    ensures Fold(a).min == Fold(b).min && Fold(a).max == Fold(b).max
  {
    FoldSpan(a);
    FoldSpan(b);
    SameMembersBothEmpty(a, b);
    if a != [] {
      var la :| la in a && la.0 == Fold(a).min;
      var lb :| lb in b && lb.0 == Fold(b).min;
      var ha :| ha in a && ha.1 == Fold(a).max;
      var hb :| hb in b && hb.1 == Fold(b).max;
      assert la in b && lb in a && ha in b && hb in a;
    }
  }

  lemma SameMembersBothEmpty(a: seq<Bounds>, b: seq<Bounds>)
    requires forall x :: x in a <==> x in b
    ensures a == [] <==> b == []
  {
    if a != [] {
      assert a[0] in b;
    }
    if b != [] {
      assert b[0] in a;
    }
  }

  /** When every contribution starts no later than it ends, so does the interval. */
  lemma FoldOrdered(bs: seq<Bounds>)
    requires forall b :: b in bs ==> b.0 <= b.1
    ensures Fold(bs).min <= Fold(bs).max
  {
    FoldSpan(bs);
    if bs != [] {
      var lo :| lo in bs && lo.0 == Fold(bs).min;
    }
  }
}
