/**
 * The target-size recommendation that main in Resize.py computes before it
 * asks for a target size, lifted into pure functions, and the test the typed
 * target must pass. Sizes are MB, durations seconds, all exact `real`s.
 */
module Recommender {

  /** What main offers: two fixed presets for a very small source, or a size window. */
  datatype Recommendation =
    | Presets(smallerMb: real, largerMb: real)
    | Window(minSizeMb: real, recommendedMb: real, maxSizeMb: real)

  /** Python's two-argument max: the first argument unless the second is larger. */
  function Max(a: real, b: real): (m: real)
    ensures a <= m && b <= m && (m == a || m == b)
  {
    if b > a then b else a
  }

  /** Python's two-argument min: the first argument unless the second is smaller. */
  function Min(a: real, b: real): (m: real)
    ensures m <= a && m <= b && (m == a || m == b)
  {
    if b < a then b else a
  }

  /** The least integer not below `x`. */
  function Ceil(x: real): (c: int)
    ensures c as real - 1.0 < x <= c as real
  {
    if x.Floor as real == x then x.Floor else x.Floor + 1
  }

  /** A larger real never has a smaller ceiling. */
  lemma CeilMonotone(x: real, y: real)
    requires x <= y
    ensures Ceil(x) <= Ceil(y)
  {}

  /** The duration-bucketed base size, for clips of at least 30 seconds. */
  function BaseSizeMb(durationS: real): (s: real)
    requires durationS >= 30.0
    ensures s >= 15.0
  {
    var minutes := durationS / 60.0;
    if minutes <= 1.0 then 15.0
    else if minutes <= 2.0 then 25.0
    else if minutes <= 3.0 then 35.0
    else if minutes <= 4.0 then 45.0
    else if minutes <= 5.0 then 55.0
    else if minutes <= 6.0 then 65.0
    else if minutes <= 7.0 then 75.0
    else if minutes <= 8.0 then 85.0
    else if minutes <= 9.0 then 95.0
    else if minutes <= 10.0 then 105.0
    else if minutes <= 15.0 then 150.0
    else if minutes <= 20.0 then 200.0
    else if minutes <= 25.0 then 250.0
    else if minutes <= 30.0 then 300.0
    else if minutes <= 35.0 then 350.0
    else if minutes <= 40.0 then 400.0
    else if minutes <= 45.0 then 450.0
    else if minutes <= 50.0 then 500.0
    else if minutes <= 55.0 then 550.0
    else if minutes <= 60.0 then 600.0
    else if minutes <= 65.0 then 650.0
    else if minutes <= 70.0 then 700.0
    else if minutes <= 75.0 then 750.0
    else if minutes <= 80.0 then 800.0
    else if minutes <= 85.0 then 850.0
    else if minutes <= 90.0 then 900.0
    else
      var firstHour := 3600.0 * 0.3;
      var remainingSeconds := durationS - 3600.0;
      var remainingSize := remainingSeconds * 0.2;
      firstHour + remainingSize
  }

  /** Up to ten minutes the table is 10 MB per started minute plus 5 MB. */
  lemma BaseSizePerMinute(durationS: real)
    requires 30.0 <= durationS <= 600.0
    ensures BaseSizeMb(durationS) == 10.0 * Ceil(durationS / 60.0) as real + 5.0
  {}

  /** From ten to ninety minutes the table is 50 MB per started five minutes. */
  lemma BaseSizePerFiveMinutes(durationS: real)
    requires 600.0 < durationS <= 5400.0
    ensures BaseSizeMb(durationS) == 50.0 * Ceil(durationS / 300.0) as real
  {}

  /** Beyond ninety minutes: 0.3 MB/s for the first hour and 0.2 MB/s after it. */
  lemma BaseSizeLinear(durationS: real)
    requires durationS > 5400.0
    ensures BaseSizeMb(durationS) == 0.3 * 3600.0 + 0.2 * (durationS - 3600.0)
    ensures BaseSizeMb(durationS) > 1440.0
  {}

  /** The base size never shrinks as the duration grows. */
  lemma BaseSizeMonotone(d1: real, d2: real)
    requires 30.0 <= d1 <= d2
    ensures BaseSizeMb(d1) <= BaseSizeMb(d2)
  {
    if d2 <= 600.0 {
      BaseSizePerMinute(d1);
      BaseSizePerMinute(d2);
      CeilMonotone(d1 / 60.0, d2 / 60.0);
    } else if d2 <= 5400.0 {
      BaseSizePerFiveMinutes(d2);
      if d1 <= 600.0 {
        BaseSizePerMinute(d1);
        CeilMonotone(d1 / 60.0, 10.0);
      } else {
        BaseSizePerFiveMinutes(d1);
        CeilMonotone(d1 / 300.0, d2 / 300.0);
      }
    } else {
      BaseSizeLinear(d2);
      if d1 <= 600.0 {
        BaseSizePerMinute(d1);
        CeilMonotone(d1 / 60.0, 10.0);
      } else if d1 <= 5400.0 {
        BaseSizePerFiveMinutes(d1);
        CeilMonotone(d1 / 300.0, 18.0);
      } else {
        BaseSizeLinear(d1);
      }
    }
  }

  /** The duration-bucketed ceiling on the target size. */
  function SizeCapMb(durationS: real): (c: real)
    ensures c == 50.0 || c == 500.0 || c == 1000.0 || c == 2000.0
  {
    if durationS < 30.0 then 50.0
    else if durationS <= 3600.0 then 500.0
    else if durationS <= 7200.0 then 1000.0
    else 2000.0
  }

  /** A longer clip never gets a lower size cap. */
  lemma SizeCapMonotone(d1: real, d2: real)
    requires d1 <= d2
    ensures SizeCapMb(d1) <= SizeCapMb(d2)
  {}

  /** The recommendation shown for a source of `originalMb` lasting `durationS` seconds. */
  function Recommend(durationS: real, originalMb: real): (r: Recommendation)
    ensures r.Presets? <==> originalMb < 3.0
    ensures r.Presets? ==> r == Presets(1.0, 1.5)
    ensures r.Window? ==> r.recommendedMb <= r.maxSizeMb <= originalMb
    ensures r.Window? ==> r.maxSizeMb == Min(SizeCapMb(durationS), originalMb)
    ensures r.Window? ==> 5.0 <= r.minSizeMb && (30.0 <= durationS ==> 10.0 <= r.minSizeMb)
    // the window is ordered exactly when its bounds are
    ensures r.Window? ==> (r.minSizeMb <= r.recommendedMb <==> r.minSizeMb <= r.maxSizeMb)
  {
    if originalMb < 3.0 then
      Presets(1.0, 1.5)
    else
      var (recommendedSize, minSize) :=
        if durationS < 30.0 then
          (Max(10.0, durationS * 0.5), Max(5.0, durationS * 0.2))
        else
          var baseSize := BaseSizeMb(durationS);
          var recommended :=
            if baseSize >= originalMb then Max(originalMb * 0.5, 10.0) else baseSize;
          (recommended, Max(10.0, recommended * 0.3));
      var maxSize := Min(SizeCapMb(durationS), originalMb);
      Window(minSize, Min(maxSize, Max(minSize, recommendedSize)), maxSize)
  }

  /** The target sizes main accepts: one of the presets, or a size from the minimum up to the recommendation. */
  predicate Accepts(r: Recommendation, targetMb: real): (ok: bool)
    // a window whose recommendation fell below its minimum accepts nothing
    ensures r.Window? && r.recommendedMb < r.minSizeMb ==> !ok
    ensures ok && r.Presets? ==> targetMb == r.smallerMb || targetMb == r.largerMb
  {
    match r
    case Presets(smaller, larger) => targetMb == smaller || targetMb == larger
    case Window(minSize, recommended, _) => minSize <= targetMb <= recommended
  }

  /** Some target is accepted exactly when the source is small or the window's bounds are ordered. */
  lemma SomeTargetAcceptedIff(durationS: real, originalMb: real)
    ensures var r := Recommend(durationS, originalMb);
      (exists t :: Accepts(r, t)) <==> (r.Presets? || r.minSizeMb <= r.maxSizeMb)
  {
    var r := Recommend(durationS, originalMb);
    if r.Presets? {
      assert Accepts(r, 1.0);
    } else if r.minSizeMb <= r.maxSizeMb {
      assert Accepts(r, r.minSizeMb);
    }
  }

  /** A target accepted from the window is at least 5 MB and never larger than the source. */
  lemma AcceptedWindowTargetBounds(durationS: real, originalMb: real, targetMb: real)
    requires Recommend(durationS, originalMb).Window?
    requires Accepts(Recommend(durationS, originalMb), targetMb)
    ensures 5.0 <= targetMb <= originalMb
  {}

  /** A source of at least 3 MB and under 10 MB lasting 30 s or more can never be given an accepted target. */
  lemma NoTargetForSmallLongSource(durationS: real, originalMb: real)
    requires 30.0 <= durationS && 3.0 <= originalMb < 10.0
    ensures forall t :: !Accepts(Recommend(durationS, originalMb), t)
  {}

  /** 4 MB over 120 s: minimum 10, recommended and maximum 4, so nothing is accepted. */
  lemma EmptyWindowExample()
    ensures Recommend(120.0, 4.0) == Window(10.0, 4.0, 4.0)
    ensures forall t :: !Accepts(Recommend(120.0, 4.0), t)
  {}

  /** A preset can be larger than the source: 1.5 MB is offered for a 1.2 MB file. */
  lemma PresetAboveSourceExample()
    ensures Recommend(100.0, 1.2) == Presets(1.0, 1.5)
    ensures Accepts(Recommend(100.0, 1.2), 1.5)
  {}

  /**
   * From thirty seconds on, a source no larger than the base size is
   * recommended at half its size, with a minimum of 30 % of that or 10 MB.
   */
  lemma HalfSourceWhenBaseCoversIt(durationS: real, originalMb: real)
    requires 30.0 <= durationS && 20.0 <= originalMb <= BaseSizeMb(durationS)
    requires originalMb <= 2.0 * SizeCapMb(durationS)
    ensures Recommend(durationS, originalMb) ==
      Window(Max(10.0, 0.15 * originalMb), 0.5 * originalMb, Min(SizeCapMb(durationS), originalMb))
  {}

  /** From thirty seconds on, a source within the base size but over twice the cap is cut to the cap, above a 15 % minimum. */
  lemma HalfSourceCutToCap(durationS: real, originalMb: real)
    requires 30.0 <= durationS && 2.0 * SizeCapMb(durationS) < originalMb <= BaseSizeMb(durationS)
    ensures Recommend(durationS, originalMb) ==
      Window(0.15 * originalMb, SizeCapMb(durationS), SizeCapMb(durationS))
  {}

  /** 14000 MB over 70000 s: base 14360 covers the source, but the 15 % minimum 2100 exceeds the 2000 MB cap. */
  lemma CappedEmptyWindowExample()
    ensures Recommend(70000.0, 14000.0) == Window(2100.0, 2000.0, 2000.0)
    ensures forall t :: !Accepts(Recommend(70000.0, 14000.0), t)
  {}

  /** From thirty seconds on, a base size below the source sets the minimum at 30 % of it, at least 10 MB. */
  lemma MinimumIsThirtyPercentOfBase(durationS: real, originalMb: real)
    requires 30.0 <= durationS && 3.0 <= originalMb && BaseSizeMb(durationS) < originalMb
    ensures Recommend(durationS, originalMb).minSizeMb == Max(10.0, 0.3 * BaseSizeMb(durationS))
  {}

  /** 100 MB over 600 s: the base size 105 covers the source, so the window is (15, 50, 100). */
  lemma HalfSourceExample()
    ensures Recommend(600.0, 100.0) == Window(15.0, 50.0, 100.0)
  {}

  /** From thirty seconds on, a base size below the source is recommended, cut down to the duration cap. */
  lemma RecommendsCappedBaseSize(durationS: real, originalMb: real)
    requires 30.0 <= durationS && 3.0 <= originalMb && BaseSizeMb(durationS) < originalMb
    ensures Recommend(durationS, originalMb).recommendedMb == Min(SizeCapMb(durationS), BaseSizeMb(durationS))
  {}

  /** 2000 MB over 55 minutes: the base size 550 exceeds the 500 MB cap, so the window is (165, 500, 500). */
  lemma CappedBaseSizeExample()
    ensures Recommend(3300.0, 2000.0) == Window(165.0, 500.0, 500.0)
  {}

  /** From thirty seconds on, a source of at least 3 MB and under 20 MB within the base size is recommended at 10 MB or its own size. */
  lemma SmallSourceWithinBaseSize(durationS: real, originalMb: real)
    requires 30.0 <= durationS && 3.0 <= originalMb < 20.0 && originalMb <= BaseSizeMb(durationS)
    ensures Recommend(durationS, originalMb) == Window(10.0, Min(originalMb, 10.0), originalMb)
  {}

  /** Under thirty seconds: half a megabyte per second, at least 10 MB, cut down to 50 MB and to the source. */
  lemma ShortClipRecommendation(durationS: real, originalMb: real)
    requires durationS < 30.0 && 3.0 <= originalMb
    ensures Recommend(durationS, originalMb) ==
      Window(Max(5.0, durationS * 0.2), Min(Min(50.0, originalMb), Max(10.0, durationS * 0.5)), Min(50.0, originalMb))
  {}
}
