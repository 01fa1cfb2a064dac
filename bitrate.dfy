/**
 * The bitrate solver of the compression tool (calculate_bitrate in Resize.py).
 *
 * Sizes are megabytes of 8,000,000 bits, rates are kilobits per second and
 * durations are seconds. Everything is exact `real` arithmetic; the source's
 * IEEE floats are not modelled.
 */
module Bitrate {

  /** How one minimum-bitrate negotiation ended. */
  datatype Outcome =
    | FloorMet                            // the bitrate was already at or above the floor
    | KeptTarget                          // below the floor, and the floor would overshoot the target size
    | FloorAdopted(adjustedSizeMb: real)  // the floor replaced the bitrate; the size it implies is reported

  /** The video bitrate a negotiation settles on, and how it got there. */
  datatype Negotiation = Negotiation(videoKbps: real, outcome: Outcome)

  /** The (video, audio) pair that calculate_bitrate returns. */
  datatype Rates = Rates(videoKbps: real, audioKbps: real)

  /** The total rate that spends `targetMb` over `durationS` seconds. */
  function TotalKbps(targetMb: real, durationS: real): (k: real)
    requires durationS > 0.0
    ensures k * durationS == targetMb * 8000.0
  {
    targetMb * 8000.0 * 1000.0 / durationS / 1000.0
  }

  /** The size in MB that a total rate of `totalKbps` produces over `durationS` seconds. */
  function SizeMb(totalKbps: real, durationS: real): (s: real)
    ensures s * 8000.0 == totalKbps * durationS
  {
    (totalKbps * 1000.0 * durationS) / (8000.0 * 1000.0)
  }

  /** Size and total rate are inverse conversions for a fixed positive duration. */
  lemma SizeRoundTrip(targetMb: real, totalKbps: real, durationS: real)
    requires durationS > 0.0
    ensures SizeMb(TotalKbps(targetMb, durationS), durationS) == targetMb
    ensures TotalKbps(SizeMb(totalKbps, durationS), durationS) == totalKbps
  {}

  /** Audio bitrate, a step function of the duration. */
  function AudioKbps(durationS: real): (a: real)
    ensures a == 96.0 || a == 128.0 || a == 160.0
  {
    if durationS < 30.0 then 160.0
    else if durationS > 3600.0 then 96.0
    else 128.0
  }

  /** Longer clips never get a higher audio bitrate. */
  lemma AudioNonIncreasing(d1: real, d2: real)
    requires d1 <= d2
    ensures AudioKbps(d2) <= AudioKbps(d1)
  {}

  /** The duration-indexed minimum video bitrate. */
  function DurationFloorKbps(durationS: real): (f: real)
    ensures f == 300.0 || f == 400.0 || f == 500.0 || f == 800.0 || f == 1000.0
  {
    if durationS < 30.0 then 1000.0
    else if durationS < 60.0 then 800.0
    else if durationS > 3600.0 then 300.0
    else if durationS > 600.0 then 400.0
    else 500.0
  }

  /** Longer clips never get a higher duration floor. */
  lemma DurationFloorNonIncreasing(d1: real, d2: real)
    requires d1 <= d2
    ensures DurationFloorKbps(d2) <= DurationFloorKbps(d1)
  {}

  /** The video bitrate that, with `audioKbps`, exactly spends `targetMb`. */
  function LiteralVideoKbps(targetMb: real, durationS: real, audioKbps: real): (v: real)
    requires durationS > 0.0
    ensures SizeMb(v + audioKbps, durationS) == targetMb
  {
    SizeRoundTrip(targetMb, 0.0, durationS);
    TotalKbps(targetMb, durationS) - audioKbps
  }

  /**
   * One minimum-bitrate negotiation: a bitrate below `floorKbps` is either
   * replaced by the floor, when the floor fits in the target size, or
   * recomputed from the target size, when it does not.
   */
  function Negotiate(videoKbps: real, audioKbps: real, floorKbps: real, targetMb: real, durationS: real): (n: Negotiation)
    requires durationS > 0.0
    ensures n.outcome.FloorMet? <==> floorKbps <= videoKbps
    ensures n.outcome.FloorMet? ==> n.videoKbps == videoKbps
    ensures n.outcome.KeptTarget? ==>
      n.videoKbps == LiteralVideoKbps(targetMb, durationS, audioKbps) &&
      targetMb < SizeMb(floorKbps + audioKbps, durationS)
    ensures n.outcome.FloorAdopted? ==>
      videoKbps < n.videoKbps == floorKbps &&
      n.outcome.adjustedSizeMb == SizeMb(floorKbps + audioKbps, durationS) <= targetMb
    // the result is below the floor only when the floor would overshoot the target
    ensures n.videoKbps < floorKbps ==> n.outcome.KeptTarget?
  {
    if videoKbps < floorKbps then
      var newTargetSize := SizeMb(floorKbps + audioKbps, durationS);
      if newTargetSize > targetMb then
        Negotiation(LiteralVideoKbps(targetMb, durationS, audioKbps), KeptTarget)
      else
        Negotiation(floorKbps, FloorAdopted(newTargetSize))
    else
      Negotiation(videoKbps, FloorMet)
  }

  /**
   * Negotiating a bitrate that was itself derived from the target size never
   * adopts the floor and never changes the bitrate: being below the floor and
   * the floor's size exceeding the target are the same inequality.
   */
  lemma LiteralNeverAdoptsFloor(targetMb: real, durationS: real, audioKbps: real, floorKbps: real)
    requires durationS > 0.0
    ensures var v := LiteralVideoKbps(targetMb, durationS, audioKbps);
      Negotiate(v, audioKbps, floorKbps, targetMb, durationS) ==
        Negotiation(v, if floorKbps <= v then FloorMet else KeptTarget)
  {}

  /** The literal bitrate reaches a floor exactly when the floor's size fits in the target. */
  lemma FloorAffordableIff(targetMb: real, durationS: real, audioKbps: real, floorKbps: real)
    requires durationS > 0.0
    ensures floorKbps <= LiteralVideoKbps(targetMb, durationS, audioKbps) <==>
      SizeMb(floorKbps + audioKbps, durationS) <= targetMb
  {}

  /** The first negotiation of calculate_bitrate, against the duration floor. */
  function DurationNegotiation(targetMb: real, durationS: real): (n: Negotiation)
    requires durationS > 0.0
    ensures !n.outcome.FloorAdopted?
    ensures n.outcome.FloorMet? <==> DurationFloorKbps(durationS) <= n.videoKbps
  {
    var totalKbps := TotalKbps(targetMb, durationS);
    var audioKbps := AudioKbps(durationS);
    var videoKbps := totalKbps - audioKbps;
    LiteralNeverAdoptsFloor(targetMb, durationS, audioKbps, DurationFloorKbps(durationS));
    Negotiate(videoKbps, audioKbps, DurationFloorKbps(durationS), targetMb, durationS)
  }

  /**
   * calculate_bitrate: the audio rate is the duration step, and the video rate
   * is what remains of the target size; the duration floor never changes it.
   */
  function CalculateBitrate(targetMb: real, durationS: real): (r: Rates)
    requires durationS > 0.0
    ensures r.audioKbps == AudioKbps(durationS)
    ensures r.videoKbps == LiteralVideoKbps(targetMb, durationS, r.audioKbps)
    ensures SizeMb(r.videoKbps + r.audioKbps, durationS) == targetMb
  {
    var audioKbps := AudioKbps(durationS);
    LiteralNeverAdoptsFloor(targetMb, durationS, audioKbps, DurationFloorKbps(durationS));
    Rates(DurationNegotiation(targetMb, durationS).videoKbps, audioKbps)
  }

  /** The duration floor is respected exactly when the target size affords it. */
  lemma DurationFloorRespectedIff(targetMb: real, durationS: real)
    requires durationS > 0.0
    ensures var r := CalculateBitrate(targetMb, durationS);
      DurationFloorKbps(durationS) <= r.videoKbps <==>
        SizeMb(DurationFloorKbps(durationS) + r.audioKbps, durationS) <= targetMb
  {}

  /** A larger target gives a strictly larger video bitrate. */
  lemma VideoIncreasesWithTarget(t1: real, t2: real, durationS: real)
    requires durationS > 0.0 && t1 < t2
    ensures CalculateBitrate(t1, durationS).videoKbps < CalculateBitrate(t2, durationS).videoKbps
  {}

  /** The video bitrate is not clamped: it is negative exactly when the audio alone overspends the target. */
  lemma VideoNegativeIff(targetMb: real, durationS: real)
    requires durationS > 0.0
    ensures CalculateBitrate(targetMb, durationS).videoKbps < 0.0 <==>
      targetMb * 8000.0 < AudioKbps(durationS) * durationS
  {}

  /** 50 MB over 600 s: the 500 kbps floor is met and the rate is 1616/3 kbps. */
  lemma FloorMetExample()
    ensures DurationNegotiation(50.0, 600.0) == Negotiation(1616.0 / 3.0, FloorMet)
    ensures CalculateBitrate(50.0, 600.0) == Rates(1616.0 / 3.0, 128.0)
  {}

  /** 5 MB over 600 s: below the floor, the target is kept and the rate is negative. */
  lemma KeptTargetExample()
    ensures DurationNegotiation(5.0, 600.0) == Negotiation(-184.0 / 3.0, KeptTarget)
    ensures CalculateBitrate(5.0, 600.0) == Rates(-184.0 / 3.0, 128.0)
  {}

  /** In isolation the floor-adoption branch is live: it only needs a rate not derived from the target. */
  lemma FloorAdoptedInIsolation()
    ensures Negotiate(0.0, 128.0, 500.0, 100.0, 60.0) == Negotiation(500.0, FloorAdopted(4.71))
  {}
}
