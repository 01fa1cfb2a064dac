/**
 * The sizing part of compress_video in Resize.py: the bitrates from the
 * bitrate solver, the output size from the resolution policy, a second
 * negotiation against the tier's floor, and the rate-control values handed
 * to the encoder.
 */
module Planner {
  import opened Bitrate
  import opened Resolution

  /** Everything the encoder invocation needs from the sizing logic. */
  datatype EncodePlan = EncodePlan(videoKbps: real, audioKbps: real, width: int, height: int)

  /** The rate-control values of the encoder command line. */
  datatype EncoderRates = EncoderRates(bitrateKbps: real, maxrateKbps: real, bufsizeKbps: real, audioKbps: real)

  /** The second negotiation, against the floor of the chosen resolution tier. */
  function TierNegotiation(targetMb: real, durationS: real, width: int, height: int, choice: string): (n: Negotiation)
    requires durationS > 0.0
    ensures !n.outcome.FloorAdopted?
    ensures n.videoKbps == CalculateBitrate(targetMb, durationS).videoKbps
    ensures n.outcome.FloorMet? <==> GetResolutionSettings(width, height, choice).minKbps as real <= n.videoKbps
  {
    var rates := CalculateBitrate(targetMb, durationS);
    var settings := GetResolutionSettings(width, height, choice);
    LiteralNeverAdoptsFloor(targetMb, durationS, rates.audioKbps, settings.minKbps as real);
    Negotiate(rates.videoKbps, rates.audioKbps, settings.minKbps as real, targetMb, durationS)
  }

  /**
   * The plan compress_video encodes with: the tier floor never changes the
   * solver's bitrates, the plan spends exactly the target size, and the
   * output size is the policy's.
   */
  function Plan(targetMb: real, durationS: real, width: int, height: int, choice: string): (p: EncodePlan)
    requires durationS > 0.0
    ensures p.audioKbps == AudioKbps(durationS)
    ensures p.videoKbps == LiteralVideoKbps(targetMb, durationS, p.audioKbps)
    ensures SizeMb(p.videoKbps + p.audioKbps, durationS) == targetMb
    ensures p.width == GetResolutionSettings(width, height, choice).width
    ensures p.height == GetResolutionSettings(width, height, choice).height
  {
    var rates := CalculateBitrate(targetMb, durationS);
    var settings := GetResolutionSettings(width, height, choice);
    var n := TierNegotiation(targetMb, durationS, width, height, choice);
    EncodePlan(n.videoKbps, rates.audioKbps, settings.width, settings.height)
  }

  /** The tier floor is respected exactly when the target size affords it. */
  lemma TierFloorRespectedIff(targetMb: real, durationS: real, width: int, height: int, choice: string)
    requires durationS > 0.0
    ensures var p := Plan(targetMb, durationS, width, height, choice);
      var floorKbps := GetResolutionSettings(width, height, choice).minKbps as real;
      floorKbps <= p.videoKbps <==> SizeMb(floorKbps + p.audioKbps, durationS) <= targetMb
  {
    FloorAffordableIff(targetMb, durationS, AudioKbps(durationS),
      GetResolutionSettings(width, height, choice).minKbps as real);
  }

  /** 50 MB over 600 s on the Full HD tier: 1616/3 kbps is below its 800 floor, and the target is kept. */
  lemma TierKeptTargetExample()
    ensures TierNegotiation(50.0, 600.0, 1920, 1080, "3") == Negotiation(1616.0 / 3.0, KeptTarget)
  {}

  /** The encoder's maxrate is twice the video bitrate and its buffer four times; audio passes through. */
  function EncoderSettings(p: EncodePlan): (e: EncoderRates)
    ensures e.bitrateKbps == p.videoKbps && e.audioKbps == p.audioKbps
    ensures e.bufsizeKbps == 2.0 * e.maxrateKbps == 4.0 * e.bitrateKbps
  {
    EncoderRates(p.videoKbps, p.videoKbps * 2.0, p.videoKbps * 4.0, p.audioKbps)
  }

  /**
   * The encoder's rates are ordered bitrate <= maxrate <= bufsize exactly
   * when the target size pays for at least the audio track.
   */
  lemma EncoderRatesOrderedIff(targetMb: real, durationS: real, width: int, height: int, choice: string)
    requires durationS > 0.0
    ensures var e := EncoderSettings(Plan(targetMb, durationS, width, height, choice));
      (e.bitrateKbps <= e.maxrateKbps <= e.bufsizeKbps) <==>
        AudioKbps(durationS) * durationS <= targetMb * 8000.0
  {
    VideoNegativeIff(targetMb, durationS);
  }
}
