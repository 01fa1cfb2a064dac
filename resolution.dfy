/**
 * The resolution policy of the compression tool (get_resolution_settings in
 * Resize.py): a menu choice and the source dimensions select the output
 * dimensions and the minimum acceptable video bitrate of that tier.
 */
module Resolution {

  /** Output width and height in pixels, and the tier's minimum video bitrate in kbps. */
  datatype Settings = Settings(width: int, height: int, minKbps: int)

  /** The floor that a picture of height `height` gets when no fixed tier applies. */
  function HeightFloorKbps(height: int): (f: int)
    ensures f == 300 || f == 500 || f == 800
  {
    if height <= 480 then 300 else if height <= 720 then 500 else 800
  }

  /** Choice '4' on a source wider than 1920 or taller than 1080: the 4K tier. */
  predicate IsFourK(width: int, height: int, choice: string) {
    choice == "4" && (width > 1920 || height > 1080)
  }

  /** Choices '1', '2' and '3' select a fixed output size. */
  predicate IsFixedTier(choice: string) {
    choice == "1" || choice == "2" || choice == "3"
  }

  /**
   * get_resolution_settings: the fixed tiers ignore the source, every other
   * choice keeps the source size; the floor is 1500 on the 4K tier and
   * otherwise follows the output height.
   */
  function GetResolutionSettings(width: int, height: int, choice: string): (r: Settings)
    ensures r.minKbps == 300 || r.minKbps == 500 || r.minKbps == 800 || r.minKbps == 1500
    ensures !IsFixedTier(choice) ==> r.width == width && r.height == height
    ensures r.minKbps == if IsFourK(width, height, choice) then 1500 else HeightFloorKbps(r.height)
  {
    if choice == "1" then Settings(854, 480, 300)
    else if choice == "2" then Settings(1280, 720, 500)
    else if choice == "3" then Settings(1920, 1080, 800)
    else if IsFourK(width, height, choice) then Settings(width, height, 1500)
    else Settings(width, height, HeightFloorKbps(height))
  }

  /** The fixed tiers give SD, HD or Full HD with their floors, whatever the source is. */
  lemma FixedTierIgnoresSource(w1: int, h1: int, w2: int, h2: int, choice: string)
    requires IsFixedTier(choice)
    ensures GetResolutionSettings(w1, h1, choice) == GetResolutionSettings(w2, h2, choice)
    ensures choice == "1" ==> GetResolutionSettings(w1, h1, choice) == Settings(854, 480, 300)
    ensures choice == "2" ==> GetResolutionSettings(w1, h1, choice) == Settings(1280, 720, 500)
    ensures choice == "3" ==> GetResolutionSettings(w1, h1, choice) == Settings(1920, 1080, 800)
  {}

  /** Choice '4' on a source of at most 1920x1080 behaves like any unrecognised choice. */
  lemma OriginalAtMostFullHdIsFallback(width: int, height: int, other: string)
    requires width <= 1920 && height <= 1080
    requires !IsFixedTier(other) && other != "4"
    ensures GetResolutionSettings(width, height, "4") == GetResolutionSettings(width, height, other)
  {}

  /** A taller picture never gets a lower height floor. */
  lemma HeightFloorMonotone(h1: int, h2: int)
    requires h1 <= h2
    ensures HeightFloorKbps(h1) <= HeightFloorKbps(h2)
  {}

  /** The 4K floor is above every floor that a non-4K choice can give. */
  lemma FourKFloorIsHighest(width: int, height: int, choice: string, w2: int, h2: int, other: string)
    requires IsFourK(width, height, choice) && !IsFourK(w2, h2, other)
    ensures GetResolutionSettings(w2, h2, other).minKbps < GetResolutionSettings(width, height, choice).minKbps
  {}

  /** A 3840x2160 source on choice '4' keeps its size with floor 1500; 1280x720 keeps its size with floor 500. */
  lemma OriginalChoiceExamples()
    ensures GetResolutionSettings(3840, 2160, "4") == Settings(3840, 2160, 1500)
    ensures GetResolutionSettings(1280, 720, "4") == Settings(1280, 720, 500)
    ensures GetResolutionSettings(1280, 720, "5") == Settings(1280, 720, 500)
  {}
}
