# Sizing and bitrate logic of the video compression tool

This project models, in Dafny, the decision logic of `Resize.py`, a tool that
compresses a video to a requested size with a two-pass encoder. The model
covers four parts:

- the **bitrate solver** (`calculate_bitrate`). It turns a target size in MB
  (8,000,000 bits each) and a duration into a video and an audio bitrate in
  kbps. It then negotiates against a duration-indexed minimum bitrate.
- the **resolution policy** (`get_resolution_settings`). It maps a menu choice
  and the source size to an output size and a tier minimum bitrate.
- the **encode planner**: the sizing part of `compress_video`. It runs a second
  negotiation against the tier floor and derives the encoder's maxrate and
  buffer size.
- the **size recommender**: the arithmetic that `main` runs before it prompts
  for a target size. It is lifted into `Recommend`, together with the test that
  an entered size must pass (`Accepts`).

All of it is pure branching arithmetic. It is written as Dafny functions over
`real`, with lemmas, in four modules: `Bitrate` (bitrate.dfy), `Resolution`
(resolution.dfy), `Planner` (planner.dfy) and `Recommender` (recommender.dfy).
The minimum-bitrate negotiation is a single function, `Bitrate.Negotiate`,
used for both passes. Its result records which branch was taken: floor met,
target kept, or floor adopted with the adjusted size.

Main facts proved about the code as written:

- The floor-adoption branch is unreachable in both passes (Resize.py:71-73 and
  114-116). A bitrate derived from the target is below a floor exactly when the
  floor's size exceeds the target. So neither floor ever changes the result.
  The video bitrate is always `target·8000/duration − audio`, and the plan
  always spends exactly the target size.
- The video bitrate is not clamped. It is negative exactly when the audio alone
  overspends the target: 5 MB over 600 s gives −184/3 kbps. In that case the
  encoder's maxrate and buffer size fall below the bitrate.
- The recommendation window can be empty. Any source of at least 3 MB and
  under 10 MB lasting at least 30 s has a minimum of at least 10 MB and a
  maximum no larger than the source. So no target can pass the check at
  Resize.py:296.
- The window is also empty for very long, very large sources. From 30 s on, a
  source within the base size but over twice the duration cap gets the window
  (0.15·source, cap, cap). Once 0.15·source exceeds the cap, nothing is
  accepted: 14000 MB over 70000 s gives (2100, 2000, 2000).

Other facts about the code that the model keeps as they are:

- The floors are met only when the target size affords them. In that case the
  bitrate computed from the target already meets them.
- Up to ten minutes the base-size table gives 10 MB per started minute plus
  5 MB.
- The 4K tier is chosen when width > 1920 or height > 1080.

## Model

| member | source | states |
|---|---|---|
| Bitrate.TotalKbps | Resize.py:32-35 | the total rate times the duration equals the target size in kilobits (target·8000) |
| Bitrate.SizeMb | Resize.py:63-64 | the size times 8000 equals the total rate times the duration |
| Bitrate.SizeRoundTrip | Resize.py:32-64 | size→rate and rate→size are mutually inverse for a positive duration |
| Bitrate.AudioKbps | Resize.py:38-43 | the audio bitrate is always one of 96, 128, 160 |
| Bitrate.AudioNonIncreasing | Resize.py:38-43 | a longer clip never gets a higher audio bitrate |
| Bitrate.DurationFloorKbps | Resize.py:49-58 | the duration floor is always one of 300, 400, 500, 800, 1000 |
| Bitrate.DurationFloorNonIncreasing | Resize.py:49-58 | a longer clip never gets a higher duration floor |
| Bitrate.LiteralVideoKbps | Resize.py:69 | the bitrate recomputed from the target, plus the audio, spends exactly the target size |
| Bitrate.Negotiate | Resize.py:61-73 | the floor is met iff the bitrate is at or above it, and then the bitrate is unchanged; keeping the target yields the literal bitrate and happens only when the floor's size exceeds the target; adopting the floor raises the bitrate to it and reports a size within the target; a result below the floor implies the target was kept |
| Bitrate.FloorAffordableIff | Resize.py:61-67 | the literal bitrate reaches a floor iff the floor's size (line 64) is within the target |
| Bitrate.LiteralNeverAdoptsFloor | Resize.py:61-73 | negotiating the literal bitrate returns it unchanged, with outcome floor met or target kept, never floor adopted |
| Bitrate.DurationNegotiation | Resize.py:46-73 | the duration-floor negotiation never takes the floor-adoption branch (line 72), and it records the floor as met exactly when the video bitrate reaches the duration floor (line 62) |
| Bitrate.CalculateBitrate | Resize.py:30-75 | audio is the duration step; video is target·8000/duration − audio, unchanged by the floor; video plus audio spends exactly the target |
| Bitrate.DurationFloorRespectedIff | Resize.py:49-73 | the result reaches the duration floor iff the floor's size fits in the target |
| Bitrate.VideoIncreasesWithTarget | Resize.py:46 | for a fixed duration, a larger target gives a strictly larger video bitrate |
| Bitrate.VideoNegativeIff | Resize.py:46 | the video bitrate is negative iff target·8000 < audio·duration (no clamp) |
| Bitrate.FloorMetExample | Resize.py:30-75 | 50 MB over 600 s meets the 500 floor with 1616/3 kbps video and 128 audio |
| Bitrate.KeptTargetExample | Resize.py:61-70 | 5 MB over 600 s keeps the target with −184/3 kbps video |
| Bitrate.FloorAdoptedInIsolation | Resize.py:71-73 | with a bitrate not derived from the target, the adoption branch returns the floor and an adjusted size of 4.71 MB |
| Resolution.HeightFloorKbps | Resize.py:89 | the height floor is always one of 300, 500, 800 |
| Resolution.GetResolutionSettings | Resize.py:78-89 | the floor is one of 300, 500, 800, 1500; every choice but 1-3 keeps the source size; the floor is 1500 on the 4K branch and otherwise the height floor of the output height |
| Resolution.FixedTierIgnoresSource | Resize.py:80-85 | whatever the source, choice 1 gives 854×480 with floor 300, choice 2 gives 1280×720 with floor 500, and choice 3 gives 1920×1080 with floor 800 |
| Resolution.OriginalAtMostFullHdIsFallback | Resize.py:86-89 | choice 4 on a source of at most 1920×1080 equals any unrecognised choice |
| Resolution.HeightFloorMonotone | Resize.py:89 | a taller picture never gets a lower height floor |
| Resolution.FourKFloorIsHighest | Resize.py:86-89 | the 4K floor exceeds the floor of every non-4K result |
| Resolution.OriginalChoiceExamples | Resize.py:86-89 | 3840×2160 on choice 4 gives (3840, 2160, 1500); 1280×720 on choices 4 and 5 gives (1280, 720, 500) |
| Planner.TierNegotiation | Resize.py:104-116 | the tier-floor negotiation never adopts the floor (line 115), returns the solver's video bitrate, and records the floor as met exactly when that bitrate reaches the tier's floor (line 105) |
| Planner.Plan | Resize.py:99-116 | the plan's audio is the duration step and its video the literal bitrate; it spends exactly the target; its size is the policy's |
| Planner.TierFloorRespectedIff | Resize.py:105-116 | the plan reaches the tier floor iff the floor's size fits in the target |
| Planner.TierKeptTargetExample | Resize.py:105-113 | 50 MB over 600 s on Full HD is below the 800 floor and keeps the target at 1616/3 kbps |
| Planner.EncoderSettings | Resize.py:145-152 | the encoder bitrate is the video bitrate; the buffer is twice the maxrate and four times the bitrate; audio passes through |
| Planner.EncoderRatesOrderedIff | Resize.py:145-147 | bitrate ≤ maxrate ≤ bufsize iff audio·duration ≤ target·8000 |
| Recommender.BaseSizeMb | Resize.py:199-259 | the base size is at least 15 MB |
| Recommender.BaseSizePerMinute | Resize.py:201-220 | up to 10 minutes the base size is 10·⌈minutes⌉ + 5 |
| Recommender.BaseSizePerFiveMinutes | Resize.py:221-252 | from 10 to 90 minutes the base size is 50·⌈minutes/5⌉ |
| Recommender.BaseSizeLinear | Resize.py:254-259 | beyond 90 minutes the base size is 1080 + 0.2·(duration − 3600), above 1440 |
| Recommender.BaseSizeMonotone | Resize.py:201-259 | the base size is non-decreasing in the duration |
| Recommender.SizeCapMb | Resize.py:272-279 | the duration cap is one of 50, 500, 1000, 2000 |
| Recommender.SizeCapMonotone | Resize.py:272-279 | the duration cap is non-decreasing in the duration |
| Recommender.Recommend | Resize.py:179-282 | presets (1.0, 1.5) iff the source is under 3 MB; otherwise recommended ≤ max = min(cap, source) ≤ source, min ≥ 5 (≥ 10 from 30 s on), and min ≤ recommended iff min ≤ max |
| Recommender.Accepts | Resize.py:183-296 | a target is accepted if it is one of the two presets, or lies between the window's minimum and its recommendation; a window whose recommendation is below its minimum accepts nothing |
| Recommender.HalfSourceWhenBaseCoversIt | Resize.py:262-282 | from 30 s on, for a source of 20 MB up to the base size and at most twice the cap, the window is (max(10, 0.15·source), 0.5·source, min(cap, source)) |
| Recommender.HalfSourceCutToCap | Resize.py:262-282 | from 30 s on, for a source within the base size but over twice the cap, the window is (0.15·source, cap, cap) |
| Recommender.CappedEmptyWindowExample | Resize.py:262-296 | 14000 MB over 70000 s gives (2100, 2000, 2000): the minimum exceeds the cap and nothing is accepted |
| Recommender.MinimumIsThirtyPercentOfBase | Resize.py:265-269 | from 30 s on, when the base size is below the source, the minimum is max(10, 0.3·base size) |
| Recommender.HalfSourceExample | Resize.py:262-282 | 100 MB over 600 s gives the window (15, 50, 100) |
| Recommender.SomeTargetAcceptedIff | Resize.py:296 | some target passes the check iff the source is small or min ≤ max |
| Recommender.AcceptedWindowTargetBounds | Resize.py:296 | an accepted target is between 5 MB and the source size |
| Recommender.NoTargetForSmallLongSource | Resize.py:262-296 | for a source of at least 3 MB and under 10 MB lasting at least 30 s, no target passes the check |
| Recommender.EmptyWindowExample | Resize.py:262-296 | 4 MB over 120 s gives min 10 and recommended = max = 4, and nothing is accepted |
| Recommender.PresetAboveSourceExample | Resize.py:179-188 | a 1.2 MB source is offered the 1.5 MB preset, larger than itself |
| Recommender.RecommendsCappedBaseSize | Resize.py:261-282 | from 30 s on, when the base size is below the source, the recommendation is min(cap, base size) |
| Recommender.CappedBaseSizeExample | Resize.py:261-282 | 2000 MB over 3300 s gives the window (165, 500, 500): the base size 550 is cut to the 500 MB cap |
| Recommender.SmallSourceWithinBaseSize | Resize.py:262-282 | from 30 s on, a source of at least 3 MB and under 20 MB within the base size gives the window (10, min(source, 10), source) |
| Recommender.ShortClipRecommendation | Resize.py:194-282 | under 30 s on a source of at least 3 MB the window is (max(5, 0.2·d), min(min(50, source), max(10, 0.5·d)), min(50, source)) |

## Left out

- Reading duration and resolution with ffprobe (Resize.py:14-27) is left out: it is subprocess I/O. Duration, width, height and source size are parameters.
- The two ffmpeg passes, `os.devnull` and the output-size check (Resize.py:96, 119-163) are left out: they are external processes and the filesystem. Only the 2× maxrate and 4× buffer relations and the audio pass-through are kept.
- The interactive prompts, the loops that repeat them, and the `float()` parsing of typed text (Resize.py:168-169, 183-191, 289-300, 309) are left out. The two-preset menu and the range test at line 296 are kept as `Recommender.Accepts`.
- All printed notes and the `.1f`/`.2f` formatting are left out. The negotiation records its branch and the adjusted size in its result instead of printing them.
- IEEE floating point is left out: everything is exact `real`. The unreachability of the floor-adoption branch is proved for exact arithmetic, and a rounding edge case of floats is not covered.
- The source size in MiB (measured with 1024·1024 at Resize.py:96 and 173) is taken as a given input. The mismatch with the 8,000,000-bit MB used for bitrates is not modelled.
- Custom resolution (menu option 5, Resize.py:308) has no implementation in the code. It falls into the fallback branch at line 89, and the model treats it the same way.
- The bitrate and planner functions require `durationS > 0.0`. A zero duration would make the code divide by zero. A negative duration gives the code a negative rate without any error, but it is not a meaningful input, so it is excluded.
