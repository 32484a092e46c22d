# Verified model of the transit scanners and the Codex runner

This project models the parts of the repository that decide something hard, and proves what their
comments and contracts promise. `dafny verify dfyconfig.toml` checks all of it.

**The transit cycle scanner** (`apps/calc-stub/src/cycles.ts`). A longitude is known only modulo 360.
`LiftChain` unwraps it from a fixed epoch, `Sampling` takes an epoch-anchored grid and splices in every
speed reversal, `RootScan` brackets and bisects three level families per winding, `Envelopes` proves and
solves each encounter's ends, and `Scan` selects what a window returns. The chain of theorems ends in
`ScanTheorems.OneIdOneCycle`: a cycle is a property of the sky, not of the request window, but for the
direction of a pass in one exactly described case (`Directions`); in `ScanTheorems.OmittedIsNeverInOrb`: what a
window leaves out was not in orb during it; in `ScanCompleteness.ExactAspectsAreReported`: what was exact during
it is returned; and in `ScanSoundness.ReturnedCyclesAreTrue`: what a returned cycle says of the sky is so.
`ScanSky` derives what they need of the samples from the hypotheses about the sky.
`Motions` and `NodeScan` build skies that meet those hypotheses from parabolic arcs: `RetrogradeLoop`, a loop of
the true node, and `StandingRun`, a node that stands still again and again, with the two windows that
`HiddenReturn` puts over it.

**The daily sky** (`apps/calc-stub/src/daily-sky.ts`). `DailySky` and `DayTheorems`: the zeros of a wrapped
angle over half-open local days that tile the calendar even after rounding to whole seconds. `DayRuns`: which
day of a run records a crossing.

**The Codex runner** (`apps/codex-runner/src`). `Session`, `Framing`, `SessionTheorems` and `JsonTurns` are
the JSON-RPC turn over a pipe, and `TurnContract` is what the child must say for it to succeed; `Scheduler` is
the weighted poll loop; `TerminalWrites` and `RunnerJobs` are claims and the one terminal write that may follow
each.

**The mesh output path**. `Preview` takes compiled geometry through normalization and projection, `Raster` is the
z-buffer, `Images` says what its picture shows of the model in space, and `Glb` is the binary glTF writer.

## How it is modelled

- Time, angles and speeds are reals; bisection loops terminate on a whole number of tolerances.
- The ephemeris is a function. What the theorems assume of the sky is named in `Sky`: it is observed modulo
  360, moves less than half a turn per lift step, is smooth, has a Lipschitz speed and reversals more than
  the policy separation apart, and its excursion against its net motion stays within the policy's arc.
  Comments in `cycle-policy.ts` state these as measured facts about each body.
- Each loop of the source is a loop here, and its contract equates the result with a function of the inputs;
  the theorems are about those functions. A `Track` bundles what one source and one lift chain answer for a
  body, so that the functions need not mention the memo.
- The server, the child process, the clock, the random source and the abort signal are arbitrary functions
  or event lists: the theorems hold for every one of them.
- ISO instants are whole seconds from 1970; between the years 1800 and 2400 their texts order as these do.
  Digests are injective.

## What the code does that its comments do not say

- The comment above `bisect` in `daily-sky.ts` speaks of a two-second bracket; the constant in
  `daily-sky-policy.ts` is 0.05 seconds, and the model follows the constant.
- A subdivision midpoint of speed exactly zero is spliced in twice (`Stations.SearchIsExactIffNoZeroProbe`), and
  the first of the two stations is called retrograde whichever way the body leaves, so a tangent pass there can
  have the wrong direction (`Tangents.StationIsRightIff`, `RetrogradeLoop.ATangentIsCalledBackwards`).
- Both gaps beside a grid sample of speed exactly zero are skipped, so a further reversal of the true node in
  one of them is lost (`SampleLists.SpanIsExactIff`, `RetrogradeLoop.AGridStandstillHidesAReversal`), and with it
  the passes at a level that is met twice there (`RootTheorems.BracketIsExactIff`,
  `RetrogradeLoop.TwoExactInstantsAreLost`).
- A pass in a run of exact standstills that reaches the end of a span is called direct, whichever way the body
  leaves, so two windows can return two cycles for one encounter; nothing else about a cycle depends on the
  window (`ScanTheorems.WindowsReportTheSameCycle`, `HiddenReturn.TwoWindowsTwoCycles`).
- An entry is recognised by probes thirty seconds to either side, so a dip into orb that is briefer than that and
  precedes the entry lies outside the solved ends (`Encounters.StartNeedsTheBodyInOrb`,
  `Encounters.StartBoundsOrbTimeIff`, `RetrogradeLoop.ABriefDipIsMissed`).
- `cycle-policy.ts` says that the files answer from 1800-01-01T12:13Z, `engine.ts` that they answer from 06:00Z
  on and that its bound is 12:00Z, Julian day 2378497.0. Every sample of an admitted span meets the engine's
  bound (`ScanSky.EverySampleIsCovered`), and a one-day grid can take one exactly on it; a span samples nothing
  before 12:13Z if and only if it starts at or after the next grid instant (`ScanSky.SamplesAreCoveredIff`).
- A local day shorter than a second would lose a root to the day before it (`DayTheorems.AShortDayLosesItsRoot`).
- An angle that is on zero both at midnight and at the sample before it is recorded by both days
  (`DayRuns.EachCrossingHasItsDay`, `DayRuns.ASlowCrossingIsWrittenTwice`).

## Model

| member | source | states |
|---|---|---|
| CyclePolicy.EveryRowIsUsable | apps/calc-stub/src/cycle-policy.ts:196-221 | every body's row meets what the scanner needs: the probe depth reaches the station separation from one scan step, a halved interval stays wider than the station tolerance, and a turn inside one station tolerance moves less than the zero tolerance |
| Angles.Norm360IsFloored | apps/calc-stub/src/engine.ts:138-143 | repairing the sign of a truncating remainder gives the floored remainder for every real angle, negative ones included |
| Angles.WrapIsUnique | apps/calc-stub/src/cycles.ts:111-114 | the wrapped angle is the only representative of its direction in [-180, 180) |
| Angles.WrappedDifferenceIsMotion | apps/calc-stub/src/cycles.ts:238-247 | the wrapped difference of two reduced longitudes is the true motion whenever that motion is inside half a revolution |
| Aspects.BranchesCoincide | apps/calc-stub/src/cycles.ts:116-137 | the plus and minus branches name one direction exactly at 0 and 180 |
| Aspects.SeparationIsATargetHit | apps/calc-stub/src/cycles.ts:124-137 | a separation of the aspect angle holds exactly when some oriented target is hit modulo 360 |
| Aspects.TargetsAreExactIff | apps/calc-stub/src/cycles.ts:130-132 | the previous equivalence holds for an angle if and only if the merge tolerance does not blur it: the angle is 0 or 180 or at least half the tolerance away from both; a blurred angle loses a branch |
| Aspects.EveryAspectIsATargetHit | apps/calc-stub/src/engine.ts:103-115 | the five aspect angles are all unblurred, so every aspect is exact exactly on its targets |
| Aspects.LabelsNameTheirSide | apps/calc-stub/src/cycles.ts:124-137 | plus labels the natal longitude advanced by the angle, minus the one set back by it, and there is a single label, for both, exactly at 0 and 180 |
| Aspects.ApplyingMeansShrinking | apps/calc-stub/src/engine.ts:635-648 | off the aspect and off 0 and 180, an aspect is applying if and only if the orb is strictly smaller at all sufficiently short later times, on either side of the aspect and across the wrap at 360 |
| RetrogradeLoop.LoopMeetsEveryHypothesis | apps/calc-stub/src/cycle-policy.ts:118-165 | the named hypotheses about a body's motion hold together, under the node's own row with nothing overridden, for a motion with a retrograde loop: smooth, Lipschitz within the node's slope, under half a turn in more than the 400-day lift step, reversing twice half an hour apart, with its excursion inside the node's arc |
| StandingRun.RunMovesAsTheNode | apps/calc-stub/src/cycle-policy.ts:118-165 | they hold as well for a body that stands still at every grid instant up to the epoch, moving backwards on the whole and forwards in every other gap |
| LiftChain.LiftChain.EnsureChain | apps/calc-stub/src/cycles.ts:219-231 | a body's memo starts with index 0 alone, lifted into [0, 360), and other bodies' memos are untouched |
| LiftChain.LiftChain.Extend | apps/calc-stub/src/cycles.ts:240-249 | walking outward in either direction fills exactly the missing indices, each with the checkpoint the recurrence assigns |
| LiftChain.LiftChain.NextCheckpoint | apps/calc-stub/src/cycles.ts:242-246 | one step adds the wrapped difference to the previous lift |
| LiftChain.LiftChain.CheckpointFor | apps/calc-stub/src/cycles.ts:233-260 | the memo holds exactly `min..max` again, now with the asked index inside, and the answer is the walked checkpoint |
| LiftChain.LiftChain.LiftedLongitude | apps/calc-stub/src/cycles.ts:274-281 | the answer is a function of the source, the step and the instant alone, whatever was asked before; the memo invariant is kept |
| LiftChain.WalkFollowsTheMotion | apps/calc-stub/src/cycles.ts:238-249 | every checkpoint, at every index on either side of the epoch, carries the true unwrapped longitude |
| LiftChain.AnchorIsTheNearest | apps/calc-stub/src/cycles.ts:261-279 | the anchor, and every checkpoint between it and the epoch, is one the ephemeris files answer, and no checkpoint they answer is nearer, for any instant and any step |
| LiftChain.AnchorIsNear | apps/calc-stub/src/cycles.ts:276-279 | the clamped anchor is at most one whole step from every instant the ephemeris covers |
| LiftChain.LiftIsTheMotion | apps/calc-stub/src/cycles.ts:262-281 | the lifted longitude equals the true continuous unwrapping from the epoch at every covered instant, clamped anchors included, for any step under the half-turn bound |
| LiftChain.AnswersAgree | apps/calc-stub/src/cycles.ts:196-206 | two chains with different steps and different query histories give one answer |
| Stations.SplicedIsOrdered | apps/calc-stub/src/cycles.ts:388-414 | the recursive splice is strictly ascending and strictly inside its interval |
| Stations.SlopeBoundsTheTrack | apps/calc-stub/src/cycles.ts:379-397 | a speed that is Lipschitz with the policy's slope cannot reach zero between two same-signed ends that the slope test rules out |
| Stations.SearchMissesNothing | apps/calc-stub/src/cycles.ts:388-414 | whatever the two ends and the visited midpoints do, every reversal between the ends has a station within half the station tolerance |
| Stations.SearchIsComplete | apps/calc-stub/src/cycles.ts:388-414 | with spaced reversals and no zero-speed midpoint, the splice holds exactly one station within half the station tolerance of every reversal and none elsewhere |
| Stations.ZeroProbeIsFoundTwice | apps/calc-stub/src/cycles.ts:411-413 | a visited midpoint of speed exactly zero is spliced in from both halves |
| Stations.SearchIsExactIffNoZeroProbe | apps/calc-stub/src/cycles.ts:388-414 | the search is exact if and only if no visited midpoint has speed zero |
| Tangents.SplicedTellTheWay | apps/calc-stub/src/cycles.ts:388-414 | every spliced station stands within half a second of a standstill and says which way the body leaves it, unless the search landed on that very standstill |
| Tangents.StationIsRightIff | apps/calc-stub/src/cycles.ts:348-364 | one station says the way the body leaves if and only if it was not closed in on from a standstill that the body leaves forwards |
| Tangents.GridStandstillIsTold | apps/calc-stub/src/cycles.ts:423-429 | a tangent on the grid is retrograde exactly if the body moves backwards at the next grid instant of the span at which it moves, which is the way it leaves unless it turns before |
| Sampling.RefineStation | apps/calc-stub/src/cycles.ts:348-364 | the loop ends where the recursive bisection of the speed sign ends |
| Sampling.SpliceStations | apps/calc-stub/src/cycles.ts:388-414 | the recursion, with its early returns and its depth backstop, splices exactly the specified stations |
| Sampling.SampleBody | apps/calc-stub/src/cycles.ts:320-436 | sampling gives the epoch-anchored grid with each gap's stations spliced in and grid standstills marked with the direction they leave in |
| SampleLists.SamplesAreOrdered | apps/calc-stub/src/cycles.ts:416-436 | whatever the ephemeris answers, the samples ascend strictly from the first to the last grid instant and leave no gap wider than a scan step |
| SampleLists.SpanIsASlice | apps/calc-stub/src/cycles.ts:314-318 | the samples of a span are a contiguous part of the samples of every wider span up to the directions of its last standstills, and equal to that part if and only if the span does not end in a standstill whose direction only the wider one sees |
| SampleLists.SpanIsSearched | apps/calc-stub/src/cycles.ts:416-434 | where every visited midpoint moves, the station samples are in one-to-one correspondence with the reversals outside the gaps that are skipped beside a grid standstill, the standstills of the grid included |
| SampleLists.SpanIsExactIff | apps/calc-stub/src/cycles.ts:416-434 | the search over a span finds every reversal exactly once and nothing else if and only if no visited midpoint stands still and no gap beside a grid standstill holds a reversal |
| SampleLists.SkippedReversalIsLost | apps/calc-stub/src/cycles.ts:423-432 | a reversal in a gap beside a grid standstill has no station, whatever else the span holds |
| SampleLists.SpanMissesNothing | apps/calc-stub/src/cycles.ts:416-434 | whatever the midpoints do, no reversal of the span is missed but those in such gaps |
| RetrogradeLoop.AGridStandstillHidesAReversal | apps/calc-stub/src/cycles.ts:423-432 | a true node that stands still at a grid instant and turns again half an hour later: the second reversal has no station |
| RetrogradeLoop.TwoExactInstantsAreLost | apps/calc-stub/src/cycles.ts:423-432 | in that sky the node stands exactly on a target in scope twice inside the window, backwards and then forwards, and no pass is recorded between the two grid instants around them |
| RetrogradeLoop.ATangentIsCalledBackwards | apps/calc-stub/src/cycles.ts:411-413 | a true node that meets every hypothesis stands still on a natal longitude at a midpoint of the search and leaves it forwards; the pass recorded for it is retrograde |
| Brackets.SearchedBracketIsTame | apps/calc-stub/src/cycles.ts:369-387 | whatever the midpoints do, the search leaves a bracket monotone up to a sliver at its ends in which the body moves less than the zero tolerance, unless the very gap it lies in was skipped beside a grid standstill and holds a reversal |
| Brackets.CrossingIsUnique | apps/calc-stub/src/cycles.ts:533-539 | in a tame bracket whose ends are off a level, the level is crossed at one instant only, and the ends are on different sides of it |
| RootScan.PushRoot | apps/calc-stub/src/cycles.ts:466-472 | a root is added unless one within the dedupe tolerance is already there |
| RootScan.BisectRoot | apps/calc-stub/src/cycles.ts:550-573 | the loop ends where the recursive bisection of the lifted level ends, exact zeros included |
| RootScan.ScanFamily | apps/calc-stub/src/cycles.ts:515-543 | one sample and the bracket after it add to the buckets of one family exactly what they contribute to each winding |
| RootScan.ScanTargetBranch | apps/calc-stub/src/cycles.ts:485-547 | after the pass, every winding's bucket of every family holds exactly the roots recorded for that level, and nothing else |
| RootTheorems.WindingRangeIsTheLevelsBetween | apps/calc-stub/src/cycles.ts:529-533 | the windings tried are exactly those whose level lies between the two ends of the bracket |
| RootTheorems.BisectionFindsACrossing | apps/calc-stub/src/cycles.ts:549-573 | a bisected root is strictly inside its bracket and within one second of a true crossing of the level |
| RootTheorems.RecordedRootsAreGenuine | apps/calc-stub/src/cycles.ts:508-545 | every recorded root is a sample within the zero tolerance of the level or within one second of a crossing in the bracket it was found in |
| RootTheorems.CrossingsAreRecorded | apps/calc-stub/src/cycles.ts:527-543 | every crossing of `base + 360k` in a tame bracket with both ends off the level has a root within one second of it, or that root was merged into one within the dedupe tolerance |
| RootTheorems.BracketIsExactIff | apps/calc-stub/src/cycles.ts:527-543 | of any bracket with both ends off the level, tame or not: each instant on the level has exactly one root within one second, and each root such an instant, if and only if the level is met once alone, with the ends on different sides, or not at all |
| RootTheorems.LevelledSamplesAreRecorded | apps/calc-stub/src/cycles.ts:515-525 | every sample within the zero tolerance of a level is recorded, or merged likewise |
| RootTheorems.RecordedRootsAreSeparated | apps/calc-stub/src/cycles.ts:466-472 | the roots of one bucket are pairwise more than four seconds apart |
| Envelopes.SortingSorts | apps/calc-stub/src/cycles.ts:1194-1196 | ordering passes by time is a permutation |
| Envelopes.NearestIsNearest | apps/calc-stub/src/cycles.ts:1255-1267 | in ascending samples the sample chosen is a nearest one |
| Envelopes.NearestSample | apps/calc-stub/src/cycles.ts:1255-1267 | the binary search returns the specified sample |
| Envelopes.ProvenBounds | apps/calc-stub/src/cycles.ts:1199-1205 | the loop returns the last sample beyond return before the first pass and the first one after the last pass |
| Envelopes.ClassifyBoundaries | apps/calc-stub/src/cycles.ts:1210-1219 | boundaries are split into entries and exits by the inside-orb predicate on both sides; a tangent touch is neither |
| Envelopes.SolveEnvelope | apps/calc-stub/src/cycles.ts:1183-1226 | the method computes the specified envelope, with no solved end unless both sides are proven |
| EnvelopeTheorems.InsideOrbIsTrue | apps/calc-stub/src/cycles.ts:1242-1252 | whichever sample anchors it, the inside-orb predicate is true of the sky, up to a probe outside the span |
| EnvelopeTheorems.NeverInOrbBefore | apps/calc-stub/src/cycles.ts:1173-1181 | with the excursion bounded by the arc, no instant at or before the proven left bound, in the span or out of it, is in orb, for net-direct and net-retrograde bodies alike |
| EnvelopeTheorems.NeverInOrbAfter | apps/calc-stub/src/cycles.ts:1173-1181 | the same at and after the proven right bound |
| Slices.OutOfOrbOutside | apps/calc-stub/src/cycles.ts:1173-1181 | an encounter proven on both sides is in orb only strictly between its bounds |
| Slices.PassesLieBetweenTheBounds | apps/calc-stub/src/cycles.ts:1199-1205 | every recorded exact pass lies strictly between the two proven bounds |
| Slices.SamePasses | apps/calc-stub/src/cycles.ts:314-318 | for any sky, a part of a sample list that holds both proven bounds records the same passes as the whole, at the same instants and speeds, grazing samples included; only directions may differ |
| Directions.DirectionsAgreeIff | apps/calc-stub/src/cycles.ts:423-429 | a pass has one direction in a span and in a wider one if and only if it is not a grid standstill in a run that the span ends in and that the wider span sees the body leave backwards |
| Directions.SpansDirectAlikeIff | apps/calc-stub/src/cycles.ts:423-429 | the same of any two spans, whichever ends first |
| Slices.SameBoundaries | apps/calc-stub/src/cycles.ts:1210-1224 | between the bounds, the part and the whole record the same boundary roots |
| OrbBounds.BoundaryCrossingIsRecorded | apps/calc-stub/src/cycles.ts:1212-1219 | a crossing of the orb boundary with no other contact close by, seen by samples off the boundary, has a recorded boundary root within one second of it, in the same bracket |
| OrbBounds.EntryIsRecorded | apps/calc-stub/src/cycles.ts:1212-1219 | the first crossing into orb has a boundary root within one second, in the bracket that holds it, if the samples there are off the boundary and the bracket is monotone |
| OrbBounds.ExitIsRecorded | apps/calc-stub/src/cycles.ts:1212-1219 | the last crossing out of orb likewise, if in addition no other contact can merge with it |
| Encounters.StartBoundsOrbTimeIff | apps/calc-stub/src/cycles.ts:1206-1226 | the solved start of a proven encounter bounds all in-orb time, up to one second, if and only if some boundary root, recorded no later than a second after the body first comes into orb, finds it in orb thirty seconds on |
| Encounters.EndBoundsOrbTimeIff | apps/calc-stub/src/cycles.ts:1206-1226 | the solved end likewise: some boundary root, recorded no earlier than a second before the body last leaves orb, finds it in orb thirty seconds back |
| Encounters.StartNeedsTheBodyInOrb | apps/calc-stub/src/cycles.ts:1212-1218 | of the sky alone: if the solved start bounds all in-orb time, the body is in orb thirty seconds after it first comes into orb, up to a second |
| Encounters.EndNeedsTheBodyInOrb | apps/calc-stub/src/cycles.ts:1212-1218 | the solved end needs it in orb thirty seconds before it last leaves, up to a second |
| Encounters.CleanEntryIsSeen | apps/calc-stub/src/cycles.ts:1212-1219 | conversely, a body in orb throughout the second to either side of thirty seconds after its first contact, in a monotone bracket whose samples are off the boundary, is seen to enter as the condition on the solved start asks |
| Encounters.CleanExitIsSeen | apps/calc-stub/src/cycles.ts:1212-1219 | the same before its last contact, if no other contact can merge with it |
| RetrogradeLoop.ABriefDipIsMissed | apps/calc-stub/src/cycles.ts:1212-1218 | a sky that meets every hypothesis and dips into orb for twenty seconds before its entry: a key in scope whose encounter is proven and whose solved start does not bound the time in orb |
| Encounters.CrossedSpanIsProven | apps/calc-stub/src/cycles.ts:1199-1205 | a span that begins beyond return on one side of the target and ends beyond return on the other proves the encounter it crosses |
| WindowIndependence.ProvenEncounterOfAPart | apps/calc-stub/src/cycles.ts:1167-1181 | for any sky, an encounter proven inside a span has the same passes, up to their directions, and the same envelope in every wider span |
| Scan.BranchListIsLabelled | apps/calc-stub/src/cycles.ts:1076-1082 | the branches visited are every oriented target of every aspect with every natal target, and no two share a label |
| Scan.ScanWinding | apps/calc-stub/src/cycles.ts:1086-1133 | one winding is omitted, reported or left undecided exactly as the specified verdict says; without an exact pass it is no candidate |
| Scan.ScanBranch | apps/calc-stub/src/cycles.ts:1084-1135 | all windings of a branch are settled: each reported one is collected once, and a failure names an undecided one |
| Scan.ScanBody | apps/calc-stub/src/cycles.ts:1072-1138 | all branches of a body are settled likewise, from samples taken once |
| Scan.ScanCycles | apps/calc-stub/src/cycles.ts:1042-1152 | a scan refuses exactly the requests with a span outside the ephemeris, fails only for an undecided encounter, and otherwise returns exactly the reported encounters, each once, in order |
| ResponsePolicy.RoundedSpeedKeepsItsSign | apps/calc-stub/src/cycles.ts:1332-1336 | a rendered speed keeps its sign, is zero only for a body that stands still, and is the nearest whole number of microdegrees unless that is zero |
| ResponsePolicy.ReportedMeetsPolicy | apps/calc-stub/src/cycles.ts:1281-1318 | a reported cycle's passes have contiguous indices, strictly increasing whole-second times and lie inside its envelope |
| ScanSoundness.ReturnedCyclesAreTrue | apps/calc-stub/src/cycles.ts:1042-1152 | soundness from end to end: every returned cycle names a transiting body and a natal target of the request; each pass is an instant at which the body stands in the aspect, within a second or the zero tolerance, told with the direction and, to a microdegree, the speed the body then has, or, at a station, with none and the way it leaves; the start and end are where the body comes into orb and leaves it; the solved envelope meets the half-open window; and the id is the digest of the identity that names that lifted longitude |
| ScanSoundness.ReturnedCyclesMeetTheWindow | apps/calc-stub/src/cycles.ts:1109-1119 | so a returned cycle's body is in orb at some instant not thirty seconds before the window and at some instant not thirty seconds after it, and within the zero tolerance of being in orb even not a second before and not a second after |
| ResponsePolicy.AnswersMeetThePolicy | contracts/validate_schemas.py:527-561 | every answered scan meets the independent response policy: unique ids, order by exact time and id, and the pass rules for every cycle |
| ScanSky.SpanReachesOut | apps/calc-stub/src/cycles.ts:1059-1068 | the samples of an admitted request reach as far beyond both ends of the window as the body's lookaround, and less than one step further |
| ScanSky.EverySampleIsCovered | apps/calc-stub/src/engine.ts:190-191 | every instant an admitted span samples, rounded outward by a step, lies inside the engine's ephemeris coverage |
| ScanSky.SamplesAreCoveredIff | apps/calc-stub/src/cycles.ts:341-345 | for any first covered instant, a span samples nothing before it if and only if the span starts at or after the first grid instant that is not before it |
| ScanSky.AdmittedIff | apps/calc-stub/src/cycles.ts:1154-1165 | a span is admitted if and only if it keeps a day away from the first instants of 1800 and 2400, to half a millisecond |
| ScanSky.StretchIsAScene | apps/calc-stub/src/cycles.ts:320-436 | samples over any admitted stretch of grid carry the true motion and are dense enough for every anchor |
| ScanSky.RequestBracketIsTame | apps/calc-stub/src/cycles.ts:369-387 | a bracket that an admitted request samples is monotone up to its slivers: for ten bodies from the sky hypotheses alone, for the true node unless its own gap was skipped and holds a reversal |
| ScanSky.EveryPolicyArcIsPlain | apps/calc-stub/src/cycle-policy.ts:196-218 | every arc of the policy is nought or far more than a body covers while two roots can merge, so no excursion of the policy is excluded by the window theorems |
| ScanTheorems.WindowsReportTheSameCycle | apps/calc-stub/src/cycles.ts:1042-1152 | two windows that both report an encounter report, in any sky, one identity, one start and end and passes at the same instants with the same speeds; and the identical cycle if and only if no pass is in a run of standstills that one span ends in and the other sees left backwards |
| ScanTheorems.OneIdOneCycle | apps/calc-stub/src/cycles.ts:587-620 | two scans of one chart over any two windows that return a cycle under one id decided one and the same encounter, and return the same cycle, up to directions always and identically under the same exact condition |
| HiddenReturn.TwoWindowsTwoCycles | apps/calc-stub/src/cycles.ts:314-318 | that condition can fail: a true node that meets every hypothesis, nothing overridden, and two windows that both report its conjunction with one natal longitude, as two cycles that differ in a direction |
| ScanTheorems.BoundedAwayIsNeverInOrb | apps/calc-stub/src/cycles.ts:1109-1114 | a candidate omitted on a proven bound is in orb at no instant of the half-open window |
| ScanTheorems.CleanEndsAreSeen | apps/calc-stub/src/cycles.ts:1206-1226 | where the sky is clean about the outermost crossings, both ends of a candidate are seen as the exact conditions on the solved ends ask |
| ScanTheorems.OmittedIsNeverInOrb | apps/calc-stub/src/cycles.ts:1109-1119 | a candidate with an exact pass that the window omits is in orb at no instant of the half-open window: with nothing lost and nothing more than the sky hypotheses if it was omitted on a bound, and but for one second at the end it was omitted on otherwise |
| ScanTheorems.SolvedEndsBoundOrbTime | apps/calc-stub/src/cycles.ts:1206-1226 | for an encounter proven on both sides, a seen entry gives a solved start before which, but for a second, the body is not in orb, and a seen exit such an end, each on its own |
| ScanTheorems.UndecidedLacksAProof | apps/calc-stub/src/cycles.ts:1115-1117 | where both ends are seen, a scan fails only for a candidate that was not ruled out by a bound and lacks the proof itself on one side |
| ScanCompleteness.LookaroundIsWide | apps/calc-stub/src/cycles.ts:1059-1068 | the samples of a request start and end beyond return, on different sides, if the body is beyond return for a step before the lookaround and for a step after it, on different sides |
| ScanCompleteness.WideSpanIsDecided | apps/calc-stub/src/cycles.ts:1100-1117 | so a candidate is decided, and has an exact pass, as soon as its span runs from beyond return on one side of the target to beyond return on the other |
| ScanCompleteness.InOrbIsReported | apps/calc-stub/src/cycles.ts:1109-1133 | and it is reported if the body is in orb at any instant of the window but for a second at its ends |
| ScanCompleteness.ExactInstantsAreReported | apps/calc-stub/src/cycles.ts:1042-1152 | completeness from end to end: every instant of the window at which a body stands exactly on a target in scope is a pass of a returned cycle, within five seconds; of a gap skipped beside a grid standstill it asks only, and only if it holds that instant, that the level be met there once alone or the body not turn |
| ScanCompleteness.ExactAspectsAreReported | apps/calc-stub/src/cycles.ts:1042-1152 | the same in the terms of the chart: whenever a body is at the angle of any of the five aspects from any natal target, a returned cycle of that body, target and aspect has a pass then |
| Rendering.ASecondApartRendersApart | apps/calc-stub/src/cycles.ts:98-101 | instants at least a second apart are written as different seconds, in order |
| Rendering.WrittenIsNear | apps/calc-stub/src/cycles.ts:98-101 | what is written is within half a second of the instant |
| DailySky.Bisect | apps/calc-stub/src/daily-sky.ts:516-525 | the loop ends where the recursive bisection ends |
| DailySky.Push | apps/calc-stub/src/daily-sky.ts:541-555 | a root outside the half-open day is refused, one written as the end of the day is moved back a second, and one within the dedupe tolerance of an earlier one is dropped |
| DailySky.RootsIn | apps/calc-stub/src/daily-sky.ts:538-583 | the grid loop, with its clamped last step and early exit, returns exactly the specified roots, sorted |
| DayTheorems.BracketIffCrossing | apps/calc-stub/src/daily-sky.ts:569-577 | with both ends off zero and the angle monotone, a step is bracketed if and only if the unwrapped angle truly passes a multiple of 360 in it, so never at an antipodal jump |
| DayTheorems.BracketKeepsItsRevolution | apps/calc-stub/src/daily-sky.ts:571-575 | a bracket that passes the 180-degree guard measures both ends on one revolution, monotone or not |
| DayTheorems.BisectionFindsAZero | apps/calc-stub/src/daily-sky.ts:516-525 | a bisected result is strictly inside its bracket and within 0.025 seconds of a true zero |
| DayTheorems.RootsAreGenuine | apps/calc-stub/src/daily-sky.ts:538-583 | every root of a day records a sample on zero or an instant within 0.025 seconds of a true zero, less than a second away |
| DayTheorems.CrossingsAreFound | apps/calc-stub/src/daily-sky.ts:557-577 | every zero of the angle in a monotone step is seen, at a sample on zero between which and the zero the angle stays within the tolerance, or as a bracket within 0.025 seconds; what is seen before the end of the day has a root beside it |
| DayTheorems.ZeroSamplesAreFound | apps/calc-stub/src/daily-sky.ts:557-570 | every sample on zero before the end of the day has a root beside it |
| DayTheorems.RootsAreInOrder | apps/calc-stub/src/daily-sky.ts:552-582 | the roots of a day ascend and are pairwise more than five seconds apart |
| DayTheorems.PlacedRendersBeforeTheEnd | apps/calc-stub/src/daily-sky.ts:543-552 | a root is always written strictly before the end of the day and moved by less than a second |
| DayTheorems.PlacedStaysInsideIff | apps/calc-stub/src/daily-sky.ts:543-552 | a root of the day stays in it if and only if it is written before the end of the day or the day lasts at least a second |
| DayTheorems.AShortDayLosesItsRoot | apps/calc-stub/src/daily-sky.ts:552-552 | a day shorter than a second and written as one second puts its first root before its own start |
| DayTheorems.RootsLieInTheDay | apps/calc-stub/src/daily-sky.ts:541-555 | every root of a day of at least a second is in it, as an instant and as written |
| DayTheorems.DaysShareNoSecond | apps/calc-stub/src/daily-sky.ts:543-552 | two consecutive days never write facts at the same second, whatever the facts are about |
| DayTheorems.CalendarSecondsAscend | apps/calc-stub/src/daily-sky.ts:538-583 | over any run of days the written seconds of one event ascend strictly |
| DayTheorems.LaterDayKeepsTheBoundary | apps/calc-stub/src/daily-sky.ts:557-559 | a zero on the shared boundary sample is recorded by the later day at that instant |
| DayTheorems.EarlierDayLeavesTheBoundary | apps/calc-stub/src/daily-sky.ts:542-542 | the earlier day records nothing from the step that ends on that zero |
| DayRuns.EachCrossingHasItsDay | apps/calc-stub/src/daily-sky.ts:538-583 | over any run of days every crossing is recorded by a day of the run, and by that day alone if and only if no boundary inside the run has both it and the sample before it on zero beside the crossing |
| DayRuns.ASlowCrossingIsWrittenTwice | apps/calc-stub/src/daily-sky.ts:557-570 | an angle that moves by the zero tolerance in a day and crosses zero at midnight is recorded by both days |
| JsonTurns.JsonTurn.Send | apps/codex-runner/src/isolated-codex-json.ts:100-100 | writing a request makes its id the only one expected next |
| JsonTurns.JsonTurn.Stop | apps/codex-runner/src/isolated-codex-json.ts:101-105 | the first cause is kept and later ones are ignored |
| JsonTurns.JsonTurn.HandleReply | apps/codex-runner/src/isolated-codex-json.ts:112-148 | a reply is accepted, refused or fatal as specified, and what was changed before a refusal stays changed |
| JsonTurns.JsonTurn.HandleNotification | apps/codex-runner/src/isolated-codex-json.ts:149-178 | usage, turn, item and completion are handled in order, stopping at the first refusal |
| JsonTurns.JsonTurn.HandleMessage | apps/codex-runner/src/isolated-codex-json.ts:110-179 | the whole handler, as a function of the state before |
| JsonTurns.JsonTurn.OnData | apps/codex-runner/src/isolated-codex-json.ts:181-192 | a chunk is counted against both ceilings and drained line by line until the first stop |
| JsonTurns.JsonTurn.OnClose | apps/codex-runner/src/isolated-codex-json.ts:193-196 | a failure wins over a result, and a session with neither is rejected |
| SessionTheorems.RunKeepsRunning | apps/codex-runner/src/isolated-codex-json.ts:110-179 | after any messages that left the session running, the replies heard are the handshake in order, what was written is determined by them, every named turn is the session's own, there is at most one final answer, and usage never shrank |
| SessionTheorems.SourceIsWrittenOnlyAfterTheHandshake | apps/codex-runner/src/isolated-codex-json.ts:110-141 | for every message list, the source is written at most once and only at the message where the fifth of replies 1, 4, 5, 2, 6 arrives, each once, in that order, having passed its checks; it goes to the accepted thread |
| SessionTheorems.ResultIsEarned | apps/codex-runner/src/isolated-codex-json.ts:142-178 | for every message list, a result exists only if all six replies were heard, exactly one final answer was heard, on one thread and one turn, with non-decreasing usage where required, and the turn was completed |
| TurnContract.SucceedsIff | apps/codex-runner/src/isolated-codex-json.ts:110-178 | complete and sound: a session has a result if and only if the child said, message by message, all it must and nothing it may not, written out with no state machine: the six replies in order with their fields, notifications on the own thread and turn, items of the three kinds, one answer that fits, usage that never shrinks, and then the completion; and the result is what it said |
| TurnContract.FirstMisfitFails | apps/codex-runner/src/isolated-codex-json.ts:110-178 | the first message that does not fit ends the turn, as a failed login, a fatal or a plain invalid turn by what it should have been |
| JsonTurns.ResolvesIff | apps/codex-runner/src/isolated-codex-json.ts:193-196 | for every course of events a value is resolved if and only if nothing failed and the child kept that contract |
| JsonTurns.OutputResolvesIff | apps/codex-runner/src/isolated-codex-json.ts:180-206 | a turn that is neither timed out nor aborted resolves with a result if and only if the lines of some of its output, within the ceilings, say all the child must and nothing it may not, and come to that result |
| JsonTurns.FirstCauseStands | apps/codex-runner/src/isolated-codex-json.ts:101-109 | the first cause of failure stands; a timer or an abort is one if there is none; only a failed spawn overrides |
| JsonTurns.ResolvesOnlyACompletedTurn | apps/codex-runner/src/isolated-codex-json.ts:193-196 | for every course of chunks, timeouts, aborts and spawn failures, a value is resolved only without any failure and only for a completed turn |
| JsonTurns.WritesOnlyAfterTheHandshake | apps/codex-runner/src/isolated-codex-json.ts:138-142 | the handshake theorem for every course of events |
| JsonTurns.AbortedTurnsStaySilent | apps/codex-runner/src/isolated-codex-json.ts:197-198 | a turn aborted before it begins never writes and never resolves |
| Texts.BytesAreFewest | apps/codex-runner/src/isolated-codex-json.ts:183-185 | a character counts as the fewest bytes that UTF-8 has room for it in |
| Texts.BlankIff | apps/codex-runner/src/isolated-codex-json.ts:189 | a line is passed over if and only if it holds nothing but the white space of ECMAScript, listed |
| Framing.FramingIsChunkInvariant | apps/codex-runner/src/isolated-codex-json.ts:180-192 | for every cutting of an output that stays within both ceilings, the session is where the complete lines of the joined output take it, in order, up to the first stop, with the unfinished line pending |
| Framing.CeilingsHold | apps/codex-runner/src/isolated-codex-json.ts:183-185 | the first chunk beyond 32 MiB in all or 16 MiB pending fails a turn that has not stopped, and nothing of it is heard |
| Framing.CutsAgree | apps/codex-runner/src/isolated-codex-json.ts:180-192 | two cuttings of one output within the ceilings lead to the same messages heard and the same state |
| Scheduler.TakeSlot | apps/codex-runner/src/runner.ts:259-277 | a slot is consumed before anything else; disabled, set-aside and cooling lanes are skipped; a failure starts a cooldown |
| Scheduler.ScanSlots | apps/codex-runner/src/runner.ts:257-278 | the inner loop, left by work, a fatal error, the signal or six slots |
| Scheduler.Rest | apps/codex-runner/src/runner.ts:280-288 | the sleep is the jittered delay shortened by the cooldowns of enabled lanes, and at least a millisecond |
| Scheduler.RunPollLoop | apps/codex-runner/src/runner.ts:243-290 | the whole loop until the signal or a fatal error, as a function of the environment |
| SchedulerTheorems.EveryRunIsSound | apps/codex-runner/src/runner.ts:254-289 | in every run the slots come round in the fixed order; a lane is skipped exactly if it has none, ran to no avail earlier in the same pass, or is cooling; its outcome is the environment's; a cooldown lasts one jittered delay; a sleep follows six slots without work; every slot follows a reading of the abort signal that found it not raised; and nothing follows a fatal run |
| SchedulerTheorems.JitterSpans | apps/codex-runner/src/runner.ts:212-215 | the delay grows with the random number from four fifths to six fifths of the poll interval |
| SchedulerTheorems.SleepMeetsItsBounds | apps/codex-runner/src/runner.ts:280-288 | each sleep is between one millisecond and the jitter ceiling, overshoots no cooldown by a millisecond, and is short only for the sake of a cooldown |
| SchedulerTheorems.SixSlotsHoldAJob | apps/codex-runner/src/runner.ts:254-289 | of any six consecutive slot consumptions, from the start or after any event and with sleeps in between or not, a lane that stays enabled, off cooldown and supplied works one |
| SchedulerTheorems.ReadyLaneRunsWithinSixSlots | apps/codex-runner/src/runner.ts:254-289 | after any job such a lane works again within six slots, and nothing sleeps in between |
| SchedulerTheorems.SixJobsAreFourOneOne | apps/codex-runner/src/runner.ts:20-22 | with every lane ready, any six events in a row are six jobs: four text, one portrait, one mesh |
| TerminalWrites.CodexPortraitClient.AskForWork | apps/codex-runner/src/portrait-client.ts:104-115 | a claim is remembered with its lease and binding exactly when it parses |
| TerminalWrites.CodexPortraitClient.Terminal | apps/codex-runner/src/portrait-client.ts:156-162 | one document goes out, and the claim is forgotten only on an acknowledgement of its version |
| TerminalWrites.CodexPortraitClient.Complete | apps/codex-runner/src/portrait-client.ts:117-125 | a completion is posted if and only if it is well formed and suits the remembered claim; otherwise nothing is sent |
| TerminalWrites.CodexPortraitClient.Fail | apps/codex-runner/src/portrait-client.ts:127-140 | a failure under a version 2 claim is posted with that claim's binding filled in, if and only if it suits the claim |
| TerminalWrites.WriteIsFaithful | apps/codex-runner/src/portrait-client.ts:135-146 | a document that suits the remembered lease carries, if it is version 2, exactly the lease and binding of the latest claim of its job, after any earlier exchanges |
| RunnerJobs.RunOnePortraitJob | apps/codex-runner/src/runner.ts:116-139 | nothing is claimed unless the local check passes; under an accepted claim exactly the completion produced goes out if it is fit for that claim, followed by a failure if and only if it was refused with 400, and exactly the failure that reports any other outcome; the end is fatal exactly if the execution said so, and otherwise true of the last answer |
| TerminalWrites.ParsedIff | apps/codex-runner/src/portrait-client.ts:18-36 | a claim is taken if and only if its identifiers have the right forms and its chapter is one of its version, written out |
| RunnerJobs.RunPortraitJobs | apps/codex-runner/src/runner.ts:116-139 | over any number of jobs against any server, the log stays disciplined and every version 2 document faithful |
| RunnerJobs.RunOneCodexJob | apps/codex-runner/src/runner.ts:166-210 | a text job posts a completion for a produced text, a failure for one given up or crashed, under the lease of its claim, nothing that is not well formed, and nothing after it; it ends fatally exactly if the execution said so, and otherwise as the server answered |
| RunnerJobs.RunTextJobs | apps/codex-runner/src/runner.ts:166-210 | over any number of text jobs against any server the log stays disciplined |
| RunnerJobs.AtMostOneCompletionPerClaim | apps/codex-runner/src/runner.ts:126-133 | in a disciplined log a claim stands directly before each completion, so each claim is completed at most once |
| RunnerJobs.FailureAfterCompletionNeeds400 | apps/codex-runner/src/runner.ts:129-133 | a failure under a completed claim follows that completion at once, about the same job, and only after a 400 |
| RunnerJobs.LostAnswersAreFinal | apps/codex-runner/src/runner.ts:129-133 | nothing is written under a claim after a completion whose answer was lost |
| Raster.Canvas.DrawTriangle | apps/codex-runner/src/portrait-mesh-preview.ts:66-79 | each pixel of the box takes the nearer of what it shows and what the triangle shows, every other pixel is kept, and the pixels tried are counted |
| Raster.GatherAll | apps/codex-runner/src/portrait-mesh-preview.ts:48-61 | the triangles kept are those that face the viewer, in order, and the budget is exceeded exactly when their boxes hold too many samples |
| Raster.Rasterize | apps/codex-runner/src/portrait-mesh-preview.ts:22-81 | a view is refused exactly when the samples exceed the budget; otherwise the pixels tried equal the samples counted and the canvas shows the specified image |
| RasterTheorems.WeightsReproduceThePoint | apps/codex-runner/src/portrait-mesh-preview.ts:69-71 | the weights add up to one and take the corners back to the pixel centre |
| RasterTheorems.ColoursStayBytes | apps/codex-runner/src/portrait-mesh-preview.ts:77-77 | interpolated channels round to 0..255 although weights may be slightly negative |
| RasterTheorems.BoxIsTight | apps/codex-runner/src/portrait-mesh-preview.ts:55-58 | the pixels counted and tried for a triangle are those of the canvas less than one pixel outside its bounds |
| Preview.Normalize | apps/codex-runner/src/portrait-mesh-compiler.ts:158-176 | a model is refused exactly when it is flat; otherwise it is centred and scaled so that every position lies in the unit cube and its longest side fills it |
| Preview.ViewsAreOrthonormal | apps/codex-runner/src/portrait-mesh-preview.ts:23-24 | the axes of every view are perpendicular unit vectors, right-handed, with a level right and an up that points upwards |
| Preview.ProjectedModelIsSafe | apps/codex-runner/src/portrait-mesh-preview.ts:45-57 | no triangle of a normalized model can lose a covered pixel to its rounded and clipped box |
| Images.RenderView | apps/codex-runner/src/portrait-mesh-preview.ts:30-81 | a view of a normalized model is refused exactly when the pixels less than one pixel outside a triangle turned to the viewer, counted once for each such triangle, are more than sixteen million; otherwise every pixel shows, of all triangles whose normal points towards the viewer, the surface point in its line of sight that is greatest along the view direction, with the shades of its corners blended, and the background where there is none |
| Glb.Writer.Append | apps/codex-runner/src/portrait-mesh-compiler.ts:228-237 | an array is padded to four bytes and described by one view and one accessor at the running offset, unless the payload budget is exceeded |
| Glb.AppendAll | apps/codex-runner/src/portrait-mesh-compiler.ts:238-246 | every material's three arrays are appended in order, and this fails exactly when the payload exceeds the budget |
| Glb.Compile | apps/codex-runner/src/portrait-mesh-compiler.ts:226-259 | a file results exactly when it fits the budget, and it is the header, the space-padded JSON chunk and the binary chunk |
| GlbTheorems.NarrowingIsLosslessIff | apps/codex-runner/src/portrait-mesh-compiler.ts:241-241 | 16-bit narrowing loses nothing if and only if every index is below 65536 |
| GlbTheorems.IndicesReadBack | apps/codex-runner/src/portrait-mesh-compiler.ts:241-245 | the width chosen always suffices for the indices of a valid geometry |
| GlbTheorems.ViewsTile | apps/codex-runner/src/portrait-mesh-compiler.ts:229-235 | the buffer views are four-byte aligned, in order, and tile the binary chunk |
| GlbTheorems.TilesAreDisjoint | apps/codex-runner/src/portrait-mesh-compiler.ts:229-235 | tiling views never overlap and stay inside the chunk |
| GlbTheorems.FileIsWellFormed | apps/codex-runner/src/portrait-mesh-compiler.ts:247-258 | header and chunk lengths agree with the file as section 4.4 of the glTF 2.0 specification requires |
| GlbTheorems.FileReadsBack | apps/codex-runner/src/portrait-mesh-compiler.ts:226-259 | a reader that follows the chunks, views and accessors by their numeric codes recovers every mesh: its material, and byte for byte its positions, normals and indices |

## Left out

- ScanTheorems.WindowsReportTheSameCycle: an arc override strictly between 0 and 0.1 degrees, which only a test can set, is not covered.
- ScanTheorems.OneIdOneCycle: the same.
- ScanTheorems.OmittedIsNeverInOrb: where the omission rests on a solved end, that end must be seen, which is the exact condition for it to bound the time in orb, and a second next to it is left open, because a solved end is only known to a second.
- ScanTheorems.UndecidedLacksAProof: both ends must be seen likewise.
- ScanCompleteness.WideSpanIsDecided: needs the same.
- ScanCompleteness.InOrbIsReported: needs the same, and leaves a second at each end of the window open.
- ScanCompleteness.ExactInstantsAreReported: a pass within five seconds of the window's ends may be reported by the neighbouring window instead; for the true node the skipped gap that holds the instant, if there is one, may not hold a reversal as well unless the level is met there once alone.
- ScanCompleteness.ExactAspectsAreReported: the same.
- Encounters.StartNeedsTheBodyInOrb: asks that no sample just before the first contact counts as on the boundary, since such a sample is a boundary root of its own.
- Encounters.EndNeedsTheBodyInOrb: asks the same just after the last contact.
- ScanSoundness.ReturnedCyclesAreTrue: a tangent at an instant that the search lands on may be called retrograde although the body leaves it forwards, as the code does; one at a grid standstill is told by the next grid instant at which the body moves.
- ScanSoundness.ReturnedCyclesMeetTheWindow: the thirty seconds are the probe of the solved ends.
- ScanSky.RequestBracketIsTame: for the true node the bracket's own gap, if it was skipped, may not hold a reversal.
- RetrogradeLoop.LoopMeetsEveryHypothesis: takes a square-root function, as do `RetrogradeLoop.AGridStandstillHidesAReversal`, `RetrogradeLoop.TwoExactInstantsAreLost` and `RetrogradeLoop.ABriefDipIsMissed`: that a parabola takes every value in between needs square roots, and Dafny's reals prove the existence of none; any function that returns the root of every non-negative real will do.
- StandingRun.RunMovesAsTheNode: takes one likewise.
- HiddenReturn.TwoWindowsTwoCycles: takes one likewise.
- DayTheorems.CrossingsAreFound: needs the angle to rise only or fall only within the quarter-hour step, since a body that turns inside one can cross zero twice unseen.
- DayRuns.EachCrossingHasItsDay: needs the same of every step; a crossing still on zero when the run ends is left to the day after the run.
- Raster.Rasterize: vertices arrive projected; projection is in `Images.RenderView`, and lighting and sRGB are left out of both, so a vertex carries any colour in 0..255.
- Images.RenderView: colours as in `Raster.Rasterize`.
- Preview.Normalize: the checks for degenerate normals and triangles after normalization are left out.
- Glb.Compile: the JSON text is an arbitrary encoding, and only the materials and the parts that describe the binary chunk are in it; colours arrive linear.
- GlbTheorems.FileReadsBack: some decoder must read that JSON text back with trailing spaces.
- JsonTurns.JsonTurn.HandleReply: the host-configuration, feature and override checks are one verdict each where they compare fixed values; the thread, server, usage and turn checks are written out.
- TerminalWrites.CodexPortraitClient.Complete: the checks of a completion's images, labels and prompts are one flag; lease, source and binding are written out.
- RunnerJobs.RunOneCodexJob: the text client's document checks are one flag, since nothing depends on them.
- RunnerJobs.RunTextJobs: as `RunnerJobs.RunOneCodexJob`.
- Floating-point rounding: the code's tolerances are kept as parameters of the theorems.
- Windings without an exact pass in the span, which the code skips on purpose, are no candidates here either.
- The daily fact list: labels, sign ingress names, lunar phases, house placements and the state cache around `rootsIn`.
- Request validation, HTTP routes and error envelopes: their conclusions are preconditions (distinct targets and bodies, an ordered window, positive lift steps).
- Swiss Ephemeris, house cusps and timezone resolution: foreign code behind the ephemeris function.
- Hashing, canonical JSON and signatures: digests are injective functions.
- Process spawning, kill timers and temporary directories around a turn.
- The mesh client and `runOnePortraitMeshJob`: the same protocol as the portrait lane, under another failure code.
- Geometry construction, materials and accessor extrema in the compiler.
- Claim, lease and scheduling semantics on the server side: its database modules are not part of this model.
