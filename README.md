# Personal website — verified model of its procedural core

This project models the parts of the personal website that compute something.

- **The metro-map background** (`MetroMap.tsx`). Transit lines grow out of a central hub along the eight octilinear directions. They avoid crossing the lines already drawn, and running parallel to them as the program classifies segment directions (diagonals mirrored; see Findings). They branch, place stations at a minimum spacing and share corridors. Trains shuttle along finished lines and wait at stations. Clicks send out waves, and the site's colour events shift the line colours. Under reduced motion, mounting, the colour events and a new-visualisation event instead redraw a static map: a fresh map grown for up to 3000 rounds, every station at full scale.
- **The strange-attractor background** (`StrangeAttractor.tsx`). A fading ten-second trail follows the current attractor. A fade-out/fade-in swap picks a different attractor.
- **The flow-field background** (`FlowField.tsx`):
  - the permutation table of its noise;
  - its hex-colour parser and palette handlers;
  - its particle reset rule.
- **The résumé generator** (`generate-resume.ts`): Markdown to Typst rewriting, sentence bullets, and per-section selection and ordering.
- **Date formatting with English ordinal suffixes** (`utils.ts`).
- **The weather icon lookup** (`SFStatus.tsx`).
- **The weather route's fifteen-minute cache** with stale-on-error fallback (`weather.ts`).

How sources of nondeterminism are handled:

- Every `Math.random()` draw is a parameter in [0, 1).
- Every clock reading (`performance.now()`, `Date.now()`, animation-frame times) is a parameter.
- The numerics that need `sqrt`, `exp`, `atan2`, trigonometry or IEEE rounding are supplied as functions or values. These are the centre-weight scores and their exponential weights, line lengths and distances along a line, the attractor integrator and projection, and the simplex-noise displacement.
- JavaScript numbers are reals, plus NaN where parsing can produce it.

Where the source keeps state in closures and mutates it in place, the model keeps it in objects:

- `MetroSim.MetroMap` holds the closure state of the metro map.
- `MetroCorridors.CorridorRegistry` holds the corridor segments and the spatial grid.
- `StrangeAttractor.AttractorView` and `StrangeAttractor.AttractorState` hold the attractor view and its trail.
- `FlowField.FlowFieldView` holds the flow field's particles and palette.
- `WeatherApi.WeatherRoute` holds the route's module-level cache.

The pure helpers are functions, and their properties are lemmas.

## Model

| member | source | states |
|---|---|---|
| `Color.ParseColor` | src/components/islands/MetroMap.tsx:345-355 | a string not starting with `#` is white; otherwise each channel is `parseInt` (radix 16) of two characters after the `#` |
| `Color.ByteOf` | src/components/islands/MetroMap.tsx:357-363 | a written channel is in 0..255: 0 at or below 0, 255 at or above 255, and otherwise within a half of the value |
| `Color.ChannelHex` | src/components/islands/MetroMap.tsx:357-363 | a NaN channel is written "NaN"; a finite one as two lower-case hex digits whose value is the clamped, rounded channel |
| `Color.RgbToHex` | src/components/islands/MetroMap.tsx:357-363 | a finite colour is written as `#` and three lower-case hex pairs, each the clamped and rounded channel |
| `Color.ParsePair` | src/components/islands/MetroMap.tsx:345-355 | `parseInt` of two lower-case hex digits is their value |
| `Color.ParseAfterFormat` | src/components/islands/MetroMap.tsx:345-363 | reading back a written finite colour gives each channel clamped and rounded |
| `Color.ParseColorRgbToHex` | src/components/islands/MetroMap.tsx:345-363 | for whole channels in 0..255, `parseColor(rgbToHex(c)) == c` |
| `Color.PairRoundTrip` | src/components/islands/MetroMap.tsx:357-363 | `toString(16)` padded to two characters undoes the reading of a lower-case hex pair |
| `Color.RgbToHexParseColor` | src/components/islands/MetroMap.tsx:345-363 | a lower-case `#rrggbb` string survives `rgbToHex(parseColor(s))` |
| `Color.ChannelHexOfPair` | src/components/islands/MetroMap.tsx:345-363 | writing back the value of a parsed lower-case hex pair gives the pair |
| `Color.LerpChannel` | src/components/islands/MetroMap.tsx:365-371 | the mixed channel is finite iff both inputs are, and its distance to `to` is `(1 - t)` times the inputs' distance |
| `Color.LerpColor` | src/components/islands/MetroMap.tsx:365-371 | the same, channel by channel |
| `Color.LerpEnds` | src/components/islands/StrangeAttractor.tsx:113-119 | on finite colours, `t = 0` gives `from` and `t = 1` gives `to` |
| `Color.LerpTowardsNaN` | src/components/islands/MetroMap.tsx:365-371 | a NaN target makes the channel NaN even at `t = 0` |
| `Color.LerpBetween` | src/components/islands/MetroMap.tsx:365-371 | for `t` in [0, 1] each mixed channel lies between the two inputs |
| `JsNumber.Round` | src/components/islands/MetroMap.tsx:357-363 | `Math.round(x)` lies in (x - 1/2, x + 1/2] |
| `JsNumber.RoundUnique` | src/components/islands/MetroMap.tsx:357-363 | any integer in that interval is the rounding |
| `JsNumber.Clamp` | src/components/islands/MetroMap.tsx:357-363 | the result is in [lo, hi]; it equals `x` inside, `lo` below and `hi` above |
| `JsNumber.ScaleBelow` | src/components/islands/MetroMap.tsx:475-477 | a draw in [0, 1) scales a positive `t` into [0, t) |
| `JsNumber.RandomIndex` | src/components/islands/MetroMap.tsx:654 | `Math.floor(r * n)` for a draw in [0, 1) is an index below `n` |
| `JsNumber.HexRun` | src/components/islands/MetroMap.tsx:345-355 | the longest prefix of hex digits: all digits, and the next character is not one |
| `JsNumber.NatToHex` | src/components/islands/MetroMap.tsx:357-363 | `toString(16)`: at least one lower-case digit, no leading zero, one digit iff below 16, at most two below 256 |
| `JsNumber.NatToHexValue` | src/components/islands/MetroMap.tsx:345-363 | reading back what `toString(16)` wrote gives the number |
| `JsNumber.HexOfDigitsValue` | src/components/islands/MetroMap.tsx:345-363 | `toString(16)` is the inverse of reading a canonical lower-case digit run |
| `JsNumber.NatToDecimal` | src/lib/utils.ts:15-17 | `String(n)`: at least one decimal digit, exactly one iff `n < 10` |
| `JsNumber.IntToDecimal` | src/lib/utils.ts:15-17 | `String(n)` starts with `-` iff `n < 0` |
| `JsString.TrimStart` | scripts/generate-resume.ts:82 | the result is a suffix of `s`; only white space is dropped; it does not start with white space |
| `JsString.TrimEnd` | scripts/generate-resume.ts:82 | the result is a prefix of `s`; only white space is dropped; it does not end with white space |
| `JsString.Slice` | src/components/islands/MetroMap.tsx:345-355 | `s.slice(a, b)` is `s[a..b]` when `b` is within the string, and never longer than `b - a` |
| `JsString.PadStart2` | src/components/islands/MetroMap.tsx:357-363 | a string of two or more characters is unchanged; a shorter one is padded with leading zeros to two |
| `StableSort.InsertSorted` | src/components/islands/MetroMap.tsx:750 | inserting into a key-sorted sequence keeps it sorted, and adds nothing but the inserted key |
| `StableSort.InsertPermutes` | scripts/generate-resume.ts:92 | insertion adds exactly the inserted element |
| `StableSort.InsertWithKey` | scripts/generate-resume.ts:92 | an inserted element goes in front of the elements with an equal key |
| `StableSort.SortByCorrect` | scripts/generate-resume.ts:90-98 | `sort` with `(a, b) => key(a) - key(b)` is sorted, a permutation, and stable for equal keys |
| `StableSort.DistinctSortedIncreasing` | src/components/islands/MetroMap.tsx:750 | a sorted sequence of distinct integers is strictly increasing |
| `MetroDirections.Direction` | src/components/islands/MetroMap.tsx:47-56 | each of the eight directions is a unit step with components in -1..1, never zero |
| `MetroDirections.Turn` | src/components/islands/MetroMap.tsx:47-56 | the counter-clockwise turn between two directions is in 0..7 |
| `MetroDirections.ContinueDirections` | src/components/islands/MetroMap.tsx:553-563 | seven directions, all in 0..7 |
| `MetroDirections.BranchDirections` | src/components/islands/MetroMap.tsx:544-550 | four directions, all in 0..7 |
| `MetroDirections.ContinueDirectionsCounts` | src/components/islands/MetroMap.tsx:553-563 | the heading appears five times, and each 45 degree turn appears once |
| `MetroDirections.ContinueDirectionsTurns` | src/components/islands/MetroMap.tsx:553-563 | every continue direction turns by 0, 45 or -45 degrees |
| `MetroDirections.BranchDirectionsTurns` | src/components/islands/MetroMap.tsx:544-550 | the branch directions turn by exactly 90, 270, 135 and 225 degrees |
| `MetroDirections.BranchDirectionsExactly` | src/components/islands/MetroMap.tsx:544-550 | a branch never keeps the heading, reverses it or turns by 45 degrees, and every other turn is offered |
| `MetroDirections.QuarterTurn` | src/components/islands/MetroMap.tsx:47-56 | direction `(d + 2) % 8` is `d` turned a quarter counter-clockwise on screen |
| `MetroDirections.BranchDirectionsPerpendicular` | src/components/islands/MetroMap.tsx:544-550 | the first two branch directions are perpendicular to the heading |
| `MetroDirections.OppositeDirection` | src/components/islands/MetroMap.tsx:47-56 | direction `(d + 4) % 8` is the reverse of `d` |
| `MetroGeometry.Advance` | src/components/islands/MetroMap.tsx:1003-1004 | one step moves `len` pixels along the direction's unit step |
| `MetroGeometry.DistSq` | src/components/islands/MetroMap.tsx:378 | the squared distance is non-negative |
| `MetroGeometry.DistSqSymmetric` | src/components/islands/MetroMap.tsx:378 | distance is symmetric |
| `MetroGeometry.SegmentsIntersectSymmetric` | src/components/islands/MetroMap.tsx:1509-1529 | the crossing test does not depend on which segment comes first |
| `MetroGeometry.SegmentsIntersectReversed` | src/components/islands/MetroMap.tsx:1509-1529 | nor on the orientation of either segment |
| `MetroGeometry.SegmentsTouchingDoNotIntersect` | src/components/islands/MetroMap.tsx:1509-1529 | an endpoint on the other segment's line (collinear, shared endpoint, T-junction) gives false |
| `MetroGeometry.SharedEndpointDoesNotIntersect` | src/components/islands/MetroMap.tsx:1509-1529 | segments sharing an endpoint never cross |
| `MetroGeometry.SegmentsIntersectSound` | src/components/islands/MetroMap.tsx:1509-1529 | a positive test means some point lies strictly inside both segments |
| `MetroGeometry.CrossingPoint` | src/components/islands/MetroMap.tsx:1509-1529 | the two parametric points of a straddling pair coincide |
| `MetroGeometry.AngleOctant` | src/components/islands/MetroMap.tsx:1464-1473 | the angle rounded to the nearest multiple of 45 degrees, modulo 8, is a direction |
| `MetroGeometry.SegmentDirectionAsWritten` | src/components/islands/MetroMap.tsx:1464-1473 | as written, the classification is always a direction in 0..7 |
| `MetroGeometry.SegmentDirection` | src/components/islands/MetroMap.tsx:1464-1473 | the corrected classification, with y flipped, is always a direction in 0..7 |
| `MetroGeometry.OctantsOfSteps` | src/components/islands/MetroMap.tsx:1464-1473 | the eight classifications of a step of positive length |
| `MetroGeometry.SegmentDirectionOfStep` | src/components/islands/MetroMap.tsx:1464-1473 | corrected: a segment drawn along `d` is classified as `d` |
| `MetroGeometry.SegmentDirectionAsWrittenOfStep` | src/components/islands/MetroMap.tsx:1464-1473 | as written: a segment drawn along `d` is classified as `(8 - d) % 8` |
| `MetroGeometry.ParallelOfStep` | src/components/islands/MetroMap.tsx:1475-1507 | corrected: a step along `e` counts as parallel to `d` iff they share an axis |
| `MetroGeometry.ParallelOfStepAsWritten` | src/components/islands/MetroMap.tsx:1475-1507 | as written: a diagonal step counts as parallel to a diagonal `d` iff it is at a right angle to it |
| `MetroGeometry.DiagonalParallelCounterexample` | src/components/islands/MetroMap.tsx:1464-1507 | as written, a north-east segment is not parallel to north-east, but a north-west one is |
| `MetroWeighted.PickIndex` | src/components/islands/MetroMap.tsx:530-540 | the slot the wheel stops in is a valid index |
| `MetroWeighted.PickIndexInterval` | src/components/islands/MetroMap.tsx:530-540 | for positive weights and a target in [0, total), slot `i` is chosen iff the target is in slot `i`'s prefix-sum interval |
| `MetroWeighted.PickIndexUnique` | src/components/islands/MetroMap.tsx:530-540 | no other slot satisfies that interval property |
| `MetroWeighted.WheelTargetRange` | src/components/islands/MetroMap.tsx:528-529 | `rand * total` lies in [0, total) |
| `MetroWeighted.SelectWeightedDirection` | src/components/islands/MetroMap.tsx:507-541 | 0 for no candidate; the sole candidate for one; otherwise the candidate in the slot the draw lands in, always a member |
| `MetroCatalog.LocationsDistinct` | src/components/islands/MetroMap.tsx:165-175 | no location is listed twice |
| `MetroCatalog.LocationsCover` | src/components/islands/MetroMap.tsx:165-175 | a location is listed iff some catalogue line is at it |
| `MetroCatalog.LinesAtSound` | src/components/islands/MetroMap.tsx:165-171 | `byLocation.get(loc)` holds exactly the catalogue lines at `loc`, and at least one for a listed location |
| `MetroCatalog.GroupByLocation` | src/components/islands/MetroMap.tsx:165-171 | the loop builds the key order `Locations` and the map `LinesAt` |
| `MetroCatalog.SwapPermutes` | src/components/islands/MetroMap.tsx:180 | a swap exchanges two entries, keeps the rest, and permutes |
| `MetroCatalog.ShuffleDownPermutes` | src/components/islands/MetroMap.tsx:178-181 | the Fisher–Yates passes permute |
| `MetroCatalog.ShuffleDownDistinct` | src/components/islands/MetroMap.tsx:178-181 | the shuffle keeps distinct entries distinct |
| `MetroCatalog.ShuffleLocations` | src/components/islands/MetroMap.tsx:178-181 | the in-place loop leaves the array as `ShuffleDown` of its old contents |
| `MetroCatalog.Swap` | src/components/islands/MetroMap.tsx:180 | the destructuring swap leaves `SwapAt` of the old array |
| `MetroCatalog.SwapAt` | src/components/islands/MetroMap.tsx:180 | a swap keeps the length |
| `MetroCatalog.SwapDistinct` | src/components/islands/MetroMap.tsx:180 | a swap keeps distinct entries distinct |
| `MetroCatalog.ShuffleDown` | src/components/islands/MetroMap.tsx:178-181 | the shuffle keeps the length |
| `MetroCatalog.ShuffleStep` | src/components/islands/MetroMap.tsx:178-181 | the pass for `i` swaps entry `i` with the drawn index below `i + 1`, then the remaining passes follow |
| `MetroCatalog.CatalogLocations` | src/components/islands/MetroMap.tsx:99-160 | the catalogue's locations, in order of first appearance, are the seven `LOCATIONS` |
| `MetroCatalog.OptionsAt` | src/components/islands/MetroMap.tsx:185-186 | each listed location has at least one line, and only lines at it |
| `MetroCatalog.PickAt` | src/components/islands/MetroMap.tsx:185-187 | the picked line is in the catalogue and at the location |
| `MetroCatalog.ShuffledLocations` | src/components/islands/MetroMap.tsx:175-181 | the shuffled locations are distinct and a permutation of the locations |
| `MetroCatalog.SelectLinesOnePerLocation` | src/components/islands/MetroMap.tsx:163-191 | `min(n, max(0, maxLines))` lines; the k-th is the pick at the k-th shuffled location; all are catalogue lines; no two share a location |
| `MetroCatalog.PickOnePerLocation` | src/components/islands/MetroMap.tsx:183-188 | the picking loop stops at `maxLines` and takes one pick per location in order |
| `MetroCatalog.ShuffledLocationArray` | src/components/islands/MetroMap.tsx:165-181 | a fresh array holding `ShuffledLocations` of the catalogue, and the map from each location to its lines |
| `MetroCatalog.PicksApart` | src/components/islands/MetroMap.tsx:183-188 | picks taken in turn from distinct locations are catalogue lines whose locations differ pairwise |
| `MetroCorridors.CellOf` | src/components/islands/MetroMap.tsx:692-697 | `Math.floor(v / size)` is the cell whose span holds `v` |
| `MetroCorridors.CellsWithinOne` | src/components/islands/MetroMap.tsx:707-724 | values less than one cell apart fall in the same or neighbouring cells |
| `MetroCorridors.NearPointsAdjacentCells` | src/components/islands/MetroMap.tsx:707-724 | a point less than one cell away in both coordinates lies in an adjacent cell, so the 3x3 search reaches it |
| `MetroCorridors.NeighbourCells` | src/components/islands/MetroMap.tsx:713-722 | the search visits nine cells |
| `MetroCorridors.NeighbourCellsAdjacent` | src/components/islands/MetroMap.tsx:713-722 | the nine cells are exactly the cells adjacent to the centre cell |
| `MetroCorridors.GatherMembers` | src/components/islands/MetroMap.tsx:713-722 | a candidate is gathered iff it is registered in one of the visited cells |
| `MetroCorridors.RankOffsetsSpec` | src/components/islands/MetroMap.tsx:752-754 | after `n` turns of the loop, the first `n` sorted ids carry their rank offsets |
| `MetroCorridors.SortedIds` | src/components/islands/MetroMap.tsx:750 | the sorted ids are strictly increasing and the same ids |
| `MetroCorridors.DistinctPermutation` | src/components/islands/MetroMap.tsx:750 | a permutation of distinct ids is distinct |
| `MetroCorridors.RankMapSpec` | src/components/islands/MetroMap.tsx:749-755 | the i-th smallest of `n` ids gets offset `i - (n - 1) / 2`, and the map has an entry for every id and no other |
| `MetroCorridors.RankMapLanes` | src/components/islands/MetroMap.tsx:749-755 | consecutive ids are exactly one lane apart, and the lanes are symmetric about the centre line |
| `MetroCorridors.OffsetsSumToZero` | src/components/islands/MetroMap.tsx:749-755 | the offsets of `n` lanes add up to zero |
| `MetroCorridors.CorridorOffsetsSumToZero` | src/components/islands/MetroMap.tsx:749-755 | the offsets of a whole corridor map, summed in id order, are zero |
| `MetroCorridors.SumAtOffsets` | src/components/islands/MetroMap.tsx:749-755 | summing the map along the sorted ids gives the partial rank totals |
| `MetroCorridors.ParallelTestAxis` | src/components/islands/MetroMap.tsx:779-791 | the source's two-part direction test is the same as "share an axis" |
| `MetroCorridors.JoinOffsets` | src/components/islands/MetroMap.tsx:794-795 | a join keeps the segment well formed, and merging the old offsets under the re-ranked ones gives the joined segment's offsets |
| `MetroCorridors.NewSegmentOk` | src/components/islands/MetroMap.tsx:803-809 | a fresh one-line segment is well formed, with the line at offset 0 |
| `MetroCorridors.JoinedRejects` | src/components/islands/MetroMap.tsx:786 | once a segment carries the line, the line does not join it again |
| `MetroCorridors.ShareStep` | src/components/islands/MetroMap.tsx:785-799 | one candidate's turn keeps the number of segments |
| `MetroCorridors.ShareAll` | src/components/islands/MetroMap.tsx:784-800 | the sharing pass keeps the number of segments |
| `MetroCorridors.ShareAllSpec` | src/components/islands/MetroMap.tsx:784-800 | in any candidate order and repetition, the pass joins exactly the candidates the line joins, each once; the line's indices keep their prefix and gain those segments, without repeats |
| `MetroCorridors.CorridorRegistry.constructor` | src/components/islands/MetroMap.tsx:917-919 | the empty, valid registry |
| `MetroCorridors.CorridorRegistry.AddToGrid` | src/components/islands/MetroMap.tsx:699-705 | the cell of `p` gains the index at its end, creating the cell if absent; segments unchanged |
| `MetroCorridors.CorridorRegistry.GetNearbyCandidates` | src/components/islands/MetroMap.tsx:707-724 | the entries of the nine neighbouring cells, in visiting order |
| `MetroCorridors.CorridorRegistry.NearbyExactly` | src/components/islands/MetroMap.tsx:707-724 | under `Valid`, the candidates are exactly the segments starting in a cell adjacent to `p`'s |
| `MetroCorridors.CorridorRegistry.ReassignOffsets` | src/components/islands/MetroMap.tsx:749-755 | only segment `k` changes: its offsets are overwritten by `RankMap` of its ids |
| `MetroCorridors.CorridorRegistry.ShareSegment` | src/components/islands/MetroMap.tsx:785-799 | one turn of the loop is `ShareStep`, keeping `Valid` and the grid |
| `MetroCorridors.CorridorRegistry.JoinSegment` | src/components/islands/MetroMap.tsx:794-795 | only segment `segId` changes: the line joins it and its offsets become the ranks of its ids; `Valid` and the grid are kept |
| `MetroCorridors.CorridorRegistry.ShareEach` | src/components/islands/MetroMap.tsx:784-800 | the loop over the candidates is `ShareAll` |
| `MetroCorridors.CorridorRegistry.ShareNearby` | src/components/islands/MetroMap.tsx:783-800 | each segment joins iff `Joins` holds; the line's indices keep their prefix and gain exactly the joined segments |
| `MetroCorridors.CorridorRegistry.DetectCorridorSharing` | src/components/islands/MetroMap.tsx:773-814 | the joined segments gain the line with re-ranked offsets; one new segment `[lineId] -> 0` is appended, indexed by the line and filed in its start cell |
| `MetroCorridors.CorridorRegistry.Register` | src/components/islands/MetroMap.tsx:810-813 | the segment is appended and its index is filed in the grid cell of its start |
| `MetroState.ConfigsOk` | src/components/islands/MetroMap.tsx:230-265 | both viewport configurations have a positive speed, segment length, station spacing and length cap |
| `MetroState.FreshLineOk` | src/components/islands/MetroMap.tsx:832-895 | a fresh line is valid for its slot, growing, without stations, with two points at its start and both colours the parsed base colour |
| `MetroState.EffectiveSpeedBounds` | src/components/islands/MetroMap.tsx:969-976 | once the delay is over, growth per frame is between 0.3 and 3 times `lineSpeed`, and fastest at the start |
| `MetroState.NonParallel` | src/components/islands/MetroMap.tsx:1011-1014 | the first filter keeps exactly the directions not parallel to a nearby line |
| `MetroState.NonCrossing` | src/components/islands/MetroMap.tsx:1016-1019 | the second filter keeps exactly the directions whose next segment crosses no line |
| `MetroState.CandidatesSpec` | src/components/islands/MetroMap.tsx:1011-1030 | the candidates come from `dirs` and are non-empty when `dirs` is; if a direction passes both filters, every candidate does |
| `MetroState.WeightsOf` | src/components/islands/MetroMap.tsx:1036-1041 | the wheel gets one weight per candidate, that candidate's weight |
| `MetroState.FirstInBounds` | src/components/islands/MetroMap.tsx:1090-1103 | the first direction whose test point is in bounds, none before it; `None` when none is |
| `MetroState.PlaceKeepsApart` | src/components/islands/MetroMap.tsx:658-689 | placing only where `canPlaceStation` allows keeps every two stations `minStationDistance` apart |
| `MetroState.GrowScaleSpec` | src/components/islands/MetroMap.tsx:1143-1151 | station grow-in never shrinks, stays in [0, 1], and leaves a full-size station alone |
| `MetroState.GrowingHasNoTrain` | src/components/islands/MetroMap.tsx:1280 | a growing line carries no train |
| `MetroState.LinesOkMoreStations` | src/components/islands/MetroMap.tsx:667-689 | valid lines stay valid when the station list grows |
| `MetroState.TrainsOkUpdate` | src/components/islands/MetroMap.tsx:1269-1287 | changing a line without a train keeps the trains valid, as long as it does not start growing |
| `MetroState.TrainsOkAppend` | src/components/islands/MetroMap.tsx:2172-2177 | appending lines keeps the trains valid |
| `MetroTrains.WaitTime` | src/components/islands/MetroMap.tsx:475-477 | a wait lies in [800, 2500) |
| `MetroTrains.CreateTrain` | src/components/islands/MetroMap.tsx:1232-1266 | a train is made iff the line has two stations or more, two points or more, and length 10 or more |
| `MetroTrains.CreatedTrain` | src/components/islands/MetroMap.tsx:1245-1265 | a new train is at its first station, waiting, heading forwards at rest, with a wait of 800 to 2500 ms, and valid when its stations lie on the line |
| `MetroTrains.Nearest` | src/components/islands/MetroMap.tsx:1315-1331 | a nearest distance found is positive |
| `MetroTrains.NearestIsMinimal` | src/components/islands/MetroMap.tsx:1315-1331 | it is some candidate's distance and none is nearer; nothing is found only when there is no candidate |
| `MetroTrains.NextSpeedBounds` | src/components/islands/MetroMap.tsx:1333-1346 | the speed stays in [0, TRAIN_MAX_SPEED], never brakes below the target, and never speeds up near a station |
| `MetroTrains.FirstStop` | src/components/islands/MetroMap.tsx:1363-1378 | a stop found is one of the stations searched |
| `MetroTrains.FirstStopIsFirst` | src/components/islands/MetroMap.tsx:1363-1378 | it is the least index within `STOP_RADIUS` other than the last stop |
| `MetroTrains.TrainStepOk` | src/components/islands/MetroMap.tsx:1297-1398 | each tick keeps `0 <= distanceAlongLine <= lineLength`, speed in [0, TRAIN_MAX_SPEED] and direction ±1, and leaves the line data alone |
| `MetroTrains.HeldTrainStays` | src/components/islands/MetroMap.tsx:1302-1311 | a waiting train whose wait has not ended does not move along the line |
| `MetroTrains.TrainStepEnds` | src/components/islands/MetroMap.tsx:1351-1360 | a train ending at 0 heads forwards at rest; one ending at `lineLength` heads backwards at rest |
| `MetroTrains.TrainStepStops` | src/components/islands/MetroMap.tsx:1362-1378 | a train that ends a tick waiting is at rest near a station other than the one it left, which becomes `lastStoppedAt`, and waits 800 to 2500 ms |
| `MetroTrains.StepTrain` | src/components/islands/MetroMap.tsx:1297-1398 | the imperative tick computes `TrainStep` |
| `MetroTrains.FindNearest` | src/components/islands/MetroMap.tsx:1315-1331 | the search loop computes `Nearest` |
| `MetroTrains.FindStop` | src/components/islands/MetroMap.tsx:1363-1378 | the loop with its `break` computes `FirstStop` |
| `MetroTrains.FirstStopAfter` | src/components/islands/MetroMap.tsx:1363-1378 | a stop found among the first `n` stations is the first among all |
| `MetroSim.FirstNear` | src/components/islands/MetroMap.tsx:1438-1447 | the first station strictly within the radius, none before it; `None` when none is |
| `MetroSim.FirstNearAt` | src/components/islands/MetroMap.tsx:1438-1447 | a station within the radius with none before it is the one found |
| `MetroSim.FirstNearNone` | src/components/islands/MetroMap.tsx:1438-1447 | nothing is found iff no station is within the radius |
| `MetroSim.KeptWaves` | src/components/islands/MetroMap.tsx:1221-1229 | kept waves are at most 2000 ms old, with radius `200 px/s` times their age, so never above 400 |
| `MetroSim.YoungWavesKept` | src/components/islands/MetroMap.tsx:1221-1229 | every wave no older than 2000 ms survives with its origin and start time |
| `MetroSim.KeptWavesFromInput` | src/components/islands/MetroMap.tsx:1221-1229 | every kept wave is an input wave with its radius updated |
| `MetroSim.Without` | src/components/islands/MetroMap.tsx:655 | `splice(i, 1)` leaves one entry fewer, and the pool is the rest plus the removed entry |
| `MetroSim.ParsedColors` | src/components/islands/MetroMap.tsx:2073-2074 | each colour parsed |
| `MetroSim.PlanTransitLines` | src/components/islands/MetroMap.tsx:923-929 | seven planned lines from seven distinct locations, and the i-th colour is the shuffled theme colour `i % n` |
| `MetroSim.ShiftStep` | src/components/islands/MetroMap.tsx:1131-1134 | the intensity moves 8% of the way to its target and stays in [0, 1] |
| `MetroSim.DecayTargetFalls` | src/components/islands/MetroMap.tsx:1136-1140 | after `n` frames from a target in [0, 1] it lies in [0, target] and is either 0 or `target - 0.003 n`; after 334 frames it is 0 |
| `MetroSim.Retarget` | src/components/islands/MetroMap.tsx:2059-2062 | only a line's target colour changes |
| `MetroSim.ThirdsSumOfThree` | src/components/islands/MetroMap.tsx:2072-2078 | three copies of a colour average to that colour |
| `MetroSim.ThirdsSumOfOne` | src/components/islands/MetroMap.tsx:2072-2078 | a single colour gives a third of it: the sum is always divided by three |
| `MetroSim.StationDistances` | src/components/islands/MetroMap.tsx:1241-1243 | one distance per station, each the projection of that station onto the line |
| `MetroSim.Spawned` | src/components/islands/MetroMap.tsx:1274-1286 | the spawn check only appends trains |
| `MetroSim.SpawnKeepsTrainsOk` | src/components/islands/MetroMap.tsx:1276-1284 | a spawned train keeps every train valid |
| `MetroSim.SpawnedValid` | src/components/islands/MetroMap.tsx:1269-1287 | the spawn check keeps every train valid, with at most one train per line |
| `MetroSim.SpawnedAtRest` | src/components/islands/MetroMap.tsx:1269-1287 | every train the check adds starts waiting, at rest, heading forwards, on a visited line |
| `MetroSim.SpawnedOk` | src/components/islands/MetroMap.tsx:1269-1287 | the trains stay valid, no line gets a second train, and each new train starts waiting, at rest, heading forwards |
| `MetroSim.SpawnedCovers` | src/components/islands/MetroMap.tsx:1274-1286 | after the check every eligible visited line has a train |
| `MetroSim.FadeIn` | src/components/islands/MetroMap.tsx:2166-2169 | from [0, 1] the opacity never falls and stays at most 1 |
| `MetroSim.FadeInFramesIs` | src/components/islands/MetroMap.tsx:2166-2169 | `n` frames give the opacity plus `0.015 n`, capped at 1, so 67 frames from 0 reach 1 |
| `MetroSim.LinesOkAppend` | src/components/islands/MetroMap.tsx:2172-2177 | appending lines whose ids continue the list keeps every line valid |
| `MetroSim.StationChance` | src/components/islands/MetroMap.tsx:1108-1110 | the chance is 0.4 iff the line has run more than 1.5 segments since its last station, else 0.15 |
| `MetroSim.BranchOrder` | src/components/islands/MetroMap.tsx:1054-1088 | the filtered branch directions, non-empty, a permutation of the candidates, sorted by centre score, best first |
| `MetroSim.CandidatesWithin` | src/components/islands/MetroMap.tsx:1011-1030 | the candidates are non-empty and drawn from `dirs` |
| `MetroSim.FirstInBoundsAt` | src/components/islands/MetroMap.tsx:1090-1103 | a direction in bounds with none before it is the first |
| `MetroSim.MetroMap.constructor` | src/components/islands/MetroMap.tsx:897-955 | the reduced-motion preference recorded; the hub at the centre of the bounds, palette and pool from the theme, seven planned lines at distinct locations, the staggered hub lines, everything else empty |
| `MetroSim.MetroMap.InitializeMap` | src/components/islands/MetroMap.tsx:897-955 | a valid map reset to its start: empty pool refilled from the palette, no trains, waves or shift, seven planned lines with colours cycled from the shuffle, the hub station and the staggered hub lines |
| `MetroSim.MetroMap.ClearMap` | src/components/islands/MetroMap.tsx:905-921 | the pool is the palette, no lines, trains, waves or shift, opacity and spawn clock 0, id counter 0, only the hub station |
| `MetroSim.MetroMap.Plan` | src/components/islands/MetroMap.tsx:924-929 | seven planned lines at distinct locations; the i-th planned colour is the shuffled palette's entry `i mod` its length |
| `MetroSim.MetroMap.CreateHubLines` | src/components/islands/MetroMap.tsx:944-954 | `initialLines` lines from the hub in directions 0, 2, 4, 6 in turn, the i-th delayed 300i to 300i + 200 ms, the first owning the hub station |
| `MetroSim.MetroMap.NextLine` | src/components/islands/MetroMap.tsx:833-835 | takes the next id and builds a fresh line with that slot's planned name and colour |
| `MetroSim.MetroMap.CanPlaceStation` | src/components/islands/MetroMap.tsx:658-665 | true iff no station is strictly closer than `minStationDistance` |
| `MetroSim.MetroMap.AddStation` | src/components/islands/MetroMap.tsx:667-689 | placed iff `canPlaceStation`; on success the station is appended to the line and the list and the distance resets; otherwise nothing changes |
| `MetroSim.MetroMap.GetNextColor` | src/components/islands/MetroMap.tsx:650-656 | refills an empty pool from the palette, then takes out the drawn entry; the colour plus the new pool is the old pool |
| `MetroSim.MetroMap.UpdateStations` | src/components/islands/MetroMap.tsx:1143-1151 | every station's scale is `GrowScale` of the old one; nothing else changes |
| `MetroSim.MetroMap.UpdateClickWaves` | src/components/islands/MetroMap.tsx:1221-1229 | the waves become `KeptWaves` of the old ones |
| `MetroSim.MetroMap.HandleClick` | src/components/islands/MetroMap.tsx:1437-1447 | a click on a station appends a wave at that station; otherwise nothing changes |
| `MetroSim.MetroMap.StationAt` | src/components/islands/MetroMap.tsx:1438-1447 | the search loop computes `FirstNear` |
| `MetroSim.MetroMap.RetargetLines` | src/components/islands/MetroMap.tsx:2059-2062 | every line's target colour is set by `Retarget` |
| `MetroSim.MetroMap.LerpLineColors` | src/components/islands/MetroMap.tsx:1123-1129 | every line's colour moves 3% of the way to its target |
| `MetroSim.MetroMap.UpdateColors` | src/components/islands/MetroMap.tsx:1121-1141 | line colours lerp, the intensity follows `ShiftStep`, and the target follows `DecayTarget` |
| `MetroSim.MetroMap.HandleColorChange` | src/components/islands/MetroMap.tsx:2053-2065 | animated: the shift becomes the parsed colour at target strength 1, every line's target moves a quarter of the way, and nothing else changes; reduced motion: the map is redrawn statically, which clears the shift again |
| `MetroSim.MetroMap.ShiftLines` | src/components/islands/MetroMap.tsx:2054-2062 | the shift and its target strength 1 are set and every line retargeted a quarter of the way, nothing else changing |
| `MetroSim.MetroMap.SetShift` | src/components/islands/MetroMap.tsx:2054-2056 | the shift becomes the parsed colour and its target strength 1, keeping `Core` |
| `MetroSim.MetroMap.AverageColor` | src/components/islands/MetroMap.tsx:2072-2078 | the average is the sum of a third of each parsed colour |
| `MetroSim.MetroMap.HandlePalette` | src/components/islands/MetroMap.tsx:2067-2088 | an empty list changes nothing; otherwise the palette is the first five colours plus three defaults, the shift is the average of the first three at 0.8, and line targets move a fifth of the way |
| `MetroSim.MetroMap.HandleColorReset` | src/components/islands/MetroMap.tsx:2090-2102 | default palette; animated: no shift, both intensities 0, every line back to its base colour, nothing else changing; reduced motion: a static map redrawn from the default palette |
| `MetroSim.MetroMap.ResetColors` | src/components/islands/MetroMap.tsx:2091-2099 | default palette, no shift, both intensities 0, every line back to its base colour, nothing else changing |
| `MetroSim.MetroMap.HandleNewViz` | src/components/islands/MetroMap.tsx:2104-2108 | animated: nothing changes; reduced motion: the map is redrawn statically |
| `MetroSim.MetroMap.DrawStaticMap` | src/components/islands/MetroMap.tsx:2027-2044 | a freshly initialized valid map, grown for between 1 and 3000 rounds, with no line still growing unless all 3000 ran, and every station at full scale; the palette is kept |
| `MetroSim.MetroMap.GrowUntilStopped` | src/components/islands/MetroMap.tsx:2030-2039 | the map stays valid with the hub station first and at least the initial lines, between 1 and 3000 rounds run, and fewer than 3000 only once every line has stopped |
| `MetroSim.MetroMap.SetFullScale` | src/components/islands/MetroMap.tsx:2042-2044 | every station's scale becomes 1 and nothing else about it changes |
| `MetroState.FullScaleStationsOk` | src/components/islands/MetroMap.tsx:2042-2044 | full-scale stations stay apart and keep their scales in [0, 1] |
| `MetroSim.HasTrainOn` | src/components/islands/MetroMap.tsx:1276 | `trains.some(t => t.line === line)` |
| `MetroSim.MetroMap.CheckTrainSpawning` | src/components/islands/MetroMap.tsx:1269-1287 | within 500 ms of the last check nothing changes; otherwise the check time becomes `now` and the trains become `Spawned` |
| `MetroSim.SpawnTrains` | src/components/islands/MetroMap.tsx:1274-1286 | the loop over the lines returns `Spawned` of the given trains over every line |
| `MetroSim.MetroMap.UpdateTrains` | src/components/islands/MetroMap.tsx:1290-1399 | every train takes one `TrainTick` in place; the number of trains is unchanged |
| `MetroSim.MetroMap.IsDirectionParallelToNearbyLines` | src/components/islands/MetroMap.tsx:1475-1507 | the loop computes `ParallelNearby`, which classifies each nearby segment of another line as `getSegmentDirection` does, as written |
| `MetroState.ParallelAtStep` | src/components/islands/MetroMap.tsx:1464-1507 | a nearby segment drawn along `e` counts as parallel to `dir` iff `dir` shares an axis with the mirror `(8 - e) % 8`: the program's filter, diagonals mirrored |
| `MetroSim.MetroMap.WouldCrossExistingLine` | src/components/islands/MetroMap.tsx:1532-1573 | the loop computes `CrossesExisting` |
| `MetroSim.MetroMap.CrossingOn` | src/components/islands/MetroMap.tsx:1540-1571 | the first crossed segment of line `o`, or proof that none is crossed |
| `MetroSim.MetroMap.FilterNonParallel` | src/components/islands/MetroMap.tsx:1011-1014 | the filter computes `NonParallel` |
| `MetroSim.MetroMap.FilterNonCrossing` | src/components/islands/MetroMap.tsx:1016-1019 | the filter computes `NonCrossing` |
| `MetroSim.MetroMap.FilterDirections` | src/components/islands/MetroMap.tsx:1011-1030 | both filters and the fallback give `Candidates`: directions drawn from `dirs`, non-empty when `dirs` is |
| `MetroSim.MetroMap.ChooseDirection` | src/components/islands/MetroMap.tsx:1011-1046 | the new heading is a candidate chosen by the wheel, turning by 0 or 45 degrees |
| `MetroSim.MetroMap.TryBranch` | src/components/islands/MetroMap.tsx:1049-1103 | a branch is attempted only under `maxLines`, after `minBranchDistance`, on a draw below 0.2; it leaves from the first in-bounds direction in score order, iff its junction station can be placed |
| `MetroSim.MetroMap.BranchLoop` | src/components/islands/MetroMap.tsx:1090-1103 | no in-bounds direction: no change; otherwise the first decides and a branch exists iff the junction is placed |
| `MetroSim.MetroMap.ResetAndPlaceJunction` | src/components/islands/MetroMap.tsx:1093-1097 | the branch distance resets, and a junction station is added iff it can be placed |
| `MetroSim.MetroMap.CreateBranchLine` | src/components/islands/MetroMap.tsx:863-895 | the next id, a fresh valid growing line from the junction, delayed 200–800 ms and growing 1.2–2 s |
| `MetroSim.MetroMap.CompleteSegment` | src/components/islands/MetroMap.tsx:1007-1115 | the turn picks a candidate continue direction, progress restarts, other lines are unchanged, a branch may leave, and a station may be placed |
| `MetroSim.MetroMap.BranchOrStation` | src/components/islands/MetroMap.tsx:1048-1115 | after the turn a branch may leave with a fresh branch station; otherwise a station is added exactly when the draw, the length and the spacing allow it |
| `MetroSim.MetroMap.TurnAtSegmentEnd` | src/components/islands/MetroMap.tsx:1011-1047 | the heading becomes one of the candidate continue directions, the weighted-wheel pick when there are two or more; progress restarts, and a changed heading starts a new point at the segment end |
| `MetroSim.MetroMap.ApplyTurn` | src/components/islands/MetroMap.tsx:1008-1046 | progress restarts; a new direction also appends `position` as a point; no other line changes |
| `MetroSim.MetroMap.MaybeStation` | src/components/islands/MetroMap.tsx:1106-1115 | a station is placed iff the draw is under `StationChance`, the line is longer than a segment, and the spot is free |
| `MetroSim.MetroMap.UpdateLine` | src/components/islands/MetroMap.tsx:957-1119 | a stopped or delayed line is untouched; a line never restarts growing; other lines are unchanged; an active line advances by the eased frame speed |
| `MetroSim.MetroMap.Grow` | src/components/islands/MetroMap.tsx:981-1004 | the line keeps growing iff the next tip is strictly in bounds and under the length cap, and only such a tip is written |
| `MetroSim.MetroMap.Extend` | src/components/islands/MetroMap.tsx:981-1007 | a tip in bounds and under the cap moves on: the line keeps growing, its length grows by the speed, other lines are unchanged |
| `MetroSim.MetroMap.ExtendToSegmentEnd` | src/components/islands/MetroMap.tsx:1003-1115 | a move that completes a segment: the tip moves, then the segment end turns, may branch and may place a station, all within the same guarantees as `Extend` |
| `MetroSim.MetroMap.MoveTip` | src/components/islands/MetroMap.tsx:978-1004 | the tip moves `speed` along the current direction, the four counters grow by `speed`, and no other line changes |
| `MetroSim.MetroMap.StopLine` | src/components/islands/MetroMap.tsx:990-1001 | the line stops growing, and a terminal station is placed iff it can be |
| `MetroSim.MetroMap.GrowLines` | src/components/islands/MetroMap.tsx:2171-2177 | every line is updated in order and the branches appended; no stopped line restarts; no line is added at `maxLines`; at most doubles |
| `MetroSim.MetroMap.UpdateEachLine` | src/components/islands/MetroMap.tsx:2171-2176 | each existing line is updated once in order; a branch is returned, well-formed and growing, only for a line that branched; none while `maxLines` lines exist; earlier stations are kept |
| `MetroSim.MetroMap.FadeInStep` | src/components/islands/MetroMap.tsx:2165-2169 | the opacity becomes `FadeIn` of the old one, keeping `Core` |
| `MetroSim.MetroMap.Animate` | src/components/islands/MetroMap.tsx:2164-2192 | one frame keeps `Valid`: opacity `FadeIn`, no stopped line restarts, station positions never move, the colour shift steps and decays, waves become `KeptWaves`, the spawn clock and the trains follow `FrameTrains` |
| `MetroSim.MetroMap.GrowScene` | src/components/islands/MetroMap.tsx:2164-2188 | the part of a frame before the trains: fade-in, growth and refresh with the effects listed for `Animate` |
| `MetroSim.MetroMap.RefreshScene` | src/components/islands/MetroMap.tsx:2179-2188 | colours, station grow-in and waves change; growth flags and station positions do not |
| `MetroSim.MetroMap.MoveTrains` | src/components/islands/MetroMap.tsx:2190-2192 | the spawn clock moves to `now` iff 500 ms have passed; the trains become `SpawnChecked` of the old ones, each then ticked once (`FrameTrains`); the map's invariant holds |
| `MetroSim.SpawnChecked` | src/components/islands/MetroMap.tsx:1270-1286 | the trains after the spawn check, unchanged within 500 ms, stay valid and keep the old ones as a prefix |
| `MetroSim.FrameTrainsOf` | src/components/islands/MetroMap.tsx:2190-2192 | a spawn check followed by one tick per train gives `FrameTrains` |
| `MetroSim.DrawsOf` | src/components/islands/MetroMap.tsx:2190-2192 | the first `n` draws of a stream, in order |
| `StrangeAttractor.PickNewAttractor` | src/components/islands/StrangeAttractor.tsx:185-192 | 0 for at most one attractor; otherwise an index in range, different from the current one, from the first draw that lands elsewhere |
| `StrangeAttractor.Stamped` | src/components/islands/StrangeAttractor.tsx:371-375 | one new point per step, each stamped `now` |
| `StrangeAttractor.Expired` | src/components/islands/StrangeAttractor.tsx:376-378 | the trimmed prefix is all older than `LIFESPAN`, and the first kept point is not |
| `StrangeAttractor.ExpiredBeforeNew` | src/components/islands/StrangeAttractor.tsx:368-379 | trimming never reaches the points just added, which are all kept |
| `StrangeAttractor.TrimmedAllLive` | src/components/islands/StrangeAttractor.tsx:376-378 | on a time-sorted trail every kept point is within `LIFESPAN` |
| `StrangeAttractor.UpdatedTrail` | src/components/islands/StrangeAttractor.tsx:368-379 | the new points end the trail, the first kept one is live, and a sorted trail stays sorted and all live |
| `StrangeAttractor.AttractorState.constructor` | src/components/islands/StrangeAttractor.tsx:194-219 | the attractor's initial point and an empty trail |
| `StrangeAttractor.AttractorState.UpdateState` | src/components/islands/StrangeAttractor.tsx:368-379 | the position takes eight integrator steps of the frame's `dt`; the trail is old plus eight stamped points, less the expired prefix |
| `StrangeAttractor.FadeStepSpec` | src/components/islands/StrangeAttractor.tsx:428-442 | fading out lowers opacity by 0.003 and ends at 0 with the fade cleared; otherwise opacity rises by 0.003 capped at 1; it stays in [0, 1] |
| `StrangeAttractor.FadingOutRun` | src/components/islands/StrangeAttractor.tsx:428-431 | each frame of a fade-out from full opacity lowers it by 0.003 and keeps fading, for the first 333 frames |
| `StrangeAttractor.FadeOutFrames` | src/components/islands/StrangeAttractor.tsx:428-438 | iterating the fade step from full opacity: still visible and fading after 333 frames; the 334th frame pins it at 0, clears `fadingOut` and ends the fade-out |
| `StrangeAttractor.StaticCounts` | src/components/islands/StrangeAttractor.tsx:303-315 | the reduced-motion paths hold 4499, 9499 and 449 points, each enough to draw |
| `StrangeAttractor.AttractorView.constructor` | src/components/islands/StrangeAttractor.tsx:242-249 | a drawn attractor, full opacity, white colours, no swap pending; in reduced-motion mode its static path |
| `StrangeAttractor.AttractorView.PrecomputeStaticPoints` | src/components/islands/StrangeAttractor.tsx:303-315 | after the skipped warm-up, the k-th stored point is the projection of the path after `first + k + 1` steps |
| `StrangeAttractor.StaticPoints` | src/components/islands/StrangeAttractor.tsx:303-315 | the loop keeps the projections of steps `first + 1` onwards, `StaticCount` of them, where `first` is the floored warm-up plus one |
| `StrangeAttractor.AttractorView.DrawStatic` | src/components/islands/StrangeAttractor.tsx:317-320 | with three points or more the colour moves 30% towards the target |
| `StrangeAttractor.AttractorView.HandleColorChange` | src/components/islands/StrangeAttractor.tsx:256-259 | the target is the parsed colour, white for a non-`#` string; only a reduced-motion redraw changes the current colour |
| `StrangeAttractor.AttractorView.HandleColorReset` | src/components/islands/StrangeAttractor.tsx:261-264 | the target is white; only a reduced-motion redraw changes the current colour |
| `StrangeAttractor.AttractorView.HandleNewAttractor` | src/components/islands/StrangeAttractor.tsx:266-276 | reduced motion: a different attractor is drawn at once; animated: a swap is scheduled and the fade starts only when none is under way |
| `StrangeAttractor.AttractorView.StepFade` | src/components/islands/StrangeAttractor.tsx:428-442 | opacity follows `FadeStep`; when a fade-out ends the pending state becomes current and none is pending |
| `StrangeAttractor.AttractorView.Frame` | src/components/islands/StrangeAttractor.tsx:420-442 | the delta never exceeds 50 ms and equals the elapsed time below that, the clock moves to `time`, the colour lerps 1.5% towards its target, and the fade steps as in `StepFade` |
| `StrangeAttractor.AttractorView.Animate` | src/components/islands/StrangeAttractor.tsx:420-449 | the fade and swap as in `StepFade`, the colour lerps 1.5% towards its target, and the drawn state advances by `UpdateState` |
| `FlowField.Fmod` | src/components/islands/FlowField.tsx:21-22 | for the non-negative generator state the remainder lies in [0, m) and leaves values already in range unchanged |
| `FlowField.Identity` | src/components/islands/FlowField.tsx:16-17 | entry `i` is `i` |
| `FlowField.ShuffledPermutes` | src/components/islands/FlowField.tsx:18-24 | every swap index lies below `n`, so the shuffle permutes |
| `FlowField.Shuffled` | src/components/islands/FlowField.tsx:18-24 | the shuffle keeps the length |
| `FlowField.SwapPermutes` | src/components/islands/FlowField.tsx:22-23 | swapping two entries permutes |
| `FlowField.BuildPermutationTable` | src/components/islands/FlowField.tsx:15-27 | the in-place loop computes `PermutationTable(seed)` |
| `FlowField.PermutationTableSpec` | src/components/islands/FlowField.tsx:15-27 | 512 entries; the first 256 are a permutation of 0..255; entry `i + 256` is entry `i` |
| `FlowField.RemoveFirst` | src/components/islands/FlowField.tsx:78 | drops the leading `#`; a string without `#` is unchanged; otherwise one character is removed |
| `FlowField.ParseHexColorAsWritten` | src/components/islands/FlowField.tsx:76-83 | as written, every channel is finite (`|| 255` replaces NaN and 0) |
| `FlowField.AsWrittenWhitens` | src/components/islands/FlowField.tsx:76-83 | as written, the result is the corrected reading with every 0 channel turned to 255 |
| `FlowField.RedReadsAsWhite` | src/components/islands/FlowField.tsx:76-83 | as written, every byte colour reads back whitened, and `#ff0000` reads as white |
| `FlowField.ParseHexColor` | src/components/islands/FlowField.tsx:76-83 | corrected: every channel is finite |
| `FlowField.ParseHexColorRoundTrip` | src/components/islands/FlowField.tsx:76-83 | corrected: every byte colour survives writing and reading back |
| `FlowField.ReadingsAgreeOffZero` | src/components/islands/FlowField.tsx:76-83 | the two readings agree on every channel that is not 0 |
| `FlowField.VariantChannel` | src/components/islands/FlowField.tsx:168-171 | a varied channel is clamped into [0, 255] |
| `FlowField.VariantByte` | src/components/islands/FlowField.tsx:168-172 | a rounded, clamped channel is a byte, at most 255 |
| `FlowField.Variant` | src/components/islands/FlowField.tsx:167-172 | each variation is a `#` colour of seven characters |
| `FlowField.PaddedHex` | src/components/islands/FlowField.tsx:172 | a byte written in base 16 and padded to two characters with `0` is its two hex digits, high first |
| `FlowField.VariantFormat` | src/components/islands/FlowField.tsx:172 | a variation is `#` followed by the three rounded channels, each in base 16 padded to two digits |
| `FlowField.VariantPalette` | src/components/islands/FlowField.tsx:163-174 | the palette is the base followed by variation `i` of the parsed colour, made from the `i`-th triple of channel draws, for `i` = 1, 2, 3 |
| `FlowField.VariantNearBase` | src/components/islands/FlowField.tsx:167-171 | each channel of variation `i` is clamped to [0, 255] and within `12.5 i + 0.5` of the clamped base |
| `FlowField.SmoothBounds` | src/components/islands/FlowField.tsx:120-124 | the smoothstep of [0, 1] stays in [0, 1] |
| `FlowField.PositionOpacity` | src/components/islands/FlowField.tsx:117-125 | 1 for the contained variant and right of half width; 0 left of 0.3 width; NaN iff width and `x` are both 0 |
| `FlowField.PositionOpacityBounds` | src/components/islands/FlowField.tsx:117-125 | a finite opacity lies in [0, 1] |
| `FlowField.DrawWithin` | src/components/islands/FlowField.tsx:133-150 | a draw in [0, 1) scales a width into [0, width] |
| `FlowField.FlowFieldView.CreateParticle` | src/components/islands/FlowField.tsx:133-150 | the particle's colour is from the palette |
| `FlowField.FlowFieldView.CreateParticleSpec` | src/components/islands/FlowField.tsx:133-150 | a new particle has age 0, its previous position equal to its position, a lifetime in [150, 200), `x` in [0.35 w, w] in the full variant and in [0, w] otherwise, and `y` in [0, h] |
| `FlowField.FlowFieldView.constructor` | src/components/islands/FlowField.tsx:186-190 | the seeded table, the default palette, time 0, and 100 or 500 particles |
| `FlowField.FlowFieldView.InitParticles` | src/components/islands/FlowField.tsx:152-161 | 100 particles in reduced-motion mode, 500 otherwise, each created from its draws with an age in [0, 75) |
| `FlowField.FlowFieldView.HandleColorChange` | src/components/islands/FlowField.tsx:163-174 | the palette becomes four entries: the base, then variation `i` of the base as `parseHexColor` reads it, 0 channels whitened, from the `i`-th triple of draws |
| `FlowField.FlowFieldView.HandlePaletteChange` | src/components/islands/FlowField.tsx:176-180 | a missing or empty list is ignored; otherwise it becomes the palette |
| `FlowField.FlowFieldView.HandleColorReset` | src/components/islands/FlowField.tsx:182-184 | the palette is the three-colour default |
| `FlowField.FlowFieldView.HandleNewVisualization` | src/components/islands/FlowField.tsx:186-190 | a new seeded table, time 0, and fresh particles |
| `FlowField.FlowFieldView.AdvanceKeeps` | src/components/islands/FlowField.tsx:266-287 | a particle stays alive; it is either respawned or moved by the flow step with its age one more and its colour kept; in the full variant it stays in the region |
| `FlowField.FlowFieldView.Animate` | src/components/islands/FlowField.tsx:236-291 | time advances 0.001, every particle advances or respawns, and in the full variant every particle is in the region |
| `Resume.RunWithout` | scripts/generate-resume.ts:67 | the greedy `[^c]+` run holds no `c` and stops at one |
| `Resume.BoldAt` | scripts/generate-resume.ts:67 | a bold match has a non-empty capture inside its four asterisks |
| `Resume.BoldPair` | scripts/generate-resume.ts:67 | `**x**`, `x` non-empty and free of `*`, becomes `*x*` |
| `Resume.BoldKeepsText` | scripts/generate-resume.ts:67 | the bold rewrite only removes asterisks |
| `Resume.BoldWithoutStars` | scripts/generate-resume.ts:67 | text without asterisks is unchanged |
| `Resume.LinkAt` | scripts/generate-resume.ts:70 | a link match has a non-empty caption and ends within the text |
| `Resume.LinkPair` | scripts/generate-resume.ts:70 | `[text](url)`, both non-empty, `text` free of `]` and `url` free of `)`, becomes `text` |
| `Resume.LinkWithoutBrackets` | scripts/generate-resume.ts:70 | text without `[` is unchanged |
| `Resume.LinkMatches` | scripts/generate-resume.ts:70 | the pattern matches `[text](url)` with a caption of `|text|` characters and a match of `|text| + |url| + 4` |
| `Resume.Escape` | scripts/generate-resume.ts:73 | escaping never shortens the text and never starts it with `$` |
| `Resume.UnescapeEscape` | scripts/generate-resume.ts:73 | undoing the escape gives the text back |
| `Resume.DollarsEscaped` | scripts/generate-resume.ts:73 | every `$` in escaped text follows a backslash |
| `Resume.EscapePlain` | scripts/generate-resume.ts:73 | text without `$` is unchanged by the escape |
| `Resume.MarkdownToTypstNonEmpty` | scripts/generate-resume.ts:65-76 | only empty Markdown gives empty Typst |
| `Resume.MarkdownToTypstEscapes` | scripts/generate-resume.ts:65-76 | the escape comes last: every `$` in the output is escaped, and the text before escaping can be read back |
| `Resume.MarkdownToTypstPlain` | scripts/generate-resume.ts:65-76 | text with no `*`, `[` or `$` comes through unchanged |
| `Resume.FirstSplitSpec` | scripts/generate-resume.ts:81 | the first split position is a terminator followed by white space, with none earlier |
| `Resume.SpaceRunSpec` | scripts/generate-resume.ts:81 | the greedy `\s+` run is all white space and stops at a non-space |
| `Resume.SplitSentences` | scripts/generate-resume.ts:81 | `split` gives at least one piece |
| `Resume.Separators` | scripts/generate-resume.ts:81 | one separator between each two pieces |
| `Resume.SplitRebuilds` | scripts/generate-resume.ts:81 | putting the separators back between the pieces gives the text |
| `Resume.SplitPiecesEnd` | scripts/generate-resume.ts:81 | every piece but the last is non-empty and ends with `.`, `!` or `?` |
| `Resume.SeparatorsAreSpace` | scripts/generate-resume.ts:81 | every separator is a non-empty run of white space |
| `Resume.SplitPiecesWhole` | scripts/generate-resume.ts:81 | no piece still holds a terminator followed by white space |
| `Resume.Sentences` | scripts/generate-resume.ts:82-83 | the kept sentences are non-empty |
| `Resume.SentencesTrimmed` | scripts/generate-resume.ts:82-83 | every kept sentence is a trimmed piece: no white space at either end |
| `Resume.ContentToBullets` | scripts/generate-resume.ts:78-86 | one non-empty bullet per kept sentence, each `markdownToTypst` of it |
| `Resume.OneSentence` | scripts/generate-resume.ts:78-86 | text with no sentence break gives at most one bullet, the trimmed text |
| `Resume.InSection` | scripts/generate-resume.ts:91 | only entries of the section are kept |
| `Resume.InSectionComplete` | scripts/generate-resume.ts:91 | every entry of the section is kept, as often as it occurs |
| `Resume.SectionEntriesSpec` | scripts/generate-resume.ts:89-98 | each list holds exactly its section's entries, ascending by `order`, stable for equal orders |
| `Resume.Find` | scripts/generate-resume.ts:89 | a found entry is of the section; none is found only when there is none |
| `Resume.SummaryText` | scripts/generate-resume.ts:143 | "" without a summary entry, otherwise `markdownToTypst` of the first one's content |
| `Resume.OptionalParam` | scripts/generate-resume.ts:102-105 | an optional parameter (`note:` as is, `caseStudy:` as an absolute link) appears iff its field is truthy, with the field's text |
| `Resume.ExperienceParams` | scripts/generate-resume.ts:100-116 | an experience entry carries its optional parameters exactly when truthy, the note first |
| `Resume.OtherSectionsIgnored` | scripts/generate-resume.ts:88-98 | an entry of any other section changes nothing in the document |
| `Resume.FirstSummaryWins` | scripts/generate-resume.ts:89 | only the first summary entry counts |
| `DateFormat.LastDigit` | src/lib/utils.ts:27 | JavaScript's `x % 10`: in (-10, 10), congruent to `x`, with the sign of `x` |
| `DateFormat.DaySuffix` | src/lib/utils.ts:22-38 | the suffix is one of "st", "nd", "rd", "th" |
| `DateFormat.DaySuffixCases` | src/lib/utils.ts:22-38 | 11 to 13 give "th"; otherwise a last digit 1, 2 or 3 gives "st", "nd", "rd", and any other "th" |
| `DateFormat.DaySuffixIsEnglish` | src/lib/utils.ts:22-38 | for every day of a month the suffix agrees with the English ordinal rule |
| `DateFormat.LastTwo` | src/lib/utils.ts:17 | `slice(-2)`: the last two characters, or the whole of a shorter string |
| `DateFormat.FormatDefaults` | src/lib/utils.ts:9-11 | missing options, or any one of them missing, act as short month, suffixed day, short year |
| `DateFormat.DefaultFormat` | src/lib/utils.ts:13-19 | by default a date reads "<short month> <day><suffix>, '<yy>", with `yy` the year modulo 100, zero-padded, for a four-digit year |
| `DateFormat.TextEndsWithDigits` | src/lib/utils.ts:17 | the decimal text of a number of three digits or more ends with its tens and units digits |
| `DateFormat.ShortYearDigits` | src/lib/utils.ts:17 | for a four-digit year the short year is the year modulo 100, zero-padded to two digits |
| `DateFormat.PaddedPair` | src/lib/utils.ts:17 | two digits written by `String` are padded to two characters |
| `DateFormat.InvalidDate` | src/lib/utils.ts:7-20 | an unparseable date string gives "Invalid Date NaNth, 'aN" with the default options |
| `WeatherIcon.GetWeatherIcon` | src/components/islands/SFStatus.tsx:32-38 | at night codes up to 2 show the moon; otherwise a listed code shows its icon, and an unlisted one the thermometer |
| `WeatherIcon.IconsNonEmpty` | src/components/islands/SFStatus.tsx:10-30 | every listed icon is non-empty, so the fallback never replaces one |
| `WeatherIcon.NightAboveTwoAsDay` | src/components/islands/SFStatus.tsx:34-37 | at night codes from 3 up are shown as by day |
| `WeatherIcon.NightLowCodesMoon` | src/components/islands/SFStatus.tsx:34-36 | the night rule applies even to unlisted negative codes |
| `WeatherIcon.DayExamples` | src/components/islands/SFStatus.tsx:10-37 | clear sky by day is the sun; an unlisted code by day is the thermometer |
| `WeatherApi.Describe` | src/pages/api/weather.ts:81 | the listed description, or "Unknown" |
| `WeatherApi.ToWeatherResponse` | src/pages/api/weather.ts:77-82 | `isDay` iff `is_day` is 1; the code is kept; the temperature is rounded; the description is the table's or "Unknown" |
| `WeatherApi.FreshCacheServed` | src/pages/api/weather.ts:50-58 | a cache younger than 900000 ms answers with status 200 and max-age 900, without a fetch, and is untouched |
| `WeatherApi.FetchesIffStale` | src/pages/api/weather.ts:50-68 | upstream is asked iff there is no cache or it has reached the TTL |
| `WeatherApi.NotOkLikeThrown` | src/pages/api/weather.ts:70-72 | a response that is not ok is handled exactly like a thrown error |
| `WeatherApi.SuccessReplacesCache` | src/pages/api/weather.ts:77-96 | a success replaces the cache with its data stamped `now` and returns that data |
| `WeatherApi.FailureFallsBack` | src/pages/api/weather.ts:97-113 | on failure any cache, however old, is served with max-age 60; without one the answer is 500 |
| `WeatherApi.CacheNeverLost` | src/pages/api/weather.ts:44-113 | a request that finds a cache leaves one, and a 500 is sent only without one |
| `WeatherApi.CacheLastsTtl` | src/pages/api/weather.ts:50-58 | after a success at `t`, every request before `t + CACHE_TTL` is answered from that cache |
| `WeatherApi.TablesAgree` | src/pages/api/weather.ts:22-42 | the status widget has an icon for exactly the codes the route can describe |
| `WeatherApi.WeatherRoute.constructor` | src/pages/api/weather.ts:44 | the route starts without a cache |
| `WeatherApi.WeatherRoute.HandleGet` | src/pages/api/weather.ts:46-114 | the response, the new cache and whether upstream was asked are those of `Get` |

## Left out

**Browser plumbing and drawing.**
- Canvas drawing in all three backgrounds is not modelled: line paths, stations, trains, click-wave rings, legend, tooltip, attractor trail, static path and particle strokes. `DrawStatic` keeps only its colour update.
- Hover effects are not modelled (`updateHoverEffects`, `findHoveredStation`, `updateLegendHover`).
- Also not modelled: the legend hit test and `window.open` in `handleClick`, `resize`, theme observers, event registration, `requestAnimationFrame`, and the React shells.
- Mounting the metro map under reduced motion is the constructor followed by the redraw of `HandleNewViz`. The same redraw in `resize` and `handleThemeChange` is not modelled with them.
- `handleThemeChange` in the metro map is not modelled. It writes a field that lines do not have.

**Numerics without a rational model. Each is supplied by the caller.**
- `getCenterWeightScore`: its `sqrt`.
- The `Math.exp` weights: they are positive reals.
- `calculateLineLength`, `findDistanceAlongLine` and `getPositionAtDistance`.
- `rk4Step`, `computeBounds` and `project`.
- `SimplexNoise.noise2D` and the angle it drives: this is the per-frame `flow` displacement.

**Train heading and screen position.**
- The train's heading angle and its wrap-around interpolation need `atan2` and π.
- The train's screen position is not modelled: `x`, `y`, `targetX`, `targetY` and their `POSITION_LERP` smoothing towards `getPositionAtDistance`. A train is tracked by its distance along the line only.

**Clocks and randomness.** Each `performance.now()` within one frame is taken as the same `now`. The static map reads the clock once while initializing and once per growth round.

**Corridor sharing.** `detectCorridorSharing` is modelled as a stand-alone operation on `CorridorRegistry`. `updateLine` never calls it, and the map's line objects do not take part.

**JavaScript numbers.**
- JavaScript numbers are reals with NaN, with no IEEE rounding, no -0 and no infinities.
- `Infinity` in the nearest-station search is `None`.

**Strings.** Strings are sequences of Unicode scalar values, while JavaScript's `slice`, `padStart` and regular expressions without the `u` flag work on UTF-16 code units. The two agree on text without characters outside the Basic Multilingual Plane, and the delimiters modelled (`#`, `*`, `[`, `]`, `(`, `)`, `$`, `.`, `!`, `?`, white space) are all ASCII.

**Dates.** Date parsing, time zones and `toLocaleString` month names belong to `Date` and are not part of this model. The caller supplies the calendar fields, or `None` for an Invalid Date.

**Résumé I/O.**
- Reading the résumé Markdown files and front matter is not modelled.
- Writing `resume.typ` is not modelled.
- `main` is not modelled.

**Weather route.** The `fetch` to Open-Meteo is an input outcome: thrown, not ok, or the decoded `current` block. JSON encoding of the bodies is not modelled.

**Metro map tail.** The metro map's `animate` is modelled up to the train update. The drawing layers after it are not.

**Weakened or restricted contracts.**
- `MetroCorridors.CorridorRegistry.DetectCorridorSharing`: it compares the two segments' midpoints on squared distances. This is exact for the source's `distance < threshold`.

## Findings

| source | as written | input that shows it | evidently intended | confidence | as-written member | corrected member |
|---|---|---|---|---|---|---|
| src/components/islands/MetroMap.tsx:1464-1473 | `getSegmentDirection` takes `atan2(dy, dx)` on screen coordinates, where y grows downwards, while `DIRECTIONS` counts counter-clockwise with north as `dy = -1` | a segment drawn north-east (`dx = 1, dy = -1`) is classified as south-east, so the parallel filter treats north-west segments as parallel to north-east and misses north-east ones | classify with y flipped, so a segment drawn along `d` is classified as `d` | not executed | `MetroGeometry.DiagonalParallelCounterexample` | `MetroGeometry.ParallelOfStep` |
| src/components/islands/FlowField.tsx:76-83 | `parseHexColor` writes each channel as `parseInt(...) \|\| 255`, which replaces a 0 channel as well as NaN | `#ff0000` is read as (255, 255, 255), white; any base colour with a 0 channel is lightened | replace only NaN, so `parseHexColor(rgbToHex(c)) == c` for byte colours | not executed | `FlowField.RedReadsAsWhite` | `FlowField.ParseHexColorRoundTrip` |

The backgrounds run the code as written: the metro map's parallel filter uses `SegmentDirectionAsWritten`, and the flow field's `HandleColorChange` uses `ParseHexColorAsWritten`. The corrected definitions stand beside them, with their intended properties proved, as what a fix would give.
