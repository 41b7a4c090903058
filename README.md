# walkers-plotter: the path-repulsion simulation, modelled in Dafny

The sketch grows non-crossing line drawings. Walkers start at random points
with random headings. At every frame each walker tries to step forward. It
turns a little more to one side, then the other, until it finds a spot that
no registered point is near. If no spot works, the walker goes back to its
start and continues in the opposite direction. When that direction is
blocked too, it stops. Every position a walker occupies is registered in a
spatial grid of bins. Every visited position is also recorded in the
walker's path, with a `null` break each time the walker turns back or
stops.

This project models the simulation core of `js/sketch.js` and proves what
it computes:

- **`Numeric`** covers the JavaScript integer conversions the sketch relies
  on: `x | 0` truncates toward zero and wraps to 32 bits. It also models
  p5's linear `map`. `Math.cos`, `Math.sin`, `Math.sqrt`, `atan2` and `PI`
  are an oracle (`MathLib`) passed in as a parameter.
- **`VectorMath`** is the `V` vector library. Its `trans` multiplies a row
  vector by the matrix, so `trans(rot2d(t), d)` turns `d` by `-t`.
- **`Grid`** models the bins of `WalkerScene` as values:
  - `registerPoint` copies a point into the 3x3 block of bins around its
    own bin.
  - `proximityToRegistered` scans the query point's own bin.
  - The replication is proved to make that single-bin scan exact. The scan
    answers "some registered point other than `excluding` is closer than
    the threshold" whenever the threshold is at most the bin size.
- **`Motion`** is the value-level definition of one walker step and of
  one scene step. It covers:
  - the ordered candidate search and its first-open characterisation;
  - the NORMAL -> REVERSE -> INACTIVE state machine;
  - the path entries a step records;
  - the scene loop, in which later walkers see the points earlier walkers
    registered in the same step.
- **`Scene`** holds the classes `Walker`, `WalkerScene` and `PathLog` (the
  global `walkerPaths`). Their methods update fields in place, with the
  source's loops. Each method is proved equal to the `Grid` or `Motion`
  definition it implements. The `PathLog` methods are proved against plain
  sequence updates.
- **`Hashing`** is `String.prototype.hashCode`. The loop is proved equal
  to Java's `31 * h + c` recurrence wrapped to 32 bits.
- **`Spawn`** is the walker-generation loop of `resetSketch`, with p5's
  `random()` passed in as the sequence of its draws. It covers the dropoff
  probability, the colour groups and the number of loop iterations. It
  proves that the scene the loop builds holds exactly the surviving
  walkers, in order, with their starts registered and their paths empty.
- **`Export`** is the loop of `exportSVG` that splits a path at its `null`
  breaks into non-empty runs of screen points.

The bin index is `(x / binSize) | 0` (js/sketch.js:683-684), which
truncates toward zero rather than flooring. Bin 0 therefore spans (-2, 2)
and is twice as wide as the other bins. The population slider value is
squared (js/sketch.js:826) before it scales the number of walkers.

## Model

| member | source | states |
|---|---|---|
| Numeric.Trunc | js/sketch.js:683-684 | The `x / b` half of `| 0` truncates toward zero: n <= x < n+1 for non-negative x, and n-1 < x <= n for negative x, so a negative value rounds up. |
| Numeric.ToInt32 | js/sketch.js:683-684 | The `| 0` wrap gives a value in [-2^31, 2^31) that is congruent to the input modulo 2^32. |
| Numeric.ToInt32Identity | js/sketch.js:758 | A value that already fits in 32 signed bits is unchanged by the wrap, so `hash & hash` on a 32-bit hash changes nothing. |
| Numeric.ToInt32Congruent | js/sketch.js:757-758 | The wrap depends only on the residue modulo 2^32. |
| Numeric.MapRange | js/sketch.js:870 | p5's `map` sends start1 to start2 and stop1 to stop2. |
| Numeric.MapRangeReversed | js/sketch.js:870-879 | Mapping [a, b] and mapping [b, a] onto [0, w] give results that add up to w. |
| Numeric.MapRangeInto | js/sketch.js:870-879 | A point of [a, b] maps into [0, w] in both directions. |
| Numeric.MapRangeWidthMonotone | js/sketch.js:870-884 | For n on b's side of a, mapping onto a wider [0, r2] never gives a smaller value than mapping onto [0, r1]. |
| VectorMath.Add | js/sketch.js:729 | The sum minus b is a, in each component. |
| VectorMath.Sub | js/sketch.js:730 | Adding b back to the difference gives a. |
| VectorMath.Scale | js/sketch.js:731 | Scaling by 1 changes nothing. Scaling by -1 gives the additive inverse, which is `otherDirection`. |
| VectorMath.Equals | js/sketch.js:734 | True iff the two vectors are equal. |
| VectorMath.LenSq | js/sketch.js:736 | The squared length is non-negative. |
| VectorMath.Norm | js/sketch.js:737-740 | Scaling the result by the length gives back the input. The length must be non-zero. |
| VectorMath.Rot2d | js/sketch.js:743-746 | The matrix has the rotation shape: equal diagonal, opposite off-diagonal. |
| VectorMath.Trans | js/sketch.js:747-749 | The identity matrix leaves the vector unchanged. |
| VectorMath.TransRotTurnsBackward | js/sketch.js:743-749 | `trans(rot2d(t), a)` multiplies the row vector a by the matrix, which turns a by -t. |
| VectorMath.TurnKeepsLength | js/sketch.js:743-749 | A turn keeps the squared length whenever cos^2 + sin^2 = 1. |
| Grid.EmptyGridServes | js/sketch.js:667-715 | With s < 122, the grid the constructor builds is sound with nothing registered. Every in-bounds point has its bin, and no in-bounds point is blocked by `proximityToRegistered`. |
| Grid.BinIndexUnwrapped | js/sketch.js:683-684 | For coordinates below 1000 in magnitude the 32-bit wrap is inactive: the bin is trunc(x / 2). |
| Grid.BinZeroIsDoubleWidth | js/sketch.js:683-684 | Bin 0 holds exactly the x with -2 < x < 2. |
| Grid.BinSpan | js/sketch.js:683-684 | A positive bin b spans [2b, 2b+2). A negative bin b spans (2b-2, 2b]. |
| Grid.InBoundsInGrid | js/sketch.js:702-710 | With s < 122, every point inside [-s, s]^2 falls into an existing bin. |
| Grid.CloseCoordinatesAdjacentBins | js/sketch.js:705-706 | Coordinates less than the bin size apart have bin indices at most 1 apart. |
| Grid.NearInEachCoordinate | js/sketch.js:704-712 | A squared distance below th^2, with |th| <= 2, puts each coordinate within 2. |
| Grid.RegisterKeepsSound | js/sketch.js:682-697 | Registration keeps the set of bins. It keeps the invariant that each bin entry was registered and each registered point sits in every existing bin around its own. |
| Grid.RegisteredFoundInOwnBin | js/sketch.js:682-697 | A registered q whose coordinates each differ from p's by less than the bin size is in p's bin. |
| Grid.ProximityExact | js/sketch.js:700-715 | Inside the bounds, the single-bin scan is true iff some registered point other than `excluding` is strictly closer than the threshold. |
| Grid.RegisterAllNear | js/sketch.js:667-697 | Registering a sequence into a fresh grid keeps exactly the grid cells. Each cell holds, in order, the points whose bin is adjacent to it. |
| Motion.StepsBound | js/sketch.js:622 | Turn index k is visited iff k * tr <= maxTurn. |
| Motion.Candidate | js/sketch.js:623-624 | The candidate position minus the current position is the rotated heading. |
| Motion.SearchFromNone | js/sketch.js:620-631 | From any (sign, k), the search fails iff every later admissible candidate is blocked. |
| Motion.SearchFailsIffAllBlocked | js/sketch.js:620-631 | `tryCandidates` returns false iff every candidate (sign +1 or -1, k * tr <= maxTurn) is blocked. |
| Motion.SearchReturnsFirstOpen | js/sketch.js:620-631 | A found move is the candidate at the first open position in the order: sign +1 before -1, then smaller turns first. |
| Motion.FirstOpenIsReturned | js/sketch.js:620-631 | Conversely, the first open candidate in that order is the move the search returns. |
| Motion.StraightAheadFirst | js/sketch.js:621-627 | Straight ahead (sign +1, t = 0) is taken whenever it is not blocked. |
| Motion.WalkerStep | js/sketch.js:611-655 | An INACTIVE walker changes nothing. An active one records its position first. Only p, d and mode change. The mode changes iff the search fails, and each change records exactly one break. A NORMAL failure restarts at the start point with the reversed heading. A REVERSE failure keeps p and d. A success moves to the found candidate and registers it. An active step records one point more than it records breaks. Soundness of the bins is kept. |
| Motion.MoveKeepsClearance | js/sketch.js:620-631 | A successful move lands in bounds and is at least the repulsion distance from every registered point other than the walker's own position. |
| Motion.SearchResultOpen | js/sketch.js:625 | The found candidate is not blocked by `proximityToRegistered` and is in bounds. |
| Motion.StepAtKeeps | js/sketch.js:717-719 | Stepping walker i leaves every other walker and every other path unchanged, and keeps the bins sound. |
| Motion.InactiveStepAt | js/sketch.js:612 | Stepping an INACTIVE walker leaves the whole world unchanged. |
| Motion.StepPrefixLeavesRest | js/sketch.js:717-719 | After the first n walkers have stepped, walkers n and later and their paths are untouched. |
| Motion.StepPrefixKeepsSound | js/sketch.js:717-719 | Any prefix of the scene step keeps the bins sound. |
| Motion.StepPrefixExtend | js/sketch.js:718 | Walker n steps against the bins as walkers 0..n-1 left them, with no snapshot of the state before the frame. |
| Motion.AnyActive | js/sketch.js:721-723 | True iff some walker's mode is not INACTIVE. |
| Motion.StepPrefixKeepsBreaks | js/sketch.js:635-649 | Each step keeps the invariant that a path's number of breaks equals how far its walker has moved along NORMAL -> REVERSE -> INACTIVE. |
| Motion.AtMostTwoBreaks | js/sketch.js:615-649 | Starting from that invariant, after a scene step every path holds at most two `null` breaks. |
| Motion.FreshWorldTracksBreaks | js/sketch.js:603 | NORMAL walkers with empty paths satisfy the breaks invariant. |
| Motion.QuiescentStepIsNoop | js/sketch.js:721-723 | When no walker is active, the scene step changes nothing. |
| Scene.PathLog.constructor | js/sketch.js:843 | `walkerPaths` starts empty. |
| Scene.PathLog.AddPath | js/sketch.js:932 | One empty path is appended. |
| Scene.PathLog.Append | js/sketch.js:617 | Exactly path i gains the entry at its end. |
| Scene.IndexOf | js/sketch.js:615 | `indexOf` gives the first position holding the walker, or -1 iff the walker is absent. |
| Scene.Walker.constructor | js/sketch.js:598-609 | Mode is NORMAL, the start is the position and the other direction is -d. The turn preference is 1 iff the first draw is below 0.5. The channel is floor(draw * channels) + 1. |
| Scene.Walker.TryCandidates | js/sketch.js:620-631 | The nested sign and turn loops return exactly the result of `Search`. |
| Scene.Walker.TurnBack | js/sketch.js:635-649 | REVERSE becomes INACTIVE with p and d kept. NORMAL becomes REVERSE at the start with the other direction. The walker's path gets one break. |
| Scene.Walker.Step | js/sketch.js:611-655 | The walker's fields, the bins and `walkerPaths` end up exactly as `WalkerStep` defines them. The colour group is unchanged. |
| Scene.WalkerScene.constructor | js/sketch.js:660-675 | The double loop over -120..120 creates exactly the grid of empty bins, and the scene is valid. |
| Scene.WalkerScene.AddWalker | js/sketch.js:677-680 | The walker is appended and its position is registered. The scene stays valid. |
| Scene.WalkerScene.RegisterPoint | js/sketch.js:682-697 | The bins become `Register(bins, point)` and the point joins the registered set. The scene stays valid. |
| Scene.AppendAround | js/sketch.js:688-697 | The double loop over dx, dy computes exactly `Register`. |
| Scene.AppendRow | js/sketch.js:689-696 | The inner loop over dy completes one row of the 3x3 block. |
| Scene.WalkerScene.ProximityToRegistered | js/sketch.js:700-715 | The bounds test and the bin scan return exactly `Proximity`. |
| Scene.WalkerScene.Step | js/sketch.js:717-719 | The walkers, bins and paths afterwards are exactly `SceneStep` of the state before. No walker's colour group changes. |
| Scene.WalkerScene.StepOne | js/sketch.js:718 | After walker i steps, the scene is the world after the first i + 1 walker steps, and the colour groups are those before the frame. |
| Scene.WalkerScene.Advance | js/sketch.js:718 | Walker i steps in place. Only its state, the bins and its own path change. No colour group changes. |
| Scene.WalkerScene.QuiescentSceneStepIsNoop | js/sketch.js:721-723 | When `hasActive` is false, a further step changes nothing. |
| Hashing.JavaHash | js/sketch.js:753-761 | The hash is a signed 32-bit value. |
| Hashing.HashCode | js/sketch.js:753-761 | The loop computes `JavaHash`: h := 31h + c wrapped to 32 bits, starting from 0. |
| Hashing.RoundIsJavaStep | js/sketch.js:757-758 | `((h << 5) - h) + c`, then `& hash`, equals 31h + c wrapped to 32 bits. |
| Hashing.JavaHashIsPolynomial | js/sketch.js:753-761 | The hash is the wrapped polynomial sum of c_i * 31^(n-1-i). |
| Hashing.ShortStrings | js/sketch.js:754-760 | The empty string hashes to 0. A one-character string hashes to its code unit. |
| Spawn.Iterations | js/sketch.js:846-847 | The loop runs ceil(total) times for a positive total, otherwise 0 times. |
| Spawn.LoopRunsFor | js/sketch.js:847 | `i < totalWalkers` holds exactly for the first `Iterations` values of i. |
| Spawn.UniformInRange | js/sketch.js:849-857 | `random(lo, hi)` from a draw in [0, 1) lies in [lo, hi). |
| Spawn.AxisDropoffBounds | js/sketch.js:869-880 | For a start inside the square, each axis dropoff lies in [0, rate]. Opposite directions add up to the rate. |
| Spawn.RadialDropoffBounds | js/sketch.js:881-885 | The radial dropoff lies in [0, rate]. It is 0 at the centre and equals the rate at the corner distance. |
| Spawn.Sector | js/sketch.js:907-925 | `floor(map(angle, -PI, PI, 0, 3))` picks group 1, 2 or 3. |
| Spawn.SectorsAreThirds | js/sketch.js:905-925 | Group 1 is angle < -PI/3, group 2 is [-PI/3, PI/3), and group 3 is the rest. |
| Spawn.ColorGroup | js/sketch.js:896-926 | The listed colour modes give group 1..3. An unlisted mode assigns none, modelled as 0. |
| Spawn.AttemptsReadFixedDraws | js/sketch.js:849-889 | Iteration i reads draws i * DrawsPer onwards, because the walker is constructed before the dropoff test, so a dropped walker consumes its draws too. |
| Spawn.ZeroAttemptStops | js/sketch.js:858 | A zero heading in any iteration means not all headings were usable. |
| Spawn.Survivors | js/sketch.js:888-892 | The survivors are all spawned. Every spawned outcome is among them and nothing else is. Their number is the number of spawned outcomes, which is at most the number of attempts. |
| Spawn.SurvivorsOfPrefix | js/sketch.js:847-892 | The survivors of the first n attempts are a prefix of the survivors of all attempts, so the order of attempts is kept. |
| Spawn.SurvivorsAppend | js/sketch.js:887-892 | One more attempt adds one survivor exactly when it spawns. |
| Spawn.NoDropoffKeepsAll | js/sketch.js:864 | Without dropoff, every iteration adds a walker. |
| Spawn.DropoffRateMonotone | js/sketch.js:869-885 | For a start inside the square and the same dropoff direction, a higher rate never gives a lower dropoff probability. |
| Spawn.AttemptRateMonotone | js/sketch.js:849-892 | With the same draws and a dropoff that applies, an attempt dropped at a rate is dropped at any higher rate. An attempt spawned at the higher rate is the same attempt at the lower rate. |
| Spawn.HigherRateNoMoreSurvivors | js/sketch.js:846-892 | With the same draws, a higher positive rate on the same dropoff direction leaves no more survivors. |
| Spawn.SpawnedInSquare | js/sketch.js:849-852 | A spawned walker starts inside [-size, size]^2. |
| Spawn.ResetSketch | js/sketch.js:837-933 | ok iff every iteration drew a non-zero heading. Then the scene holds exactly the survivors, in order, with their states, channels and colour groups. Their starts are registered in order, and each has an empty path. |
| Spawn.SpawnAll | js/sketch.js:846-933 | The loop adds the survivors of all iterations, or reports a zero heading. |
| Spawn.SpawnIteration | js/sketch.js:848-932 | One iteration either reports a zero heading or extends the populated scene by its survivor. |
| Spawn.DrawWalker | js/sketch.js:849-892 | The draws give a fresh walker iff the attempt spawns, and zero iff the heading is zero. The walker's state, channel and group are those of the attempt. |
| Spawn.AddSpawned | js/sketch.js:928-932 | `addWalker` plus `walkerPaths.push([])` extend the populated scene by one survivor. |
| Spawn.AssignColor | js/sketch.js:895-926 | The walker's colour group becomes `ColorGroup`. An unlisted mode leaves it unchanged. |
| Export.SplitPath | js/sketch.js:533-553 | The loop computes exactly `Segments`. |
| Export.SplitPrefixKeepsPoints | js/sketch.js:537-549 | Throughout the loop, pushed segments are non-empty. The pushed segments followed by the current one are exactly the screen points seen so far. |
| Export.SegmentsPartitionPoints | js/sketch.js:533-553 | The segments are non-empty. Concatenated, they are exactly the path's screen points in order. |
| Export.SplitPrefixCountsBreaks | js/sketch.js:539-543 | Only a break pushes a segment. |
| Export.SegmentsBound | js/sketch.js:533-553 | A path with b breaks gives at most b + 1 segments. |
| Export.UnbrokenPathIsOneSegment | js/sketch.js:533-553 | A path without breaks and with at least one point gives one segment holding all its points. |
| Export.AtMostThreeSegments | js/sketch.js:533-553 | After a scene step from fresh walkers, every path exports as at most three segments. |

## Left out

- Rendering, hatching, styled paths, the SVG string, the stroke colours and the file download are not modelled: they are canvas and DOM output. This includes the `segment.length < 2` skip after the split. The UI controls and slider reads are not modelled either.
- p5 `random`, `randomSeed`, the seed string and the `Date.now()` fallback are not modelled. The draws are a parameter, `rand(k)` being the k-th value `random()` returns. The seed derivation is not modelled, apart from `hashCode` itself.
- `Math.cos`, `Math.sin`, `Math.sqrt`, `dist`, `atan2` and `PI` are an oracle. The radial dropoff reads the distance as `sqrt(lenSq)` from the same oracle.
- Coordinates are reals, so IEEE rounding, NaN and infinities are not modelled.
- Motion.Candidate: the turn angle is k * tr for an integer k. The source accumulates `t += tr` in floating point, which can differ in the last bits and so in the number of turns tried.
- Spawn.ResetSketch: a heading drawn as exactly (0, 0) makes `V.norm` produce NaN in the sketch, which goes on with NaN coordinates. The model stops and reports ok = false.
- Scene.WalkerScene.constructor: only the bin size 2 that the sketch passes is modelled. s must be below 122, where every in-bounds query indexes an existing bin; for a larger s the sketch would throw on a missing bin.
- The bins are a map keyed by cell rather than nested sparse arrays.
- Scene.WalkerScene.AddWalker: requires the walker not to be in the scene already. The sketch always adds a newly built walker.
- The walker's p5 `color` object is not modelled; only `colorGroup` is. An unlisted colour mode leaves `colorGroup` undefined in the sketch, and the model keeps the constructor's 0.
- `pencils` and `config.channels` are fixed at 1, as the sketch fixes them.
- Spawn.ResetSketch: the walker's turn resolution is `PI / 360` from the oracle, which requires PI > 0.
- Export.ToScreen: the canvas map requires size != 0, where p5's `map` would divide by zero.
- Spawn.HigherRateNoMoreSurvivors: compares two positive rates only. Going from rate 0 to a positive rate adds the `random() < dropoffProbability` draw to every iteration. Iteration i then reads different draws, so the two runs are not comparable draw for draw.
- The draw loop's frame counter and the question whether the simulation always reaches a state with no active walker are not modelled.
