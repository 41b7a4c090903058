/** The spawn loop of `resetSketch` (js/sketch.js:840-933): build a fresh
    scene, then draw positions and headings from p5's `random()`, construct
    a walker, apply the positional dropoff, pick a colour group, and add
    the survivors to the scene with an empty path each.

    `random()` is an input: rand(k) is the k-th value the generator
    returns. Every attempt consumes the same number of draws, whether or
    not its walker survives, because the walker is constructed (two draws)
    before the dropoff test. */
module Spawn {
  import opened Numeric
  import opened VectorMath
  import opened Grid
  import opened Motion
  import opened Scene

  /** The values of the dropoff select: 'none', 'x-positive', 'x-negative',
      'y-positive', 'y-negative', 'radial', or any other string, which the
      switch does not match. */
  datatype Dropoff = NoDropoff | XPositive | XNegative | YPositive | YNegative | Radial | UnlistedDropoff

  /** The values of the colour-mode select: 'single', 'direction',
      'position', or any other string, for which no group is assigned. */
  datatype ColorMode = SingleColor | ByDirection | ByPosition | UnlistedColorMode

  /** The settings `resetSketch` puts into `config`. `size` is an integer
      (`parseInt`), population and rates are reals, and `maxTurn` is
      `radians(maxTurnDeg)`: the conversion from the degree slider happens
      before the model, so it is already in radians here. */
  datatype Config = Config(
    population: real, size: int, maxTurn: real,
    dropoffRate: real, dropoff: Dropoff, colorMode: ColorMode)

  /** `pencils` is fixed at 1, so `config.channels` is 1. */
  const Channels: int := 1

  /** `populationMultiplier * size * size / 10`, with
      `populationMultiplier = population * population`. */
  function TotalWalkers(cfg: Config): real
  {
    cfg.population * cfg.population * cfg.size as real * cfg.size as real / 10.0
  }

  /** How often `for (let i = 0; i < totalWalkers; i++)` runs: the ceiling
      of a positive total, 0 otherwise. */
  function Iterations(total: real): (n: nat)
    ensures total <= n as real
    ensures n == 0 || (n - 1) as real < total
  {
    if total <= 0.0 then 0 else -((-total).Floor)
  }

  /** The loop test `i < totalWalkers` holds exactly for the first
      Iterations(total) values of i. */
  lemma {:induction false} LoopRunsFor(total: real, i: nat)
    ensures i < Iterations(total) <==> (i as real) < total
  {
    var n := Iterations(total);
    if i < n {
      assert (i as real) <= (n - 1) as real;
    }
  }

  /** p5's `random(lo, hi)` from the k-th raw draw. */
  function Uniform(rand: nat -> real, k: nat, lo: real, hi: real): real
  {
    Times(rand(k), hi - lo) + lo
  }

  /** A draw in [0, 1) lands in [lo, hi). */
  lemma UniformInRange(rand: nat -> real, k: nat, lo: real, hi: real)
    requires 0.0 <= rand(k) < 1.0 && lo < hi
    ensures lo <= Uniform(rand, k, lo, hi) < hi
  {
    TimesUnit(rand(k), hi - lo);
  }

  predicate DropoffApplies(cfg: Config)
  {
    cfg.dropoffRate > 0.0 && cfg.dropoff != NoDropoff
  }

  /** The number of draws one attempt consumes: two for the position, two
      for the heading, two in the Walker constructor, and one more for the
      dropoff test when dropoff applies. */
  function DrawsPer(cfg: Config): nat
  {
    if DropoffApplies(cfg) then 7 else 6
  }

  /** The index of the first draw of attempt i. */
  function DrawBase(cfg: Config, i: nat): nat
  {
    i * DrawsPer(cfg)
  }

  /** `map(sqrt(2 * size * size))`: the distance from the centre to a
      corner, which the radial dropoff divides by. */
  function Corner(size: int, m: MathLib): real
  {
    m.sqrt(2.0 * size as real * size as real)
  }

  /** The oracle answers the radial dropoff needs. */
  predicate RadialDefined(cfg: Config, m: MathLib)
  {
    cfg.dropoff == Radial ==> Corner(cfg.size, m) != 0.0
  }

  /** The switch on `dropoffDirection`: a linear ramp across the square, or
      from the centre outwards; an unlisted direction leaves 0. */
  function DropoffProbability(cfg: Config, pos: V2, m: MathLib): real
    requires 0 < cfg.size && RadialDefined(cfg, m)
  {
    var s := cfg.size as real;
    match cfg.dropoff
    case XPositive => MapRange(pos.x, -s, s, 0.0, cfg.dropoffRate)
    case XNegative => MapRange(pos.x, s, -s, 0.0, cfg.dropoffRate)
    case YPositive => MapRange(pos.y, -s, s, 0.0, cfg.dropoffRate)
    case YNegative => MapRange(pos.y, s, -s, 0.0, cfg.dropoffRate)
    case Radial => MapRange(m.sqrt(LenSq(pos)), 0.0, Corner(cfg.size, m), 0.0, cfg.dropoffRate)
    case NoDropoff => 0.0
    case UnlistedDropoff => 0.0
  }

  /** For a start in [-size, size]^2 and a non-negative rate, each axis
      dropoff is a probability no larger than the rate, and the two
      directions of an axis are complementary. */
  lemma {:induction false} AxisDropoffBounds(cfg: Config, pos: V2, m: MathLib)
    requires 0 < cfg.size && 0.0 <= cfg.dropoffRate
    requires cfg.dropoff in {XPositive, XNegative, YPositive, YNegative}
    requires !OutOfBounds(cfg.size as real, pos)
    ensures 0.0 <= DropoffProbability(cfg, pos, m) <= cfg.dropoffRate
    ensures DropoffProbability(cfg, pos, m) + DropoffProbability(cfg.(dropoff := Mirror(cfg.dropoff)), pos, m)
         == cfg.dropoffRate
  {
    var s := cfg.size as real;
    if cfg.dropoff == XPositive || cfg.dropoff == XNegative {
      MapRangeInto(pos.x, -s, s, cfg.dropoffRate);
      MapRangeReversed(pos.x, -s, s, cfg.dropoffRate);
    } else {
      MapRangeInto(pos.y, -s, s, cfg.dropoffRate);
      MapRangeReversed(pos.y, -s, s, cfg.dropoffRate);
    }
  }

  /** The opposite direction on the same axis. */
  function Mirror(d: Dropoff): Dropoff
  {
    match d
    case XPositive => XNegative
    case XNegative => XPositive
    case YPositive => YNegative
    case YNegative => YPositive
    case _ => d
  }

  /** Radial dropoff is 0 at the centre, the full rate at a corner, and
      between the two for any distance in between. */
  lemma {:induction false} RadialDropoffBounds(cfg: Config, pos: V2, m: MathLib)
    requires 0 < cfg.size && 0.0 <= cfg.dropoffRate && cfg.dropoff == Radial
    requires 0.0 < Corner(cfg.size, m) && 0.0 <= m.sqrt(LenSq(pos)) <= Corner(cfg.size, m)
    ensures 0.0 <= DropoffProbability(cfg, pos, m) <= cfg.dropoffRate
    ensures m.sqrt(LenSq(pos)) == 0.0 ==> DropoffProbability(cfg, pos, m) == 0.0
    ensures m.sqrt(LenSq(pos)) == Corner(cfg.size, m) ==> DropoffProbability(cfg, pos, m) == cfg.dropoffRate
  {
    MapRangeInto(m.sqrt(LenSq(pos)), 0.0, Corner(cfg.size, m), cfg.dropoffRate);
  }

  /** `floor(map(angle, -PI, PI, 0, 3))` mapped to a colour group: choice 0
      is group 1, choice 1 group 2, anything else group 3. */
  function Sector(angle: real, pi: real): (g: int)
    requires 0.0 < pi
    ensures 1 <= g <= 3
  {
    var choice := MapRange(angle, -pi, pi, 0.0, 3.0).Floor;
    if choice == 0 then 1 else if choice == 1 then 2 else 3
  }

  /** For any angle atan2 can return, the three groups are the three equal
      sectors of the circle; the angle pi itself falls into group 3. */
  lemma {:induction false} SectorsAreThirds(angle: real, pi: real)
    requires 0.0 < pi && -pi <= angle
    ensures Sector(angle, pi) == 1 <==> angle < -pi / 3.0
    ensures Sector(angle, pi) == 2 <==> -pi / 3.0 <= angle < pi / 3.0
    ensures Sector(angle, pi) == 3 <==> pi / 3.0 <= angle
  {
    var f := Frac(angle - -pi, pi - -pi);
    FracBelow(angle - -pi, pi - -pi, 0.0);
    FracBelow(angle - -pi, pi - -pi, 1.0 / 3.0);
    FracBelow(angle - -pi, pi - -pi, 2.0 / 3.0);
    var c := MapRange(angle, -pi, pi, 0.0, 3.0).Floor;
    assert c == 0 <==> f < 1.0 / 3.0;
    assert c == 1 <==> 1.0 / 3.0 <= f < 2.0 / 3.0;
  }

  /** The colour group `resetSketch` assigns; 0 stands for the group a
      walker keeps when the colour mode is not one of the three. */
  function ColorGroup(mode: ColorMode, pos: V2, dir: V2, m: MathLib): (g: int)
    requires 0.0 < m.pi
    ensures mode != UnlistedColorMode ==> 1 <= g <= 3
    ensures mode == UnlistedColorMode ==> g == 0
  {
    match mode
    case SingleColor => 1
    case ByDirection => Sector(m.atan2(dir.y, dir.x), m.pi)
    case ByPosition => Sector(m.atan2(pos.y, pos.x), m.pi)
    case UnlistedColorMode => 0
  }

  /** What one iteration of the spawn loop produces: a walker to add, a
      walker the dropoff removed, or a heading of length zero, which
      `V.norm` cannot normalise. */
  datatype Outcome =
    | Spawned(p: V2, d: V2, tp: int, channel: int, group: int)
    | Dropped
    | ZeroHeading

  predicate Usable(cfg: Config, m: MathLib)
  {
    0 < cfg.size && 0.0 < m.pi && RadialDefined(cfg, m)
  }

  /** Attempt whose first draw is rand(k): position, heading, the two draws
      of the Walker constructor, then the dropoff draw if dropoff applies. */
  function Attempt(cfg: Config, rand: nat -> real, m: MathLib, k: nat): Outcome
    requires Usable(cfg, m)
  {
    var s := cfg.size as real;
    var pos := V2(Uniform(rand, k, -s, s), Uniform(rand, k + 1, -s, s));
    var raw := V2(Uniform(rand, k + 2, -0.5, 0.5), Uniform(rand, k + 3, -0.5, 0.5));
    if m.sqrt(LenSq(raw)) == 0.0 then ZeroHeading
    else
      var dir := Scale(Norm(raw, m), 1.0);
      var tp := if rand(k + 4) < 0.5 then 1 else -1;
      var channel := (rand(k + 5) * Channels as real).Floor + 1;
      if DropoffApplies(cfg) && rand(k + 6) < DropoffProbability(cfg, pos, m) then Dropped
      else Spawned(pos, dir, tp, channel, ColorGroup(cfg.colorMode, pos, dir, m))
  }

  /** The outcomes of the first n iterations. */
  function Attempts(cfg: Config, rand: nat -> real, m: MathLib, n: nat): (r: seq<Outcome>)
    requires Usable(cfg, m)
    ensures |r| == n
  {
    if n == 0 then [] else Attempts(cfg, rand, m, n - 1) + [Attempt(cfg, rand, m, DrawBase(cfg, n - 1))]
  }

  /** Iteration i always reads draws i * DrawsPer onwards, however the
      earlier iterations ended. */
  lemma {:induction false} AttemptsReadFixedDraws(cfg: Config, rand: nat -> real, m: MathLib, n: nat, i: nat)
    requires Usable(cfg, m) && i < n
    ensures Attempts(cfg, rand, m, n)[i] == Attempt(cfg, rand, m, DrawBase(cfg, i))
  {
    if i < n - 1 {
      AttemptsReadFixedDraws(cfg, rand, m, n - 1, i);
    }
  }

  /** No iteration drew a zero heading. */
  predicate AllHeadings(os: seq<Outcome>)
  {
    os == [] || (AllHeadings(os[..|os| - 1]) && !os[|os| - 1].ZeroHeading?)
  }

  lemma {:induction false} AllHeadingsIff(os: seq<Outcome>)
    ensures AllHeadings(os) <==> forall i :: 0 <= i < |os| ==> !os[i].ZeroHeading?
  {
    if os != [] {
      AllHeadingsIff(os[..|os| - 1]);
      assert forall i :: 0 <= i < |os| - 1 ==> os[..|os| - 1][i] == os[i];
    }
  }

  /** One more iteration keeps all headings usable iff its own heading is. */
  lemma AllHeadingsStep(cfg: Config, rand: nat -> real, m: MathLib, i: nat)
    requires Usable(cfg, m)
    ensures AllHeadings(Attempts(cfg, rand, m, i + 1))
        <==> AllHeadings(Attempts(cfg, rand, m, i)) && !Attempts(cfg, rand, m, i + 1)[i].ZeroHeading?
  {
    assert Attempts(cfg, rand, m, i + 1)[..i] == Attempts(cfg, rand, m, i);
  }

  /** A zero heading in iteration i rules out AllHeadings for every run of
      more than i iterations. */
  lemma ZeroAttemptStops(cfg: Config, rand: nat -> real, m: MathLib, n: nat, i: nat)
    requires Usable(cfg, m) && i < n
    requires Attempts(cfg, rand, m, i + 1)[i].ZeroHeading?
    ensures !AllHeadings(Attempts(cfg, rand, m, n))
  {
    AttemptsReadFixedDraws(cfg, rand, m, n, i);
    AttemptsReadFixedDraws(cfg, rand, m, i + 1, i);
    ZeroHeadingStops(Attempts(cfg, rand, m, n), i);
  }

  lemma {:induction false} ZeroHeadingStops(os: seq<Outcome>, i: nat)
    requires i < |os| && os[i].ZeroHeading?
    ensures !AllHeadings(os)
  {
    if i < |os| - 1 {
      assert os[..|os| - 1][i] == os[i];
      ZeroHeadingStops(os[..|os| - 1], i);
    }
  }

  /** Every outcome is a spawned walker. */
  predicate Spawns(os: seq<Outcome>)
  {
    os == [] || (Spawns(os[..|os| - 1]) && os[|os| - 1].Spawned?)
  }

  lemma {:induction false} SpawnsIff(os: seq<Outcome>)
    ensures Spawns(os) <==> forall j :: 0 <= j < |os| ==> os[j].Spawned?
  {
    if os != [] {
      SpawnsIff(os[..|os| - 1]);
      assert forall j :: 0 <= j < |os| - 1 ==> os[..|os| - 1][j] == os[j];
    }
  }

  /** How many outcomes are spawned walkers. */
  function SpawnedCount(os: seq<Outcome>): nat
  {
    if os == [] then 0
    else SpawnedCount(os[..|os| - 1]) + (if os[|os| - 1].Spawned? then 1 else 0)
  }

  /** The walkers that survive, in order: every spawned outcome and
      nothing else. */
  function Survivors(os: seq<Outcome>): (r: seq<Outcome>)
    ensures |r| <= |os| && Spawns(r)
    ensures |r| == SpawnedCount(os)
    ensures forall i :: 0 <= i < |os| && os[i].Spawned? ==> os[i] in r
    ensures forall x :: x in r ==> x in os
  {
    if os == [] then []
    else
      var front := os[..|os| - 1];
      var prefix := Survivors(front);
      var last := os[|os| - 1];
      assert forall i :: 0 <= i < |os| - 1 ==> front[i] == os[i];
      assert forall x :: x in front ==> x in os;
      if last.Spawned? then
        assert (prefix + [last])[..|prefix|] == prefix;
        prefix + [last]
      else prefix
  }

  /** Survivors keep their order: the survivors of the first n attempts
      are the first survivors of all of them. */
  lemma {:induction false} SurvivorsOfPrefix(os: seq<Outcome>, n: nat)
    requires n <= |os|
    ensures Survivors(os[..n]) <= Survivors(os)
    decreases |os|
  {
    if n < |os| {
      assert os[..|os| - 1][..n] == os[..n];
      SurvivorsOfPrefix(os[..|os| - 1], n);
    } else {
      assert os[..n] == os;
    }
  }

  /** Without dropoff no walker is removed: when no iteration drew a zero
      heading, every iteration yields a walker. */
  lemma {:induction false} NoDropoffKeepsAll(cfg: Config, rand: nat -> real, m: MathLib, n: nat)
    requires Usable(cfg, m) && !DropoffApplies(cfg)
    requires AllHeadings(Attempts(cfg, rand, m, n))
    ensures |Survivors(Attempts(cfg, rand, m, n))| == n
  {
    if n > 0 {
      AllHeadingsStep(cfg, rand, m, n - 1);
      NoDropoffKeepsAll(cfg, rand, m, n - 1);
      assert Attempts(cfg, rand, m, n)[..n - 1] == Attempts(cfg, rand, m, n - 1);
    }
  }

  /** Raising the dropoff rate never lowers the dropoff probability of a
      start inside the square: the probability is the rate scaled by a
      fraction of the position that does not depend on the rate. */
  lemma {:induction false} DropoffRateMonotone(cfg: Config, pos: V2, m: MathLib, rate: real)
    requires 0 < cfg.size && RadialDefined(cfg, m) && cfg.dropoffRate <= rate
    requires !OutOfBounds(cfg.size as real, pos)
    requires cfg.dropoff == Radial ==> 0.0 < Corner(cfg.size, m) && 0.0 <= m.sqrt(LenSq(pos))
    ensures DropoffProbability(cfg, pos, m) <= DropoffProbability(cfg.(dropoffRate := rate), pos, m)
  {
    var s := cfg.size as real;
    match cfg.dropoff
    case XPositive => MapRangeWidthMonotone(pos.x, -s, s, cfg.dropoffRate, rate);
    case XNegative => MapRangeWidthMonotone(pos.x, s, -s, cfg.dropoffRate, rate);
    case YPositive => MapRangeWidthMonotone(pos.y, -s, s, cfg.dropoffRate, rate);
    case YNegative => MapRangeWidthMonotone(pos.y, s, -s, cfg.dropoffRate, rate);
    case Radial => MapRangeWidthMonotone(m.sqrt(LenSq(pos)), 0.0, Corner(cfg.size, m), cfg.dropoffRate, rate);
    case NoDropoff =>
    case UnlistedDropoff =>
  }

  /** With the same draws and a dropoff that already applies, a higher rate
      reads the same draws and never saves a walker: an attempt dropped at
      the lower rate is dropped at the higher one, and a walker spawned at
      the higher rate is spawned identically at the lower one. */
  lemma {:induction false} AttemptRateMonotone(cfg: Config, rand: nat -> real, m: MathLib, k: nat, rate: real)
    requires Usable(cfg, m) && DropoffApplies(cfg) && cfg.dropoffRate <= rate
    requires 0.0 <= rand(k) < 1.0 && 0.0 <= rand(k + 1) < 1.0
    requires forall x :: 0.0 <= x ==> 0.0 <= m.sqrt(x)
    requires cfg.dropoff == Radial ==> 0.0 < Corner(cfg.size, m)
    ensures Usable(cfg.(dropoffRate := rate), m) && DropoffApplies(cfg.(dropoffRate := rate))
    ensures Attempt(cfg, rand, m, k).Dropped? ==> Attempt(cfg.(dropoffRate := rate), rand, m, k).Dropped?
    ensures Attempt(cfg.(dropoffRate := rate), rand, m, k).Spawned?
        ==> Attempt(cfg, rand, m, k) == Attempt(cfg.(dropoffRate := rate), rand, m, k)
  {
    var s := cfg.size as real;
    var pos := V2(Uniform(rand, k, -s, s), Uniform(rand, k + 1, -s, s));
    UniformInRange(rand, k, -s, s);
    UniformInRange(rand, k + 1, -s, s);
    assert 0.0 <= m.sqrt(LenSq(pos));
    DropoffRateMonotone(cfg, pos, m, rate);
  }

  /** Between two positive rates on the same dropoff, every attempt reads
      the same draws, so the higher rate leaves no more survivors. */
  lemma {:induction false} HigherRateNoMoreSurvivors(cfg: Config, rand: nat -> real, m: MathLib, n: nat, rate: real)
    requires Usable(cfg, m) && DropoffApplies(cfg) && cfg.dropoffRate <= rate
    requires forall k :: 0.0 <= rand(k) < 1.0
    requires forall x :: 0.0 <= x ==> 0.0 <= m.sqrt(x)
    requires cfg.dropoff == Radial ==> 0.0 < Corner(cfg.size, m)
    ensures Usable(cfg.(dropoffRate := rate), m)
    ensures |Survivors(Attempts(cfg.(dropoffRate := rate), rand, m, n))| <= |Survivors(Attempts(cfg, rand, m, n))|
  {
    var hi := cfg.(dropoffRate := rate);
    AttemptRateMonotone(cfg, rand, m, 0, rate);
    if n > 0 {
      HigherRateNoMoreSurvivors(cfg, rand, m, n - 1, rate);
      var base := DrawBase(cfg, n - 1);
      assert DrawBase(hi, n - 1) == base;
      AttemptRateMonotone(cfg, rand, m, base, rate);
      SurvivorsAppend(Attempts(cfg, rand, m, n - 1), Attempt(cfg, rand, m, base));
      SurvivorsAppend(Attempts(hi, rand, m, n - 1), Attempt(hi, rand, m, base));
    }
  }

  /** One more outcome adds one survivor exactly when it spawned. */
  lemma SurvivorsAppend(os: seq<Outcome>, o: Outcome)
    ensures |Survivors(os + [o])| == |Survivors(os)| + (if o.Spawned? then 1 else 0)
  {
    assert (os + [o])[..|os|] == os;
  }

  /** With draws in [0, 1), every spawned walker starts inside the square
      [-size, size]^2. */
  lemma {:induction false} SpawnedInSquare(cfg: Config, rand: nat -> real, m: MathLib, k: nat)
    requires Usable(cfg, m)
    requires 0.0 <= rand(k) < 1.0 && 0.0 <= rand(k + 1) < 1.0
    requires Attempt(cfg, rand, m, k).Spawned?
    ensures !OutOfBounds(cfg.size as real, Attempt(cfg, rand, m, k).p)
  {
    var s := cfg.size as real;
    UniformInRange(rand, k, -s, s);
    UniformInRange(rand, k + 1, -s, s);
  }

  /** The state the Walker constructor gives a spawned walker: NORMAL, the
      slider's maxTurn, the default resolution PI / 360, and the reversed
      heading for later. */
  function InitialState(o: Outcome, cfg: Config, m: MathLib): WalkerState
    requires o.Spawned?
  {
    WalkerState(o.p, o.d, Normal, cfg.maxTurn, m.pi / 360.0, o.p, Scale(o.d, -1.0), o.tp)
  }

  function Starts(os: seq<Outcome>): (r: seq<V2>)
    requires Spawns(os)
    ensures |r| == |os|
  {
    if os == [] then [] else Starts(os[..|os| - 1]) + [os[|os| - 1].p]
  }

  /** What the scene records about a walker: the state a step reads and
      writes, its channel and its colour group. */
  datatype Profile = Profile(state: WalkerState, channel: int, group: int)

  function ProfileOf(w: Walker): Profile
    reads w
  {
    Profile(w.State(), w.channel, w.colorGroup)
  }

  function Profiles(ws: seq<Walker>): (r: seq<Profile>)
    reads set i | 0 <= i < |ws| :: ws[i]
    ensures |r| == |ws|
  {
    if ws == [] then [] else Profiles(ws[..|ws| - 1]) + [ProfileOf(ws[|ws| - 1])]
  }

  /** The profiles the spawned walkers start with. */
  function Expected(os: seq<Outcome>, cfg: Config, m: MathLib): (r: seq<Profile>)
    requires Spawns(os)
    ensures |r| == |os|
  {
    if os == [] then []
    else
      var o := os[|os| - 1];
      Expected(os[..|os| - 1], cfg, m) + [Profile(InitialState(o, cfg, m), o.channel, o.group)]
  }

  function SetOf(qs: seq<V2>): set<V2>
  {
    if qs == [] then {} else SetOf(qs[..|qs| - 1]) + {qs[|qs| - 1]}
  }

  /** `walkerPaths` with n empty paths. */
  function EmptyPaths(n: nat): (r: seq<seq<Entry>>)
    ensures |r| == n
  {
    if n == 0 then [] else EmptyPaths(n - 1) + [[]]
  }

  /** The scene and paths after the survivors ws were added in order: each
      walker has the profile its draws gave it, the bins hold the starts
      registered in order, and every path is empty. */
  ghost predicate Populated(scene: WalkerScene, log: PathLog, cfg: Config, m: MathLib, ws: seq<Outcome>)
    reads scene, set i | 0 <= i < |scene.walkers| :: scene.walkers[i], log
    requires Spawns(ws)
  {
    && scene.Valid()
    && scene.s == cfg.size as real
    && Profiles(scene.walkers) == Expected(ws, cfg, m)
    && scene.bins == RegisterAll(EmptyGrid(), Starts(ws))
    && scene.registered == SetOf(Starts(ws))
    && log.paths == EmptyPaths(|ws|)
  }

  /** `resetSketch` from the scene constructor to the end of the loop.
      ok is false exactly when some iteration drew a zero heading; the
      model stops there, where the sketch would go on with NaN
      coordinates. */
  method ResetSketch(cfg: Config, rand: nat -> real, m: MathLib)
      returns (scene: WalkerScene, log: PathLog, ok: bool)
    requires Usable(cfg, m) && cfg.size < 122
    ensures
      var os := Attempts(cfg, rand, m, Iterations(TotalWalkers(cfg)));
      && (ok <==> AllHeadings(os))
      && (ok ==> Populated(scene, log, cfg, m, Survivors(os)))
  {
    scene := new WalkerScene(cfg.size as real);
    log := new PathLog();
    var total := TotalWalkers(cfg);
    ok := SpawnAll(scene, log, cfg, rand, m, total);
  }

  /** The first i iterations drew usable headings and added their
      survivors to the scene. */
  ghost predicate Progress(scene: WalkerScene, log: PathLog, cfg: Config, rand: nat -> real, m: MathLib, i: nat)
    reads scene, set j | 0 <= j < |scene.walkers| :: scene.walkers[j], log
    requires Usable(cfg, m)
  {
    AllHeadings(Attempts(cfg, rand, m, i)) && Populated(scene, log, cfg, m, Survivors(Attempts(cfg, rand, m, i)))
  }

  /** The loop `for (let i = 0; i < totalWalkers; i++)`, run on the fresh
      scene with the bound `total`. */
  method SpawnAll(scene: WalkerScene, log: PathLog, cfg: Config, rand: nat -> real, m: MathLib, total: real)
      returns (ok: bool)
    requires Usable(cfg, m)
    requires Progress(scene, log, cfg, rand, m, 0)
    modifies scene`walkers, scene`bins, scene`registered, log
    ensures !ok ==> !AllHeadings(Attempts(cfg, rand, m, Iterations(total)))
    ensures ok ==> Progress(scene, log, cfg, rand, m, Iterations(total))
  {
    ghost var n := Iterations(total);
    var i := 0;
    while (i as real) < total
      invariant i <= n
      invariant Progress(scene, log, cfg, rand, m, i)
      decreases n - i
    {
      LoopRunsFor(total, i);
      var zero := SpawnIteration(scene, log, cfg, rand, m, i, DrawBase(cfg, i));
      if zero {
        ok := false;
        ZeroAttemptStops(cfg, rand, m, n, i);
        return;
      }
      i := i + 1;
    }
    LoopRunsFor(total, i);
    assert i == n;
    ok := true;
  }

  /** Iteration i of the loop, whose first draw is k. */
  method SpawnIteration(scene: WalkerScene, log: PathLog, cfg: Config, rand: nat -> real, m: MathLib,
                        i: nat, k: nat)
      returns (zero: bool)
    requires Usable(cfg, m) && k == DrawBase(cfg, i)
    requires Progress(scene, log, cfg, rand, m, i)
    modifies scene`walkers, scene`bins, scene`registered, log
    ensures zero ==> Attempts(cfg, rand, m, i + 1)[i].ZeroHeading?
    ensures !zero ==> Progress(scene, log, cfg, rand, m, i + 1)
  {
    AllHeadingsStep(cfg, rand, m, i);
    ghost var before := Attempts(cfg, rand, m, i);
    var walker;
    zero, walker := DrawWalker(cfg, rand, m, k);
    ghost var o := Attempt(cfg, rand, m, k);
    ghost var after := Attempts(cfg, rand, m, i + 1);
    assert after == before + [o];
    if zero {
      return;
    }
    assert after[..i] == before;
    if walker != null {
      AddSpawned(scene, log, walker, cfg, m, Survivors(before), o);
      assert Survivors(after) == Survivors(before) + [o];
    } else {
      assert Survivors(after) == Survivors(before);
    }
  }

  /** The draws of one iteration, starting at draw k: position, heading,
      the Walker constructor, the dropoff test and the colour. The walker
      is null when the dropoff removes it; zero reports a heading of
      length zero. */
  method DrawWalker(cfg: Config, rand: nat -> real, m: MathLib, k: nat)
      returns (zero: bool, walker: Walker?)
    requires Usable(cfg, m)
    ensures zero <==> Attempt(cfg, rand, m, k).ZeroHeading?
    ensures walker != null <==> Attempt(cfg, rand, m, k).Spawned?
    ensures walker != null ==>
      var o := Attempt(cfg, rand, m, k);
      && fresh(walker) && walker.Valid()
      && walker.State() == InitialState(o, cfg, m)
      && walker.channel == o.channel && walker.colorGroup == o.group
  {
    var s := cfg.size as real;
    var newPos := V2(Uniform(rand, k, -s, s), Uniform(rand, k + 1, -s, s));
    var newDir := V2(Uniform(rand, k + 2, -0.5, 0.5), Uniform(rand, k + 3, -0.5, 0.5));
    if m.sqrt(LenSq(newDir)) == 0.0 {
      return true, null;
    }
    newDir := Scale(Norm(newDir, m), 1.0);
    walker := new Walker(newPos, newDir, cfg.maxTurn, m.pi / 360.0, rand(k + 4), rand(k + 5), Channels);
    if cfg.dropoffRate > 0.0 && cfg.dropoff != NoDropoff {
      var probability := DropoffProbability(cfg, newPos, m);
      if rand(k + 6) < probability {
        return false, null;
      }
    }
    AssignColor(walker, cfg.colorMode, newPos, newDir, m);
    zero := false;
  }

  /** `walkerScene.addWalker(walker)` and `walkerPaths.push([])` for a walker
      just drawn. */
  method AddSpawned(scene: WalkerScene, log: PathLog, walker: Walker, cfg: Config, m: MathLib,
                    ghost ws: seq<Outcome>, ghost o: Outcome)
    requires Spawns(ws)
    requires Populated(scene, log, cfg, m, ws)
    requires o.Spawned? && walker !in scene.walkers && walker.Valid()
    requires walker.State() == InitialState(o, cfg, m)
    requires walker.channel == o.channel && walker.colorGroup == o.group
    modifies scene`walkers, scene`bins, scene`registered, log
    ensures Populated(scene, log, cfg, m, ws + [o])
  {
    ghost var ws' := ws + [o];
    assert ws'[..|ws|] == ws;
    assert Spawns(ws');
    ghost var before := scene.walkers;
    ghost var starts := Starts(ws);
    assert Starts(ws') == starts + [o.p];
    assert (starts + [o.p])[..|starts|] == starts;
    scene.AddWalker(walker);
    log.AddPath();
    assert scene.walkers[..|ws|] == before;
    assert Profiles(scene.walkers) == Profiles(before) + [ProfileOf(walker)];
    assert Expected(ws', cfg, m) == Expected(ws, cfg, m) + [ProfileOf(walker)];
  }

  /** The colour branch of the loop: group 1 for 'single', the sector of
      the heading or of the position for 'direction' and 'position', and
      no assignment otherwise. */
  method AssignColor(walker: Walker, mode: ColorMode, newPos: V2, newDir: V2, m: MathLib)
    requires 0.0 < m.pi
    modifies walker`colorGroup
    ensures mode != UnlistedColorMode ==> walker.colorGroup == ColorGroup(mode, newPos, newDir, m)
    ensures mode == UnlistedColorMode ==> walker.colorGroup == old(walker.colorGroup)
  {
    if mode == SingleColor {
      walker.colorGroup := 1;
    } else if mode == ByDirection || mode == ByPosition {
      var angle := if mode == ByDirection then m.atan2(newDir.y, newDir.x) else m.atan2(newPos.y, newPos.x);
      var colorChoice := MapRange(angle, -m.pi, m.pi, 0.0, 3.0).Floor;
      if colorChoice == 0 {
        walker.colorGroup := 1;
      } else if colorChoice == 1 {
        walker.colorGroup := 2;
      } else {
        walker.colorGroup := 3;
      }
    }
  }
}
