/** The objects of the simulation (js/sketch.js:597-724): walkers whose
    position, heading and mode change in place, the scene that owns them and
    their bins, and the global `walkerPaths`. Each method is proved to do
    exactly what the matching function of the Motion module describes. */
module Scene {
  import opened VectorMath
  import opened Grid
  import opened Motion

  /** The global `walkerPaths`: the path of walker i is paths[i]. */
  class PathLog {
    var paths: seq<seq<Entry>>

    constructor ()
      ensures paths == []
    {
      paths := [];
    }

    /** `walkerPaths.push([])`. */
    method AddPath()
      modifies this
      ensures paths == old(paths) + [[]]
    {
      paths := paths + [[]];
    }

    /** `walkerPaths[i].push(e)`. */
    method Append(i: nat, e: Entry)
      requires i < |paths|
      modifies this
      ensures paths == old(paths)[i := old(paths)[i] + [e]]
    {
      paths := paths[i := paths[i] + [e]];
    }
  }

  /** The paths after walker idx (if it is in the scene) records es. */
  function Record(paths: seq<seq<Entry>>, idx: int, es: seq<Entry>): seq<seq<Entry>>
  {
    if 0 <= idx < |paths| then paths[idx := paths[idx] + es] else paths
  }

  lemma RecordNothing(paths: seq<seq<Entry>>, idx: int)
    ensures Record(paths, idx, []) == paths
  {
    if 0 <= idx < |paths| {
      assert paths[idx] + [] == paths[idx];
    }
  }

  /** `Array.prototype.indexOf` on the walker array: the first position
      holding w, or -1. */
  function IndexOf(ws: seq<Walker>, w: Walker): (i: int)
    ensures -1 <= i < |ws|
    ensures 0 <= i ==> ws[i] == w && forall j :: 0 <= j < i ==> ws[j] != w
    ensures i == -1 <==> w !in ws
  {
    if ws == [] then -1
    else if ws[0] == w then 0
    else
      var i := IndexOf(ws[1..], w);
      if i == -1 then -1 else i + 1
  }

  class Walker {
    var p: V2
    var d: V2
    var mode: Mode
    const mt: real
    const tr: real
    const startPosition: V2
    const otherDirection: V2
    const turnPreference: int
    const channel: int
    /** 0 until `resetSketch` assigns colour group 1, 2 or 3. */
    var colorGroup: int

    function State(): WalkerState
      reads this
    {
      WalkerState(p, d, mode, mt, tr, startPosition, otherDirection, turnPreference)
    }

    /** Depends on constant fields only, so no step can break it. */
    ghost predicate Valid()
    {
      0.0 < tr && (turnPreference == 1 || turnPreference == -1)
    }

    /** `new Walker(position, direction, maxTurn, turnResolution)`, given the
        two draws of `random()` the constructor makes: the first picks the
        turn preference, the second (scaled by the channel count) the
        channel. */
    constructor (position: V2, direction: V2, maxTurn: real, turnResolution: real,
                 u1: real, u2: real, channels: int)
      requires 0.0 < turnResolution
      ensures Valid()
      ensures p == position && d == direction && mode == Normal
      ensures mt == maxTurn && tr == turnResolution
      ensures startPosition == position
      ensures Add(direction, otherDirection) == Origin
      ensures turnPreference == 1 <==> u1 < 0.5
      ensures 1 <= channel <==> 0.0 <= u2 * channels as real
      ensures channel as real - 1.0 <= u2 * channels as real < channel as real
      ensures colorGroup == 0
    {
      p := position;
      d := direction;
      mt := maxTurn;
      tr := turnResolution;
      mode := Normal;
      startPosition := position;
      otherDirection := Scale(direction, -1.0);
      turnPreference := if u1 < 0.5 then 1 else -1;
      channel := (u2 * channels as real).Floor + 1;
      colorGroup := 0;
    }

    /** `tryCandidates`: the nested sign / turn loops, returning the first
        candidate `proximityToRegistered` does not block. */
    method TryCandidates(scene: WalkerScene, env: Env) returns (found: Option<Move>)
      requires Valid() && Ready(scene.bins, scene.s)
      ensures found == Search(scene.bins, scene.s, State(), env)
    {
      var w := State();
      var sign := 1;
      while sign >= -1
        invariant sign == 1 || sign == -1 || sign == -3
        invariant sign != -3 ==> SearchFrom(scene.bins, scene.s, w, env, sign, 0) == Search(scene.bins, scene.s, w, env)
        invariant sign == -3 ==> Search(scene.bins, scene.s, w, env) == None
        decreases sign + 3
      {
        var k: nat := 0;
        var t := 0.0;
        while t <= mt
          invariant t == TurnAt(k, tr)
          invariant SearchFrom(scene.bins, scene.s, w, env, sign, k) == Search(scene.bins, scene.s, w, env)
          decreases Steps(mt, tr) - k
        {
          StepsBound(mt, tr, k);
          var rotatedD := Trans(Rot2d(TurnAngle(turnPreference, sign, t), env.math), d);
          var candidateP := Add(p, rotatedD);
          assert Move(candidateP, rotatedD) == CandidateAt(w, env, sign, k);
          var blocked := scene.ProximityToRegistered(candidateP, p, env.repulsion);
          if !blocked {
            return Some(Move(candidateP, rotatedD));
          }
          SearchFromSkipsBlocked(scene.bins, scene.s, w, env, sign, k);
          NextTurn(k, tr);
          k := k + 1;
          t := t + tr;
        }
        SearchFromTurnsOver(scene.bins, scene.s, w, env, k);
        sign := sign - 2;
      }
      return None;
    }

    /** The blocked branch of `step`: a REVERSE walker stops, a NORMAL one
        restarts from its start point in the opposite direction; either
        way its path gets the `null` break. */
    method TurnBack(log: PathLog, walkerIndex: int)
      requires mode != Inactive && walkerIndex < |log.paths|
      modifies this`p, this`d, this`mode, log
      ensures old(mode) == Reverse ==> State() == old(State()).(mode := Inactive)
      ensures old(mode) == Normal ==> State() == old(State()).(p := startPosition, d := otherDirection, mode := Reverse)
      ensures log.paths == if walkerIndex >= 0 then old(log.paths)[walkerIndex := old(log.paths)[walkerIndex] + [Break]] else old(log.paths)
    {
      if mode == Reverse {
        mode := Inactive;
        if walkerIndex >= 0 {
          log.Append(walkerIndex, Break);
        }
        return;
      }
      p := startPosition;
      d := otherDirection;
      mode := Reverse;
      if walkerIndex >= 0 {
        log.Append(walkerIndex, Break);
      }
    }

    /** `Walker.step(scene)`. */
    method Step(scene: WalkerScene, log: PathLog, env: Env)
      requires Valid() && scene.Valid() && |log.paths| == |scene.walkers|
      modifies this, scene`bins, scene`registered, log
      ensures Valid() && scene.Valid() && |log.paths| == |scene.walkers|
      ensures
        var r := WalkerStep(old(State()), old(scene.bins), old(scene.registered), scene.s, env);
        && State() == r.w && colorGroup == old(colorGroup)
        && scene.bins == r.bins && scene.registered == r.registered
        && log.paths == Record(old(log.paths), IndexOf(scene.walkers, this), r.entries)
    {
      if mode == Inactive {
        RecordNothing(log.paths, IndexOf(scene.walkers, this));
        return;
      }
      ghost var w := State();
      ghost var r := WalkerStep(w, scene.bins, scene.registered, scene.s, env);
      var walkerIndex := IndexOf(scene.walkers, this);
      if walkerIndex >= 0 {
        log.Append(walkerIndex, Pt(p));
      }
      var found := TryCandidates(scene, env);
      if found.None? {
        assert r.w == (if w.mode == Reverse then w.(mode := Inactive) else w.(p := w.start, d := w.other, mode := Reverse));
        assert r.bins == scene.bins && r.registered == scene.registered && r.entries == [Pt(w.p), Break];
        TurnBack(log, walkerIndex);
        if walkerIndex >= 0 {
          assert old(log.paths)[walkerIndex] + [Pt(w.p)] + [Break] == old(log.paths)[walkerIndex] + [Pt(w.p), Break];
        }
        return;
      }
      assert r == StepResult(w.(p := found.value.p, d := found.value.d), Register(scene.bins, found.value.p),
                             scene.registered + {found.value.p}, [Pt(w.p)]);
      p := found.value.p;
      d := found.value.d;
      scene.RegisterPoint(p);
    }
  }

  /** The states of a walker array, in order. */
  function StatesOf(ws: seq<Walker>): (r: seq<WalkerState>)
    reads set i | 0 <= i < |ws| :: ws[i]
    ensures |r| == |ws| && forall i :: 0 <= i < |ws| ==> r[i] == ws[i].State()
  {
    if ws == [] then [] else StatesOf(ws[..|ws| - 1]) + [ws[|ws| - 1].State()]
  }

  /** The colour group of each walker, in order. */
  function GroupsOf(ws: seq<Walker>): (r: seq<int>)
    reads set i | 0 <= i < |ws| :: ws[i]
    ensures |r| == |ws| && forall i :: 0 <= i < |ws| ==> r[i] == ws[i].colorGroup
  {
    if ws == [] then [] else GroupsOf(ws[..|ws| - 1]) + [ws[|ws| - 1].colorGroup]
  }

  class WalkerScene {
    var walkers: seq<Walker>
    const s: real
    var bins: Bins
    /** Every point ever registered. */
    ghost var registered: set<V2>

    ghost predicate Valid()
      reads this
    {
      && Ready(bins, s)
      && Sound(bins, registered)
      && (forall i, j :: 0 <= i < j < |walkers| ==> walkers[i] != walkers[j])
      && (forall i :: 0 <= i < |walkers| ==> walkers[i].Valid())
    }

    function States(): seq<WalkerState>
      reads this, set i | 0 <= i < |walkers| :: walkers[i]
    {
      StatesOf(walkers)
    }

    function Groups(): seq<int>
      reads this, set i | 0 <= i < |walkers| :: walkers[i]
    {
      GroupsOf(walkers)
    }

    ghost function WorldOf(log: PathLog): World
      reads this, set i | 0 <= i < |walkers| :: walkers[i], log
    {
      World(States(), bins, registered, log.paths)
    }

    /** `new WalkerScene(s, 2)`: the loops over x, y in -120..120 create
        the bins -60..60 on each axis, all empty. s < 122 keeps every
        in-bounds point inside those bins. */
    constructor (s: real)
      requires s < 122.0
      ensures this.s == s && walkers == [] && registered == {}
      ensures bins == EmptyGrid() && Valid()
    {
      var b: Bins := map[];
      var x := -120;
      while x <= 120
        invariant -120 <= x <= 121
        invariant forall c :: c in b ==> InGrid(c) && b[c] == []
        invariant forall x0, y0 :: -120 <= x0 < x && -120 <= y0 <= 120 ==> Cell(BinOfInt(x0), BinOfInt(y0)) in b
      {
        var xBin := BinIndex(x as real);
        BinOfIntInGrid(x);
        var y := -120;
        while y <= 120
          invariant -120 <= y <= 121
          invariant forall c :: c in b ==> InGrid(c) && b[c] == []
          invariant forall x0, y0 :: -120 <= x0 < x && -120 <= y0 <= 120 ==> Cell(BinOfInt(x0), BinOfInt(y0)) in b
          invariant forall y0 :: -120 <= y0 < y ==> Cell(BinOfInt(x), BinOfInt(y0)) in b
        {
          var yBin := BinIndex(y as real);
          BinOfIntInGrid(y);
          if Cell(xBin, yBin) !in b {
            b := b[Cell(xBin, yBin) := []];
          }
          y := y + 1;
        }
        x := x + 1;
      }
      forall c | InGrid(c)
        ensures c in b
      {
        BinOfEven(c.i);
        BinOfEven(c.j);
        assert Cell(BinOfInt(2 * c.i), BinOfInt(2 * c.j)) in b;
      }
      assert b == EmptyGrid();
      walkers := [];
      this.s := s;
      bins := b;
      registered := {};
    }

    /** `addWalker`: append the walker and register its position. */
    method AddWalker(w: Walker)
      requires Valid() && w.Valid() && w !in walkers
      modifies this`walkers, this`bins, this`registered
      ensures Valid()
      ensures walkers == old(walkers) + [w]
      ensures bins == Register(old(bins), w.p) && registered == old(registered) + {w.p}
    {
      walkers := walkers + [w];
      RegisterPoint(w.p);
    }

    /** `registerPoint`: the double loop over dx, dy in -1..1 appends the
        point to each existing bin around its own bin. */
    method RegisterPoint(point: V2)
      requires Valid()
      modifies this`bins, this`registered
      ensures Valid()
      ensures bins == Register(old(bins), point) && registered == old(registered) + {point}
    {
      RegisterKeepsSound(bins, registered, point);
      bins := AppendAround(bins, point);
      registered := registered + {point};
    }

    /** `proximityToRegistered(p, excluding, threshold)`: the bounds test,
        then a scan of p's own bin. */
    method ProximityToRegistered(p: V2, excluding: V2, threshold: real) returns (blocked: bool)
      requires Ready(bins, s)
      ensures blocked == Proximity(bins, s, p, excluding, threshold)
    {
      if p.x < -s || p.x > s || p.y < -s || p.y > s {
        return true;
      }
      var thresholdSq := threshold * threshold;
      var xBin := BinIndex(p.x);
      var yBin := BinIndex(p.y);
      InBoundsInGrid(s, p);
      var bin := bins[Cell(xBin, yBin)];
      var i := 0;
      while i < |bin|
        invariant 0 <= i <= |bin|
        invariant forall k :: 0 <= k < i ==> !Blocks(bin[k], p, excluding, threshold)
      {
        if Equals(bin[i], excluding) {
          i := i + 1;
          continue;
        }
        if LenSq(Sub(bin[i], p)) < thresholdSq {
          return true;
        }
        i := i + 1;
      }
      return false;
    }

    /** `step`: every walker steps once, in array order, against the bins
        as the earlier walkers left them. */
    method Step(log: PathLog, env: Env)
      requires Valid() && |log.paths| == |walkers|
      modifies this`bins, this`registered, set i | 0 <= i < |walkers| :: walkers[i], log
      ensures Valid() && walkers == old(walkers) && |log.paths| == |walkers|
      ensures WorldOf(log) == SceneStep(old(WorldOf(log)), s, env)
      ensures Groups() == old(Groups())
    {
      ghost var start := WorldOf(log);
      ghost var groups := Groups();
      var i := 0;
      while i < |walkers|
        invariant i <= |walkers| && walkers == old(walkers)
        invariant SteppedFirst(log, env, start, groups, i)
      {
        StepOne(log, env, start, groups, i);
        i := i + 1;
      }
    }

    /** Between iterations of `step`: the scene is the world after the first
        i steps from start, and no colour group has changed. */
    ghost predicate SteppedFirst(log: PathLog, env: Env, start: World, groups: seq<int>, i: nat)
      reads this, set j | 0 <= j < |walkers| :: walkers[j], log
    {
      && Valid() && |log.paths| == |walkers| && i <= |walkers|
      && WorldOk(start, s) && |start.walkers| == |walkers|
      && WorldOf(log) == StepPrefix(start, s, env, i)
      && Groups() == groups
    }

    /** The body of the loop in `step`: after walker i steps, the scene is
        the world after the first i + 1 steps. */
    method StepOne(log: PathLog, env: Env, ghost start: World, ghost groups: seq<int>, i: nat)
      requires i < |walkers| && SteppedFirst(log, env, start, groups, i)
      modifies this`bins, this`registered, walkers[i], log
      ensures walkers == old(walkers) && SteppedFirst(log, env, start, groups, i + 1)
    {
      ghost var before := WorldOf(log);
      ghost var r := WalkerStep(before.walkers[i], before.bins, before.registered, s, env);
      Advance(log, env, i);
      StepPrefixExtend(start, s, env, i, before, r);
    }

    /** Walker i steps in place; only its state, the bins and its path
        change. */
    method Advance(log: PathLog, env: Env, i: nat)
      requires Valid() && |log.paths| == |walkers| && i < |walkers|
      modifies this`bins, this`registered, walkers[i], log
      ensures Valid() && walkers == old(walkers) && |log.paths| == |walkers|
      ensures
        var r := WalkerStep(old(States())[i], old(bins), old(registered), s, env);
        && States() == old(States())[i := r.w]
        && bins == r.bins && registered == r.registered
        && log.paths == old(log.paths)[i := old(log.paths)[i] + r.entries]
      ensures Groups() == old(Groups())
    {
      ghost var before := States();
      ghost var r := WalkerStep(before[i], bins, registered, s, env);
      walkers[i].Step(this, log, env);
      assert IndexOf(walkers, walkers[i]) == i;
      ghost var next := before[i := r.w];
      forall j | 0 <= j < |walkers|
        ensures States()[j] == next[j]
      {
        if j != i {
          assert walkers[j] != walkers[i];
        }
      }
      assert States() == next;
      assert Groups() == old(Groups());
    }

    /** `hasActive`: some walker is not INACTIVE. */
    predicate HasActive()
      reads this, set i | 0 <= i < |walkers| :: walkers[i]
    {
      AnyActive(States())
    }

    /** Once `hasActive` is false, a further scene step changes nothing;
        the sketch stops its draw loop at that point. */
    lemma QuiescentSceneStepIsNoop(log: PathLog, env: Env)
      requires Valid() && |log.paths| == |walkers| && !HasActive()
      ensures SceneStep(WorldOf(log), s, env) == WorldOf(log)
    {
      QuiescentStepIsNoop(WorldOf(log), s, env, |walkers|);
    }
  }

  /** The double loop of `registerPoint`: for dx, dy in -1..1, append the
      point to bin (xBin + dx, yBin + dy) if that bin exists. */
  method AppendAround(bins: Bins, point: V2) returns (b: Bins)
    ensures b == Register(bins, point)
  {
    b := bins;
    RegisteredNone(bins, point);
    var dx := -1;
    while dx <= 1
      invariant -1 <= dx <= 2
      invariant b == Registered(bins, point, dx, -1)
    {
      b := AppendRow(bins, b, point, dx);
      dx := dx + 1;
    }
    RegisteredAll(bins, point);
  }

  /** The inner loop of `registerPoint`, over dy for one dx. */
  method AppendRow(bins: Bins, b0: Bins, point: V2, dx: int) returns (b: Bins)
    requires -1 <= dx <= 1 && b0 == Registered(bins, point, dx, -1)
    ensures b == Registered(bins, point, dx + 1, -1)
  {
    var xBin := BinIndex(point.x);
    var yBin := BinIndex(point.y);
    b := b0;
    var dy := -1;
    while dy <= 1
      invariant -1 <= dy <= 2
      invariant b == Registered(bins, point, dx, dy)
    {
      var current := Cell(xBin + dx, yBin + dy);
      RegisteredStep(bins, point, dx, dy);
      if current in b {
        b := b[current := b[current] + [point]];
      }
      dy := dy + 1;
    }
    RegisteredRow(bins, point, dx);
  }

  /** The bins after the double loop of `registerPoint` has visited every
      offset (dx', dy') before (dx, dy) in row-major order. */
  function Registered(bins: Bins, q: V2, dx: int, dy: int): Bins
  {
    map c | c in bins ::
      if Adjacent(c, CellOf(q)) && Visited(c.i - CellOf(q).i, c.j - CellOf(q).j, dx, dy)
      then bins[c] + [q] else bins[c]
  }

  predicate Visited(i: int, j: int, dx: int, dy: int)
  {
    i < dx || (i == dx && j < dy)
  }

  lemma RegisteredNone(bins: Bins, q: V2)
    ensures Registered(bins, q, -1, -1) == bins
  {
  }

  /** Visiting offset (dx, dy) appends q to that bin, if it exists. */
  lemma RegisteredStep(bins: Bins, q: V2, dx: int, dy: int)
    requires -1 <= dx <= 1 && -1 <= dy <= 1
    ensures
      var b := Registered(bins, q, dx, dy);
      var current := Cell(CellOf(q).i + dx, CellOf(q).j + dy);
      Registered(bins, q, dx, dy + 1) == if current in b then b[current := b[current] + [q]] else b
  {
    var b, b2 := Registered(bins, q, dx, dy), Registered(bins, q, dx, dy + 1);
    var o := CellOf(q);
    var current := Cell(o.i + dx, o.j + dy);
    var e := if current in b then b[current := b[current] + [q]] else b;
    forall c | c in bins
      ensures b2[c] == e[c]
    {
      if c != current {
        assert Visited(c.i - o.i, c.j - o.j, dx, dy) == Visited(c.i - o.i, c.j - o.j, dx, dy + 1);
      }
    }
    assert b2 == e;
  }

  lemma RegisteredRow(bins: Bins, q: V2, dx: int)
    requires -1 <= dx <= 1
    ensures Registered(bins, q, dx, 2) == Registered(bins, q, dx + 1, -1)
  {
  }

  lemma RegisteredAll(bins: Bins, q: V2)
    ensures Registered(bins, q, 2, -1) == Register(bins, q)
  {
  }

  function BinOfInt(x: int): int
  {
    BinIndex(x as real)
  }

  lemma BinOfIntInGrid(x: int)
    requires -120 <= x <= 120
    ensures -Reach <= BinOfInt(x) <= Reach
  {
    BinIndexUnwrapped(x as real);
  }

  /** Every grid index g is the bin of the integer 2g. */
  lemma BinOfEven(g: int)
    requires -Reach <= g <= Reach
    ensures -120 <= 2 * g <= 120 && BinOfInt(2 * g) == g
  {
    BinIndexUnwrapped((2 * g) as real);
  }
}
