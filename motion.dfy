/** The walker state machine of js/sketch.js:597-656 and the scene step of
    js/sketch.js:717-723, as functions on values. The classes in the scene
    module are proved to compute exactly these functions. */
module Motion {
  import opened Numeric
  import opened VectorMath
  import opened Grid

  datatype Option<T> = None | Some(value: T)

  /** MODE_INACTIVE = 0, MODE_NORMAL = 1, MODE_REVERSE = 2 (js/sketch.js:39-41). */
  datatype Mode = Inactive | Normal | Reverse

  /** How far along NORMAL -> REVERSE -> INACTIVE a walker is. */
  function Rank(m: Mode): nat
  {
    match m
    case Normal => 0
    case Reverse => 1
    case Inactive => 2
  }

  /** One element of a walker's path: a copied point, or the `null` break. */
  datatype Entry = Pt(pt: V2) | Break

  function Breaks(path: seq<Entry>): nat
  {
    if path == [] then 0
    else Breaks(path[..|path| - 1]) + (if path[|path| - 1] == Break then 1 else 0)
  }

  datatype Move = Move(p: V2, d: V2)

  /** What a step reads besides the walker and the bins: the global
      `config.repulsion` and the trigonometry of the host. */
  datatype Env = Env(repulsion: real, math: MathLib)

  /** The fields of a walker that a step reads or writes. */
  datatype WalkerState = WalkerState(
    p: V2, d: V2, mode: Mode,
    mt: real, tr: real, start: V2, other: V2, tp: int)

  predicate WellFormed(w: WalkerState)
  {
    0.0 < w.tr && (w.tp == 1 || w.tp == -1)
  }

  /** The number of turn steps t = 0, tr, 2tr, ... with t <= mt. */
  function Steps(mt: real, tr: real): nat
    requires 0.0 < tr
  {
    if mt < 0.0 then 0
    else
      PositiveQuotient(mt, tr);
      (mt / tr).Floor + 1
  }

  lemma PositiveQuotient(a: real, b: real)
    requires 0.0 <= a && 0.0 < b
    ensures 0.0 <= a / b
  {
  }

  lemma ScaleMonotone(a: real, b: real, t: real)
    requires 0.0 < t
    ensures a * t <= b * t <==> a <= b
  {
    assert b * t - a * t == (b - a) * t;
    if a <= b {
      assert 0.0 <= (b - a) * t;
    } else {
      assert 0.0 < (a - b) * t;
    }
  }

  /** The turn t after k increments of the resolution: the loop's
      `t += turnResolution`, taken exactly. */
  function TurnAt(k: nat, tr: real): real
  {
    k as real * tr
  }

  lemma NextTurn(k: nat, tr: real)
    ensures TurnAt(k + 1, tr) == TurnAt(k, tr) + tr
  {
  }

  /** The k-th turn step is admissible exactly below Steps(mt, tr). */
  lemma {:induction false} StepsBound(mt: real, tr: real, k: nat)
    requires 0.0 < tr
    ensures k < Steps(mt, tr) <==> TurnAt(k, tr) <= mt
  {
    var q := mt / tr;
    assert q * tr == mt;
    ScaleMonotone(k as real, q, tr);
  }

  /** Candidate (sign, k) exists in the search: a sign of the loop and a
      turn step within the maximum turn. */
  predicate Admissible(w: WalkerState, sign: int, k: nat)
  {
    (sign == 1 || sign == -1) && TurnAt(k, w.tr) <= w.mt
  }

  /** The search visits sign +1 before sign -1 and, within a sign, smaller
      turns first. */
  predicate Before(sign1: int, k1: nat, sign2: int, k2: nat)
  {
    (sign1 == sign2 && k1 < k2) || (sign1 == 1 && sign2 == -1)
  }

  /** The heading turned by `trans(rot2d(angle), d)`, and the point one
      heading further on. */
  function Candidate(p: V2, d: V2, angle: real, m: MathLib): (r: Move)
    ensures Sub(r.p, p) == r.d
  {
    var rd := Trans(Rot2d(angle, m), d);
    Move(Add(p, rd), rd)
  }

  /** The angle `tp * sign * t` handed to `rot2d`. */
  function TurnAngle(tp: int, sign: int, t: real): real
  {
    (tp * sign) as real * t
  }

  /** Candidate (sign, k) turns by t = k * tr. */
  function CandidateAt(w: WalkerState, env: Env, sign: int, k: nat): Move
  {
    Candidate(w.p, w.d, TurnAngle(w.tp, sign, TurnAt(k, w.tr)), env.math)
  }

  /** A candidate is open when `proximityToRegistered(candidate, p,
      repulsion)` is false. */
  predicate Open(bins: Bins, s: real, w: WalkerState, env: Env, sign: int, k: nat)
    requires Ready(bins, s)
  {
    !Proximity(bins, s, CandidateAt(w, env, sign, k).p, w.p, env.repulsion)
  }

  /** `tryCandidates`, continued from candidate (sign, k). */
  function SearchFrom(bins: Bins, s: real, w: WalkerState, env: Env, sign: int, k: nat): Option<Move>
    requires Ready(bins, s) && WellFormed(w) && (sign == 1 || sign == -1)
    decreases sign + 1, Steps(w.mt, w.tr) - k
  {
    StepsBound(w.mt, w.tr, k);
    if TurnAt(k, w.tr) <= w.mt then
      if Open(bins, s, w, env, sign, k) then Some(CandidateAt(w, env, sign, k))
      else SearchFrom(bins, s, w, env, sign, k + 1)
    else if sign == 1 then SearchFrom(bins, s, w, env, -1, 0)
    else None
  }

  function Search(bins: Bins, s: real, w: WalkerState, env: Env): Option<Move>
    requires Ready(bins, s) && WellFormed(w)
  {
    SearchFrom(bins, s, w, env, 1, 0)
  }

  /** (sign2, k2) is visited no earlier than (sign1, k1). */
  predicate NotBefore(sign1: int, k1: nat, sign2: int, k2: nat)
  {
    Before(sign1, k1, sign2, k2) || (sign1 == sign2 && k1 == k2)
  }

  /** A candidate beyond the maximum turn stays beyond it. */
  lemma {:induction false} AdmissibleDownward(w: WalkerState, sign: int, k: nat, k2: nat)
    requires WellFormed(w) && k <= k2 && (sign == 1 || sign == -1)
    requires Admissible(w, sign, k2)
    ensures Admissible(w, sign, k)
  {
    StepsBound(w.mt, w.tr, k);
    StepsBound(w.mt, w.tr, k2);
  }

  /** Every admissible candidate from (sign, k) on is blocked. */
  ghost predicate AllBlockedFrom(bins: Bins, s: real, w: WalkerState, env: Env, sign: int, k: nat)
    requires Ready(bins, s)
  {
    forall sg, j :: Admissible(w, sg, j) && NotBefore(sign, k, sg, j) ==> !Open(bins, s, w, env, sg, j)
  }

  /** (sg, j) is the first open admissible candidate in search order. */
  ghost predicate FirstOpen(bins: Bins, s: real, w: WalkerState, env: Env, sg: int, j: nat)
    requires Ready(bins, s)
  {
    && Admissible(w, sg, j) && Open(bins, s, w, env, sg, j)
    && (forall sg2, j2 :: Admissible(w, sg2, j2) && Before(sg2, j2, sg, j) ==> !Open(bins, s, w, env, sg2, j2))
  }

  /** (sg, j) is the first open admissible candidate from (sign, k) on. */
  ghost predicate FirstOpenFrom(bins: Bins, s: real, w: WalkerState, env: Env, sign: int, k: nat, sg: int, j: nat)
    requires Ready(bins, s)
  {
    && Admissible(w, sg, j) && NotBefore(sign, k, sg, j) && Open(bins, s, w, env, sg, j)
    && (forall sg2, j2 :: Admissible(w, sg2, j2) && NotBefore(sign, k, sg2, j2) && Before(sg2, j2, sg, j)
          ==> !Open(bins, s, w, env, sg2, j2))
  }

  lemma SearchFromSkipsBlocked(bins: Bins, s: real, w: WalkerState, env: Env, sign: int, k: nat)
    requires Ready(bins, s) && WellFormed(w) && (sign == 1 || sign == -1)
    requires TurnAt(k, w.tr) <= w.mt && !Open(bins, s, w, env, sign, k)
    ensures SearchFrom(bins, s, w, env, sign, k) == SearchFrom(bins, s, w, env, sign, k + 1)
  {
  }

  lemma SearchFromTurnsOver(bins: Bins, s: real, w: WalkerState, env: Env, k: nat)
    requires Ready(bins, s) && WellFormed(w) && !(TurnAt(k, w.tr) <= w.mt)
    ensures SearchFrom(bins, s, w, env, 1, k) == SearchFrom(bins, s, w, env, -1, 0)
    ensures SearchFrom(bins, s, w, env, -1, k) == None
  {
  }

  lemma {:induction false} SearchFromNone(bins: Bins, s: real, w: WalkerState, env: Env, sign: int, k: nat)
    requires Ready(bins, s) && WellFormed(w) && (sign == 1 || sign == -1)
    ensures SearchFrom(bins, s, w, env, sign, k) == None <==> AllBlockedFrom(bins, s, w, env, sign, k)
    decreases sign + 1, Steps(w.mt, w.tr) - k
  {
    StepsBound(w.mt, w.tr, k);
    if TurnAt(k, w.tr) <= w.mt {
      if !Open(bins, s, w, env, sign, k) {
        SearchFromSkipsBlocked(bins, s, w, env, sign, k);
        SearchFromNone(bins, s, w, env, sign, k + 1);
      } else {
        assert Admissible(w, sign, k) && NotBefore(sign, k, sign, k);
      }
    } else {
      forall sg, j | Admissible(w, sg, j) && sg == sign && k <= j
        ensures false
      {
        AdmissibleDownward(w, sign, k, j);
      }
      if sign == 1 {
        SearchFromTurnsOver(bins, s, w, env, k);
        SearchFromNone(bins, s, w, env, -1, 0);
      }
    }
  }

  lemma FirstOpenSkipsBlocked(bins: Bins, s: real, w: WalkerState, env: Env, sign: int, k: nat, sg: int, j: nat)
    requires Ready(bins, s) && (sign == 1 || sign == -1)
    requires FirstOpenFrom(bins, s, w, env, sign, k + 1, sg, j) && !Open(bins, s, w, env, sign, k)
    ensures FirstOpenFrom(bins, s, w, env, sign, k, sg, j)
  {
    forall sg2, j2 | Admissible(w, sg2, j2) && NotBefore(sign, k, sg2, j2) && Before(sg2, j2, sg, j)
      ensures !Open(bins, s, w, env, sg2, j2)
    {
      if sg2 != sign || j2 != k {
        assert NotBefore(sign, k + 1, sg2, j2);
      }
    }
  }

  lemma {:induction false} FirstOpenSkipsPositive(bins: Bins, s: real, w: WalkerState, env: Env, k: nat, sg: int, j: nat)
    requires Ready(bins, s) && WellFormed(w) && !(TurnAt(k, w.tr) <= w.mt)
    requires FirstOpenFrom(bins, s, w, env, -1, 0, sg, j)
    ensures FirstOpenFrom(bins, s, w, env, 1, k, sg, j)
  {
    forall sg2, j2 | Admissible(w, sg2, j2) && NotBefore(1, k, sg2, j2) && Before(sg2, j2, sg, j)
      ensures !Open(bins, s, w, env, sg2, j2)
    {
      if sg2 == 1 {
        AdmissibleDownward(w, 1, k, j2);
      }
      assert NotBefore(-1, 0, sg2, j2);
    }
  }

  lemma {:induction false} SearchFromFirst(bins: Bins, s: real, w: WalkerState, env: Env, sign: int, k: nat, m: Move)
    requires Ready(bins, s) && WellFormed(w) && (sign == 1 || sign == -1)
    requires SearchFrom(bins, s, w, env, sign, k) == Some(m)
    ensures exists sg, j :: FirstOpenFrom(bins, s, w, env, sign, k, sg, j) && m == CandidateAt(w, env, sg, j)
    decreases sign + 1, Steps(w.mt, w.tr) - k
  {
    StepsBound(w.mt, w.tr, k);
    if TurnAt(k, w.tr) <= w.mt {
      if !Open(bins, s, w, env, sign, k) {
        SearchFromSkipsBlocked(bins, s, w, env, sign, k);
        SearchFromFirst(bins, s, w, env, sign, k + 1, m);
        var sg, j :| FirstOpenFrom(bins, s, w, env, sign, k + 1, sg, j) && m == CandidateAt(w, env, sg, j);
        FirstOpenSkipsBlocked(bins, s, w, env, sign, k, sg, j);
      } else {
        assert FirstOpenFrom(bins, s, w, env, sign, k, sign, k);
      }
    } else {
      SearchFromTurnsOver(bins, s, w, env, k);
      if sign == 1 {
        SearchFromFirst(bins, s, w, env, -1, 0, m);
        var sg, j :| FirstOpenFrom(bins, s, w, env, -1, 0, sg, j) && m == CandidateAt(w, env, sg, j);
        FirstOpenSkipsPositive(bins, s, w, env, k, sg, j);
      } else {
        assert false;
      }
    }
  }

  /** The search fails iff every admissible candidate is blocked. */
  lemma {:induction false} SearchFailsIffAllBlocked(bins: Bins, s: real, w: WalkerState, env: Env)
    requires Ready(bins, s) && WellFormed(w)
    ensures Search(bins, s, w, env) == None
        <==> forall sg, j :: Admissible(w, sg, j) ==> !Open(bins, s, w, env, sg, j)
  {
    SearchFromNone(bins, s, w, env, 1, 0);
    assert forall sg, j :: Admissible(w, sg, j) ==> NotBefore(1, 0, sg, j);
  }

  /** A successful search returns an open admissible candidate, and every
      candidate the loop visits before it is blocked. */
  lemma {:induction false} SearchReturnsFirstOpen(bins: Bins, s: real, w: WalkerState, env: Env, m: Move)
    requires Ready(bins, s) && WellFormed(w)
    requires Search(bins, s, w, env) == Some(m)
    ensures exists sg, j :: FirstOpen(bins, s, w, env, sg, j) && m == CandidateAt(w, env, sg, j)
  {
    SearchFromFirst(bins, s, w, env, 1, 0, m);
    var sg, j :| FirstOpenFrom(bins, s, w, env, 1, 0, sg, j) && m == CandidateAt(w, env, sg, j);
    assert forall sg2, j2 :: Admissible(w, sg2, j2) ==> NotBefore(1, 0, sg2, j2);
    assert FirstOpen(bins, s, w, env, sg, j);
  }

  /** Conversely, the first open admissible candidate is what the search
      returns. */
  lemma {:induction false} FirstOpenIsReturned(bins: Bins, s: real, w: WalkerState, env: Env, sg: int, j: nat)
    requires Ready(bins, s) && WellFormed(w)
    requires FirstOpen(bins, s, w, env, sg, j)
    ensures Search(bins, s, w, env) == Some(CandidateAt(w, env, sg, j))
  {
    SearchFailsIffAllBlocked(bins, s, w, env);
    var m := Search(bins, s, w, env).value;
    SearchReturnsFirstOpen(bins, s, w, env, m);
    var sg2, j2 :| FirstOpen(bins, s, w, env, sg2, j2) && m == CandidateAt(w, env, sg2, j2);
    if Before(sg, j, sg2, j2) || Before(sg2, j2, sg, j) {
      assert false;
    }
  }

  /** Going straight ahead (turn 0) is taken whenever it is open. */
  lemma {:induction false} StraightAheadFirst(bins: Bins, s: real, w: WalkerState, env: Env)
    requires Ready(bins, s) && WellFormed(w) && 0.0 <= w.mt
    requires Open(bins, s, w, env, 1, 0)
    ensures Search(bins, s, w, env) == Some(CandidateAt(w, env, 1, 0))
  {
    StepsBound(w.mt, w.tr, 0);
  }

  datatype StepResult = StepResult(w: WalkerState, bins: Bins, registered: set<V2>, entries: seq<Entry>)

  /** `Walker.step`: an inactive walker does nothing; an active one records
      its position, then moves to the first open candidate and registers it,
      or (when every candidate is blocked) records a break and either
      restarts from its start point in the opposite direction (NORMAL) or
      stops (REVERSE). */
  function WalkerStep(w: WalkerState, bins: Bins, registered: set<V2>, s: real, env: Env): (r: StepResult)
    requires Ready(bins, s) && WellFormed(w)
    ensures Ready(r.bins, s) && WellFormed(r.w)
    ensures r.w == w.(p := r.w.p, d := r.w.d, mode := r.w.mode)
    ensures w.mode == Inactive ==> r == StepResult(w, bins, registered, [])
    ensures w.mode != Inactive ==> 1 <= |r.entries| && r.entries[0] == Pt(w.p)
    ensures w.mode != Inactive ==> |r.entries| == 1 + Breaks(r.entries)
    ensures Breaks(r.entries) == Rank(r.w.mode) - Rank(w.mode) <= 1
    ensures r.w.mode != w.mode <==> w.mode != Inactive && Search(bins, s, w, env) == None
    ensures w.mode == Normal && r.w.mode == Reverse ==> r.w.p == w.start && r.w.d == w.other
    ensures w.mode == Reverse && r.w.mode == Inactive ==> r.w.p == w.p && r.w.d == w.d
    ensures r.w.mode == w.mode != Inactive ==>
      && Search(bins, s, w, env) == Some(Move(r.w.p, r.w.d))
      && r.bins == Register(bins, r.w.p) && r.registered == registered + {r.w.p}
    ensures r.w.mode != w.mode ==> r.bins == bins && r.registered == registered
    ensures Sound(bins, registered) ==> Sound(r.bins, r.registered)
  {
    if w.mode == Inactive then StepResult(w, bins, registered, [])
    else
      match Search(bins, s, w, env)
      case Some(m) =>
        RegisterKeepsSound(bins, registered, m.p);
        RecordedEntries(w.p);
        StepResult(w.(p := m.p, d := m.d), Register(bins, m.p), registered + {m.p}, [Pt(w.p)])
      case None =>
        RecordedEntries(w.p);
        if w.mode == Reverse then
          StepResult(w.(mode := Inactive), bins, registered, [Pt(w.p), Break])
        else
          StepResult(w.(p := w.start, d := w.other, mode := Reverse), bins, registered, [Pt(w.p), Break])
  }

  lemma RecordedEntries(q: V2)
    ensures Breaks([Pt(q)]) == 0 && Breaks([Pt(q), Break]) == 1
  {
    assert [Pt(q), Break][..1] == [Pt(q)];
    assert [Pt(q)][..0] == [];
  }

  /** After a successful step the walker is inside [-s,s]^2 and no
      registered point other than its previous position lies strictly
      closer than the repulsion distance. */
  lemma {:induction false} MoveKeepsClearance(w: WalkerState, bins: Bins, registered: set<V2>, s: real, env: Env, m: Move)
    requires Ready(bins, s) && WellFormed(w) && Sound(bins, registered)
    requires -BinSize <= env.repulsion <= BinSize
    requires Search(bins, s, w, env) == Some(m)
    ensures !OutOfBounds(s, m.p)
    ensures forall q :: q in registered && q != w.p ==> !(LenSq(Sub(q, m.p)) < env.repulsion * env.repulsion)
  {
    SearchResultOpen(bins, s, w, env, m);
    ProximityExact(bins, s, registered, m.p, w.p, env.repulsion);
    forall q | q in registered && q != w.p
      ensures !(LenSq(Sub(q, m.p)) < env.repulsion * env.repulsion)
    {
      assert !Blocks(q, m.p, w.p, env.repulsion);
    }
  }

  /** The move a search returns is not blocked. */
  lemma SearchResultOpen(bins: Bins, s: real, w: WalkerState, env: Env, m: Move)
    requires Ready(bins, s) && WellFormed(w)
    requires Search(bins, s, w, env) == Some(m)
    ensures !Proximity(bins, s, m.p, w.p, env.repulsion)
    ensures !OutOfBounds(s, m.p)
  {
    SearchReturnsFirstOpen(bins, s, w, env, m);
    var sg, j :| FirstOpen(bins, s, w, env, sg, j) && m == CandidateAt(w, env, sg, j);
    assert Open(bins, s, w, env, sg, j);
  }

  /** The whole simulation state a scene step reads and writes: the walkers,
      the bins, the points registered so far and `walkerPaths`. */
  datatype World = World(walkers: seq<WalkerState>, bins: Bins, registered: set<V2>, paths: seq<seq<Entry>>)

  ghost predicate WorldOk(world: World, s: real)
  {
    && Ready(world.bins, s)
    && |world.paths| == |world.walkers|
    && (forall i :: 0 <= i < |world.walkers| ==> WellFormed(world.walkers[i]))
  }

  /** Walker i steps against the current bins and appends its entries to
      its own path; every other walker and path is untouched. */
  function StepAt(world: World, s: real, env: Env, i: nat): (r: World)
    requires WorldOk(world, s) && i < |world.walkers|
    ensures WorldOk(r, s) && |r.walkers| == |world.walkers|
  {
    var res := WalkerStep(world.walkers[i], world.bins, world.registered, s, env);
    World(world.walkers[i := res.w], res.bins, res.registered, world.paths[i := world.paths[i] + res.entries])
  }

  /** Stepping walker i leaves every other walker and path alone and keeps
      the registry sound. */
  lemma StepAtKeeps(world: World, s: real, env: Env, i: nat)
    requires WorldOk(world, s) && i < |world.walkers|
    ensures var r := StepAt(world, s, env, i);
      && (forall j :: 0 <= j < |world.walkers| && j != i
            ==> r.walkers[j] == world.walkers[j] && r.paths[j] == world.paths[j])
      && (Sound(world.bins, world.registered) ==> Sound(r.bins, r.registered))
  {
  }

  /** An inactive walker's turn changes nothing. */
  lemma InactiveStepAt(world: World, s: real, env: Env, i: nat)
    requires WorldOk(world, s) && i < |world.walkers| && world.walkers[i].mode == Inactive
    ensures StepAt(world, s, env, i) == world
  {
    assert world.walkers[i := world.walkers[i]] == world.walkers;
    assert world.paths[i] + [] == world.paths[i];
    assert world.paths[i := world.paths[i]] == world.paths;
  }

  /** The first n walkers step in array order, each seeing the points the
      earlier ones registered in the same scene step. */
  function StepPrefix(world: World, s: real, env: Env, n: nat): (r: World)
    requires WorldOk(world, s) && n <= |world.walkers|
    ensures WorldOk(r, s) && |r.walkers| == |world.walkers|
  {
    if n == 0 then world else StepAt(StepPrefix(world, s, env, n - 1), s, env, n - 1)
  }

  /** Walkers n and later, and their paths, are untouched by the first n
      steps. */
  lemma {:induction false} StepPrefixLeavesRest(world: World, s: real, env: Env, n: nat)
    requires WorldOk(world, s) && n <= |world.walkers|
    ensures var r := StepPrefix(world, s, env, n);
      forall j :: n <= j < |world.walkers| ==> r.walkers[j] == world.walkers[j] && r.paths[j] == world.paths[j]
  {
    if n > 0 {
      StepPrefixLeavesRest(world, s, env, n - 1);
      StepAtKeeps(StepPrefix(world, s, env, n - 1), s, env, n - 1);
    }
  }

  /** A scene step keeps the registry sound. */
  lemma {:induction false} StepPrefixKeepsSound(world: World, s: real, env: Env, n: nat)
    requires WorldOk(world, s) && n <= |world.walkers| && Sound(world.bins, world.registered)
    ensures var r := StepPrefix(world, s, env, n); Sound(r.bins, r.registered)
  {
    if n > 0 {
      StepPrefixKeepsSound(world, s, env, n - 1);
      StepAtKeeps(StepPrefix(world, s, env, n - 1), s, env, n - 1);
    }
  }

  lemma StepPrefixNext(world: World, s: real, env: Env, n: nat)
    requires WorldOk(world, s) && n < |world.walkers|
    ensures StepPrefix(world, s, env, n + 1) == StepAt(StepPrefix(world, s, env, n), s, env, n)
  {
  }

  /** One more walker step extends the prefix: the form in which an
      implementation that steps walker n in place meets StepPrefix. */
  lemma StepPrefixExtend(world: World, s: real, env: Env, n: nat, before: World, res: StepResult)
    requires WorldOk(world, s) && n < |world.walkers| && before == StepPrefix(world, s, env, n)
    requires res == WalkerStep(before.walkers[n], before.bins, before.registered, s, env)
    ensures StepPrefix(world, s, env, n + 1)
         == World(before.walkers[n := res.w], res.bins, res.registered, before.paths[n := before.paths[n] + res.entries])
  {
  }

  /** `WalkerScene.step`: every walker steps once, in array order. */
  function SceneStep(world: World, s: real, env: Env): World
    requires WorldOk(world, s)
  {
    StepPrefix(world, s, env, |world.walkers|)
  }

  /** `hasActive`: some walker's mode is not INACTIVE. */
  function AnyActive(ws: seq<WalkerState>): (b: bool)
    ensures b <==> exists i :: 0 <= i < |ws| && ws[i].mode != Inactive
  {
    if ws == [] then false
    else ws[|ws| - 1].mode != Inactive || AnyActive(ws[..|ws| - 1])
  }

  lemma {:induction false} BreaksAppend(a: seq<Entry>, b: seq<Entry>)
    ensures Breaks(a + b) == Breaks(a) + Breaks(b)
    decreases |b|
  {
    if b != [] {
      assert (a + b)[..|a + b| - 1] == a + b[..|b| - 1];
      BreaksAppend(a, b[..|b| - 1]);
    } else {
      assert a + b == a;
    }
  }

  /** Every path holds exactly as many breaks as its walker has advanced
      modes. */
  ghost predicate BreaksTrackModes(world: World)
  {
    |world.paths| == |world.walkers|
    && forall i :: 0 <= i < |world.walkers| ==> Breaks(world.paths[i]) == Rank(world.walkers[i].mode)
  }

  lemma {:induction false} StepPrefixKeepsBreaks(world: World, s: real, env: Env, n: nat)
    requires WorldOk(world, s) && n <= |world.walkers| && BreaksTrackModes(world)
    ensures BreaksTrackModes(StepPrefix(world, s, env, n))
  {
    if n > 0 {
      var prev := StepPrefix(world, s, env, n - 1);
      StepPrefixKeepsBreaks(world, s, env, n - 1);
      var res := WalkerStep(prev.walkers[n - 1], prev.bins, prev.registered, s, env);
      BreaksAppend(prev.paths[n - 1], res.entries);
    }
  }

  /** A path never holds more than two breaks, through any number of scene
      steps started from fresh walkers. */
  lemma {:induction false} AtMostTwoBreaks(world: World, s: real, env: Env)
    requires WorldOk(world, s) && BreaksTrackModes(world)
    ensures BreaksTrackModes(SceneStep(world, s, env))
    ensures forall i :: 0 <= i < |world.walkers| ==> Breaks(SceneStep(world, s, env).paths[i]) <= 2
  {
    StepPrefixKeepsBreaks(world, s, env, |world.walkers|);
  }

  /** Fresh walkers (all NORMAL) with empty paths satisfy the break count. */
  lemma {:induction false} FreshWorldTracksBreaks(world: World)
    requires |world.paths| == |world.walkers|
    requires forall i :: 0 <= i < |world.walkers| ==> world.walkers[i].mode == Normal && world.paths[i] == []
    ensures BreaksTrackModes(world)
  {
    forall i | 0 <= i < |world.walkers|
      ensures Breaks(world.paths[i]) == Rank(world.walkers[i].mode)
    {
      assert world.paths[i] == [];
    }
  }

  /** Once no walker is active, a scene step changes nothing: this is why
      the sketch stops its draw loop there. */
  lemma {:induction false} QuiescentStepIsNoop(world: World, s: real, env: Env, n: nat)
    requires WorldOk(world, s) && n <= |world.walkers| && !AnyActive(world.walkers)
    ensures StepPrefix(world, s, env, n) == world
  {
    if n > 0 {
      QuiescentStepIsNoop(world, s, env, n - 1);
      assert world.walkers[n - 1].mode == Inactive;
      InactiveStepAt(world, s, env, n - 1);
    }
  }
}
