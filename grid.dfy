/** The spatial registry behind `WalkerScene` (js/sketch.js:659-715), as
    values. Bins are keyed by a pair of bin indices; every registered point
    is copied into the 3x3 block of bins around its own bin, so a proximity
    query only has to scan the single bin of the query point. */
module Grid {
  import opened Numeric
  import opened VectorMath

  /** The scene is always built with the default bin size 2
      (js/sketch.js:840). */
  const BinSize: real := 2.0

  /** The constructor creates bins -Reach..Reach on each axis. */
  const Reach: int := 60

  datatype Cell = Cell(i: int, j: int)

  type Bins = map<Cell, seq<V2>>

  /** `(x / binSize) | 0`: divide, truncate toward zero, then wrap to a
      signed 32-bit integer. */
  function BinIndex(x: real): int
  {
    ToInt32(Trunc(x / BinSize))
  }

  function CellOf(q: V2): Cell
  {
    Cell(BinIndex(q.x), BinIndex(q.y))
  }

  predicate InGrid(c: Cell)
  {
    -Reach <= c.i <= Reach && -Reach <= c.j <= Reach
  }

  /** Exactly the bins the constructor creates exist. */
  ghost predicate GridShaped(bins: Bins)
  {
    forall c :: c in bins <==> InGrid(c)
  }

  /** The state a scene of half-size s keeps: the full grid, and an s small
      enough that every in-bounds point falls into an existing bin. */
  ghost predicate Ready(bins: Bins, s: real)
  {
    GridShaped(bins) && s < 122.0
  }

  /** The bins a freshly constructed scene holds: every grid cell, empty. */
  function EmptyGrid(): (bins: Bins)
    ensures forall c :: c in bins <==> InGrid(c)
    ensures forall c :: c in bins ==> bins[c] == []
  {
    map i, j | -Reach <= i <= Reach && -Reach <= j <= Reach :: Cell(i, j) := []
  }

  /** The fresh grid serves a scene of half-size s < 122: it is sound with
      nothing registered, every in-bounds point has its bin, and no
      in-bounds point is blocked. */
  lemma {:induction false} EmptyGridServes(s: real, p: V2, excluding: V2, th: real)
    requires s < 122.0 && !OutOfBounds(s, p)
    ensures Ready(EmptyGrid(), s) && Sound(EmptyGrid(), {})
    ensures CellOf(p) in EmptyGrid() && !Proximity(EmptyGrid(), s, p, excluding, th)
  {
    InBoundsInGrid(s, p);
  }

  /** c lies in the 3x3 block around e. */
  predicate Adjacent(c: Cell, e: Cell)
  {
    -1 <= c.i - e.i <= 1 && -1 <= c.j - e.j <= 1
  }

  /** `registerPoint`: append q to every existing bin of the 3x3 block around
      q's bin; bins outside the grid are skipped. */
  function Register(bins: Bins, q: V2): Bins
  {
    map c | c in bins :: if Adjacent(c, CellOf(q)) then bins[c] + [q] else bins[c]
  }

  /** The bounds test that opens `proximityToRegistered`. */
  predicate OutOfBounds(s: real, p: V2)
  {
    p.x < -s || p.x > s || p.y < -s || p.y > s
  }

  /** A bin entry e blocks p unless it equals the excluded point; the
      distance test is strict, so distance exactly th does not block. */
  predicate Blocks(e: V2, p: V2, excluding: V2, th: real)
  {
    !Equals(e, excluding) && LenSq(Sub(e, p)) < th * th
  }

  predicate BinBlocks(bin: seq<V2>, p: V2, excluding: V2, th: real)
  {
    exists k :: 0 <= k < |bin| && Blocks(bin[k], p, excluding, th)
  }

  /** `proximityToRegistered(p, excluding, th)`: blocked outside [-s,s]^2,
      otherwise blocked iff an entry of p's own bin blocks p. */
  function Proximity(bins: Bins, s: real, p: V2, excluding: V2, th: real): bool
    requires Ready(bins, s)
  {
    if OutOfBounds(s, p) then true
    else
      InBoundsInGrid(s, p);
      BinBlocks(bins[CellOf(p)], p, excluding, th)
  }

  /** Every bin entry was registered, and every registered point sits in
      every existing bin of the 3x3 block around its own bin. */
  ghost predicate Sound(bins: Bins, registered: set<V2>)
  {
    && (forall c, k :: c in bins && 0 <= k < |bins[c]| ==> bins[c][k] in registered)
    && (forall q, c :: q in registered && c in bins && Adjacent(c, CellOf(q)) ==> q in bins[c])
  }

  /** Coordinates of moderate size are not wrapped by the 32-bit
      conversion: the bin index is the truncated half. */
  lemma BinIndexUnwrapped(x: real)
    requires -1000.0 < x < 1000.0
    ensures BinIndex(x) == Trunc(x / BinSize)
  {
    ToInt32Identity(Trunc(x / BinSize));
  }

  /** Truncation makes bin 0 double width: it holds exactly the points
      strictly between -2 and 2. */
  lemma {:induction false} BinZeroIsDoubleWidth(x: real)
    requires -1000.0 < x < 1000.0
    ensures BinIndex(x) == 0 <==> -BinSize < x < BinSize
  {
    BinIndexUnwrapped(x);
  }

  /** Every other bin n spans a half-open interval of width 2 on the far
      side of zero. */
  lemma {:induction false} BinSpan(x: real)
    requires -1000.0 < x < 1000.0
    ensures 0 < BinIndex(x) ==> BinIndex(x) as real * BinSize <= x < (BinIndex(x) + 1) as real * BinSize
    ensures BinIndex(x) < 0 ==> (BinIndex(x) - 1) as real * BinSize < x <= BinIndex(x) as real * BinSize
  {
    BinIndexUnwrapped(x);
  }

  /** Points within [-s, s] with s < 122 fall into bins -60..60. */
  lemma {:induction false} InBoundsInGrid(s: real, p: V2)
    requires s < 122.0 && !OutOfBounds(s, p)
    ensures InGrid(CellOf(p))
  {
    BinIndexUnwrapped(p.x);
    BinIndexUnwrapped(p.y);
  }

  /** Coordinates less than a bin size apart have bin indices at most one
      apart: every bin is at least binSize wide. */
  lemma {:induction false} CloseCoordinatesAdjacentBins(x: real, y: real)
    requires -1000.0 < x < 1000.0 && -1000.0 < y < 1000.0
    requires -BinSize < x - y < BinSize
    ensures -1 <= BinIndex(x) - BinIndex(y) <= 1
  {
    BinIndexUnwrapped(x);
    BinIndexUnwrapped(y);
  }

  /** Squared distance below th^2 with |th| <= 2 keeps each coordinate less
      than a bin size apart. */
  lemma {:induction false} NearInEachCoordinate(v: V2, th: real)
    requires LenSq(v) < th * th && -BinSize <= th <= BinSize
    ensures -BinSize < v.x < BinSize && -BinSize < v.y < BinSize
  {
    ThresholdSquare(th);
    assert v.x * v.x + v.y * v.y < 4.0;
    SquareBelowFour(v.x, v.y);
    SquareBelowFour(v.y, v.x);
  }

  lemma SquareBelowFour(a: real, b: real)
    requires a * a + b * b < 4.0
    ensures -2.0 < a < 2.0
  {
    SquareNonNegative(b);
    if a >= 2.0 || a <= -2.0 {
      SquareAtLeastFour(a);
      assert false;
    }
  }

  lemma SquareAtLeastFour(a: real)
    requires a >= 2.0 || a <= -2.0
    ensures a * a >= 4.0
  {
    if a >= 2.0 {
      assert a * a >= 2.0 * a;
    } else {
      assert a * a >= -2.0 * a;
    }
  }

  lemma ThresholdSquare(th: real)
    requires -2.0 <= th <= 2.0
    ensures th * th <= 4.0
  {
    if th >= 0.0 {
      assert th * th <= 2.0 * th;
    } else {
      assert th * th <= -2.0 * th;
    }
  }

  /** Registering keeps the set of bins and extends the soundness
      invariant by the new point. */
  lemma {:induction false} RegisterKeepsSound(bins: Bins, registered: set<V2>, q: V2)
    ensures Register(bins, q).Keys == bins.Keys
    ensures Sound(bins, registered) ==> Sound(Register(bins, q), registered + {q})
  {
    if !Sound(bins, registered) {
      return;
    }
    var r := Register(bins, q);
    forall c, k | c in r && 0 <= k < |r[c]|
      ensures r[c][k] in registered + {q}
    {
      if k < |bins[c]| {
        assert r[c][k] == bins[c][k];
      }
    }
    forall e, c | e in registered + {q} && c in r && Adjacent(c, CellOf(e))
      ensures e in r[c]
    {
      if e in registered {
        assert e in bins[c];
      } else {
        assert r[c] == bins[c] + [q];
        assert r[c][|bins[c]|] == q;
      }
    }
  }

  /** If q is registered and each coordinate of p differs from q's by less
      than binSize, then q is in p's own bin. */
  lemma {:induction false} RegisteredFoundInOwnBin(bins: Bins, registered: set<V2>, q: V2, p: V2)
    requires Sound(bins, registered) && q in registered && CellOf(p) in bins
    requires -990.0 < p.x < 990.0 && -990.0 < p.y < 990.0
    requires -BinSize < q.x - p.x < BinSize && -BinSize < q.y - p.y < BinSize
    ensures q in bins[CellOf(p)]
  {
    CloseCoordinatesAdjacentBins(p.x, q.x);
    CloseCoordinatesAdjacentBins(p.y, q.y);
  }

  /** Scanning one bin answers the global question: for a sound registry
      and a threshold of at most binSize, an in-bounds point is blocked iff
      some registered point other than the excluded one lies strictly
      closer than th. */
  lemma {:induction false} ProximityExact(bins: Bins, s: real, registered: set<V2>, p: V2, excluding: V2, th: real)
    requires Ready(bins, s) && Sound(bins, registered)
    requires !OutOfBounds(s, p) && -BinSize <= th <= BinSize
    ensures Proximity(bins, s, p, excluding, th)
        <==> exists q :: q in registered && Blocks(q, p, excluding, th)
  {
    InBoundsInGrid(s, p);
    var bin := bins[CellOf(p)];
    if Proximity(bins, s, p, excluding, th) {
      var k :| 0 <= k < |bin| && Blocks(bin[k], p, excluding, th);
      assert bin[k] in registered;
    }
    if q :| q in registered && Blocks(q, p, excluding, th) {
      NearInEachCoordinate(Sub(q, p), th);
      RegisteredFoundInOwnBin(bins, registered, q, p);
      var k :| 0 <= k < |bin| && bin[k] == q;
      assert Blocks(bin[k], p, excluding, th);
    }
  }

  /** Registering the points of qs one after another. */
  function RegisterAll(bins: Bins, qs: seq<V2>): Bins
  {
    if qs == [] then bins else Register(RegisterAll(bins, qs[..|qs| - 1]), qs[|qs| - 1])
  }

  /** The points of qs whose own bin is adjacent to c, in order. */
  function Near(qs: seq<V2>, c: Cell): seq<V2>
  {
    if qs == [] then []
    else Near(qs[..|qs| - 1], c) + (if Adjacent(c, CellOf(qs[|qs| - 1])) then [qs[|qs| - 1]] else [])
  }

  /** After registering qs into the empty grid, the grid still has exactly
      its cells, and each bin lists, in registration order, the points of
      qs whose own bin is adjacent to it. */
  lemma {:induction false} RegisterAllNear(qs: seq<V2>, c: Cell)
    ensures c in RegisterAll(EmptyGrid(), qs) <==> InGrid(c)
    ensures c in RegisterAll(EmptyGrid(), qs) ==> RegisterAll(EmptyGrid(), qs)[c] == Near(qs, c)
  {
    if qs != [] {
      RegisterAllNear(qs[..|qs| - 1], c);
    }
  }
}
