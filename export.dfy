/** The null-splitting loop of `exportSVG` (js/sketch.js:533-553): a
    walker's path is cut at every `null` break into runs of points, each
    point mapped from world coordinates [-size, size] onto the canvas.
    Empty runs (two breaks in a row, or a break at either end) are not
    emitted. */
module Export {
  import opened Numeric
  import opened VectorMath
  import opened Motion

  /** `config.size` and the canvas dimensions the export maps onto. */
  datatype Frame = Frame(size: real, width: real, height: real)

  /** `map(pt[0], -size, size, 0, canvasWidth)` and the same for y. The
      map is undefined for size 0, where both ends of the source range
      coincide. */
  function ToScreen(f: Frame, q: V2): V2
    requires f.size != 0.0
  {
    V2(MapRange(q.x, -f.size, f.size, 0.0, f.width), MapRange(q.y, -f.size, f.size, 0.0, f.height))
  }

  /** The loop state after a prefix of the path: the segments pushed so
      far, and the segment being built. */
  datatype Split = Split(segments: seq<seq<V2>>, current: seq<V2>)

  /** The loop body applied to each entry of the path in turn. */
  function SplitPrefix(f: Frame, path: seq<Entry>): Split
    requires f.size != 0.0
  {
    if path == [] then Split([], [])
    else
      var st := SplitPrefix(f, path[..|path| - 1]);
      match path[|path| - 1]
      case Break => if |st.current| > 0 then Split(st.segments + [st.current], []) else st
      case Pt(q) => Split(st.segments, st.current + [ToScreen(f, q)])
  }

  /** The segments the loop leaves behind, including the trailing one. */
  function Segments(f: Frame, path: seq<Entry>): seq<seq<V2>>
    requires f.size != 0.0
  {
    var st := SplitPrefix(f, path);
    if |st.current| > 0 then st.segments + [st.current] else st.segments
  }

  /** The screen positions of the path's points, in order, breaks dropped:
      an independent statement of what the segments hold. */
  function ScreenPoints(f: Frame, path: seq<Entry>): seq<V2>
    requires f.size != 0.0
  {
    if path == [] then []
    else
      ScreenPoints(f, path[..|path| - 1])
        + (match path[|path| - 1] case Pt(q) => [ToScreen(f, q)] case Break => [])
  }

  function Flatten(segs: seq<seq<V2>>): seq<V2>
  {
    if segs == [] then [] else Flatten(segs[..|segs| - 1]) + segs[|segs| - 1]
  }

  /** Every segment is non-empty. */
  predicate AllNonEmpty(segs: seq<seq<V2>>)
  {
    forall k :: 0 <= k < |segs| ==> |segs[k]| > 0
  }

  /** The loop over `path`, pushing into `pathSegments` and
      `currentSegment` as the source does. */
  method SplitPath(f: Frame, path: seq<Entry>) returns (pathSegments: seq<seq<V2>>)
    requires f.size != 0.0
    ensures pathSegments == Segments(f, path)
  {
    pathSegments := [];
    var currentSegment: seq<V2> := [];
    var j := 0;
    while j < |path|
      invariant 0 <= j <= |path|
      invariant Split(pathSegments, currentSegment) == SplitPrefix(f, path[..j])
    {
      assert path[..j + 1][..j] == path[..j];
      var pt := path[j];
      if pt.Break? {
        if |currentSegment| > 0 {
          pathSegments := pathSegments + [currentSegment];
          currentSegment := [];
        }
      } else {
        var screen := ToScreen(f, pt.pt);
        currentSegment := currentSegment + [screen];
      }
      j := j + 1;
    }
    assert path[..|path|] == path;
    if |currentSegment| > 0 {
      pathSegments := pathSegments + [currentSegment];
    }
  }

  lemma FlattenSnoc(segs: seq<seq<V2>>, seg: seq<V2>)
    ensures Flatten(segs + [seg]) == Flatten(segs) + seg
  {
    assert (segs + [seg])[..|segs|] == segs;
  }

  /** The loop invariant behind the export: pushed segments are non-empty,
      and the pushed segments followed by the current one are exactly the
      screen points seen so far. */
  lemma {:induction false} SplitPrefixKeepsPoints(f: Frame, path: seq<Entry>)
    requires f.size != 0.0
    ensures AllNonEmpty(SplitPrefix(f, path).segments)
    ensures Flatten(SplitPrefix(f, path).segments) + SplitPrefix(f, path).current == ScreenPoints(f, path)
  {
    if path != [] {
      var prefix := path[..|path| - 1];
      SplitPrefixKeepsPoints(f, prefix);
      var st := SplitPrefix(f, prefix);
      match path[|path| - 1]
      case Break =>
        if |st.current| > 0 {
          FlattenSnoc(st.segments, st.current);
          assert Flatten(st.segments + [st.current]) + [] == ScreenPoints(f, prefix);
        }
        assert ScreenPoints(f, path) == ScreenPoints(f, prefix) + [];
      case Pt(q) =>
        assert Flatten(st.segments) + (st.current + [ToScreen(f, q)])
            == (Flatten(st.segments) + st.current) + [ToScreen(f, q)];
    }
  }

  /** Splitting loses, adds and reorders no point, and emits no empty
      segment. */
  lemma SegmentsPartitionPoints(f: Frame, path: seq<Entry>)
    requires f.size != 0.0
    ensures AllNonEmpty(Segments(f, path))
    ensures Flatten(Segments(f, path)) == ScreenPoints(f, path)
  {
    SplitPrefixKeepsPoints(f, path);
    var st := SplitPrefix(f, path);
    if |st.current| > 0 {
      FlattenSnoc(st.segments, st.current);
    } else {
      assert st.current == [];
      assert Flatten(st.segments) + [] == Flatten(st.segments);
    }
  }

  /** Only a break closes a segment: the pushed segments are at most as
      many as the breaks seen. */
  lemma {:induction false} SplitPrefixCountsBreaks(f: Frame, path: seq<Entry>)
    requires f.size != 0.0
    ensures |SplitPrefix(f, path).segments| <= Breaks(path)
  {
    if path != [] {
      SplitPrefixCountsBreaks(f, path[..|path| - 1]);
    }
  }

  /** A path with b breaks splits into at most b + 1 segments. */
  lemma SegmentsBound(f: Frame, path: seq<Entry>)
    requires f.size != 0.0
    ensures |Segments(f, path)| <= Breaks(path) + 1
  {
    SplitPrefixCountsBreaks(f, path);
  }

  /** A path with no break and at least one point exports as one
      segment holding all its points. */
  lemma {:induction false} UnbrokenPathIsOneSegment(f: Frame, path: seq<Entry>)
    requires f.size != 0.0 && Breaks(path) == 0 && ScreenPoints(f, path) != []
    ensures Segments(f, path) == [ScreenPoints(f, path)]
  {
    SplitPrefixCountsBreaks(f, path);
    SplitPrefixKeepsPoints(f, path);
    var st := SplitPrefix(f, path);
    assert st.segments == [];
    assert Flatten(st.segments) == [];
    assert st.current == ScreenPoints(f, path);
    assert Segments(f, path) == [] + [st.current];
  }

  /** Each path of a simulation started from fresh walkers exports as at
      most three segments: a walker records at most two breaks. */
  lemma AtMostThreeSegments(f: Frame, world: World, s: real, env: Env, i: nat)
    requires f.size != 0.0
    requires WorldOk(world, s) && BreaksTrackModes(world) && i < |world.walkers|
    ensures |Segments(f, SceneStep(world, s, env).paths[i])| <= 3
  {
    AtMostTwoBreaks(world, s, env);
    SegmentsBound(f, SceneStep(world, s, env).paths[i]);
  }
}
