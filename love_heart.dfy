/**
 The Heart animation: it builds its three base point collections once, then
 computes and caches every frame, and the renderer looks frames up by the
 frame counter modulo the number of frames.
 */
module LoveHeart {
  import opened Particles
  import opened PointSets
  import opened Frames
  import opened FrameCache

  /** Every random draw the heart consumes: at construction, and per frame index. */
  datatype Randomness = Randomness(init: InitDraws, frames: int -> FrameDraws)

  class Heart {
    const geometry: Geometry
    const random: Randomness
    /** The frame cache. */
    var allPoints: map<int, seq<Particle>>
    /** The base shape, the edge diffusion and the centre diffusion, built once. */
    const points: seq<Point>
    const edgeDiffusionPoints: seq<Point>
    const centerDiffusionPoints: seq<Point>
    var generateFrame: int

    /** The three base collections as one value. */
    function Base(): BaseSets {
      BaseSets(points, edgeDiffusionPoints, centerDiffusionPoints)
    }

    /** The frame the heart computes for index k from its base collections. */
    function Frame(k: int): seq<Particle> {
      FrameFor(geometry, random.frames, Base(), k)
    }

    /** A built heart: its base collections and its full frame cache. */
    ghost predicate Valid()
      reads this
    {
      && Base() == InitialSets(geometry, random.init)
      && allPoints == Cache(geometry, random.frames, Base(), generateFrame)
    }

    /** Builds the base collections, then stores frames 0 .. generateFrame - 1. */
    constructor (generateFrame: int, geometry: Geometry, random: Randomness)
      ensures this.generateFrame == generateFrame
      ensures this.geometry == geometry && this.random == random
      ensures Valid()
      ensures forall k :: k in allPoints <==> 0 <= k < generateFrame
    {
      this.geometry := geometry;
      this.random := random;
      allPoints := map[];
      var pts, edge, center := InitPoints(geometry, random.init);
      points, edgeDiffusionPoints, centerDiffusionPoints := pts, edge, center;
      this.generateFrame := generateFrame;
      new;
      GenerateAnimationFrames();
    }

    /** Builds the base shape, then its edge diffusion, then the centre diffusion. */
    static method InitPoints(geometry: Geometry, d: InitDraws)
      returns (points: seq<Point>, edgeDiffusionPoints: seq<Point>, centerDiffusionPoints: seq<Point>)
      ensures BaseSets(points, edgeDiffusionPoints, centerDiffusionPoints) == InitialSets(geometry, d)
    {

      // The base shape: 2000 curve samples added to a set.
      ghost var baseOffers := BaseCandidates(geometry, d);
      var pts: seq<Point> := [];
      for i := 0 to BaseSamples
        invariant pts == Dedup(baseOffers[..i])
      {
        var t := d.angle(i);
        var p := geometry.heart(t, ImageEnlarge);
        assert p == baseOffers[i];
        DedupSnoc(baseOffers, i);
        if p !in pts {
          pts := pts + [p];
        }
      }
      assert baseOffers[..BaseSamples] == baseOffers;
      DedupFacts(baseOffers);

      // The edge diffusion: three scattered copies of every base point.
      ghost var edgeOffers := EdgeCandidates(geometry, d, pts);
      var edge: seq<Point> := [];
      for i := 0 to |pts|
        invariant edge == Dedup(edgeOffers[..EdgeCopies * i])
      {
        var p := pts[i];
        for j := 0 to EdgeCopies
          invariant edge == Dedup(edgeOffers[..EdgeCopies * i + j])
        {
          var k := EdgeCopies * i + j;
          assert k / EdgeCopies == i;
          var s := d.edge(k);
          var q := geometry.scatter(p, EdgeBeta, s.u, s.v);
          assert q == edgeOffers[k];
          DedupSnoc(edgeOffers, k);
          if q !in edge {
            edge := edge + [q];
          }
        }
      }
      assert edgeOffers[..EdgeCopies * |pts|] == edgeOffers;

      // The centre diffusion: 4000 scatters of randomly chosen base points.
      ghost var centerOffers := CenterCandidates(geometry, d, pts);
      var center: seq<Point> := [];
      for i := 0 to CenterSamples
        invariant center == Dedup(centerOffers[..i])
      {
        var c := d.center(i);
        var p := pts[c.pick % |pts|];
        var q := geometry.scatter(p, CenterBeta, c.u, c.v);
        assert q == centerOffers[i];
        DedupSnoc(centerOffers, i);
        if q !in center {
          center := center + [q];
        }
      }
      assert centerOffers[..CenterSamples] == centerOffers;
      points, edgeDiffusionPoints, centerDiffusionPoints := pts, edge, center;
    }

    /** Stores the frames 0 .. generateFrame - 1, in order. */
    method GenerateAnimationFrames()
      modifies this`allPoints
      ensures allPoints == old(allPoints) + Cache(geometry, random.frames, Base(), generateFrame)
    {
      ghost var start := allPoints;
      ghost var frames := FrameTable(geometry, random.frames, Base());
      // range(generate_frame) is empty when generate_frame is negative.
      var count := if generateFrame < 0 then 0 else generateFrame;
      for frame := 0 to count
        invariant allPoints == start + Table(frames, frame)
      {
        CalcFrame(frame);
        TableExtend(start, frames, frame);
      }
    }

    /**
     Computes frame `frame` and stores it: the halo pass, then one breathing
     record per point of the three base collections. Every other stored frame
     stays as it was.
     */
    method CalcFrame(frame: int)
      modifies this`allPoints
      ensures allPoints == old(allPoints)[frame := Frame(frame)]
      ensures forall k :: k in old(allPoints) && k != frame ==> k in allPoints && allPoints[k] == old(allPoints)[k]
    {
      var pulse := PulseOf(geometry.curve(frame));
      var draws := random.frames(frame);
      var halo := CalcHalo(geometry, pulse.haloRadius, pulse.haloNumber, draws.halo);
      var shape := CalcShape(geometry, pulse.ratio, draws.shape, [points, edgeDiffusionPoints, centerDiffusionPoints]);
      Flatten3(points, edgeDiffusionPoints, centerDiffusionPoints);
      var framePoints := halo + shape;
      assert framePoints == FrameOf(geometry, draws, pulse, Base());
      allPoints := allPoints[frame := framePoints];
    }

    /** The halo part of _calc_frame: a record for the first occurrence of each shrunk sample. */
    static method CalcHalo(geometry: Geometry, haloRadius: int, haloNumber: nat, draws: nat -> HaloDraw)
      returns (framePoints: seq<Particle>)
      ensures framePoints == HaloPass(geometry, haloRadius, draws, haloNumber).records
    {
      framePoints := [];
      var haloPoints: set<Point> := {};
      ghost var kept: seq<Point> := [];
      var haloSizes := [1, 2, 2];
      for i := 0 to haloNumber
        invariant HaloPass(geometry, haloRadius, draws, i) == HaloState(haloPoints, kept, framePoints)
      {
        var d := draws(i);
        var h := geometry.heart(d.angle, HaloEnlarge);
        var p := geometry.shrink(h, haloRadius);
        if p !in haloPoints {
          haloPoints := haloPoints + {p};
          kept := kept + [p];
          framePoints := framePoints + [Particle(p.x + d.dx as real, p.y + d.dy as real, haloSizes[d.pick])];
        }
      }
    }

    /**
     The shape part of _calc_frame: one breathing record per point of each
     collection in turn, the n-th record using the n-th shape draw.
     */
    static method CalcShape(geometry: Geometry, ratio: real, draws: nat -> ShapeDraw, pointSets: seq<seq<Point>>)
      returns (framePoints: seq<Particle>)
      ensures framePoints == ShapeRecords(geometry, ratio, draws, Flatten(pointSets))
    {
      framePoints := [];
      var n := 0;
      for s := 0 to |pointSets|
        invariant framePoints == ShapeRecords(geometry, ratio, draws, Flatten(pointSets[..s]))
        invariant n == |Flatten(pointSets[..s])|
      {
        var pointSet := pointSets[s];
        for j := 0 to |pointSet|
          invariant framePoints == ShapeRecords(geometry, ratio, draws, Flatten(pointSets[..s]) + pointSet[..j])
          invariant n == |Flatten(pointSets[..s])| + j
        {
          var sd := draws(n);
          var q := CalcPosition(geometry, pointSet[j], ratio, sd);
          framePoints := framePoints + [Particle(q.x, q.y, sd.size)];
          ShapeRecordsSnoc(geometry, ratio, draws, Flatten(pointSets[..s]) + pointSet[..j], pointSet[j]);
          assert pointSet[..j + 1] == pointSet[..j] + [pointSet[j]];
          n := n + 1;
        }
        FlattenSnoc(pointSets, s);
        assert pointSet[..|pointSet|] == pointSet;
      }
      assert pointSets[..|pointSets|] == pointSets;
    }

    /**
     The frame drawn for the frame counter: all_points[frame % generate_frame].
     On a built heart with generateFrame > 0 it is always a stored frame.
     */
    method Render(frame: int) returns (r: Lookup)
      ensures r == Get(allPoints, generateFrame, frame)
      ensures Valid() && generateFrame > 0 ==> r == Found(Frame(PyMod(frame, generateFrame)))
      ensures Valid() && generateFrame > 0 ==> |r.frame| >= 1 + |points| >= 2
      ensures Valid() && generateFrame == 0 ==> r == ZeroDivisionError
      ensures Valid() && generateFrame < 0 ==> r == KeyError
    {
      if generateFrame == 0 {
        r := ZeroDivisionError;
      } else {
        var k := PyMod(frame, generateFrame);
        if k in allPoints {
          r := Found(allPoints[k]);
        } else {
          r := KeyError;
        }
      }
      GetBuilt(geometry, random.frames, Base(), generateFrame, frame);
      if generateFrame > 0 {
        FrameNonEmpty(geometry, random.frames, Base(), PyMod(frame, generateFrame));
      }
    }
  }
}
