/**
 One animation frame: the halo records, one per distinct shrunk curve sample,
 followed by one breathing record per point of the three base collections.
 */
module Frames {
  import opened Particles
  import opened PointSets

  /** The draws of one halo iteration: the angle, then (for a new point) two jitters and a size pick. */
  datatype HaloDraw = HaloDraw(angle: real, dx: Jitter14, dy: Jitter14, pick: Choice3)

  /** The draws of one shape record: the two jitters of _calc_position and randint(1, 3). */
  datatype ShapeDraw = ShapeDraw(dx: Jitter1, dy: Jitter1, size: Size3)

  /** Every draw of one frame: the i-th halo iteration and the j-th shape record. */
  datatype FrameDraws = FrameDraws(halo: nat -> HaloDraw, shape: nat -> ShapeDraw)

  /** random.choice((1, 2, 2)). */
  function HaloSize(pick: Choice3): (s: int)
    ensures s == 1 || s == 2
    ensures s == 1 <==> pick == 0
  {
    [1, 2, 2][pick]
  }

  /** The halo sample of one iteration: the enlarged curve point, pulled toward the centre. */
  function Shrunk(g: Geometry, radius: int, d: HaloDraw): Point {
    g.shrink(g.heart(d.angle, HaloEnlarge), radius)
  }

  /** The halo record emitted for the new halo point p. */
  function HaloRecord(p: Point, d: HaloDraw): (r: Particle)
    ensures IsHaloOf(r, p)
  {
    Particle(p.x + d.dx as real, p.y + d.dy as real, HaloSize(d.pick))
  }

  /** A halo record lies within 14 of its halo point on each axis and has size 1 or 2. */
  predicate IsHaloOf(r: Particle, p: Point) {
    && p.x - HaloJitter as real <= r.x <= p.x + HaloJitter as real
    && p.y - HaloJitter as real <= r.y <= p.y + HaloJitter as real
    && (r.size == 1 || r.size == 2)
  }

  /** The state of the halo pass: the set of halo points seen, those points in order, the records. */
  datatype HaloState = HaloState(seen: set<Point>, kept: seq<Point>, records: seq<Particle>)

  /** One halo iteration: the sample p is kept, with its record, only if it was not seen. */
  function HaloStep(st: HaloState, p: Point, rec: Particle): (r: HaloState)
    ensures p in r.seen
    ensures st.records <= r.records && |r.records| <= |st.records| + 1
  {
    if p in st.seen then st else HaloState(st.seen + {p}, st.kept + [p], st.records + [rec])
  }

  /** The halo pass after n iterations: a record is appended only for a point not seen before. */
  function HaloPass(g: Geometry, radius: int, draws: nat -> HaloDraw, n: nat): (st: HaloState)
    ensures |st.records| <= n
    decreases n
  {
    if n == 0 then HaloState({}, [], [])
    else
      var p := Shrunk(g, radius, draws(n - 1));
      HaloStep(HaloPass(g, radius, draws, n - 1), p, HaloRecord(p, draws(n - 1)))
  }

  /** The distinct halo samples among the first n iterations. */
  ghost function ShrunkImage(g: Geometry, radius: int, draws: nat -> HaloDraw, n: nat): set<Point>
    decreases n
  {
    if n == 0 then {} else ShrunkImage(g, radius, draws, n - 1) + {Shrunk(g, radius, draws(n - 1))}
  }

  /** Iteration i draws a halo sample that no earlier iteration drew. */
  ghost predicate IsFirst(g: Geometry, radius: int, draws: nat -> HaloDraw, i: nat) {
    forall j :: 0 <= j < i ==> Shrunk(g, radius, draws(j)) != Shrunk(g, radius, draws(i))
  }

  /** The distinct samples of n iterations are exactly the points some iteration i < n draws. */
  lemma {:induction false} ShrunkImageMembers(g: Geometry, radius: int, draws: nat -> HaloDraw, n: nat)
    ensures forall i :: 0 <= i < n ==> Shrunk(g, radius, draws(i)) in ShrunkImage(g, radius, draws, n)
    ensures forall q :: q in ShrunkImage(g, radius, draws, n) ==>
      exists i :: 0 <= i < n && q == Shrunk(g, radius, draws(i))
    decreases n
  {
    if n > 0 {
      ShrunkImageMembers(g, radius, draws, n - 1);
      forall q | q in ShrunkImage(g, radius, draws, n)
        ensures exists i :: 0 <= i < n && q == Shrunk(g, radius, draws(i))
      {
        if q !in ShrunkImage(g, radius, draws, n - 1) {
          assert q == Shrunk(g, radius, draws(n - 1));
        }
      }
    }
  }

  /** The seen set and the kept sequence hold the same points, each once, one record per point. */
  ghost predicate Consistent(st: HaloState) {
    && NoDup(st.kept)
    && (forall p :: p in st.kept <==> p in st.seen)
    && |st.records| == |st.kept| == |st.seen|
  }

  /** One halo iteration adds p to the seen set. */
  lemma HaloStepSeen(st: HaloState, p: Point, rec: Particle)
    ensures HaloStep(st, p, rec).seen == st.seen + {p}
  {
    if p in st.seen {
      assert st.seen + {p} == st.seen;
    }
  }

  /** One halo iteration keeps the state consistent. */
  lemma HaloStepConsistent(st: HaloState, p: Point, rec: Particle)
    requires Consistent(st)
    ensures Consistent(HaloStep(st, p, rec))
  {
    if p !in st.seen {
      var k := st.kept + [p];
      forall i, j | 0 <= i < j < |k| ensures k[i] != k[j] {
        if j == |st.kept| {
          assert k[i] == st.kept[i];
        }
      }
      assert |st.seen + {p}| == |st.seen| + 1;
    }
  }

  /** The seen set of the halo pass is the set of all samples drawn. */
  lemma {:induction false} HaloPassSeen(g: Geometry, radius: int, draws: nat -> HaloDraw, n: nat)
    ensures HaloPass(g, radius, draws, n).seen == ShrunkImage(g, radius, draws, n)
    decreases n
  {
    if n > 0 {
      HaloPassSeen(g, radius, draws, n - 1);
      var st := HaloPass(g, radius, draws, n - 1);
      var p := Shrunk(g, radius, draws(n - 1));
      HaloStepSeen(st, p, HaloRecord(p, draws(n - 1)));
    }
  }

  /** The halo pass keeps each distinct sample once, with one record per sample. */
  lemma {:induction false} HaloPassConsistent(g: Geometry, radius: int, draws: nat -> HaloDraw, n: nat)
    ensures Consistent(HaloPass(g, radius, draws, n))
    decreases n
  {
    if n > 0 {
      HaloPassConsistent(g, radius, draws, n - 1);
      var st := HaloPass(g, radius, draws, n - 1);
      var p := Shrunk(g, radius, draws(n - 1));
      HaloStepConsistent(st, p, HaloRecord(p, draws(n - 1)));
    }
  }

  /** n iterations draw at most n distinct halo samples. */
  lemma {:induction false} ShrunkImageSize(g: Geometry, radius: int, draws: nat -> HaloDraw, n: nat)
    ensures |ShrunkImage(g, radius, draws, n)| <= n
    decreases n
  {
    if n > 0 {
      ShrunkImageSize(g, radius, draws, n - 1);
      var before := ShrunkImage(g, radius, draws, n - 1);
      var p := Shrunk(g, radius, draws(n - 1));
      if p in before {
        assert before + {p} == before;
      } else {
        assert |before + {p}| == |before| + 1;
      }
    }
  }

  /**
   The halo pass emits one record per distinct halo sample, so at most one per
   iteration, and at least one once any iteration ran.
   */
  lemma HaloPassCount(g: Geometry, radius: int, draws: nat -> HaloDraw, n: nat)
    ensures Consistent(HaloPass(g, radius, draws, n))
    ensures |HaloPass(g, radius, draws, n).records| == |ShrunkImage(g, radius, draws, n)| <= n
    ensures n >= 1 ==> |HaloPass(g, radius, draws, n).records| >= 1
  {
    HaloPassSeen(g, radius, draws, n);
    HaloPassConsistent(g, radius, draws, n);
    ShrunkImageSize(g, radius, draws, n);
    if n >= 1 {
      ShrunkImageMembers(g, radius, draws, n);
      assert Shrunk(g, radius, draws(0)) in ShrunkImage(g, radius, draws, n);
    }
  }

  /** Record k of the state is the record of a first occurrence among n iterations. */
  ghost predicate FromFirst(g: Geometry, radius: int, draws: nat -> HaloDraw, n: nat, st: HaloState, k: nat)
    requires k < |st.records| && k < |st.kept|
  {
    exists i :: 0 <= i < n && IsFirst(g, radius, draws, i)
      && st.kept[k] == Shrunk(g, radius, draws(i))
      && st.records[k] == HaloRecord(Shrunk(g, radius, draws(i)), draws(i))
  }

  /** Every record of the state comes from a first occurrence among n iterations. */
  ghost predicate AllFromFirst(g: Geometry, radius: int, draws: nat -> HaloDraw, n: nat, st: HaloState) {
    && |st.records| == |st.kept|
    && forall k :: 0 <= k < |st.records| ==> FromFirst(g, radius, draws, n, st, k)
  }

  /** A record kept at the same place stays the record of a first occurrence after one more iteration. */
  lemma FromFirstGrow(g: Geometry, radius: int, draws: nat -> HaloDraw, n: nat, st: HaloState, st': HaloState, k: nat)
    requires n > 0 && k < |st.records| && k < |st.kept| && k < |st'.records| && k < |st'.kept|
    requires st'.kept[k] == st.kept[k] && st'.records[k] == st.records[k]
    requires FromFirst(g, radius, draws, n - 1, st, k)
    ensures FromFirst(g, radius, draws, n, st', k)
  {
    var i :| 0 <= i < n - 1 && IsFirst(g, radius, draws, i)
      && st.kept[k] == Shrunk(g, radius, draws(i))
      && st.records[k] == HaloRecord(Shrunk(g, radius, draws(i)), draws(i));
  }

  /** Iteration n - 1 keeps the record-provenance of the halo state. */
  lemma HaloStepFromFirst(g: Geometry, radius: int, draws: nat -> HaloDraw, n: nat, st: HaloState)
    requires n > 0
    requires st.seen == ShrunkImage(g, radius, draws, n - 1)
    requires AllFromFirst(g, radius, draws, n - 1, st)
    ensures AllFromFirst(g, radius, draws, n,
      HaloStep(st, Shrunk(g, radius, draws(n - 1)), HaloRecord(Shrunk(g, radius, draws(n - 1)), draws(n - 1))))
  {
    var p := Shrunk(g, radius, draws(n - 1));
    var st' := HaloStep(st, p, HaloRecord(p, draws(n - 1)));
    if p in st.seen {
      forall k | 0 <= k < |st'.records| ensures FromFirst(g, radius, draws, n, st', k) {
        FromFirstGrow(g, radius, draws, n, st, st', k);
      }
    } else {
      var m := |st.records|;
      assert IsFirst(g, radius, draws, n - 1) by {
        ShrunkImageMembers(g, radius, draws, n - 1);
      }
      forall k | 0 <= k < |st'.records| ensures FromFirst(g, radius, draws, n, st', k) {
        if k == m {
          assert st'.kept[k] == p && st'.records[k] == HaloRecord(p, draws(n - 1));
        } else {
          FromFirstGrow(g, radius, draws, n, st, st', k);
        }
      }
    }
  }

  /** Every record of the halo pass comes from the first iteration that drew its point. */
  lemma {:induction false} HaloPassFromFirst(g: Geometry, radius: int, draws: nat -> HaloDraw, n: nat)
    ensures AllFromFirst(g, radius, draws, n, HaloPass(g, radius, draws, n))
    decreases n
  {
    if n > 0 {
      HaloPassFromFirst(g, radius, draws, n - 1);
      HaloPassSeen(g, radius, draws, n - 1);
      HaloStepFromFirst(g, radius, draws, n, HaloPass(g, radius, draws, n - 1));
    }
  }

  /**
   Each halo record belongs to the first iteration that drew its halo point: it
   is that point plus that iteration's jitter and size, so it lies within 14 of
   the point on each axis and has size 1 or 2.
   */
  lemma HaloPassRecords(g: Geometry, radius: int, draws: nat -> HaloDraw, n: nat)
    ensures |HaloPass(g, radius, draws, n).records| == |HaloPass(g, radius, draws, n).kept|
    ensures forall k :: 0 <= k < |HaloPass(g, radius, draws, n).records| ==>
      FromFirst(g, radius, draws, n, HaloPass(g, radius, draws, n), k)
    ensures forall k :: 0 <= k < |HaloPass(g, radius, draws, n).records| ==>
      IsHaloOf(HaloPass(g, radius, draws, n).records[k], HaloPass(g, radius, draws, n).kept[k])
  {
    var st := HaloPass(g, radius, draws, n);
    HaloPassFromFirst(g, radius, draws, n);
    forall k | 0 <= k < |st.records| ensures IsHaloOf(st.records[k], st.kept[k]) {
      assert FromFirst(g, radius, draws, n, st, k);
      var i :| 0 <= i < n && IsFirst(g, radius, draws, i)
        && st.kept[k] == Shrunk(g, radius, draws(i))
        && st.records[k] == HaloRecord(Shrunk(g, radius, draws(i)), draws(i));
    }
  }

  /** _calc_position: the point minus the breathing displacement and a jitter of at most 1. */
  function CalcPosition(g: Geometry, p: Point, ratio: real, d: ShapeDraw): (q: Point)
    ensures -1.0 <= (p.x - g.force(p, ratio).x) - q.x <= 1.0
    ensures -1.0 <= (p.y - g.force(p, ratio).y) - q.y <= 1.0
  {
    var f := g.force(p, ratio);
    Point(p.x - (f.x + d.dx as real), p.y - (f.y + d.dy as real))
  }

  /** The breathing record of one base point. */
  function ShapeRecord(g: Geometry, ratio: real, p: Point, d: ShapeDraw): (r: Particle)
    ensures 1 <= r.size <= 3
  {
    var q := CalcPosition(g, p, ratio, d);
    Particle(q.x, q.y, d.size)
  }

  /** One breathing record per point, in order; the j-th uses the j-th shape draw. */
  function ShapeRecords(g: Geometry, ratio: real, draws: nat -> ShapeDraw, pts: seq<Point>): (rs: seq<Particle>)
    ensures |rs| == |pts|
  {
    seq(|pts|, j requires 0 <= j < |pts| => ShapeRecord(g, ratio, pts[j], draws(j)))
  }

  /** Appending a point to the shape pass appends its record. */
  lemma ShapeRecordsSnoc(g: Geometry, ratio: real, draws: nat -> ShapeDraw, pts: seq<Point>, p: Point)
    ensures ShapeRecords(g, ratio, draws, pts + [p])
         == ShapeRecords(g, ratio, draws, pts) + [ShapeRecord(g, ratio, p, draws(|pts|))]
  {
    var a := ShapeRecords(g, ratio, draws, pts + [p]);
    var b := ShapeRecords(g, ratio, draws, pts) + [ShapeRecord(g, ratio, p, draws(|pts|))];
    forall j | 0 <= j < |a| ensures a[j] == b[j] {
      if j < |pts| {
        assert (pts + [p])[j] == pts[j];
      }
    }
  }

  /** The whole frame: halo records, then breathing records for the three base collections. */
  function FrameOf(g: Geometry, d: FrameDraws, pulse: Pulse, base: BaseSets): (r: seq<Particle>)
    ensures HaloPass(g, pulse.haloRadius, d.halo, pulse.haloNumber).records <= r
    ensures |r| >= |base.points| + |base.edge| + |base.center|
  {
    HaloPass(g, pulse.haloRadius, d.halo, pulse.haloNumber).records
      + ShapeRecords(g, pulse.ratio, d.shape, base.points + base.edge + base.center)
  }

  /**
   The layout of a frame: its length is the number of distinct halo samples plus
   the sizes of the three base collections; the halo records come first, each
   of size 1 or 2, and at most haloNumber of them; then one record per base,
   edge and centre point in that order, each of size 1, 2 or 3.
   */
  lemma FrameLayout(g: Geometry, d: FrameDraws, pulse: Pulse, base: BaseSets)
    ensures var h := |HaloPass(g, pulse.haloRadius, d.halo, pulse.haloNumber).records|;
      && h == |ShrunkImage(g, pulse.haloRadius, d.halo, pulse.haloNumber)| <= pulse.haloNumber
      && |FrameOf(g, d, pulse, base)| == h + |base.points| + |base.edge| + |base.center|
      && FrameOf(g, d, pulse, base)[..h] == HaloPass(g, pulse.haloRadius, d.halo, pulse.haloNumber).records
      && (forall k :: 0 <= k < h ==> FrameOf(g, d, pulse, base)[k].size in {1, 2})
      && (forall j :: 0 <= j < |base.points + base.edge + base.center| ==>
            FrameOf(g, d, pulse, base)[h + j]
              == ShapeRecord(g, pulse.ratio, (base.points + base.edge + base.center)[j], d.shape(j))
            && FrameOf(g, d, pulse, base)[h + j].size in {1, 2, 3})
  {
    var halo := HaloPass(g, pulse.haloRadius, d.halo, pulse.haloNumber);
    HaloPassCount(g, pulse.haloRadius, d.halo, pulse.haloNumber);
    HaloPassRecords(g, pulse.haloRadius, d.halo, pulse.haloNumber);
    var h := |halo.records|;
    forall k | 0 <= k < h ensures FrameOf(g, d, pulse, base)[k].size in {1, 2} {
      assert IsHaloOf(halo.records[k], halo.kept[k]);
    }
  }
}
