/**
 The three base point collections built once by the heart: the base shape,
 the edge diffusion and the centre diffusion. Each is a duplicate-eliminating
 set that the frame step later iterates; a set is modelled as a duplicate-free
 sequence in insertion order, which fixes the iteration order Python leaves to
 hashing.
 */
module PointSets {
  import opened Particles

  /** No element occurs twice. */
  predicate NoDup<T(==)>(s: seq<T>) {
    forall i, j :: 0 <= i < j < |s| ==> s[i] != s[j]
  }

  /** set.add on the sequence view of a set. */
  function Add<T(==, !new)>(s: seq<T>, x: T): (r: seq<T>)
    ensures x in r
    ensures forall y :: y in r <==> y in s || y == x
    ensures |r| == if x in s then |s| else |s| + 1
  {
    if x in s then s else s + [x]
  }

  /** The set built by adding the elements of xs one after another. */
  function Dedup<T(==, !new)>(xs: seq<T>): seq<T>
    decreases |xs|
  {
    if xs == [] then [] else Add(Dedup(xs[..|xs| - 1]), xs[|xs| - 1])
  }

  /** Adding elements one by one yields exactly their set, once each. */
  lemma {:induction false} DedupFacts<T(!new)>(xs: seq<T>)
    ensures NoDup(Dedup(xs))
    ensures forall x :: x in Dedup(xs) <==> x in xs
    ensures |Dedup(xs)| <= |xs|
    ensures xs != [] ==> 1 <= |Dedup(xs)|
    decreases |xs|
  {
    if xs != [] {
      var init, last := xs[..|xs| - 1], xs[|xs| - 1];
      DedupFacts(init);
      assert xs == init + [last];
      var d := Dedup(init);
      if last !in d {
        forall i, j | 0 <= i < j < |d + [last]| ensures (d + [last])[i] != (d + [last])[j] {
          if j == |d| {
            assert (d + [last])[i] == d[i];
          }
        }
      }
    }
  }

  /** Offering one more element extends the set built from a prefix by that element. */
  lemma DedupSnoc<T(!new)>(xs: seq<T>, i: nat)
    requires i < |xs|
    ensures Dedup(xs[..i + 1]) == Add(Dedup(xs[..i]), xs[i])
  {
    assert xs[..i + 1][..i] == xs[..i];
  }

  /** The concatenation of a sequence of sequences, left to right. */
  function Flatten<T>(ss: seq<seq<T>>): (r: seq<T>)
    decreases |ss|
  {
    if ss == [] then [] else Flatten(ss[..|ss| - 1]) + ss[|ss| - 1]
  }

  /** Flattening one more sequence appends it. */
  lemma FlattenSnoc<T>(ss: seq<seq<T>>, s: nat)
    requires s < |ss|
    ensures Flatten(ss[..s + 1]) == Flatten(ss[..s]) + ss[s]
  {
    assert ss[..s + 1][..s] == ss[..s];
  }

  /** Flattening three sequences concatenates them in order. */
  lemma Flatten3<T>(a: seq<T>, b: seq<T>, c: seq<T>)
    ensures Flatten([a, b, c]) == a + b + c
  {
    var ss := [a, b, c];
    FlattenSnoc(ss, 0);
    FlattenSnoc(ss, 1);
    FlattenSnoc(ss, 2);
    assert ss[..0] == [] && ss[..3] == ss;
  }

  /** Two random() draws consumed by one scatter_inside call. */
  datatype ScatterDraw = ScatterDraw(u: Unit01, v: Unit01)

  /** The draws of one centre-diffusion sample: random.choice's index, then the scatter. */
  datatype CenterDraw = CenterDraw(pick: nat, u: Unit01, v: Unit01)

  /**
   Every random draw consumed while the base collections are built, by the
   position of the draw: the i-th curve angle, the k-th edge scatter (k = 3 * i + j
   for copy j of the i-th base point) and the i-th centre sample.
   */
  datatype InitDraws = InitDraws(
    angle: nat -> real,
    edge: nat -> ScatterDraw,
    center: nat -> CenterDraw)

  /** The three base collections. */
  datatype BaseSets = BaseSets(points: seq<Point>, edge: seq<Point>, center: seq<Point>)

  /** The 2000 curve samples offered to the base set, in draw order. */
  function BaseCandidates(g: Geometry, d: InitDraws): (c: seq<Point>)
    ensures |c| == BaseSamples
  {
    seq(BaseSamples, i requires 0 <= i < BaseSamples => g.heart(d.angle(i), ImageEnlarge))
  }

  /** The three scattered copies of each base point, in draw order. */
  function EdgeCandidates(g: Geometry, d: InitDraws, pts: seq<Point>): (c: seq<Point>)
    ensures |c| == EdgeCopies * |pts|
  {
    seq(EdgeCopies * |pts|, k requires 0 <= k < EdgeCopies * |pts| =>
      g.scatter(pts[k / EdgeCopies], EdgeBeta, d.edge(k).u, d.edge(k).v))
  }

  /** random.choice(list(pts)); the list must not be empty. */
  function Pick(pts: seq<Point>, pick: nat): (p: Point)
    requires |pts| > 0
    ensures p in pts
  {
    pts[pick % |pts|]
  }

  /** The 4000 scatters of randomly chosen base points, in draw order. */
  function CenterCandidates(g: Geometry, d: InitDraws, pts: seq<Point>): (c: seq<Point>)
    requires |pts| > 0
    ensures |c| == CenterSamples
  {
    seq(CenterSamples, i requires 0 <= i < CenterSamples =>
      g.scatter(Pick(pts, d.center(i).pick), CenterBeta, d.center(i).u, d.center(i).v))
  }

  /**
   The base collections the heart builds at construction: the base shape has
   between 1 and 2000 points, the edge diffusion at most three per base point,
   the centre diffusion at most 4000; each holds exactly the distinct
   candidates offered to it, once.
   */
  function InitialSets(g: Geometry, d: InitDraws): (b: BaseSets)
    ensures 1 <= |b.points| <= BaseSamples
    ensures |b.edge| <= EdgeCopies * |b.points|
    ensures |b.center| <= CenterSamples
    ensures NoDup(b.points) && NoDup(b.edge) && NoDup(b.center)
    ensures forall p :: p in b.points <==> p in BaseCandidates(g, d)
    ensures forall p :: p in b.edge <==> p in EdgeCandidates(g, d, b.points)
    ensures forall p :: p in b.center <==> p in CenterCandidates(g, d, b.points)
  {
    var base := BaseCandidates(g, d);
    DedupFacts(base);
    var pts := Dedup(base);
    var edge := EdgeCandidates(g, d, pts);
    var center := CenterCandidates(g, d, pts);
    DedupFacts(edge);
    DedupFacts(center);
    BaseSets(pts, Dedup(edge), Dedup(center))
  }
}
