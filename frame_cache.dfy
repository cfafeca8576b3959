/**
 The frame cache: a map from frame index to frame, filled for the indices
 0 .. generateFrame - 1, and the lookup the renderer performs with Python's
 floored modulo.
 */
module FrameCache {
  import opened Particles
  import opened PointSets
  import opened Frames

  /** A nonzero multiple of n is at least n. */
  lemma MulAtLeast(d: int, n: int)
    requires d >= 1 && n > 0
    ensures d * n >= n
  {
    assert d * n == (d - 1) * n + n;
    assert (d - 1) * n >= 0;
  }

  /** The remainder of Euclidean division is the only one in [0, n). */
  lemma ModUnique(a: int, n: int, q: int, r: int)
    requires n > 0 && 0 <= r < n && a == q * n + r
    ensures a % n == r
  {
    var q', r' := a / n, a % n;
    assert a == q' * n + r';
    assert q * n - q' * n == r' - r;
    assert (q - q') * n == q * n - q' * n;
    if q > q' {
      MulAtLeast(q - q', n);
    } else if q < q' {
      MulAtLeast(q' - q, n);
    }
  }

  /** Adding n does not change the remainder modulo n. */
  lemma ModAdd(a: int, n: int)
    requires n > 0
    ensures (a + n) % n == a % n
  {
    var q, r := a / n, a % n;
    assert a == q * n + r;
    assert (q + 1) * n == q * n + n;
    ModUnique(a + n, n, q + 1, r);
  }

  /** a minus its Euclidean remainder is a multiple of n. */
  lemma ModCongruent(a: int, n: int)
    requires n > 0
    ensures (a - a % n) % n == 0
  {
    var q := a / n;
    assert a - a % n == q * n;
    ModUnique(a - a % n, n, q, 0);
  }

  /** a plus the Euclidean remainder of -a is a multiple of m. */
  lemma NegModCongruent(a: int, m: int)
    requires m > 0
    ensures (a + (-a) % m) % m == 0
  {
    var q := (-a) / m;
    assert -a == q * m + (-a) % m;
    assert a + (-a) % m == (-q) * m;
    ModUnique(a + (-a) % m, m, -q, 0);
  }

  /**
   Python's a % n: the remainder takes the sign of n, differs from a by a
   multiple of n, and an index already in [0, n) is its own remainder.
   */
  function PyMod(a: int, n: int): (r: int)
    requires n != 0
    ensures n > 0 ==> 0 <= r < n
    ensures n < 0 ==> n < r <= 0
    ensures (a - r) % (if n > 0 then n else -n) == 0
    ensures 0 <= a < n ==> r == a
  {
    if n > 0 then
      ModCongruent(a, n);
      if 0 <= a < n then ModUnique(a, n, 0, a); a % n else a % n
    else
      NegModCongruent(a, -n);
      -((-a) % (-n))
  }

  /** Adding the modulus does not change the remainder. */
  lemma PyModPeriodic(a: int, n: int)
    requires n != 0
    ensures PyMod(a + n, n) == PyMod(a, n)
  {
    if n > 0 {
      ModAdd(a, n);
    } else {
      assert -(a + n) == -a + (-n);
      ModAdd(-a, -n);
    }
  }

  /** The frame that index k holds, computed from k's draws and pulse. */
  function FrameFor(g: Geometry, draws: int -> FrameDraws, base: BaseSets, k: int): seq<Particle> {
    FrameOf(g, draws(k), PulseOf(g.curve(k)), base)
  }

  /** Every frame index with its frame, as one function value. */
  function FrameTable(g: Geometry, draws: int -> FrameDraws, base: BaseSets): int -> seq<Particle> {
    k => FrameFor(g, draws, base, k)
  }

  /** The map holding f(k) at each key k of 0 .. n - 1, and no other key, filled in key order. */
  function Table<V>(f: int -> V, n: int): (c: map<int, V>)
    ensures forall k :: k in c <==> 0 <= k < n
    decreases n
  {
    if n <= 0 then map[] else Table(f, n - 1)[n - 1 := f(n - 1)]
  }

  /** Each key of a table holds the value of f at that key. */
  lemma {:induction false} TableAt<V>(f: int -> V, n: int, k: int)
    requires 0 <= k < n
    ensures Table(f, n)[k] == f(k)
    decreases n
  {
    if k < n - 1 {
      TableAt(f, n - 1, k);
    }
  }

  /** The cache after frames 0 .. n - 1 have been stored. */
  function Cache(g: Geometry, draws: int -> FrameDraws, base: BaseSets, n: int): (c: map<int, seq<Particle>>)
    ensures forall k :: k in c <==> 0 <= k < n
  {
    Table(FrameTable(g, draws, base), n)
  }

  /** Storing f(n) into a map holding the table of n entries yields the table of n + 1 entries. */
  lemma TableExtend<V>(before: map<int, V>, f: int -> V, n: nat)
    ensures (before + Table(f, n))[n := f(n)] == before + Table(f, n + 1)
  {
    var left := (before + Table(f, n))[n := f(n)];
    var right := before + Table(f, n + 1);
    assert right == before + Table(f, n)[n := f(n)];
    assert left.Keys == right.Keys;
  }

  /**
   Every frame holds at least one halo record (a frame draws at least 3000
   halo samples) and one breathing record per base, edge and centre point.
   */
  lemma FrameNonEmpty(g: Geometry, draws: int -> FrameDraws, base: BaseSets, k: int)
    ensures |FrameFor(g, draws, base, k)| >= 1 + |base.points| + |base.edge| + |base.center|
  {
    var pulse := PulseOf(g.curve(k));
    FrameLayout(g, draws(k), pulse, base);
    HaloPassCount(g, pulse.haloRadius, draws(k).halo, pulse.haloNumber);
  }

  /** What all_points[frame % generate_frame] yields. */
  datatype Lookup = Found(frame: seq<Particle>) | ZeroDivisionError | KeyError

  /** The renderer's lookup into a cache built for generateFrame frames. */
  function Get(cache: map<int, seq<Particle>>, generateFrame: int, frame: int): (r: Lookup)
    ensures r.Found? ==> r.frame in cache.Values
    ensures generateFrame == 0 <==> r == ZeroDivisionError
  {
    if generateFrame == 0 then ZeroDivisionError
    else
      var k := PyMod(frame, generateFrame);
      if k in cache then Found(cache[k]) else KeyError
  }

  /**
   On a cache built for n > 0 frames every frame number finds a stored frame,
   the one of index frame % n, and frame and frame + n find the same one; with
   n <= 0 no frame number finds anything.
   */
  lemma GetBuilt(g: Geometry, draws: int -> FrameDraws, base: BaseSets, n: int, frame: int)
    ensures n > 0 ==> Get(Cache(g, draws, base, n), n, frame)
                      == Found(FrameFor(g, draws, base, PyMod(frame, n)))
    ensures n > 0 ==> Get(Cache(g, draws, base, n), n, frame + n) == Get(Cache(g, draws, base, n), n, frame)
    ensures n == 0 ==> Get(Cache(g, draws, base, n), n, frame) == ZeroDivisionError
    ensures n < 0 ==> Get(Cache(g, draws, base, n), n, frame) == KeyError
  {
    if n != 0 {
      PyModPeriodic(frame, n);
    }
    if n > 0 {
      TableAt(FrameTable(g, draws, base), n, PyMod(frame, n));
    }
  }
}
