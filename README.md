# LoveHeart: the bookkeeping of the beating heart

`LoveHeart.py` draws a beating heart on a tkinter canvas. Its `Heart` class builds three
point sets once:
- the base shape: 2000 samples of the heart curve;
- the edge diffusion: three scattered copies of each base point;
- the centre diffusion: 4000 scatters of randomly chosen base points.

It then precomputes `generate_frame` animation frames into the cache `all_points`. A frame is
an ordered list of `(x, y, size)` records:
- a halo, with one record for the first occurrence of each shrunk sample of a slightly larger
  heart;
- then one breathing record for every point of the three sets, in that order.

`render` plays frame `frame % generate_frame`.

This project models that bookkeeping in Dafny and proves what it guarantees: the counting, the
order, the deduplication and the cache index. The model is split into five modules.
- `Particles` (particles.dfy) holds the values:
  - points and particle records;
  - the ranges of the random draws;
  - the geometry, as an uninterpreted `Geometry` value;
  - Python's `int()` truncation and the per-frame pulse parameters.
- `PointSets` (point_sets.dfy) defines the three base collections as functions of the geometry
  and the draws. A Python set is modelled as a duplicate-free sequence in insertion order.
- `Frames` (frames.dfy) defines one frame, `FrameOf`:
  - the halo pass, with its seen-set;
  - the shape pass;
  - the lemmas about both.
- `FrameCache` (frame_cache.dfy) defines the cache filled for keys `0 .. n - 1`, Python's
  floored `%`, and the renderer's lookup with its `ZeroDivisionError` and `KeyError` outcomes.
- `LoveHeart` (love_heart.dfy) holds the class `Heart`, with imperative methods proved against
  those functions:
  - the constructor;
  - `InitPoints`, i.e. `_init_points`;
  - `GenerateAnimationFrames`;
  - `CalcFrame`, with its halo loop `CalcHalo` and its shape loop `CalcShape`;
  - `Render`.

The geometry and every random draw are inputs:
- A `Geometry` value carries `heart_function`, `scatter_inside`, `shrink`, the displacement of
  `_calc_position` and `curve` as opaque functions.
- A `Randomness` value carries every draw as an oracle. Draws are indexed by their position:
  - the i-th curve angle, the k-th edge scatter and the i-th centre sample at construction;
  - per frame index, the i-th halo iteration and the j-th shape record.

## Model

| member | source | states |
|---|---|---|
| Particles.Trunc | LoveHeart.py:106-107 | `int()` truncates toward zero: for a non-negative argument the result is the largest integer not above it, for a negative one the smallest not below it |
| Particles.PulseOf | LoveHeart.py:105-107 | the halo count is `int(3000 + 4000·c²)`, so at least 3000; the halo radius is `int(4 + 6·(1 + c))`, which lies within 1 of `10 + 6c` on the side given by truncation |
| PointSets.Add | LoveHeart.py:84 | `set.add` on the sequence view: the element is present afterwards, nothing else is added, and the size grows by one exactly when the element was new |
| PointSets.Dedup | LoveHeart.py:80-96 | the set a filling loop builds by adding its offers one by one; its meaning is given by `PointSets.DedupFacts` |
| PointSets.DedupFacts | LoveHeart.py:80-84 | adding a sequence of elements one by one yields each distinct element exactly once, no more elements than were offered, and at least one when any was offered |
| PointSets.DedupSnoc | LoveHeart.py:81-84 | offering one more element to the set built so far is one `add` |
| PointSets.BaseCandidates | LoveHeart.py:81-83 | exactly 2000 curve samples are offered to the base set |
| PointSets.EdgeCandidates | LoveHeart.py:88-90 | exactly three scattered copies per base point are offered to the edge set |
| PointSets.Pick | LoveHeart.py:95 | `random.choice(list(points))` returns an element of the base set; it requires the base set to be non-empty |
| PointSets.CenterCandidates | LoveHeart.py:94-96 | exactly 4000 scatters of chosen base points are offered to the centre set; building them requires a non-empty base set |
| PointSets.InitialSets | LoveHeart.py:80-96 | `1 <= \|points\| <= 2000`, `\|edge\| <= 3·\|points\|`, `\|center\| <= 4000`; each set holds exactly the distinct points offered to it, once each. The lower bound is what makes the `random.choice` call legal |
| PointSets.FlattenSnoc | LoveHeart.py:126-129 | visiting one more point collection appends its points |
| PointSets.Flatten3 | LoveHeart.py:126-128 | visiting base, edge and centre collections in turn visits their points in that order |
| Frames.HaloSize | LoveHeart.py:122 | `random.choice((1, 2, 2))` yields 1 or 2, and 1 exactly for the first choice |
| Frames.Shrunk | LoveHeart.py:114-116 | the halo sample of one iteration, a point of the scale-11.6 curve pulled toward the centre; its role in the count is given by `Frames.ShrunkImageMembers` and `Frames.HaloPassCount` |
| Frames.HaloRecord | LoveHeart.py:119-123 | the record for a new halo point lies within 14 of the point on each axis and has size 1 or 2 |
| Frames.HaloStep | LoveHeart.py:117-123 | after one iteration the sample is in the seen set, and the record list grows by at most one record at its end (`Frames.HaloStepSeen` and `Frames.HaloStepConsistent` give the rest) |
| Frames.HaloPass | LoveHeart.py:112-123 | n iterations emit at most n records; their count and provenance are given by `Frames.HaloPassCount` and `Frames.HaloPassRecords` |
| Frames.HaloStepSeen | LoveHeart.py:117-118 | after one halo iteration the seen set is the old one plus the new sample |
| Frames.HaloStepConsistent | LoveHeart.py:117-123 | one halo iteration keeps the kept points duplicate-free, in step with the seen set, and keeps one record per kept point |
| Frames.HaloPassSeen | LoveHeart.py:112-118 | after n iterations the seen set `halo_points` is exactly the set of shrunk samples drawn |
| Frames.HaloPassConsistent | LoveHeart.py:112-123 | after n iterations each seen point is kept once and has exactly one record |
| Frames.ShrunkImageMembers | LoveHeart.py:113-116 | the distinct samples are exactly the points drawn by some iteration `i < n` |
| Frames.ShrunkImageSize | LoveHeart.py:113-116 | n iterations draw at most n distinct samples |
| Frames.HaloPassCount | LoveHeart.py:112-123 | the number of halo records equals the number of distinct shrunk samples, which is at most `halo_number`, and is at least 1 once any iteration ran |
| Frames.HaloStepFromFirst | LoveHeart.py:117-123 | one more iteration keeps every record tied to the first iteration that drew its point; a new record is tied to the new iteration |
| Frames.HaloPassFromFirst | LoveHeart.py:112-123 | every halo record comes from the first iteration that drew its point |
| Frames.HaloPassRecords | LoveHeart.py:117-123 | record k is the first occurrence's point plus that iteration's two jitters and size, so it lies within 14 of its halo point on each axis and has size 1 or 2 |
| Frames.CalcPosition | LoveHeart.py:136-141 | `_calc_position` moves the point by the breathing displacement and a jitter of at most 1 on each axis |
| Frames.ShapeRecord | LoveHeart.py:129-131 | a breathing record has size 1, 2 or 3 |
| Frames.ShapeRecords | LoveHeart.py:126-131 | the shape pass emits exactly one record per point |
| Frames.ShapeRecordsSnoc | LoveHeart.py:129-131 | visiting one more point appends its breathing record, drawn with the next shape draw |
| Frames.FrameOf | LoveHeart.py:109-133 | the list `_calc_frame` builds: it starts with the halo records and has at least one record per base, edge and centre point; the full layout is `Frames.FrameLayout` |
| Frames.FrameLayout | LoveHeart.py:109-133 | a frame's length is the number of distinct halo samples, at most `halo_number`, plus the sizes of the three base collections. The halo records come first, each of size 1 or 2. Then record h + j is the breathing record of the j-th point of base, edge and centre in that order, drawn with the j-th shape draw, of size 1, 2 or 3 |
| FrameCache.PyMod | LoveHeart.py:145 | Python's `%`: for a positive modulus the result lies in `[0, n)`, for a negative one in `(n, 0]`; it differs from the dividend by a multiple of the modulus, which with the range fixes the remainder; an index already in `[0, n)` is unchanged |
| FrameCache.PyModPeriodic | LoveHeart.py:145 | frame numbers that differ by the modulus select the same index |
| FrameCache.FrameFor | LoveHeart.py:103-133 | the frame computed for index k from k's draws and pulse; its size is given by `FrameCache.FrameNonEmpty` and its layout by `Frames.FrameLayout` |
| FrameCache.FrameNonEmpty | LoveHeart.py:109-133 | every frame holds at least one halo record, since at least 3000 halo samples are drawn, plus one record per base, edge and centre point |
| FrameCache.Table | LoveHeart.py:98-101 | the cache filled for indices `0 .. n - 1` has exactly those keys, and none for `n <= 0` |
| FrameCache.TableAt | LoveHeart.py:100-133 | the cache holds at key k the frame computed for k |
| FrameCache.TableExtend | LoveHeart.py:100-133 | storing frame n into a cache holding frames `0 .. n - 1` gives the cache holding frames `0 .. n` |
| FrameCache.Cache | LoveHeart.py:98-101 | the cache after `_generate_animation_frames`: exactly the keys `0 .. n - 1`, key k holding frame k (`FrameCache.TableAt`) |
| FrameCache.Get | LoveHeart.py:145 | `all_points[frame % generate_frame]`: a found frame is one of the stored frames, and the lookup raises `ZeroDivisionError` exactly when the count is 0; `FrameCache.GetBuilt` gives the result on a built cache |
| FrameCache.GetBuilt | LoveHeart.py:145 | for `n > 0` every frame number finds a stored frame, the one of index `frame % n`, and `frame + n` finds the same one; for `n == 0` the lookup raises `ZeroDivisionError`, for `n < 0` `KeyError` |
| LoveHeart.Heart.constructor | LoveHeart.py:71-75 | the built heart's base collections are `InitialSets` of its draws, and its cache holds exactly the keys `0 .. generate_frame - 1`, each with its frame |
| LoveHeart.Heart.InitPoints | LoveHeart.py:77-96 | the three loops build exactly `InitialSets`; in particular, the `random.choice` index is in range |
| LoveHeart.Heart.GenerateAnimationFrames | LoveHeart.py:98-101 | the `range` loop adds exactly the frames `0 .. generate_frame - 1` to the cache, and none when `generate_frame <= 0` |
| LoveHeart.Heart.CalcFrame | LoveHeart.py:103-133 | the cache afterwards is the old cache with frame `frame` stored, equal to `FrameOf`; every other stored frame is unchanged |
| LoveHeart.Heart.CalcHalo | LoveHeart.py:112-123 | the halo loop with its seen set yields exactly the records of the halo pass |
| LoveHeart.Heart.CalcShape | LoveHeart.py:125-131 | the nested loops over the three collections yield exactly one breathing record per point, in order, with the running draw index |
| LoveHeart.Heart.Render | LoveHeart.py:143-145 | it looks up `all_points[frame % generate_frame]`; on a built heart with `generate_frame > 0` the lookup always finds the frame computed for index `frame % generate_frame`, which is non-empty: it holds more records than there are base points, so at least 2; with 0 it raises `ZeroDivisionError`, and with a negative count `KeyError` |

## Left out

- The canvas drawing in `render` (LoveHeart.py:146-151) and the tkinter program in `main` (LoveHeart.py:155-187). They are user-interface code over a foreign library. `Render` returns the frame it would draw.
- The `root.after` timer loop (LoveHeart.py:184). It is host scheduling.
- The floating-point geometry stays opaque, as fields of `Geometry`:
  - the curve of `heart_function`, including its `int()` of the coordinates;
  - the logarithmic scatter of `scatter_inside`;
  - the force fields of `shrink` and `_calc_position`;
  - the pulse `curve`. Its argument `frame / 10 * pi` is folded into `curve(frame)`.
  Nothing is proved about the curve's bounds or its period.
- Real arithmetic is exact in the model:
  - coordinates are reals;
  - the ratio `10 * curve(...)` and the `int()` conversions of the halo radius and count are computed on exact reals, not on IEEE doubles.
- The `log(0)` case of `scatter_inside` and the zero-distance divisions of `shrink` and `_calc_position` (LoveHeart.py:47, 56, 138). The source does not guard them, and the opaque geometry functions are total, so the model does not reproduce the Python exceptions.
- The distributions of `random`. Each draw is an arbitrary input within the range of its call:
  - `uniform` is any real;
  - `randint(a, b)` is any integer in `[a, b]`;
  - `random()` is any real in `[0, 1)`.
- The order of the random stream. The draws are indexed by loop position. A halo iteration that meets a known point still has jitter and size draws in the oracle, but they are unused. Python draws them only for new points. Since every draw is an arbitrary input, the same frames arise either way.
- `random.choice(list(points))` is modelled as the element at an arbitrary natural index modulo the list's length.
- The iteration order of a Python set depends on hashing. The model fixes insertion order. Every statement about the shape pass holds for that order; the lengths and bounds hold for any order.
- LoveHeart.Heart.CalcFrame: `_calc_frame` appends the halo and the breathing records to one list. The model builds them in the helper methods `CalcHalo` and `CalcShape` and concatenates the two lists, which gives the same list.
- LoveHeart.Heart.CalcFrame: the base collections are `const` fields, so no frame computation can change them, and this needs no postcondition. Python assigns those attributes inside `_init_points`. The model's `InitPoints` returns the three collections and the constructor stores them.
- The default `generate_frame=20` of `__init__`: the constructor takes the count explicitly.
- A frame record's coordinates are reals, not integers. The code adds integer jitters to the float results of `shrink` and `_calc_position`.
