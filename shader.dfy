/**
 * The post-processing fragment shader: for one output pixel, walk left one period at a
 * time (each period shortened by the depth found there), wrap the end point into tile
 * coordinates, and blend the tile colour with the depth and original images.
 *
 * Arithmetic is over real numbers, an idealisation of the GPU's floats. Texture reads are
 * functions of the pixel coordinate (the depth and original images) or of the tile
 * coordinate (the tile).
 */
module Shader {

  datatype Vec2 = Vec2(x: real, y: real)
  datatype Vec3 = Vec3(r: real, g: real, b: real)

  /** The uniforms of the shader that the renderer sets (tileSize is the on-screen repeat period). */
  datatype Uniforms = Uniforms(showOrig: real, showDepth: real, maxStep: real, tileSize: real)

  /** The bound of the shader's for loop. */
  const STEP_LIMIT: nat := 100

  /** A depth image in the inverted convention: 1 is the nearest surface, 0 the far plane. */
  ghost predicate UnitDepth(depth: Vec2 -> real) {
    forall v :: 0.0 <= depth(v) <= 1.0
  }

  /** Uniforms for which the walk makes progress: a positive period and a step fraction in [0, 1). */
  predicate Regular(u: Uniforms) {
    u.tileSize > 0.0 && 0.0 <= u.maxStep < 1.0
  }

  /** One pass of the loop body: `uv.x -= tileSize - (d * maxStep)` with d the depth at uv. */
  function Step(uv: Vec2, u: Uniforms, depth: Vec2 -> real): Vec2 {
    Vec2(uv.x - (u.tileSize - depth(uv) * (u.tileSize * u.maxStep)), uv.y)
  }

  /** Where the walk stops, and the value of the loop counter then. */
  datatype WalkEnd = WalkEnd(uv: Vec2, steps: nat)

  /** The walk continued from uv with the loop counter at count. */
  function WalkFrom(uv: Vec2, count: nat, u: Uniforms, depth: Vec2 -> real): (e: WalkEnd)
    requires count <= STEP_LIMIT
    ensures count <= e.steps <= STEP_LIMIT
    ensures e.uv.y == uv.y
    ensures e.steps < STEP_LIMIT ==> e.uv.x < u.tileSize
    ensures uv.x < u.tileSize ==> e == WalkEnd(uv, count)
    decreases STEP_LIMIT - count
  {
    if count == STEP_LIMIT || uv.x < u.tileSize then WalkEnd(uv, count)
    else WalkFrom(Step(uv, u, depth), count + 1, u, depth)
  }

  /** The shader's for loop, from the pixel coordinate p. */
  method Walk(p: Vec2, u: Uniforms, depth: Vec2 -> real) returns (uv: Vec2, steps: nat)
    ensures WalkEnd(uv, steps) == WalkFrom(p, 0, u, depth)
    ensures steps <= STEP_LIMIT && uv.y == p.y
    ensures steps < STEP_LIMIT ==> uv.x < u.tileSize
    ensures p.x < u.tileSize ==> steps == 0 && uv == p
  {
    uv := p;
    steps := 0;
    while steps < STEP_LIMIT
      invariant steps <= STEP_LIMIT
      invariant WalkFrom(uv, steps, u, depth) == WalkFrom(p, 0, u, depth)
    {
      if uv.x < u.tileSize {
        break;
      }
      uv := Step(uv, u, depth);
      steps := steps + 1;
    }
  }

  /** Each step moves left by at least tileSize * (1 - maxStep) > 0 and at most tileSize. */
  lemma StepBounds(uv: Vec2, u: Uniforms, depth: Vec2 -> real)
    requires UnitDepth(depth) && Regular(u)
    ensures 0.0 < u.tileSize * (1.0 - u.maxStep)
    ensures u.tileSize * (1.0 - u.maxStep) <= uv.x - Step(uv, u, depth).x <= u.tileSize
  {
    var d := depth(uv);
    var m := u.tileSize * u.maxStep;
    assert 0.0 <= m;
    assert d * m <= m by {
      assert (1.0 - d) * m >= 0.0;
    }
    assert 0.0 <= d * m;
    assert 0.0 < u.tileSize * (1.0 - u.maxStep);
  }

  /** k * len, built up one step at a time. */
  function Repeated(k: nat, len: real): (r: real)
    ensures r == k as real * len
  {
    if k == 0 then 0.0 else Repeated(k - 1, len) + len
  }

  /** After k steps the walk has moved left by at least k * tileSize * (1 - maxStep). */
  lemma {:induction false} WalkMovesLeft(uv: Vec2, count: nat, u: Uniforms, depth: Vec2 -> real)
    requires count <= STEP_LIMIT && UnitDepth(depth) && Regular(u)
    ensures var e := WalkFrom(uv, count, u, depth);
      e.uv.x <= uv.x - Repeated(e.steps - count, u.tileSize * (1.0 - u.maxStep))
    decreases STEP_LIMIT - count
  {
    if count < STEP_LIMIT && uv.x >= u.tileSize {
      StepBounds(uv, u, depth);
      WalkMovesLeft(Step(uv, u, depth), count + 1, u, depth);
    }
  }

  /** After k steps the walk has moved left by at most k * tileSize. */
  lemma {:induction false} WalkMovesAtMost(uv: Vec2, count: nat, u: Uniforms, depth: Vec2 -> real)
    requires count <= STEP_LIMIT && UnitDepth(depth) && Regular(u)
    ensures var e := WalkFrom(uv, count, u, depth);
      uv.x - Repeated(e.steps - count, u.tileSize) <= e.uv.x
    decreases STEP_LIMIT - count
  {
    if count < STEP_LIMIT && uv.x >= u.tileSize {
      StepBounds(uv, u, depth);
      WalkMovesAtMost(Step(uv, u, depth), count + 1, u, depth);
    }
  }

  /** A walk from a pixel at x >= 0 never leaves the screen: it ends at x >= 0. */
  lemma {:induction false} WalkStaysOnScreen(uv: Vec2, count: nat, u: Uniforms, depth: Vec2 -> real)
    requires count <= STEP_LIMIT && UnitDepth(depth) && Regular(u) && 0.0 <= uv.x
    ensures 0.0 <= WalkFrom(uv, count, u, depth).uv.x
    decreases STEP_LIMIT - count
  {
    if count < STEP_LIMIT && uv.x >= u.tileSize {
      StepBounds(uv, u, depth);
      WalkStaysOnScreen(Step(uv, u, depth), count + 1, u, depth);
    }
  }

  /**
   * The step bound is not reached by a walk that starts less than
   * tileSize + (99 - count) * tileSize * (1 - maxStep) from the left edge.
   */
  lemma WalkFinishes(uv: Vec2, count: nat, u: Uniforms, depth: Vec2 -> real)
    requires count < STEP_LIMIT && UnitDepth(depth) && Regular(u)
    requires uv.x < u.tileSize + (STEP_LIMIT - 1 - count) as real * (u.tileSize * (1.0 - u.maxStep))
    ensures WalkFrom(uv, count, u, depth).steps < STEP_LIMIT
  {
    WalkFinishesWithin(uv, count, STEP_LIMIT - 1 - count, u, depth);
  }

  /** A walk that starts less than k shortened periods right of tileSize takes at most k more steps. */
  lemma {:induction false} WalkFinishesWithin(uv: Vec2, count: nat, k: nat, u: Uniforms, depth: Vec2 -> real)
    requires count + k < STEP_LIMIT && UnitDepth(depth) && Regular(u)
    requires uv.x < u.tileSize + Repeated(k, u.tileSize * (1.0 - u.maxStep))
    ensures WalkFrom(uv, count, u, depth).steps <= count + k
    decreases k
  {
    if k > 0 && uv.x >= u.tileSize {
      StepBounds(uv, u, depth);
      WalkFinishesWithin(Step(uv, u, depth), count + 1, k - 1, u, depth);
    }
  }

  /**
   * A walk from an on-screen pixel less than tileSize + 100 shortened periods from the left
   * edge ends in the leftmost column, 0 <= x < tileSize, even when it uses all 100 steps.
   */
  lemma WalkEndsInSeedColumn(p: Vec2, u: Uniforms, depth: Vec2 -> real)
    requires UnitDepth(depth) && Regular(u)
    requires 0.0 <= p.x < u.tileSize + STEP_LIMIT as real * (u.tileSize * (1.0 - u.maxStep))
    ensures 0.0 <= WalkFrom(p, 0, u, depth).uv.x < u.tileSize
  {
    WalkStaysOnScreen(p, 0, u, depth);
    WalkMovesLeft(p, 0, u, depth);
  }

  /** Starting the counter one later changes only the counter, when the later walk is not cut off. */
  lemma {:induction false} WalkCounterShift(uv: Vec2, count: nat, u: Uniforms, depth: Vec2 -> real)
    requires count < STEP_LIMIT
    requires WalkFrom(uv, count + 1, u, depth).steps < STEP_LIMIT
    ensures WalkFrom(uv, count, u, depth).uv == WalkFrom(uv, count + 1, u, depth).uv
    ensures WalkFrom(uv, count, u, depth).steps + 1 == WalkFrom(uv, count + 1, u, depth).steps
    decreases STEP_LIMIT - count
  {
    if uv.x >= u.tileSize {
      WalkCounterShift(Step(uv, u, depth), count + 1, u, depth);
    }
  }

  /** GLSL mod: a - b * floor(a / b). */
  function Mod(a: real, b: real): (r: real)
    requires b != 0.0
    ensures b > 0.0 ==> 0.0 <= r < b
    ensures b < 0.0 ==> b < r <= 0.0
  {
    var f := (a / b).Floor as real;
    FloorScaled(a, b);
    a - b * f
  }

  lemma FloorScaled(a: real, b: real)
    requires b != 0.0
    ensures b > 0.0 ==> b * (a / b).Floor as real <= a < b * (a / b).Floor as real + b
    ensures b < 0.0 ==> b * (a / b).Floor as real + b < a <= b * (a / b).Floor as real
  {
    var q := a / b;
    assert b * q == a;
    BetweenMultiples(a, b, q, q.Floor as real);
  }

  /** With a == b * q and f <= q < f + 1, a lies between the multiples b * f and b * (f + 1). */
  lemma BetweenMultiples(a: real, b: real, q: real, f: real)
    requires b * q == a && f <= q < f + 1.0
    ensures b > 0.0 ==> b * f <= a < b * f + b
    ensures b < 0.0 ==> b * f + b < a <= b * f
  {
    var below := q - f;
    var above := 1.0 - below;
    assert a - b * f == b * below;
    assert b * f + b - a == b * above;
    if b > 0.0 {
      MulSigns(b, below);
      MulSigns(b, above);
    } else if b < 0.0 {
      MulSigns(-b, below);
      MulSigns(-b, above);
    }
  }

  lemma MulSigns(x: real, y: real)
    requires x > 0.0
    ensures y >= 0.0 ==> x * y >= 0.0
    ensures y > 0.0 ==> x * y > 0.0
    ensures y < 0.0 ==> x * y < 0.0
  {}

  /** The quotient of m by b is in [0, 1) when m lies between 0 and b (either sign of b). */
  lemma QuotientInUnit(m: real, b: real)
    requires (b > 0.0 && 0.0 <= m < b) || (b < 0.0 && b < m <= 0.0)
    ensures 0.0 <= m / b < 1.0
  {
    var q := m / b;
    assert q * b == m;
    var c := if b > 0.0 then b else -b;
    MulSigns(c, q);
    MulSigns(c, q - 1.0);
    assert (q - 1.0) * c == (if b > 0.0 then m - b else b - m);
  }

  /** GLSL mod repeats with period b: the tiles wrap around seamlessly. */
  lemma ModPeriodic(a: real, b: real)
    requires b != 0.0
    ensures Mod(a + b, b) == Mod(a, b)
  {
    var q := a / b;
    assert q * b == a;
    QuotientOf(a + b, b, q + 1.0);
    assert (q + 1.0).Floor == q.Floor + 1;
  }

  /** x / b is the y with y * b == x. */
  lemma QuotientOf(x: real, b: real, y: real)
    requires b != 0.0 && y * b == x
    ensures x / b == y
  {
    var z := x / b;
    assert z * b == x;
    assert (z - y) * b == 0.0;
    var c := if b > 0.0 then b else -b;
    MulSigns(c, z - y);
    assert (z - y) * c == (if b > 0.0 then (z - y) * b else -((z - y) * b));
  }

  /** `mod(c, tileSize) / tileSize`: the tile coordinate of a screen coordinate. */
  function TileCoord(c: real, tileSize: real): (t: real)
    requires tileSize != 0.0
    ensures 0.0 <= t < 1.0
  {
    var m := Mod(c, tileSize);
    QuotientInUnit(m, tileSize);
    m / tileSize
  }

  /** GLSL mix: x * (1 - a) + y * a, component by component. */
  function Mix(x: Vec3, y: Vec3, a: real): (c: Vec3)
    ensures a == 0.0 ==> c == x
    ensures a == 1.0 ==> c == y
  {
    Vec3(x.r * (1.0 - a) + y.r * a, x.g * (1.0 - a) + y.g * a, x.b * (1.0 - a) + y.b * a)
  }

  /** `vec3(d)`: a depth shown as a grey. */
  function Gray(d: real): Vec3 {
    Vec3(d, d, d)
  }

  /**
   * The output colour: the stereogram colour when showDepth is 0, the depth grey for
   * (showDepth, showOrig) = (1, 0) and the original colour for (1, 1).
   */
  function Blend(stereo: Vec3, depthColor: Vec3, orig: Vec3, u: Uniforms): (c: Vec3)
    ensures u.showDepth == 0.0 ==> c == stereo
    ensures u.showDepth == 1.0 && u.showOrig == 0.0 ==> c == depthColor
    ensures u.showDepth == 1.0 && u.showOrig == 1.0 ==> c == orig
  {
    Mix(stereo, Mix(depthColor, orig, u.showOrig), u.showDepth)
  }

  /**
   * The tile colour at the end of the walk from pixel p. A pixel in the leftmost
   * column (p.x < tileSize) takes the tile colour at its own wrapped coordinate.
   */
  function StereoColor(p: Vec2, u: Uniforms, depth: Vec2 -> real, tile: Vec2 -> Vec3): (c: Vec3)
    requires u.tileSize != 0.0
    ensures p.x < u.tileSize ==> c == tile(Vec2(TileCoord(p.x, u.tileSize), TileCoord(p.y, u.tileSize)))
  {
    var e := WalkFrom(p, 0, u, depth);
    tile(Vec2(TileCoord(e.uv.x, u.tileSize), TileCoord(e.uv.y, u.tileSize)))
  }

  /** The period by which the pattern repeats over a surface of constant depth d. */
  function EffectivePeriod(u: Uniforms, d: real): real {
    u.tileSize - d * (u.tileSize * u.maxStep)
  }

  /**
   * Over a surface of constant depth d the walk from the pixel one shortened period
   * tileSize - d * tileSize * maxStep to the right of p ends where the walk from p ends,
   * as long as that pixel lies right of the leftmost column and the walk from p ends
   * well within the step bound.
   */
  lemma WalkRepeatsAtEffectivePeriod(p: Vec2, u: Uniforms, depth: Vec2 -> real, d: real)
    requires Regular(u) && 0.0 <= d <= 1.0
    requires forall v :: depth(v) == d
    requires u.tileSize <= p.x + EffectivePeriod(u, d)
    requires p.x < u.tileSize + (STEP_LIMIT - 2) as real * (u.tileSize * (1.0 - u.maxStep))
    ensures WalkFrom(Vec2(p.x + EffectivePeriod(u, d), p.y), 0, u, depth).uv == WalkFrom(p, 0, u, depth).uv
  {
    var q := Vec2(p.x + EffectivePeriod(u, d), p.y);
    assert depth(q) == d;
    assert Step(q, u, depth) == p;
    assert WalkFrom(q, 0, u, depth) == WalkFrom(p, 1, u, depth);
    assert UnitDepth(depth);
    WalkFinishes(p, 1, u, depth);
    WalkCounterShift(p, 0, u, depth);
  }

  /** So over constant depth the stereogram repeats with the shortened period. */
  lemma StereoRepeatsAtEffectivePeriod(p: Vec2, u: Uniforms, depth: Vec2 -> real, d: real, tile: Vec2 -> Vec3)
    requires Regular(u) && 0.0 <= d <= 1.0
    requires forall v :: depth(v) == d
    requires u.tileSize <= p.x + EffectivePeriod(u, d)
    requires p.x < u.tileSize + (STEP_LIMIT - 2) as real * (u.tileSize * (1.0 - u.maxStep))
    ensures StereoColor(Vec2(p.x + EffectivePeriod(u, d), p.y), u, depth, tile) == StereoColor(p, u, depth, tile)
  {
    WalkRepeatsAtEffectivePeriod(p, u, depth, d);
  }

  /**
   * The shader's main: the walk from the pixel coordinate, the wrap into tile
   * coordinates, and the blend with the depth grey and original colour at p itself.
   * GLSL leaves a division by a zero tileSize undefined, so tileSize is non-zero.
   */
  method ShadeFragment(p: Vec2, u: Uniforms, depth: Vec2 -> real, original: Vec2 -> Vec3, tile: Vec2 -> Vec3)
    returns (color: Vec3)
    requires u.tileSize != 0.0
    ensures color == Blend(StereoColor(p, u, depth, tile), Gray(depth(p)), original(p), u)
  {
    var uv, _ := Walk(p, u, depth);
    var x := TileCoord(uv.x, u.tileSize);
    var y := TileCoord(uv.y, u.tileSize);
    var stereogramColor := tile(Vec2(x, y));
    var depthColor := Gray(depth(p));
    var origColor := original(p);
    color := Mix(stereogramColor, Mix(depthColor, origColor, u.showOrig), u.showDepth);
  }
}
