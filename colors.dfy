/**
 * Colours and random draws shared by the tile synthesiser and the renderer.
 * Math.random is not modelled: every operation that calls it takes the values it
 * would have returned as an injected sequence of draws, each in [0, 1).
 */
module Colors {

  /** One element of a Uint8Array. */
  newtype byte = x: int | 0 <= x < 256

  /** A palette entry: the three channel bytes written into a tile buffer. */
  datatype Color = Color(r: byte, g: byte, b: byte)

  const BLACK := Color(0, 0, 0)
  const WHITE := Color(255, 255, 255)

  /** A value Math.random can return. */
  predicate IsDraw(r: real) {
    0.0 <= r < 1.0
  }

  predicate AreDraws(s: seq<real>) {
    forall i :: 0 <= i < |s| ==> IsDraw(s[i])
  }

  /** Math.floor(r * n) for a draw r: an index into a collection of length n (0 when n is 0). */
  function ScaledFloor(r: real, n: nat): (i: nat)
    requires IsDraw(r)
    ensures n > 0 ==> i < n
    ensures n == 0 ==> i == 0
  {
    ScaledBounds(r, n);
    (r * n as real).Floor
  }

  lemma ScaledBounds(r: real, n: nat)
    requires IsDraw(r)
    ensures 0.0 <= r * n as real
    ensures n > 0 ==> r * n as real < n as real
  {
    if n > 0 {
      assert r * n as real < 1.0 * n as real;
    }
  }

  /**
   * ScaledFloor hits index i exactly for the draws in [i/n, (i+1)/n): under a
   * uniform Math.random every index is chosen with probability 1/n.
   */
  lemma ScaledFloorPreimage(r: real, n: nat, i: nat)
    requires IsDraw(r) && i < n
    ensures ScaledFloor(r, n) == i <==> i as real / n as real <= r < (i + 1) as real / n as real
  {
    var m := n as real;
    DivideBelow(i as real, m, r);
    DivideBelow((i + 1) as real, m, r);
  }

  /** a / m <= r exactly when a <= r * m, and likewise strictly, for a positive m. */
  lemma DivideBelow(a: real, m: real, r: real)
    requires m > 0.0
    ensures a / m <= r <==> a <= r * m
    ensures a / m < r <==> a < r * m
    ensures r < a / m <==> r * m < a
  {
    var q := a / m;
    assert q * m == a;
    assert (r - q) * m == r * m - a;
    if r - q > 0.0 {
      assert (r - q) * m > 0.0;
    } else if r - q < 0.0 {
      assert (q - r) * m > 0.0;
    }
  }

  /** `data[k] = Math.random() * 256` on a Uint8Array: the channel value a draw gives. */
  function Channel(r: real): byte
    requires IsDraw(r)
  {
    ScaledFloor(r, 256) as byte
  }

  /** `palette[Math.floor(Math.random() * palette.length)]`: the entry a draw picks. */
  function Pick(palette: seq<Color>, r: real): (c: Color)
    requires IsDraw(r) && |palette| > 0
    ensures c in palette
  {
    palette[ScaledFloor(r, |palette|)]
  }

  /** Every palette entry is picked by some draw, so nothing in the palette is unreachable. */
  lemma PickReachesEveryEntry(palette: seq<Color>, i: nat)
    requires i < |palette|
    ensures IsDraw(i as real / |palette| as real)
    ensures Pick(palette, i as real / |palette| as real) == palette[i]
  {
    var n := |palette|;
    var r := i as real / n as real;
    DivideBelow(i as real, n as real, 1.0);
    DivideBelow(i as real, n as real, 0.0);
    ScaledFloorPreimage(r, n, i);
    DivideBelow((i + 1) as real, n as real, r);
  }
}
