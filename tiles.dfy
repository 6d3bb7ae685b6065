/**
 * The tile synthesiser: square RGB tiles whose every texel is a palette colour picked
 * by one draw, pools of such tiles, and random palettes.
 */
module TileSynthesis {
  import opened Wrappers
  import opened Colors

  /**
   * A THREE.DataTexture in RGB format: width * height texels of three bytes each.
   * The tiles are built once and never written again, so the pool holds them as values.
   */
  datatype DataTexture = DataTexture(width: nat, height: nat, data: seq<byte>)

  /** The colour of texel k: bytes 3k, 3k + 1 and 3k + 2. */
  function TexelAt(data: seq<byte>, k: nat): Color
    requires 3 * k + 2 < |data|
  {
    Color(data[3 * k], data[3 * k + 1], data[3 * k + 2])
  }

  /** data holds one texel per draw, texel k being the palette entry that draws[k] picks. */
  predicate FilledFrom(data: seq<byte>, palette: seq<Color>, draws: seq<real>)
    requires AreDraws(draws)
  {
    && |data| == 3 * |draws|
    && forall k :: 0 <= k < |draws| ==> |palette| > 0 && TexelAt(data, k) == Pick(palette, draws[k])
  }

  /**
   * The bytes createTextureFromPalette writes for the given draws: one RGB texel per draw,
   * in draw order, each the palette entry that draw picks.
   */
  function TileData(palette: seq<Color>, draws: seq<real>): (data: seq<byte>)
    requires AreDraws(draws) && (|draws| > 0 ==> |palette| > 0)
    ensures |data| == 3 * |draws|
    decreases |draws|
  {
    if draws == [] then []
    else
      var c := Pick(palette, draws[|draws| - 1]);
      TileData(palette, draws[..|draws| - 1]) + [c.r, c.g, c.b]
  }

  /** t is the texSize x texSize tile drawn from palette by exactly the given draws. */
  predicate IsTile(t: DataTexture, texSize: nat, palette: seq<Color>, draws: seq<real>)
    requires AreDraws(draws)
  {
    && |draws| == texSize * texSize
    && (|draws| > 0 ==> |palette| > 0)
    && t == DataTexture(texSize, texSize, TileData(palette, draws))
  }

  /** Texel k of the written bytes is the palette entry that the k-th draw picks. */
  lemma {:induction false} TileDataFilled(palette: seq<Color>, draws: seq<real>)
    requires AreDraws(draws) && (|draws| > 0 ==> |palette| > 0)
    ensures FilledFrom(TileData(palette, draws), palette, draws)
    decreases |draws|
  {
    if draws != [] {
      var last := |draws| - 1;
      var before := TileData(palette, draws[..last]);
      TileDataFilled(palette, draws[..last]);
      var data := TileData(palette, draws);
      assert data == before + [data[3 * last], data[3 * last + 1], data[3 * last + 2]];
      forall k | 0 <= k < |draws|
        ensures TexelAt(data, k) == Pick(palette, draws[k])
      {
        if k < last {
          assert TexelAt(data, k) == TexelAt(before, k);
          assert draws[..last][k] == draws[k];
        }
      }
    }
  }

  /** A tile is texSize texels wide and high, and each of its texels is picked by its own draw. */
  lemma TileTexels(t: DataTexture, texSize: nat, palette: seq<Color>, draws: seq<real>)
    requires AreDraws(draws) && IsTile(t, texSize, palette, draws)
    ensures t.width == texSize && t.height == texSize
    ensures FilledFrom(t.data, palette, draws)
  {
    TileDataFilled(palette, draws);
  }

  /**
   * pool was drawn by draws tile after tile, in the order Math.random is called:
   * the last tile by the last texSize * texSize draws, the ones before it by the rest.
   */
  predicate IsPool(pool: seq<DataTexture>, texSize: nat, palette: seq<Color>, draws: seq<real>)
    requires AreDraws(draws)
    decreases |pool|
  {
    if pool == [] then draws == []
    else
      var rest := |draws| - texSize * texSize;
      && rest >= 0
      && IsPool(pool[..|pool| - 1], texSize, palette, draws[..rest])
      && IsTile(pool[|pool| - 1], texSize, palette, draws[rest..])
  }

  /** Where block j of n draws starts: n counted j times. */
  function Offset(j: nat, n: nat): nat
  {
    if j == 0 then 0 else Offset(j - 1, n) + n
  }

  lemma {:induction false} OffsetIsProduct(j: nat, n: nat)
    ensures Offset(j, n) == j * n
  {
    if j > 0 {
      OffsetIsProduct(j - 1, n);
      MulSucc(j - 1, n);
    }
  }

  lemma {:induction false} OffsetMonotone(i: nat, j: nat, n: nat)
    requires i <= j
    ensures Offset(i, n) <= Offset(j, n)
    decreases j
  {
    if i < j {
      OffsetMonotone(i, j - 1, n);
    }
  }

  /** A pool of k tiles uses k blocks of texSize * texSize draws. */
  lemma {:induction false} PoolLength(pool: seq<DataTexture>, texSize: nat, palette: seq<Color>, draws: seq<real>)
    requires AreDraws(draws) && IsPool(pool, texSize, palette, draws)
    ensures |draws| == Offset(|pool|, texSize * texSize)
    decreases |pool|
  {
    if pool != [] {
      var rest := |draws| - texSize * texSize;
      PoolLength(pool[..|pool| - 1], texSize, palette, draws[..rest]);
    }
  }

  /** Tile j of a pool is drawn by block j of the draws, counted in blocks of texSize * texSize. */
  lemma {:induction false} PoolBlock(pool: seq<DataTexture>, texSize: nat, palette: seq<Color>, draws: seq<real>, j: nat)
    requires AreDraws(draws) && IsPool(pool, texSize, palette, draws)
    requires j < |pool|
    ensures Offset(j + 1, texSize * texSize) <= |draws|
    ensures IsTile(pool[j], texSize, palette, draws[Offset(j, texSize * texSize) .. Offset(j + 1, texSize * texSize)])
  {
    var n := texSize * texSize;
    var last := |pool| - 1;
    var rest := |draws| - n;
    PoolLength(pool[..last], texSize, palette, draws[..rest]);
    if j < last {
      PoolBlock(pool[..last], texSize, palette, draws[..rest], j);
      TileOfPrefix(pool[..last][j], pool[j], texSize, palette, draws, rest, Offset(j, n), Offset(j + 1, n));
    } else {
      SliceOfPrefix(draws, |draws|, rest, |draws|);
    }
  }

  /** Tile j of a pool is drawn by the j-th block of texSize * texSize draws. */
  lemma PoolTile(pool: seq<DataTexture>, texSize: nat, palette: seq<Color>, draws: seq<real>, j: nat)
    requires AreDraws(draws) && IsPool(pool, texSize, palette, draws)
    requires j < |pool|
    ensures |draws| == |pool| * (texSize * texSize)
    ensures j * (texSize * texSize) <= (j + 1) * (texSize * texSize) <= |draws|
    ensures IsTile(pool[j], texSize, palette, draws[j * (texSize * texSize) .. (j + 1) * (texSize * texSize)])
  {
    var n := texSize * texSize;
    PoolBlock(pool, texSize, palette, draws, j);
    PoolLength(pool, texSize, palette, draws);
    OffsetIsProduct(j, n);
    OffsetIsProduct(j + 1, n);
    OffsetIsProduct(|pool|, n);
  }

  /** A tile drawn by a block of a prefix of draws is drawn by that block of draws. */
  lemma TileOfPrefix(t: DataTexture, t': DataTexture, texSize: nat, palette: seq<Color>, draws: seq<real>,
                     rest: nat, lo: nat, hi: nat)
    requires AreDraws(draws) && lo <= hi <= rest <= |draws| && t == t'
    requires IsTile(t, texSize, palette, draws[..rest][lo..hi])
    ensures IsTile(t', texSize, palette, draws[lo..hi])
  {
    SliceOfPrefix(draws, rest, lo, hi);
  }

  /** Slicing a prefix of s between lo and hi gives the same draws as slicing s itself. */
  lemma SliceOfPrefix(s: seq<real>, rest: nat, lo: nat, hi: nat)
    requires lo <= hi <= rest <= |s|
    ensures s[..rest][lo..hi] == s[lo..hi]
    ensures rest == |s| ==> s[lo..rest] == s[lo..]
  {
  }

  /** The palette createRandomPalette returns: entry i takes its channels from draws 3i, 3i + 1, 3i + 2. */
  predicate IsRandomPalette(palette: seq<Color>, draws: seq<real>)
    requires AreDraws(draws)
  {
    && |draws| == 3 * |palette|
    && forall i :: 0 <= i < |palette| ==>
         palette[i] == Color(Channel(draws[3 * i]), Channel(draws[3 * i + 1]), Channel(draws[3 * i + 2]))
  }

  /** A tile filled from a palette shows nothing but palette colours. */
  lemma {:induction false} TileTexelsInPalette(t: DataTexture, texSize: nat, palette: seq<Color>, draws: seq<real>, k: nat)
    requires AreDraws(draws) && IsTile(t, texSize, palette, draws)
    requires k < texSize * texSize
    ensures 3 * k + 2 < |t.data| && TexelAt(t.data, k) in palette
  {
    TileTexels(t, texSize, palette, draws);
  }

  lemma MulSucc(a: nat, n: nat)
    ensures (a + 1) * n == a * n + n
  {
  }

  /**
   * createTextureFromPalette: fills a Uint8Array of 3 * texSize * texSize bytes, three at a
   * time, each texel with the palette colour one draw picks. With an empty palette the
   * picked entry is undefined and reading its first channel throws.
   */
  method CreateTextureFromPalette(texSize: nat, palette: seq<Color>, draws: seq<real>)
    returns (result: Outcome<DataTexture>)
    requires AreDraws(draws) && texSize * texSize <= |draws|
    ensures result.TypeError? <==> texSize > 0 && |palette| == 0
    ensures result.Ok? ==> IsTile(result.value, texSize, palette, draws[..texSize * texSize])
  {
    var texels := texSize * texSize;
    var data := new byte[3 * texels];
    var i := 0;
    var drawn := 0;
    while i < 3 * texels
      invariant 0 <= drawn <= texels && i == 3 * drawn
      invariant |palette| > 0 || drawn == 0
      invariant data[..i] == TileData(palette, draws[..drawn])
    {
      var ci := ScaledFloor(draws[drawn], |palette|);
      if ci >= |palette| {
        // palette[ci] is undefined, and reading c[0] of it throws
        return TypeError;
      }
      var c := palette[ci];
      ghost var before := data[..i];
      data[i] := c.r;
      data[i + 1] := c.g;
      data[i + 2] := c.b;
      assert data[..i + 3] == before + [c.r, c.g, c.b];
      assert draws[..drawn + 1][..drawn] == draws[..drawn];
      i := i + 3;
      drawn := drawn + 1;
    }
    assert texSize > 0 ==> texels > 0;
    assert data[..] == data[..i];
    result := Ok(DataTexture(texSize, texSize, data[..]));
  }

  /** createTexturesFromPalette: num tiles, each built by createTextureFromPalette from the next draws. */
  method CreateTexturesFromPalette(num: nat, texSize: nat, palette: seq<Color>, draws: seq<real>)
    returns (result: Outcome<seq<DataTexture>>)
    requires AreDraws(draws) && num * (texSize * texSize) <= |draws|
    ensures result.TypeError? <==> num > 0 && texSize > 0 && |palette| == 0
    ensures result.Ok? ==> |result.value| == num
    ensures result.Ok? ==> IsPool(result.value, texSize, palette, draws[..num * (texSize * texSize)])
  {
    var n := texSize * texSize;
    var textures := [];
    var j := 0;
    var pos := 0;
    OffsetIsProduct(num, n);
    while j < num
      invariant j <= num && pos == Offset(j, n) && pos <= |draws| && |textures| == j
      invariant j > 0 ==> texSize == 0 || |palette| > 0
      invariant IsPool(textures, texSize, palette, draws[..pos])
    {
      OffsetMonotone(j + 1, num, n);
      var tile := CreateTextureFromPalette(texSize, palette, draws[pos..]);
      if tile.TypeError? {
        return TypeError;
      }
      PoolExtend(textures, tile.value, texSize, palette, draws, pos);
      textures := textures + [tile.value];
      j := j + 1;
      pos := pos + n;
    }
    assert num > 0 && texSize > 0 ==> |palette| > 0;
    result := Ok(textures);
  }

  /** Appending the tile drawn by the next block of draws extends a pool by that block. */
  lemma PoolExtend(pool: seq<DataTexture>, t: DataTexture, texSize: nat, palette: seq<Color>, draws: seq<real>, pos: nat)
    requires AreDraws(draws) && pos + texSize * texSize <= |draws|
    requires IsPool(pool, texSize, palette, draws[..pos])
    requires IsTile(t, texSize, palette, draws[pos..][..texSize * texSize])
    ensures IsPool(pool + [t], texSize, palette, draws[..pos + texSize * texSize])
  {
    var n := texSize * texSize;
    var extended := pool + [t];
    assert extended[..|extended| - 1] == pool;
    assert draws[..pos + n][..pos] == draws[..pos];
    assert draws[..pos + n][pos..] == draws[pos..][..n];
  }

  /** createRandomPalette: num colours, each channel a draw scaled to a byte. */
  method CreateRandomPalette(num: nat, draws: seq<real>) returns (palette: seq<Color>)
    requires AreDraws(draws) && 3 * num <= |draws|
    ensures IsRandomPalette(palette, draws[..3 * num])
  {
    palette := [];
    var i := 0;
    while i < num
      invariant i <= num && |palette| == i
      invariant forall k :: 0 <= k < i ==>
                  palette[k] == Color(Channel(draws[3 * k]), Channel(draws[3 * k + 1]), Channel(draws[3 * k + 2]))
    {
      var data := Color(Channel(draws[3 * i]), Channel(draws[3 * i + 1]), Channel(draws[3 * i + 2]));
      palette := palette + [data];
      i := i + 1;
    }
    ghost var used := draws[..3 * num];
    assert forall k :: 0 <= k < 3 * num ==> used[k] == draws[k];
  }

  /**
   * A channel of a random colour takes the byte value v exactly for the draws in
   * [v/256, (v+1)/256): each channel is uniform over the whole byte range.
   */
  lemma ChannelPreimage(r: real, v: byte)
    requires IsDraw(r)
    ensures Channel(r) == v <==> v as real / 256.0 <= r < (v as int + 1) as real / 256.0
  {
    ScaledFloorPreimage(r, 256, v as nat);
  }
}
