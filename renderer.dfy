/**
 * The renderer object: it owns the tile pool and palette, picks a tile per frame, and
 * holds the shader's uniforms, which the display-mode controller and the tileScale and
 * maxStep accessors change.
 */
module Renderer {
  import opened Wrappers
  import opened Colors
  import opened TileSynthesis
  import opened Shader

  /**
   * The constructor's options. A tileSize or tileCount of 0 stands for an absent (falsy)
   * option; tiles and palette are None when not supplied.
   */
  datatype Options = Options(tileSize: nat, tileCount: nat, tiles: Option<seq<DataTexture>>, palette: Option<seq<Color>>)

  const DEFAULT_TILE_SIZE: nat := 32
  const DEFAULT_TILE_COUNT: nat := 20

  /** createTiles asks createRandomPalette for this many colours, then adds black and white. */
  const RANDOM_COLORS: nat := 3

  /** The uniforms setup() creates: u_showorig 0, u_showdepth 0, u_maxStep 0.3, tileSize 100. */
  const DEFAULT_UNIFORMS := Uniforms(0.0, 0.0, 0.3, 100.0)

  /** `value || fallback` for a numeric option. */
  function OrDefault(value: nat, fallback: nat): nat {
    if value == 0 then fallback else value
  }

  /** The uniforms after show(option): the blend factors of the three known options, else no change. */
  function ApplyMode(u: Uniforms, option: string): Uniforms {
    if option == "depth" then u.(showDepth := 1.0, showOrig := 0.0)
    else if option == "stereo" then u.(showDepth := 0.0, showOrig := 0.0)
    else if option == "original" then u.(showDepth := 1.0, showOrig := 1.0)
    else u
  }

  predicate KnownMode(option: string) {
    option == "depth" || option == "stereo" || option == "original"
  }

  /** `if (this.shown)`: a mode was shown and it is not the empty string. */
  predicate Truthy(shown: Option<string>) {
    shown.Some? && shown.value != ""
  }

  /** The uniforms setup() leaves: the defaults, with the last shown mode applied again. */
  function SetupUniforms(shown: Option<string>): Uniforms {
    if Truthy(shown) then ApplyMode(DEFAULT_UNIFORMS, shown.value) else DEFAULT_UNIFORMS
  }

  /** How many draws createTiles takes when it has to build the pool. */
  function TileDraws(palette: Option<seq<Color>>, tileCount: nat, tileSize: nat): nat {
    (if palette.None? then 3 * RANDOM_COLORS else 0) + tileCount * (tileSize * tileSize)
  }

  /**
   * The palette and pool createTiles leaves when it builds the pool: the given palette or,
   * without one, three random colours followed by black and white; and tileCount tiles
   * drawn from that palette by the draws after the palette's.
   */
  ghost predicate BuiltFrom(given: Option<seq<Color>>, palette: Option<seq<Color>>, tiles: Option<seq<DataTexture>>,
                            tileCount: nat, tileSize: nat, draws: seq<real>)
    requires AreDraws(draws) && TileDraws(given, tileCount, tileSize) <= |draws|
  {
    var used := if given.None? then 3 * RANDOM_COLORS else 0;
    && palette.Some?
    && (given.Some? ==> palette == given)
    && (given.None? ==>
          && |palette.value| == RANDOM_COLORS + 2
          && IsRandomPalette(palette.value[..RANDOM_COLORS], draws[..used])
          && palette.value[RANDOM_COLORS..] == [BLACK, WHITE])
    && tiles.Some?
    && |tiles.value| == tileCount
    && IsPool(tiles.value, tileSize, palette.value, draws[used .. used + tileCount * (tileSize * tileSize)])
  }

  class AutostereogramRenderer {
    var tileSize: nat
    var tileCount: nat
    var tiles: Option<seq<DataTexture>>
    var palette: Option<seq<Color>>
    var shown: Option<string>
    var uniforms: Uniforms

    /**
     * Takes the options, builds the tiles unless they are supplied, and creates the
     * uniforms. A supplied palette is non-empty when tiles are to be built from it.
     */
    constructor (opts: Options, draws: seq<real>)
      requires AreDraws(draws)
      requires opts.tiles.None? ==>
                 TileDraws(opts.palette, OrDefault(opts.tileCount, DEFAULT_TILE_COUNT), OrDefault(opts.tileSize, DEFAULT_TILE_SIZE)) <= |draws|
      requires opts.tiles.None? && opts.palette.Some? ==> |opts.palette.value| > 0
      ensures tileSize == OrDefault(opts.tileSize, DEFAULT_TILE_SIZE) && tileSize > 0
      ensures tileCount == OrDefault(opts.tileCount, DEFAULT_TILE_COUNT) && tileCount > 0
      ensures opts.tiles.Some? ==> tiles == opts.tiles && palette == opts.palette
      ensures opts.tiles.None? ==> BuiltFrom(opts.palette, palette, tiles, tileCount, tileSize, draws)
      ensures tiles.Some?
      ensures shown == None && uniforms == DEFAULT_UNIFORMS
    {
      tileSize := OrDefault(opts.tileSize, DEFAULT_TILE_SIZE);
      tileCount := OrDefault(opts.tileCount, DEFAULT_TILE_COUNT);
      tiles := opts.tiles;
      palette := opts.palette;
      shown := None;
      uniforms := DEFAULT_UNIFORMS;
      new;
      var built := CreateTiles(draws);
      assert built.Ok?;
      Setup();
    }

    /**
     * createTiles: nothing to do when tiles are present; otherwise makes the default
     * palette if there is none and builds tileCount tiles from it. An empty supplied
     * palette makes the first texel throw.
     */
    method CreateTiles(draws: seq<real>) returns (result: Outcome<()>)
      requires AreDraws(draws)
      requires tiles.None? ==> TileDraws(palette, tileCount, tileSize) <= |draws|
      modifies this`tiles, this`palette
      ensures old(tiles).Some? ==> result.Ok? && tiles == old(tiles) && palette == old(palette)
      ensures result.TypeError? <==>
                old(tiles).None? && old(palette).Some? && |old(palette).value| == 0 && tileCount > 0 && tileSize > 0
      ensures result.TypeError? ==> tiles == old(tiles) && palette == old(palette)
      ensures old(tiles).None? && result.Ok? ==> BuiltFrom(old(palette), palette, tiles, tileCount, tileSize, draws)
    {
      if tiles.Some? {
        return Ok(());
      }
      var used := 0;
      if palette.None? {
        var random := CreateRandomPalette(RANDOM_COLORS, draws);
        palette := Some(random + [BLACK, WHITE]);
        used := 3 * RANDOM_COLORS;
        assert palette.value[..RANDOM_COLORS] == random;
      }
      var pool := CreateTexturesFromPalette(tileCount, tileSize, palette.value, draws[used..]);
      if pool.TypeError? {
        return TypeError;
      }
      assert draws[used..][..tileCount * (tileSize * tileSize)] == draws[used .. used + tileCount * (tileSize * tileSize)];
      tiles := Some(pool.value);
      return Ok(());
    }

    /** randomTile: the pool entry a draw picks; undefined (None) for an empty pool. */
    function RandomTile(r: real): (t: Option<DataTexture>)
      reads this
      requires tiles.Some? && IsDraw(r)
      ensures t.Some? <==> |tiles.value| > 0
      ensures t.Some? ==> t.value in tiles.value
    {
      var i := ScaledFloor(r, |tiles.value|);
      if i < |tiles.value| then Some(tiles.value[i]) else None
    }

    /** setup(): fresh uniforms at their defaults, then the last shown mode shown again. */
    method Setup()
      modifies this`uniforms, this`shown
      ensures shown == old(shown)
      ensures uniforms == SetupUniforms(shown)
      ensures TileScale() == 100.0 && MaxStep() == 0.3
    {
      uniforms := DEFAULT_UNIFORMS;
      if Truthy(shown) {
        Show(shown.value);
      }
    }

    /** show(option): remembers the option and sets the blend factors it names. */
    method Show(option: string)
      modifies this`shown, this`uniforms
      ensures shown == Some(option)
      ensures uniforms == ApplyMode(old(uniforms), option)
    {
      shown := Some(option);
      if option == "depth" {
        uniforms := uniforms.(showDepth := 1.0, showOrig := 0.0);
      } else if option == "stereo" {
        uniforms := uniforms.(showDepth := 0.0, showOrig := 0.0);
      } else if option == "original" {
        uniforms := uniforms.(showDepth := 1.0, showOrig := 1.0);
      }
    }

    method ShowDepth()
      modifies this`shown, this`uniforms
      ensures shown == Some("depth")
      ensures uniforms == old(uniforms).(showDepth := 1.0, showOrig := 0.0)
    {
      Show("depth");
    }

    method ShowStereo()
      modifies this`shown, this`uniforms
      ensures shown == Some("stereo")
      ensures uniforms == old(uniforms).(showDepth := 0.0, showOrig := 0.0)
    {
      Show("stereo");
    }

    method ShowOriginal()
      modifies this`shown, this`uniforms
      ensures shown == Some("original")
      ensures uniforms == old(uniforms).(showDepth := 1.0, showOrig := 1.0)
    {
      Show("original");
    }

    /** The tileScale getter: the shader's repeat period. */
    function TileScale(): (period: real)
      reads this
      ensures period == uniforms.tileSize
    {
      uniforms.tileSize
    }

    method SetTileScale(value: real)
      modifies this`uniforms
      ensures uniforms == old(uniforms).(tileSize := value)
      ensures TileScale() == value && MaxStep() == old(MaxStep())
    {
      uniforms := uniforms.(tileSize := value);
    }

    /** The maxStep getter: the shader's step fraction. */
    function MaxStep(): (fraction: real)
      reads this
      ensures fraction == uniforms.maxStep
    {
      uniforms.maxStep
    }

    method SetMaxStep(value: real)
      modifies this`uniforms
      ensures uniforms == old(uniforms).(maxStep := value)
      ensures MaxStep() == value && TileScale() == old(TileScale())
    {
      uniforms := uniforms.(maxStep := value);
    }
  }

  /**
   * The mode chosen by show decides which image the shader outputs: the stereogram for
   * "stereo", the depth grey for "depth", the original colour for "original".
   */
  lemma ShowSelectsImage(u: Uniforms, option: string, stereo: Vec3, depthColor: Vec3, orig: Vec3)
    ensures option == "stereo" ==> Blend(stereo, depthColor, orig, ApplyMode(u, option)) == stereo
    ensures option == "depth" ==> Blend(stereo, depthColor, orig, ApplyMode(u, option)) == depthColor
    ensures option == "original" ==> Blend(stereo, depthColor, orig, ApplyMode(u, option)) == orig
  {}

  /** show leaves the period and step fraction alone, and an unknown option changes nothing. */
  lemma ShowKeepsTunables(u: Uniforms, option: string)
    ensures ApplyMode(u, option).tileSize == u.tileSize && ApplyMode(u, option).maxStep == u.maxStep
    ensures !KnownMode(option) ==> ApplyMode(u, option) == u
  {}

  /** Showing a mode twice is the same as showing it once. */
  lemma ShowIdempotent(u: Uniforms, option: string)
    ensures ApplyMode(ApplyMode(u, option), option) == ApplyMode(u, option)
  {}

  /** Any known mode can follow any other: the last one shown decides the blend factors. */
  lemma LastModeWins(u: Uniforms, first: string, second: string)
    requires KnownMode(second)
    ensures ApplyMode(ApplyMode(u, first), second) == ApplyMode(u, second)
  {}

  /**
   * After setup the period is 100 and the step fraction 0.3 whatever was set before, and
   * the blend factors are those of the last shown mode, or (0, 0) (stereo) if none.
   */
  lemma SetupRestoresDefaults(shown: Option<string>)
    ensures SetupUniforms(shown).tileSize == 100.0 && SetupUniforms(shown).maxStep == 0.3
    ensures Regular(SetupUniforms(shown))
    ensures Truthy(shown) ==> SetupUniforms(shown) == ApplyMode(DEFAULT_UNIFORMS, shown.value)
    ensures !Truthy(shown) || !KnownMode(shown.value) ==> SetupUniforms(shown).showDepth == 0.0 && SetupUniforms(shown).showOrig == 0.0
  {}
}
