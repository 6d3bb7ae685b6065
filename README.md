# Autostereogram renderer: a Dafny model of its core

The renderer draws a single-image random-dot stereogram of a 3D scene. It builds a pool
of small random tiles from a palette, picks one tile per frame, and runs a fragment
shader over the screen. For each pixel the shader walks left one repeat period at a
time. Each period is shortened by the depth found at that point. The shader then wraps
the end point into tile coordinates and samples the tile there. A display mode chooses
between the stereogram, a grey image of the depth, and the original colours.

The model has five modules, one file each:

- `Wrappers` (wrappers.dfy): `Option` (a JavaScript value that may be undefined) and `Outcome` (a value or a thrown TypeError).
- `Colors` (colors.dfy): bytes, RGB palette entries, and the draws that stand in for `Math.random`.
- `TileSynthesis` (tiles.dfy): `createTextureFromPalette`, `createTexturesFromPalette` and `createRandomPalette`. The texel fill is a loop over an array.
- `Shader` (shader.dfy): the fragment shader's `main`. The walk is a method with a loop, proved against a recursive function `WalkFrom`. GLSL `mod` and `mix`, the tile coordinates and the blend are functions.
- `Renderer` (renderer.dfy): the class `AutostereogramRenderer`. It holds the fields the source updates: `tiles`, `palette`, `shown` and the shader's uniforms. It models `createTiles`, `randomTile`, `show` and its three shortcuts, `setup`'s uniforms, the `tileScale`/`maxStep` accessors and the constructor.

`Math.random` is replaced by an injected sequence of draws, each in [0, 1). Each call in
the source takes the next draw. `createTiles` takes 9 draws for the random palette when
it needs one, then `tileSize * tileSize` draws per tile, tile after tile.

Arithmetic in the shader is over `real`, an idealisation of GPU floats. The depth image
is a function from pixel coordinates to a real number; `UnitDepth` says it lies in [0, 1].
The division by `u_res` in the shader is folded into that function. The original image
and the tile are sampling functions.

Behaviour worth knowing, modelled as the code has it:

- `setup()` rebuilds the uniforms at their defaults (repeat period 100, step fraction 0.3). It then shows the last shown mode again. So a period or step fraction set through the accessors is lost whenever `setup()` runs; the demo calls it on every window resize.
- `show` with an unknown string still records it in `shown`, but leaves both blend factors as they were.
- An empty string in `shown` is falsy, so `setup()` does not show it again. This is not observable, because an empty string changes no factor.
- The walk's loop counter stops at 100. A pixel from 0 up to `tileSize + 100 * tileSize * (1 - maxStep)` still ends in the leftmost column (`WalkEndsInSeedColumn`), even if it uses all 100 steps; a pixel further right may stop before reaching it.
- With an empty palette, `createTextureFromPalette` picks index 0, gets `undefined`, and throws on reading `c[0]`. The model returns `TypeError` at that point.

The code has no default display mode: `shown` starts undefined, and the initial blend
factors (0, 0) give the stereogram. Tile coordinates are GLSL `mod(x, period) / period`,
which equals `frac(x / period)` for a positive period.

## Model

| member | source | states |
|---|---|---|
| Colors.ScaledFloor | autostereogram.js:206 | `Math.floor(Math.random() * n)` is an index below n for a non-empty collection, and 0 for an empty one |
| Colors.ScaledFloorPreimage | autostereogram.js:206 | index i is chosen exactly for the draws in [i/n, (i+1)/n), so a uniform draw picks every index with probability 1/n |
| Colors.Pick | autostereogram.js:206-207 | the entry a draw picks from a non-empty palette is a member of that palette |
| Colors.PickReachesEveryEntry | autostereogram.js:206-207 | every palette entry is picked by some draw |
| TileSynthesis.CreateTextureFromPalette | autostereogram.js:202-221 | throws exactly when texels are needed from an empty palette; otherwise returns a texSize x texSize texture of 3·texSize² bytes whose texel k is the palette entry picked by the k-th draw |
| TileSynthesis.TileTexelsInPalette | autostereogram.js:205-211 | every texel of such a tile is a palette colour |
| TileSynthesis.TileData | autostereogram.js:205-211 | the fill writes exactly three bytes per draw |
| TileSynthesis.TileDataFilled | autostereogram.js:205-211 | texel k of the written bytes is the palette entry the k-th draw picks |
| TileSynthesis.TileTexels | autostereogram.js:202-221 | a tile is texSize texels wide and high, and its texel k is the palette entry the k-th draw picks |
| TileSynthesis.PoolLength | autostereogram.js:222-229 | a pool of k tiles consumes k blocks of texSize² draws |
| TileSynthesis.PoolBlock | autostereogram.js:222-229 | tile j of a pool is drawn by block j of the draws, the blocks counted by repeated addition |
| TileSynthesis.PoolExtend | autostereogram.js:225-227 | pushing the tile made from the next texSize² draws extends the pool by exactly those draws |
| TileSynthesis.CreateTexturesFromPalette | autostereogram.js:222-230 | throws exactly when num > 0, texSize > 0 and the palette is empty; otherwise returns exactly num tiles, drawn one after another from the draws |
| TileSynthesis.PoolTile | autostereogram.js:222-229 | tile j of a pool is a texSize x texSize palette tile drawn by the j-th block of texSize² draws |
| TileSynthesis.CreateRandomPalette | autostereogram.js:231-241 | returns num colours; colour i takes its three channels from draws 3i, 3i+1, 3i+2, each scaled to a byte |
| TileSynthesis.ChannelPreimage | autostereogram.js:235-237 | a channel takes byte value v exactly for the draws in [v/256, (v+1)/256), so it is uniform over the full byte range |
| Renderer.AutostereogramRenderer.constructor | autostereogram.js:61-78 | tileSize and tileCount fall back to 32 and 20; supplied tiles and palette are kept; otherwise the pool is built as CreateTiles states; the uniforms are the defaults and no mode is shown |
| Renderer.AutostereogramRenderer.CreateTiles | autostereogram.js:141-154 | changes nothing when tiles exist; otherwise the palette is kept or becomes 3 random colours then black and white, and tileCount tiles are built from it by the following draws; throws, changing nothing, exactly when a supplied palette is empty and tiles are needed |
| Renderer.AutostereogramRenderer.RandomTile | autostereogram.js:155-157 | for any draw, the result is defined exactly when the pool is non-empty, and is then a member of the pool |
| Renderer.AutostereogramRenderer.Setup | autostereogram.js:104-124 | the uniforms become the defaults with the last truthy shown mode applied again; the period is 100 and the step fraction 0.3 whatever was set before; `shown` is unchanged |
| Renderer.AutostereogramRenderer.Show | autostereogram.js:178-191 | records the option and sets the blend factors as that option prescribes, leaving everything else alone |
| Renderer.AutostereogramRenderer.ShowDepth | autostereogram.js:192-194 | shows "depth": factors (showdepth, showorig) = (1, 0) |
| Renderer.AutostereogramRenderer.ShowStereo | autostereogram.js:195-197 | shows "stereo": factors (0, 0) |
| Renderer.AutostereogramRenderer.ShowOriginal | autostereogram.js:198-200 | shows "original": factors (1, 1) |
| Renderer.AutostereogramRenderer.TileScale | autostereogram.js:159-161 | the tileScale getter returns the repeat period the shader reads (its tileSize uniform) |
| Renderer.AutostereogramRenderer.MaxStep | autostereogram.js:166-168 | the maxStep getter returns the step fraction the shader reads (its maxStep uniform) |
| Renderer.AutostereogramRenderer.SetTileScale | autostereogram.js:159-164 | the getter returns the value just set; the step fraction is unchanged |
| Renderer.AutostereogramRenderer.SetMaxStep | autostereogram.js:166-171 | the getter returns the value just set; the period is unchanged |
| Renderer.ShowSelectsImage | autostereogram.js:178-191 | with the factors "stereo", "depth" and "original" set, the shader outputs the stereogram colour, the depth grey and the original colour respectively |
| Renderer.ShowKeepsTunables | autostereogram.js:178-191 | show never changes the period or the step fraction, and an unknown option changes no uniform |
| Renderer.ShowIdempotent | autostereogram.js:178-191 | showing a mode twice gives the same uniforms as showing it once |
| Renderer.LastModeWins | autostereogram.js:178-191 | after any mode, a known mode's factors replace the previous ones |
| Renderer.SetupRestoresDefaults | autostereogram.js:108-124 | setup's uniforms have period 100 and step fraction 0.3, the walk makes progress with them, and the factors are (0, 0) unless a known mode was shown |
| Shader.WalkFrom | autostereogram.js:43-48 | the walk ends with the counter between its start and 100; y never changes; if it ends before 100 then x < tileSize; if it starts left of tileSize it takes no step |
| Shader.Walk | autostereogram.js:39-48 | the shader loop computes exactly WalkFrom from the pixel: at most 100 steps, y unchanged, x < tileSize unless cut off, no step from the leftmost column |
| Shader.StepBounds | autostereogram.js:47 | with depth in [0, 1], tileSize > 0 and step fraction in [0, 1), one step moves left by at least tileSize·(1 − maxStep) > 0 and at most tileSize |
| Shader.WalkMovesLeft | autostereogram.js:43-48 | after k steps x has decreased by at least k·tileSize·(1 − maxStep) |
| Shader.WalkMovesAtMost | autostereogram.js:43-48 | after k steps x has decreased by at most k·tileSize |
| Shader.WalkStaysOnScreen | autostereogram.js:43-48 | a walk from x ≥ 0 ends at x ≥ 0 |
| Shader.WalkFinishes | autostereogram.js:43-48 | a walk from below tileSize + (99 − count)·tileSize·(1 − maxStep) stops before the 100-step bound |
| Shader.WalkEndsInSeedColumn | autostereogram.js:42-48 | a walk from an on-screen pixel left of tileSize + 100·tileSize·(1 − maxStep) ends in the leftmost column, 0 ≤ x < tileSize, whether or not it uses all 100 steps |
| Shader.WalkCounterShift | autostereogram.js:43-48 | starting the counter one later changes only the final counter, when the later walk is not cut off |
| Shader.Mod | autostereogram.js:49-50 | GLSL mod lies in [0, b) for b > 0 and in (b, 0] for b < 0 |
| Shader.ModPeriodic | autostereogram.js:49-50 | mod(a + b, b) = mod(a, b): the tile wraps around seamlessly |
| Shader.TileCoord | autostereogram.js:49-50 | the tile coordinate mod(c, s)/s lies in [0, 1) for every non-zero s |
| Shader.Mix | autostereogram.js:56 | GLSL mix returns its first colour at 0 and its second at 1 |
| Shader.Blend | autostereogram.js:56 | the output is the stereogram colour when showdepth = 0, the depth grey for (1, 0) and the original colour for (1, 1) |
| Shader.StereoColor | autostereogram.js:42-52 | a pixel left of tileSize takes the tile colour at its own wrapped coordinate |
| Shader.WalkRepeatsAtEffectivePeriod | autostereogram.js:43-48 | over constant depth d, the walk from the pixel tileSize − d·tileSize·maxStep to the right of p ends at the same point as the walk from p |
| Shader.StereoRepeatsAtEffectivePeriod | autostereogram.js:43-52 | over constant depth d, the pixel tileSize − d·tileSize·maxStep to the right of p shows the same stereogram colour as p |
| Shader.ShadeFragment | autostereogram.js:36-57 | the fragment colour is the blend of the tile colour at the end of the walk, the grey of the depth at the pixel itself and the original colour there |

## Left out

- `game.js`: scene and camera setup, model loading, the control panel, the resize handler and the animation loop. It contains no part of the algorithm.
- `readDepth` (autostereogram.js:31-35): the linearisation calls three.js packing functions that are not part of this model. Depth is an abstract function of the pixel coordinate with values in [0, 1].
- GPU floating point: the shader is modelled over real numbers, without rounding.
- `texture2D` sampling: nearest filtering and repeat wrapping are abstracted as functions from coordinates to colours. The tile is sampled by tile coordinate; the depth and original images by pixel coordinate.
- WebGL and three.js objects: the depth-texture extension check, render-target, depth-texture and DataTexture construction and their flags, `dispose`, and `render()`'s switching of render targets. These are calls into a library this model does not include. The uniforms for the camera planes, the resolution and the samplers are left out with them.
- `Math.random` itself: replaced by injected draws in [0, 1).
- `changeSize` (autostereogram.js:243-254): it is commented out.
- The unused shader variables `depth` (line 37) and `d` (line 40) have no effect and are not modelled.
- Renderer.AutostereogramRenderer.constructor: requires a supplied palette to be non-empty when tiles must be built. In the source, `new` throws a TypeError then. That error path is modelled in CreateTiles and CreateTextureFromPalette, not in the constructor.
- Renderer.AutostereogramRenderer.constructor: tileSize and tileCount are natural numbers, with 0 meaning absent (the source's `||` default treats 0 as missing). Negative or fractional options are unusual configurations the model does not cover: in the source a fractional tile size truncates the byte buffer's length and the fill's writes past its end are dropped, a negative tile count gives no tiles, and a fractional one is rounded up by the `j < num` loop.
- TileSynthesis.CreateTextureFromPalette: palette entries are byte triples. The Uint8Array conversion of supplied channel values outside 0..255 is not modelled.
- Shader.ShadeFragment: requires a non-zero tileSize, because GLSL leaves a division by zero undefined.
