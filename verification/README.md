# The maze raycaster, modelled in Dafny

The repository is a Wolfenstein-style raycaster in C++ on SDL/QuickCG.
Each frame, `maze.cpp` does the following for every one of the 640 screen
columns:

- casts a ray from the camera through a 24 x 24 grid map;
- walks it cell by cell (the grid DDA) until it enters a wall;
- clamps the wall stripe to the 480-row screen;
- picks a column and rows of one of eleven generated 64 x 64 textures;
- darkens y-side walls;
- writes the stripe into the frame buffer in place.

Between frames it clears the buffer and moves or turns the camera. A move
is checked against the map one axis at a time.

The library files hold earlier versions of the same pipeline:

- `lib/raycast.hpp`: a DDA `distanceToWall` with signed hit sides, a
  `drawRays` stripe clamp with flat colours, and `playerMove`;
- `lib/drawwalls.hpp` and `lib/drawwalls.cpp`: a ray-march renderer over a
  10 x 10 map. It steps a probe by 0.1 until the bounds-checked
  `getMapValue` reads 1. It then splits each column into ceiling, wall and
  floor rows, and reads wall texels with the byte decoder `getPixel`;
- `themaze.hpp`, `lib/walls.cpp` and `lib/temp.cpp`: further copies of the
  10 x 10 map, of `getMapValue` and of the march, plus the
  distance-to-next-grid-line conditionals.

## How the model is built

The model keeps the form of the source.

- Loops stay `while`/`for` loops in methods, proved against specification
  functions:
  - `Dda.Traverse` against `Dda.Walk`;
  - `RayMarch.March` against `RayMarch.Probe`;
  - `Stripe.DrawColumn` against `Stripe.DrawRange`, `Stripe.Texel` and
    `Stripe.Pixel`;
  - `Textures.GenerateTextures` against `Textures.Texel`.
- The frame buffer (`array2<bv32>`) and the textures (`array2<Uint32>`) are
  arrays written in place, with frame conditions saying nothing else
  changes.
- The camera is a class, `Camera.Player`, whose methods update its fields.
- Pure conditionals are functions: `getMapValue`, `getPixel`, `wallType`,
  the row classification and the clamps.

Doubles are Dafny `real`s, so the arithmetic is exact. C's `(int)` cast is
`CMath.Trunc`, which truncates toward zero. C's `/` on a possibly negative
`int` is `CMath.Half`. On a non-negative `int`, `& 63` is the remainder by
64.

Points of the code the model keeps as written:

- The DDA takes the x axis only when `sideDistX < sideDistY`, so a tie
  crosses the y grid line (maze.cpp:227, lib/raycast.hpp:222).
- maze.cpp and lib/raycast.hpp index the map without a bounds check, so
  the model requires a solid border, which the 24 x 24 map has
  (`World.WorldMapFacts`), and proves every cell the walk enters is on the
  map.
- maze.cpp offsets the stripe by a pitch of 100 rows. `drawRays` uses
  none. Both are `Stripe.DrawRange` with a `pitch` argument.
- maze.cpp puts no lower bound on `perpWallDist`; `lineHeight` is an input
  here.

## Model

| member | source | states |
|---|---|---|
| CMath.Trunc | maze.cpp:182-183 | `int(r)` truncates toward zero: for r >= 0 it is the floor, for r < 0 the ceiling |
| CMath.Half | maze.cpp:257 | `a / 2` on C ints: the remainder `a - 2q` is 0 or 1 for a >= 0 and 0 or -1 for a < 0 |
| Grid.OpenCellIsInterior | maze.cpp:224-242 | on a map with a solid border, a cell that is not a wall is interior, so one step from it stays on the map |
| World.WorldMapFacts | maze.cpp:28-53 | the world map is 24 x 24, every code is 0..8, and every border cell is a wall |
| World.StartCellOpen | maze.cpp:107 | the start cell (22, 11) is interior open floor |
| Dda.DeltaDist | maze.cpp:190-191 | `deltaDist` is 1e30 for a zero ray component and 1/\|rayDir\| otherwise; always positive |
| Dda.StepOf | maze.cpp:202-219 | the step is -1 exactly when the ray component is negative, else +1 |
| Dda.InitialSideDist | maze.cpp:202-221 | initial `sideDist` is (pos - cell)·delta going -, (cell + 1 - pos)·delta going +; from the camera's own cell it lies in [0, delta] |
| Dda.ColumnStartDistances | maze.cpp:182-221 | for a camera at non-negative coordinates, both initial side distances of a column lie in [0, deltaDist] |
| Dda.DistanceToNextGrid | lib/walls.cpp:77-82 | for ray >= 0: going + the next line is 1 - frac(ray), in (0, 1], landing on floor(ray) + 1; going - it is frac(ray), in [0, 1), landing on floor(ray); with no step it stays 0 |
| Dda.NextGridFromCorner | lib/walls.cpp:66-82 | from the start point 5.0 the next line is 1 away going + and 0 away going - |
| Dda.SideDistIsScaledGridDistance | maze.cpp:190-221 | for a camera at a non-negative position and a ray not parallel to the axis, maze.cpp's initial `sideDist` (from cell int(pos), with deltaDist = 1/\|rayDir\|) equals the distance to the next grid line of lib/walls.cpp:77-82 times `deltaDist` |
| Dda.Advance | maze.cpp:227-238 | one iteration moves exactly one of mapX/mapY by its step; side = 0 iff sideDistX < sideDistY (ties go to y); the nearer side distance never decreases |
| Dda.AdvanceShrinksMeasure | maze.cpp:224-242 | every iteration lowers "cells left to the border along each step direction" by exactly one |
| Dda.Traverse | maze.cpp:224-242 | on a solid-bordered map the loop ends after 1..CellsToBorder iterations at the first entered cell with code > 0; every earlier entered cell is on the map and open; the result is the `n`-th walker state `Dda.Walk` (n repetitions of `Advance`, maze.cpp:224-242) |
| Dda.CastColumn | maze.cpp:182-265 | from an interior camera cell the column's walk stops at a wall cell of the map within W + H - 4 steps; `texNum` = code - 1 >= 0; side is 0 or 1; the walk is `Dda.Walk` from `Dda.ColumnRay` (step and deltaDist, maze.cpp:190-219) and `Dda.ColumnStart` (cell int(pos) and initial sideDist, maze.cpp:182-221) |
| Dda.DistanceToWall | lib/raycast.hpp:181-263 | exactly one of wallHit.x/wallHit.y is nonzero, and the distance runs from the ray position to the crossed cell along that axis; on a solid-bordered map, because the walk starts at cell (0, 0), it stops after one step at (1, 0) or (0, 1), 2 - rayPos away |
| Colour.Rgb | maze.cpp:131 | packing three bytes gives a colour below 2^24 |
| Colour.RgbBytes | maze.cpp:130-142 | the red, green and blue bytes of a packed colour are the bytes it was packed from |
| Colour.Shade | maze.cpp:293-294 | `(c >> 1) & 8355711` halves each of the three low bytes (rounding down) and clears the top byte |
| Colour.ShadeRepacksHalvedBytes | maze.cpp:292-294 | darkening equals repacking the three halved bytes |
| Colour.WallColour | lib/raycast.hpp:481-495 | codes 1..4 and only they have a colour, with alpha 255 and byte channels |
| Colour.WallColoursDistinct | lib/raycast.hpp:481-495 | codes 1..4 give pairwise distinct colours; 1 is white and 4 is blue |
| Textures.XorBits | maze.cpp:126 | the xor of the n low bits is below 2^n |
| Textures.XorBitsUndo | maze.cpp:126 | xor-ing twice with the same b gives back the n low bits of a |
| Textures.Xor | maze.cpp:126 | `int ^ int` of two bytes is a byte |
| Textures.XorUndo | maze.cpp:126 | byte xor undoes itself: (a ^ b) ^ b == a |
| Textures.Texel | maze.cpp:130-142 | every texel of every texture is below 2^24 |
| Textures.GreyTextures | maze.cpp:131-141 | textures 1, 3, 7 and 9 have equal red, green and blue bytes |
| Textures.RedTextures | maze.cpp:130-140 | textures 0, 5, 6 and 8 have no green or blue |
| Textures.GreenAndYellowTextures | maze.cpp:132-142 | texture 4 is green only; textures 2 and 10 have red == green and no blue |
| Textures.SpriteTexturesRepeat | maze.cpp:137-142 | textures 8, 9, 10 equal textures 0, 1, 2 texel for texel; texture 7 is the constant 0x808080 |
| Textures.MaskFormulasMatch | maze.cpp:130-140 | the C formulas of textures 0, 5, 7 and 8 give the texels `Texel` describes |
| Textures.RampFormulasMatch | maze.cpp:128-142 | the C formulas of textures 1, 2, 6, 9 and 10 give the texels `Texel` describes |
| Textures.XorFormulasMatch | maze.cpp:126-134 | the C formulas of textures 3 and 4 give the texels `Texel` describes |
| Textures.StoreTexel | maze.cpp:130-142 | the eleven stores set element i of every texture and change nothing else |
| Textures.FormulaValuesAreTexels | maze.cpp:126-142 | the eleven values the inner body computes (`Textures.FormulaValues`, from `xorcolor`, `ycolor` and `xycolor`) are `Texel(t, x, y)` for t = 0 .. 10, in store order |
| Textures.WriteTexel | maze.cpp:126-142 | one pass of the inner body sets texel (x, y) of all eleven textures to `Texel(t, x, y)`; every other texel (xx, yy) of every texture keeps its value |
| Textures.GenerateTextures | maze.cpp:122-144 | after the nested loop, element i of texture t is `Texel(t, i % 64, i / 64)` for every t and i |
| Stripe.DrawRange | maze.cpp:257-262 | after clamping 0 <= drawStart and drawEnd <= 479; each end is either the clamp or centre ∓ lineHeight/2; for lineHeight >= 0 the span contains the centre row |
| Stripe.StripeRowsOnScreen | maze.cpp:286 | every drawn row is on screen, never the last row 479, and within half a line height of the centre |
| Stripe.DrawRangeMonotone | maze.cpp:257-262 | a taller line starts no lower and ends no higher |
| Stripe.DrawRaysClamp | lib/raycast.hpp:468-477 | with no pitch, the clamped span lies on the 480-row screen and contains row 240 |
| Stripe.WallX | maze.cpp:268-273 | `wallX - floor(wallX)` lies in [0, 1) and differs from wallX by a whole number |
| Stripe.TexX | maze.cpp:276-280 | texX lies in [0, 64); it is int(wallX·64), mirrored to 64 - texX - 1 exactly for an x-side with rayDirX > 0 or a y-side with rayDirY < 0 |
| Stripe.MirrorInvolution | maze.cpp:277-280 | the mirror keeps a column in [0, 64) and is its own inverse |
| Stripe.TexPos | maze.cpp:283-290 | the exact `texPos` of row y (the row's offset from the unclamped top times 64 / lineHeight) is 0 exactly at the unclamped top row, so texture row 0 lines up with the top of the line |
| Stripe.NextRowStep | maze.cpp:283-290 | `texPos += step` moves to the next row's texture position |
| Stripe.TexY | maze.cpp:289 | `int(texPos) & 63` lies in [0, 64) and is floor(texPos) when texPos is in [0, 64) |
| Stripe.TexPosInTexture | maze.cpp:283-290 | on every drawn row lineHeight > 0 and texPos lies in [0, 64), so the mask never wraps |
| Stripe.PutTexel | maze.cpp:289-295 | with texY taken from row y's `texPos`, buffer[y][x] becomes `Stripe.Texel` of row y (the texel at (texX, texY), maze.cpp:289-291), darkened on a y-side (`Stripe.Pixel`, maze.cpp:291-294); no other cell changes |
| Stripe.DrawColumn | maze.cpp:283-296 | rows drawStart..drawEnd-1 of column x get the texel for that row (`Stripe.Texel`: texture element 64·TexY(texPos) + texX, maze.cpp:289-291), darkened on a y-side (`Stripe.Pixel`); every other cell of the buffer is unchanged; the returned span is `DrawRange` |
| Stripe.ClearBuffer | maze.cpp:300-306 | every cell of the 480 x 640 buffer becomes 0 |
| Camera.StartIsEmpty | maze.cpp:107 | the start position (22, 11.5) is on open floor of a solid-bordered map |
| Camera.Moved | lib/raycast.hpp:292-303 | x moves by dX exactly when the cell at (x + dX, old y) is open floor, otherwise x stays; then y moves by dY exactly when the cell at (new x, y + dY) is open floor, otherwise y stays; the result is on open floor |
| Camera.BlockedStepStays | lib/raycast.hpp:295-302 | a step blocked on both axes leaves the position unchanged |
| Camera.FreeStepIsTaken | lib/raycast.hpp:292-303 | a step that stays inside the current open cell is taken in full |
| Camera.RotationKeepsDot | maze.cpp:342-359 | turning two vectors by the same angle (`Camera.TurnX`, `Camera.TurnY`: x·cos − y·sin and x·sin + y·cos) keeps their dot product |
| Camera.RotatedCamera | maze.cpp:338-360 | turning direction and plane together keeps them perpendicular, with lengths 1 and 0.66 |
| Camera.Player.constructor | maze.cpp:107-109 | the player starts at (22, 11.5) looking along -x with plane (0, 0.66), a valid camera |
| Camera.Player.Move | maze.cpp:323-326 | the position becomes `Moved` of the old one and stays on open floor; the view is unchanged |
| Camera.Player.MoveForward | maze.cpp:321-327 | the up key moves by dir·moveSpeed under the collision check |
| Camera.Player.MoveBackward | maze.cpp:330-336 | the down key moves by -dir·moveSpeed under the collision check |
| Camera.Player.Rotate | maze.cpp:338-360 | direction and plane become `TurnX`/`TurnY` of their old values by the given cosine and sine, each new x computed from the old x and y; the position is unchanged and the camera stays valid |
| MapLookup.GetMapValue | lib/drawwalls.hpp:45-52 | any coordinate outside [0, 10) x [0, 10) reads 1; otherwise `map[x][y]`, x first (the copies at lib/drawwalls.cpp:6-13, themaze.hpp:40-47, lib/walls.cpp:36-41 and lib/temp.cpp:35-40 are the same) |
| MapLookup.SolidMazeShape | themaze.hpp:27-37 | the closed map is 10 x 10, every code is 0 or 1, and the whole border is 1 (the same literal is at lib/walls.cpp:22-33 and lib/temp.cpp:21-32) |
| MapLookup.SolidMazeLookup | themaze.hpp:40-47 | on the closed map the lookup returns only 0 or 1, and 0 only inside the 8 x 8 interior |
| MapLookup.OpenMazeGap | lib/drawwalls.hpp:30-40 | the drawwalls map has floor at (9, 3..5) on its border; beyond the gap the lookup reads 1; other rows equal the closed map |
| MapLookup.OriginIsWall | lib/drawwalls.hpp:30-31 | both maps have a wall at (0, 0) |
| Pixel.Window | lib/drawwalls.hpp:57-58 | the window holds bpp bytes, and its k-th byte is pixel byte y·pitch + x·bpp + k |
| Pixel.GetPixel | lib/drawwalls.hpp:55-76 | a depth outside 1..4 gives 0; a 1-, 2- or 3-byte pixel has no bits above 8, 16 or 24 |
| Pixel.GetPixelReadsWindowOnly | lib/drawwalls.hpp:57-58 | the pixel depends only on its own bytes |
| Pixel.ThreeByteOrders | lib/drawwalls.hpp:66-70 | the big-endian 3-byte pixel is the little-endian one of the reversed bytes; both are below 2^24 |
| Pixel.GetPixelDecodesEncode | lib/drawwalls.hpp:60-74 | a value that fits its depth, stored in the host's byte order, reads back unchanged |
| RayMarch.March | lib/drawwalls.cpp:41-50 | after k probes the distance is k·0.1: the march stops at the first probe reading exactly 1, or after 3200 probes (distance 320) with no hit; every earlier probe missed. A probe (`RayMarch.ProbeAt`, `RayMarch.Probe`, lib/drawwalls.cpp:43-48) is `getMapValue` at the truncated point eye·distance. lib/temp.cpp:65-71 is the same loop |
| RayMarch.FirstProbeIsOrigin | lib/drawwalls.hpp:105-112 | for a unit direction the first probe reads the origin cell |
| RayMarch.WallType | lib/drawwalls.hpp:152-159 | wallType is 0..3: 0 exactly up to 128, 3 exactly from 256 |
| RayMarch.WallTypeMonotone | lib/drawwalls.cpp:89-96 | wallType never decreases with distance |
| RayMarch.TextureX | lib/drawwalls.hpp:169-173 | in a wall row, floor - ceiling > 0 and textureX lies in [0, 256], reaching 256 at y == floor; mirrored it lies in [-1, 255] |
| RayMarch.TextureXMonotone | lib/drawwalls.hpp:171 | going down the stripe textureX never decreases |
| RayMarch.ClassifyRow | lib/drawwalls.hpp:162-190 | each row is exactly one of ceiling (y < ceiling), wall (ceiling < y <= floor) or floor (the rest, including y == ceiling); a wall row's textureY is non-negative |
| RayMarch.FirstStopUnique | lib/drawwalls.cpp:41-50 | a march has only one stopping probe (`RayMarch.FirstStop`: the first probe reading 1, or probe 3200 when none does), so the map and the direction determine the distance |
| RayMarch.RenderColumn | lib/drawwalls.cpp:41-127 | the column's distance is k·0.1 for the march's stopping probe k on map `m` along the eye direction (`FirstStop`), in (0, 320], with its wallType; its 640 rows are each classified by `ClassifyRow` against `RayMarch.Ceiling`, int(320 - 640 / distance) (lib/drawwalls.hpp:145-146) |
| RayMarch.OriginWallFillsColumn | lib/drawwalls.hpp:105-173 | with the origin a wall, probe 1 is the stopping probe (`FirstStop`), so the march stops at 0.1, ceiling is -6080, wallType is 0, and every row is a wall row |
| Frame.ColumnDirection | maze.cpp:177-179 | the ray of column x is dir + plane·`Frame.CameraX`(x); column 0 looks along dir - plane, the middle column along dir |
| Frame.CameraCoordinateRange | maze.cpp:177 | `CameraX` = 2x/640 - 1 runs over [-1, 1) across the screen, is -1 exactly at column 0 and 0 exactly at the middle column |
| Frame.CameraXStep | maze.cpp:177 | neighbouring columns are 2/640 apart on the camera plane |
| Frame.ColumnsSweepPlane | maze.cpp:177-179 | each column's ray is the previous column's plus plane·2/640, so the rays sweep the camera plane evenly from dir - plane |
| Frame.DrawWorldColumn | maze.cpp:174-296 | one column over the world map: the ray is `ColumnDirection` of column x; the hit cell and side are those of `Dda.Walk` from the camera's cell along that ray after n steps, with every earlier cell open (as `CastColumn` states); the hit cell is a wall on the map, texNum is 0..7, texX is `TexX`, the stripe rows hold their texels and nothing outside them changes |

## Left out

- SDL and QuickCG calls are not modelled: window, renderer, `drawBuffer`, `redraw`, `readKeys`/`keyDown`, `SDL_LoadBMP`, `loadImage`, `SDL_GetRGB`, the frame loops and frame timing. They are foreign I/O.
- `readMap` (lib/raycast.hpp:265-290) is not modelled; it is file input.
- The sprite renderer is not modelled. `sortSprites` is declared but never defined, and `ZBuffer`, `spriteOrder` and `spriteDistance` are never written.
- Floating-point rounding is not modelled; doubles are exact reals. In particular the march's 0.1 steps reach 320 after exactly 3200 probes here.
- The following are inputs, not computed: `perpWallDist`, `lineHeight`, `wallX`, the trigonometric ray angles, the eye direction, and the cosine and sine of a turn. They come from float division, `atan2`, `sin` and `cos`.
- The acos-based boundary test is not modelled; `hitBoundary` is an input. The test is float-only and its results are unused or only set that flag.
- The `r *= b` shading in `render` is not modelled. It multiplies by a shadowed `Uint8 b` and depends on `SDL_GetRGB`. Reading the wall texel with `getPixel` is not connected to the row classification either, because the surfaces are loaded from files.
- `playerRotate` (lib/raycast.hpp:305-308) is not modelled. It only adds to an angle, and the model's camera is the direction-and-plane form of maze.cpp.
- The `drawRays` DDA (lib/raycast.hpp:396-451) is not modelled. It keeps a real-valued `mapPos` that is never truncated to a cell. Its stripe clamp and colour switch are modelled.
- The `render` body of lib/walls.cpp (84-104) repeats its declarations and does not compile. Only its first distance-to-next-grid block is modelled.
- Camera.Moved: requires a step shorter than one cell and a start on open floor at non-negative coordinates. The source indexes the map with no bounds check, and these conditions keep every index on the map.
- Camera.Player.Move: requires the same as `Camera.Moved`, for the same reason.
- Dda.Traverse: requires a solid border and a first cell on the map, because the source indexes the map without a check.
- Dda.DistanceToWall: requires the first cell entered from (0, 0) to be on the map, because the source indexes the map without a check.
- RayMarch.March: does not model the double rounding of the 0.1 steps.
- Frame.DrawWorldColumn: takes `lineHeight` and `wallX` as given, so it does not tie them to the perpendicular distance of the hit.
