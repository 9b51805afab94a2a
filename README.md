# Rectangle annotations: geometry and normalised/pixel conversion

A Dafny model of the coordinate logic of a rectangle-annotation editor:

- `types.dfy` — the plain records `Point {x, y}`, `Size {w, h}` and
  `Rect {topLeft, size, selected}` (`src/impl/types.ts`), plus `Option` for
  the source's nullable numbers. Numbers are `real`.
- `drawing.dfy` — module `Drawing`: the class `RectFactory` with the fields
  `topLeft`, `size` and `selected`, its in-place mutators (constructor,
  `SetSize`, `MoveTo`, `Scale`, each stating its whole new state and that the
  other fields are unchanged) and its read-only queries (`Center`, `Hit`,
  `AreaPercentIn`, as functions reading the object). The value-level effects
  `Resized`, `Moved` and `Scaled` on the `Rect` view let lemmas state
  idempotence of `setSize` and `moveTo` and composition of `scale`. Lemmas relate the queries:
  corners and centre are hit, points outside any edge are not, a box of the
  scene's size covers 100 percent, a box inside it covers 0 to 100 percent.
- `protocol.dfy` — module `Protocol`: the normalised record `T {x, y, w, h}`,
  `FromJson` and `ToJson`. The JSON text is abstracted: `Parsed` is the
  outcome of `JSON.parse` (a syntax error, a non-array value, or an array
  whose elements are records or `null`), and `ToJson` yields the record
  sequence that `JSON.stringify` prints; `Wire` is printing followed by
  parsing. `FromJson` is fail-soft: any failure gives the empty sequence,
  never a partial result. Round trips are exact over reals for any non-zero
  image size.

## Model

| member | source | states |
|---|---|---|
| `Drawing.RectFactory.constructor` | src/impl/drawing.ts:14-21 | topLeft is (startX, startY); size is (width, height) when both are non-null, else (0, 0); not selected |
| `Drawing.RectFactory.SetSize` | src/impl/drawing.ts:23-25 | size becomes (w, h); topLeft and selected are unchanged |
| `Drawing.RectFactory.Center` | src/impl/drawing.ts:27-31 | the centre is equidistant from the left and right edges and from the top and bottom edges |
| `Drawing.ResizedIdempotent` | src/impl/drawing.ts:23-25 | setting the same size twice equals setting it once |
| `Drawing.RectFactory.MoveTo` | src/impl/drawing.ts:61-64 | topLeft becomes (x, y) absolutely, whatever it was; size and selected are unchanged |
| `Drawing.MovedIdempotent` | src/impl/drawing.ts:61-64 | moving twice to the same point equals moving once |
| `Drawing.RectFactory.Scale` | src/impl/drawing.ts:66-71 | the four coordinates are multiplied by f, selected is kept; for f > 0 a point (x, y) was hit before iff (x*f, y*f) is hit after |
| `Drawing.ScaledByOne` | src/impl/drawing.ts:66-71 | scaling by 1 is the identity |
| `Drawing.ScaledComposes` | src/impl/drawing.ts:66-71 | scaling by f then by g equals scaling by f*g |
| `Drawing.ScaledByTwoExample` | src/impl/drawing.ts:66-71 | scaling by 2 the box at (1, 1) of size (2, 3) gives the box at (2, 2) of size (4, 6) |
| `Drawing.RectFactory.Hit` | src/impl/drawing.ts:73-77 | true iff the point is at most half the width from the centre horizontally and at most half the height vertically, so every edge is included |
| `Drawing.CornersAreHit` | src/impl/drawing.ts:73-77 | with a non-negative size, all four corners are hit (edges inclusive) |
| `Drawing.CenterIsHit` | src/impl/drawing.ts:73-77 | with a non-negative size, the centre is hit |
| `Drawing.OutsideIsNotHit` | src/impl/drawing.ts:73-77 | a point beyond any of the four edges is not hit |
| `Drawing.OneUnitOutsideIsNotHit` | src/impl/drawing.ts:73-77 | a point one unit outside the middle of each edge is not hit |
| `Drawing.NegativeSizeHitsNothing` | src/impl/drawing.ts:73-77 | a box with a negative width or height is hit nowhere |
| `Drawing.RectFactory.AreaPercentIn` | src/impl/drawing.ts:80-84 | 0 when the scene's width or height is not positive; otherwise result times the scene area equals 100 times the box area |
| `Drawing.AreaPercentOfEqualSize` | src/impl/drawing.ts:80-84 | a box the size of a non-empty scene covers exactly 100 percent |
| `Drawing.AreaPercentBounded` | src/impl/drawing.ts:80-84 | a box no larger than the scene in either direction covers between 0 and 100 percent |
| `Protocol.MapItems` | src/impl/Protocol.ts:16-27 | the map succeeds iff no element is null; then it has the array's length and element i is record i scaled by the image size, unselected |
| `Protocol.FromJson` | src/impl/Protocol.ts:10-33 | for an array of records, the converted rectangles in the same order; in every other case the empty sequence |
| `Protocol.FromJsonFailSoft` | src/impl/Protocol.ts:13-30 | a text that fails to parse or is not an array yields the empty sequence |
| `Protocol.FromJsonNoPartialResult` | src/impl/Protocol.ts:16-30 | a null element anywhere discards the whole result |
| `Protocol.FromJsonEmptyArray` | src/impl/Protocol.ts:11-32 | the empty array yields the empty sequence |
| `Protocol.ToJson` | src/impl/Protocol.ts:35-51 | one record per rectangle, same length and order; record i is rectangle i divided by the image width (x, w) and height (y, h) |
| `Protocol.ToJsonIgnoresSelected` | src/impl/Protocol.ts:36-48 | rectangle sequences differing only in selected encode identically |
| `Protocol.RecordRoundTrip` | src/impl/Protocol.ts:17-20 | one record scaled to pixels and divided back (toJson, lines 37-40) is the record itself, for a non-zero image size |
| `Protocol.RectRoundTrip` | src/impl/Protocol.ts:37-40 | one rectangle divided to a record and scaled back (fromJson, lines 17-20) keeps its coordinates and is unselected |
| `Protocol.RecordsRoundTrip` | src/impl/Protocol.ts:16-48 | records → rectangles → records is the identity for a non-zero image size |
| `Protocol.RectsRoundTrip` | src/impl/Protocol.ts:16-48 | rectangles → records → rectangles keeps every coordinate in order and clears selected |

## Left out

- `RectFactory.draw` (src/impl/drawing.ts:33-59): drawing-surface side effects only; its computed inputs are the box's corners (topLeft plus size), the centre (`Center`) and the label `arrayIndex + 1`, drawn when `arrayIndex >= 0`.
- `JSON.parse` / `JSON.stringify`: library calls on JSON text; parsing is the `Parsed` value given to `FromJson`, printing is the record sequence `ToJson` returns, and `Wire` assumes that parsing printed records gives them back.
- IEEE-754 behaviour: numbers are reals, so NaN and Infinity are not modelled — neither the NaN fields that array elements which are not objects, or lack a field, produce in `fromJson`, nor the Infinity/NaN values `toJson` computes for a zero image width or height.
- Record fields: a parsed record's `x`, `y`, `w` and `h` are taken to be JSON numbers; the source multiplies whatever a field holds, and JavaScript converts a `null` field to 0, a boolean to 0 or 1 and a numeric string to its number, so such records give finite rectangles the `Record(T)` element does not represent.
- Protocol.ToJson: requires a non-zero image width and height; the source divides by zero anyway, `JSON.stringify` prints the resulting Infinity/NaN fields as `null`, and `fromJson` reads those back as 0.
- Drawing.RectFactory.MoveTo: replaces the `topLeft` value instead of writing its `x` and `y` in place, so a `Point` object shared with another holder is not modelled.
- Drawing.RectFactory.Scale: replaces the `topLeft` and `size` values instead of multiplying their fields in place (src/impl/drawing.ts:67-70), so a `Point` or `Size` object shared with another holder is not modelled.
- `CanvasProps` (src/impl/types.ts:20-27): UI state owned outside this code.
- Sharing of the `rects` collection by the UI: an ownership concern of the caller.
