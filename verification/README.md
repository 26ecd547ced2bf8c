# Heightmap terrain viewer: mesh, luminance and interaction model

This project models the core of a WebGL page that shows a terrain built
from a user-supplied image. It covers three parts of `assignment2.js`:

- **`processImage`**. Every pixel of the decoded image becomes one height
  sample, its BT.709 luma scaled to [0, 1]. The samples are stored row by
  row.
- **The image-load handler**. It turns the W x H heightmap into a triangle
  list with no index buffer: two triangles, so six vertices, per grid cell.
  Corner (r, c) sits at x = c / (W + 1) * 2 and z = r / (H + 1) * 2, and its
  height is read from sample `r * W + c`. The handler then sets
  `vertexCount` to the number of vertices.
- **The mouse, wheel and slider listeners**, and the order in which `draw`
  composes the model matrix from what they set.

Modules:

- `Luminance`: the pixel loop and the heightmap record it returns.
- `Mesh`: the two-level mesh loop, and a recursive reference definition of
  the vertex list (`MeshOf`). Lemmas give its exact layout, bounds and
  reads.
- `Blocks`: generic lemmas about sequences built from equal-length blocks.
- `Loader`: the image-load handler end to end, down to the position buffer.
- `Transforms`: transforms kept symbolic. Each is the constructor that
  built its matrix, with rotations measured in turns.
- `Interaction`: the listeners as a reducer `Step(canvas, state, event)`,
  and `Run` over event sequences.
- `Frame`: the model-matrix factor order and the fixed camera of `draw`.
- `Arith`, `Policy`: shared arithmetic facts and the `Variant` switch.

The heightmap code has two defects (see Findings). Every member they affect
takes a `Variant`:

- `AsWritten` follows the code;
- `Corrected` reports the image's real height and clamps neighbour reads to
  the last row and column.

The facts about the buffer that reaches the GPU are proved for both
variants. An image with a zero dimension makes `getImageData` throw, so
no buffer is built for it. For every other image the buffer contains a NaN,
as written, exactly when the image is at most one row taller than it is
wide. Corrected, every number is finite and lies in [0, 2).

Numbers are exact reals, not IEEE doubles or float32. A typed-array read
past the end is the value `Undefined`, which becomes NaN once the list is
copied into a `Float32Array`.

## Model

| member | source | states |
|---|---|---|
| Luminance.Luma | assignment2.js:46-49 | The luma of a pixel lies in [0, 1]. A grey pixel keeps its level v / 255. Luma is 0 exactly for black and 1 exactly for white. |
| Luminance.HeightmapOf | assignment2.js:35-60 | The record holds width * height samples, all in [0, 1], and reports the image's width. It is well formed (size matches the buffer) exactly when corrected or square; a zero-width record, which processImage never returns, is trivially well formed too. |
| Luminance.ProcessImage | assignment2.js:24-60 | An image with a zero dimension throws (at `getImageData`). Otherwise the nested pixel loop computes the reference record. Pixel (x, y) lands at `y * width + x` and holds the luma of that pixel's R, G and B bytes. |
| Luminance.AsWrittenHeightIsWidth | assignment2.js:56-60 | As written, a non-square image yields a record whose height is its width. That record is not well formed, and a wide image has fewer samples than its reported grid. |
| Luminance.CorrectedHeightmapWellFormed | assignment2.js:56-60 | Corrected, the record reports the image's height, is well formed and is normalised. |
| Mesh.SampleIndex | assignment2.js:94-106 | As written, corner (r, c) reads sample r * W + c, with no bound. Corrected, it reads the same sample on the grid, and off the grid the clamped index lies in [0, W * H). |
| Mesh.Corner | assignment2.js:93-107 | Definition. Corner (r, c) sits at x = c / (W + 1) * 2 and z = r / (H + 1) * 2. It has a height exactly when its sample index lies in the buffer, and that height is the sample. |
| Mesh.Cell | assignment2.js:93-116 | Definition. Cell (i, j) emits six vertices. They are v1 = (i, j), then v3 = (i + 1, j) and v2 = (i, j + 1) twice, and last v4 = (i + 1, j + 1): triangles v1 v3 v2 and v2 v3 v4, sharing edge v2-v3. |
| Mesh.Slot | assignment2.js:90-117 | Vertex t of cell (i, j) sits at 6 * (i * W + j) + t, inside the 6 * W * H vertices. |
| Mesh.BuildMesh | assignment2.js:86-118 | The two-level loop emits exactly the reference vertex list: 6 * (W * H) vertices. |
| Mesh.BuildRow | assignment2.js:91-117 | The inner loop emits the six vertices of each cell of row i, left to right: 6 * W vertices. |
| Mesh.MeshShape | assignment2.js:90-118 | There are six vertices per cell. The vertices of cell (i, j) sit at positions 6 * (i * W + j) + 0 .. 5. They are corners (i,j), (i+1,j), (i,j+1), then (i,j+1), (i+1,j), (i+1,j+1): triangles v1 v3 v2 and v2 v3 v4, sharing edge v2-v3. |
| Mesh.MeshCell | assignment2.js:109-116 | The same six placements for one given cell. |
| Mesh.RowsAt | assignment2.js:90-117 | In the vertices of the first n rows, vertex t of cell (i, j) comes after i full rows and j earlier cells. |
| Mesh.MeshLength | assignment2.js:90-119 | The vertex list has 6 * (W * H) entries. |
| Mesh.CoordBounds | assignment2.js:93-107 | Grid line k <= dim maps into [0, 2 * dim / (dim + 1)], which is below 2. |
| Mesh.MeshInFootprint | assignment2.js:93-107 | Every emitted x lies in [0, 2W/(W+1)] and every z in [0, 2H/(H+1)]. Both stay strictly below 2. |
| Mesh.AsWrittenReads | assignment2.js:94-106 | As written, on a well-formed heightmap: v1 is always in range; v2 leaves the buffer only in the last cell; v3 leaves it on the whole last row; v4 leaves it on the last row and in the last cell of the row before. Each is an if-and-only-if. |
| Mesh.AsWrittenLastColumnWraps | assignment2.js:97-106 | As written, the right-hand corners of a row's last cell take the heights of column 0 one row further down. |
| Mesh.AsWrittenMeshReadsPastEnd | assignment2.js:101-103 | As written, with no more samples than the grid, the second vertex of every last-row cell has no height. |
| Mesh.AsWrittenLastCornerPastEnd | assignment2.js:104-116 | As written, with at most H * W + W samples, the last vertex of the mesh, corner (H, W), has no height. |
| Mesh.CorrectedCellReadsInRange | assignment2.js:93-107 | Corrected, every vertex of every cell takes its height from the sample buffer. |
| Mesh.CorrectedMeshReadsInRange | assignment2.js:93-107 | Corrected, every vertex of the mesh has a height taken from the samples. A normalised heightmap gives heights in [0, 1]. |
| Mesh.CorrectedMatchesInterior | assignment2.js:93-107 | Away from the last row and column, the corrected cell equals the cell as written. |
| Mesh.CorrectedBorderIsFlat | assignment2.js:93-107 | Corrected, corners past the last row or column repeat the nearest grid height. |
| Mesh.Flatten | assignment2.js:110-121 | The position list has three numbers per vertex: x, y, z in order. |
| Blocks.ConcatAt | assignment2.js:90-117 | n blocks of m elements fill n * m entries. Element t of block k sits at k * m + t. |
| Blocks.ConcatAll | assignment2.js:90-117 | A property of every element of every block holds of the whole list. |
| Loader.OnImageLoad | assignment2.js:24-121 | An image with a zero dimension throws in processImage: nothing is built and vertexCount keeps its old value, and only then. Otherwise the handler leaves the heightmap and the buffer of 3 * vertexCount numbers, where the buffer is the flattened reference mesh and vertexCount is 6 * W * (reported height). Corrected, every number is defined and in [0, 2). As written, the buffer holds a NaN exactly when the image is at most one row taller than wide. |
| Loader.CorrectedBufferIsFinite | assignment2.js:110-121 | Corrected, every number of the buffer is defined and lies in [0, 2). |
| Loader.AsWrittenBufferHasNaN | assignment2.js:59-121 | As written, for an image with no zero dimension, the buffer contains an undefined (NaN) number if and only if the image's height is at most its width + 1. |
| Loader.AsWrittenShortImageHasNaN | assignment2.js:59-121 | As written, an image with no zero dimension and at most one row taller than wide puts a NaN in the buffer: the last corner reads sample W * W + W, and there are only W * H samples. |
| Loader.AsWrittenHeightsDefined | assignment2.js:59-107 | As written, an image of nonzero width at least two rows taller than wide gives every vertex a height. Its lower rows are simply not drawn. |
| Loader.AsWrittenCornerDefined | assignment2.js:94-106 | As written, corner (r, c) with r, c <= W reads a sample that exists once the buffer holds (W + 2) * W samples. |
| Loader.HeightsDefinedNoNaN | assignment2.js:110-121 | A vertex list whose heights are all defined flattens to a buffer without NaN. |
| Loader.FlattenInRange | assignment2.js:110-121 | A vertex list inside [0, 2) on every axis flattens to numbers in [0, 2). |
| Loader.TwoByTwoScenario | assignment2.js:90-119 | A 2 x 2 map [0, 1, 1, 0] gives 24 vertices, and vertex 0 is (0, 0, 0). Vertex 13 has no height as written and height 1 corrected. |
| Loader.TwoByTwoLayout | assignment2.js:90-116 | In a 2 x 2 grid, vertex 0 is corner (0, 0) and vertex 13 is corner (2, 0). |
| Loader.TwoByTwoSlot | assignment2.js:90-116 | In a 2 x 2 grid, vertex t of cell (i, 0) is vertex 12 * i + t of the mesh. |
| Interaction.Zoom | assignment2.js:313-321 | The result always lies in [0.1, 10]. It is scale * 1.1 for deltaY < 0 and scale * 0.9 otherwise (zero included), when that is in range. Otherwise it is the bound that was crossed. |
| Interaction.OnMouseDown | assignment2.js:290-303 | A press starts a drag and latches the pressed point. Button 0 selects rotation, button 2 selects panning, and other buttons keep the previous choice. Nothing else changes. |
| Interaction.OnMouseMove | assignment2.js:324-349 | An idle move changes nothing. A left drag sets RotY(t) with t * width = x - startX and RotX(u) with u * height = y - startY. A right drag sets Translate(tx, ty, 0) with tx * width = 2 * dx and ty * height = -2 * dy. The offset is measured from the pressed point, which is not updated. |
| Interaction.HeightScaleOf | assignment2.js:360-363 | heightScale * 50 is the slider value. Slider 50 gives scale 1. |
| Interaction.Step | assignment2.js:286-357 | Only press, release and leave change the drag flag. Release and leave change nothing else, and the context menu changes nothing. Only the wheel changes the zoom, only the slider the height scale, only moves the transforms. |
| Interaction.InitialIsConsistent | assignment2.js:12-17 | The start state has no drag and the left-button flag off (set at lines 282-288), zoom 1, height scale 1 and identity rotation and pan transforms, and has the consistent shape. |
| Interaction.StepPreservesConsistent | assignment2.js:286-357 | Every event keeps the state's shape: zoom in [0.1, 10], rotations set as a pair, pan a screen-plane translation. |
| Interaction.RunPreservesConsistent | assignment2.js:286-357 | Over any event sequence the shape is kept. In particular the zoom never leaves [0.1, 10]. |
| Interaction.ZoomSaturates | assignment2.js:321 | One wheel event brings any scale into range. At 0.1 scrolling down stays at 0.1, and at 10 scrolling up stays at 10. |
| Interaction.ZoomDirection | assignment2.js:313-321 | For an in-range scale, scrolling up never shrinks it and scrolling down never grows it. |
| Interaction.ZoomInOutLoses | assignment2.js:313-321 | Away from the limits, zooming in and then out gives 0.99 of the start, not the start. |
| Interaction.ScrollsOnlyZoom | assignment2.js:310-322 | A run of wheel events changes the zoom, by repeated Zoom, and nothing else. |
| Interaction.ScrollUpsMultiply | assignment2.js:313-321 | n scrolls up multiply an in-range scale by 1.1^n while that stays at most 10. |
| Interaction.ScrollDownsMultiply | assignment2.js:313-321 | n scrolls down multiply an in-range scale by 0.9^n while that stays at least 0.1. |
| Interaction.TenScrollsUpScenario | assignment2.js:313-321 | Ten scrolls up from the start give zoom 1.1^10, and nothing else changes. |
| Interaction.TenScrollsDownScenario | assignment2.js:313-321 | Ten scrolls down from the start give zoom 0.9^10, which is above 0.1. |
| Interaction.IdleMoveChangesNothing | assignment2.js:324-325 | A move with no drag in progress leaves the state unchanged. |
| Interaction.IdleMovesChangeNothing | assignment2.js:324-325 | Any number of moves with no drag in progress leave the state unchanged. |
| Interaction.ReleaseEndsDrag | assignment2.js:351-357 | After mouseup or mouseleave the drag is over, and later moves change nothing. |
| Interaction.MovesOverwrite | assignment2.js:329-346 | Two moves in a row give the same state as the second move alone. |
| Interaction.DragIsLastMove | assignment2.js:329-346 | After any non-empty sequence of moves, the state is what the last move alone gives. |
| Interaction.DragMeasuredFromPress | assignment2.js:290-346 | After a press and moves, the state is the press followed by the last move only. |
| Interaction.LeftDragScenario | assignment2.js:290-357 | On an 800 x 600 canvas, a left drag ending 100 px right of the press gives RotY(1/8 turn) and RotX(0), and the drag is released. |
| Interaction.RightDragScenario | assignment2.js:290-346 | A right drag by (+80, -60) px on 800 x 600 gives Translate(0.2, 0.2, 0). |
| Transforms.ApplyAllAppend | assignment2.js:172-183 | Chaining matrix products composes their actions: the product of a + b acts as b first, then a. |
| Transforms.IdentityIsNeutral | assignment2.js:172-175 | Identity factors, such as the starting identity matrix, can be dropped. |
| Transforms.ApplyFive | assignment2.js:172-183 | A five-factor product acts as its factors applied from last to first. |
| Frame.ModelTransforms | assignment2.js:172-183 | Definition. The model matrix has five factors, left to right: the height stretch Scale(1, heightScale, 1), deltaY, deltaX, pan, and the zoom Scale(m, m, m) with m = modelScale. |
| Frame.ModelOrder | assignment2.js:172-183 | Without rotation, the model matrix zooms a vertex first, then pans, then stretches heights. |
| Frame.ZoomPanStretch | assignment2.js:174-183 | That composition maps p to (m x + ox, h (m y + oy), m z + oz). The zoom does not scale the pan, and the height scale stretches the vertical pan too. |
| Frame.ZoomKeepsPannedOrigin | assignment2.js:172-183 | Changing the zoom does not move the image of the model origin. |
| Frame.CameraOf | assignment2.js:155-170 | Definition. The camera sits at (0, 5, 5) and looks at the origin, with a 70-degree field of view and clip planes 0.001 and 20. aspect * height = width, 0 < near < far, and the eye differs from the target. |

## Left out

- Loader.AsWrittenBufferHasNaN: says nothing about images with a zero dimension. For those, `getImageData` throws and the handler builds nothing, as `Luminance.ProcessImage` and `Loader.OnImageLoad` state.
- Loader.AsWrittenShortImageHasNaN: requires both dimensions nonzero, because a zero dimension makes `getImageData` throw before any buffer exists.
- Loader.AsWrittenHeightsDefined: requires a nonzero width for the same reason.
- WebGL: shaders, buffers, vertex arrays, draw calls and the `requestAnimationFrame` loop. They have no observable result to state.
- `FileReader`, `Image`, the off-screen canvas and `getImageData`. The model starts from the pixel bytes; the no-file-selected early return is not modelled.
- The matrix and vector helpers (`scaleMatrix`, `rotateXMatrix`, `multiplyMatrices`, `lookAt`, `perspectiveMatrix` and the rest) are not part of this model. Transforms stay symbolic, and a rotation by a nonzero angle is never applied to a point, because that needs sine and cosine.
- Transforms.ApplyAll: applies the last factor of a product first. This assumes `multiplyMatrices(A, B)` is the ordinary product for column vectors, so B acts before A. That helper is not part of this model. Under the row-vector convention the order reverses, and `Frame.ModelOrder`, `Frame.ZoomPanStretch` and `Frame.ZoomKeepsPannedOrigin` would not hold: the zoom would scale the pan.
- `setupViewMatrix`, the view and projection matrices, and `createBox`: they need the same helpers and trigonometry. `Frame.CameraOf` records only their constants.
- `console.log`, `alert` and `preventDefault` calls: they have no state effect.
- IEEE-754 doubles and float32 storage of heights and positions. Exact reals are used instead.
- `parseFloat` of the slider's string. The slider value arrives as a number.
- A zero-size canvas, which would make the drag divisions produce Infinity or NaN. Canvas dimensions are positive.
- `startX` and `startY` are undefined until the first press. They start at 0 here, and no listener reads them before a press sets them.
- `offsetX`/`offsetY` on document-level move events are relative to whatever element the pointer is over. The model takes the coordinates as given.
- `Interaction.OnMouseMove` states angles in turns (fractions of 2 pi radians) and does not model the multiplication by pi.
- `Interaction.ScrollUpsMultiply` and `Interaction.ScrollDownsMultiply` cover only runs that stay inside [0.1, 10]. Clamping is covered separately by `Interaction.ZoomSaturates`.
- `Frame.ModelOrder` covers only states whose rotations are untouched or zero. With a real rotation the points need trigonometry.
- Conventions where this code differs from common terrain viewers, modelled as the code has them:
  - clip planes are 0.001 and 20;
  - corners map to `k / (dim + 1) * 2`, with no centring;
  - a drag is measured from the latched press point, not from the previous move;
  - this file has no camera pan and no orthographic mode; the right button pans the model through `panMatrix`.

## Findings

| source | as written | input that shows it | evidently intended | confidence | as-written member | corrected member |
|---|---|---|---|---|---|---|
| assignment2.js:98-106 | neighbour heights are read at `i * W + (j + 1)`, `(i + 1) * W + j` and `(i + 1) * W + (j + 1)` with no bound | a well-formed W x H heightmap: cell (H - 1, j) reads sample H * W + j, past the buffer, so the vertex gets NaN; the last cell of a row reads column 0 of the next row | clamp the neighbour row and column to H - 1 and W - 1 | high (not executed) | Mesh.AsWrittenMeshReadsPastEnd | Mesh.CorrectedMeshReadsInRange |
| assignment2.js:59 | the record's `height` is `sw`, the image width | a 4 x 2 image: the record claims 4 rows over 8 samples, and the mesh builds 4 rows, two of them past the samples | `height: sh` | high (not executed) | Luminance.AsWrittenHeightIsWidth | Luminance.CorrectedHeightmapWellFormed |
