# Crop-region interaction model

This project models the interactive part of `crop.js`, a canvas photo cropper. It covers:

- the committed crop region;
- the live 3×3 transform matrix;
- the current target;
- the drag anchor;
- the three pointer handlers that change them.

It proves properties of what the handlers do, written as the code is, not as an idealised cropper would be.

- `geometry.dfy` (module `Geometry`): points, rectangles, the nine-entry row-major matrix, the closed containment test `PointIsInRect` and the 2×3 affine application `TransformPoint`. It also holds the argument order the preview hands to the canvas `setTransform(a, b, c, d, e, f)`. That argument order is proved to map points exactly as `TransformPoint` does, using the convention in the "Transformations" section of the HTML Living Standard's canvas chapter. So the outline drawn during a drag lands where the region committed on release will be.
- `handlers.dfy` (module `Handlers`): the interaction state as a value, `CropState`, and each handler as a function on it. It also defines event traces (`Run`) and the lemmas about the handlers and traces.
- `cropper.dfy` (module `CropCanvas`): the class `Cropper`. It has fields `x`, `y`, `width`, `height`, `transform: array<real>`, `target` and `anchor`. Its methods `MouseDown`, `MouseMove` (which returns the cursor hint) and `MouseUp` change those fields in place. Each method is proved to move `State()` exactly as the matching `Handlers` function does.

Behaviour as written, which the model keeps:

- Dragging the region body scales it and does not translate it. The translation lines are commented out. `MouseMove` writes `1 + deltaX / width` into matrix entries 0 and 4, and `deltaY` is unused.
- A release maps the region's two corners through the matrix. Any scale therefore applies about the canvas origin, not about the region's corner.
- There is no lower bound on the scale, and the result is not normalised. A scale of zero or less yields a width and height of zero or less.
- The resize control at the bottom-right corner is drawn but never hit-tested. A press selects `CropRegion` or `None`, and `CropControl` is never selected.
- A release that never arrives leaves the region as the target, so later moves keep rewriting the scale. A press outside the region clears the target but not the matrix, and the next release commits the last scale written (`StaleScaleSurvivesPress`). A new press inside followed by a move replaces that scale.

## Model

| member | source | states |
|---|---|---|
| `Geometry.PointIsInRect` | crop.js:63-68 | closed containment on all four sides; only a rectangle with non-negative width and height contains any point (see `CornersInside`, `OutsideEdges`) |
| `Geometry.TransformPoint` | crop.js:70-75 | the 2×3 affine map of the top two rows; the reset (identity) matrix fixes every point, and a uniform scale matrix multiplies both coordinates by its factor |
| `Geometry.SetTransformArgs` | crop.js:36-45 | passing entries 0, 3, 1, 4, 2, 5 as `setTransform(a, b, c, d, e, f)` makes the canvas map every point exactly as `TransformPoint` does, so the outline drawn under the live matrix lands on the rectangle committed at release (the previewed image content is not covered) |
| `Geometry.CornersInside` | crop.js:63-68 | all four corners of a rectangle with non-negative width and height are inside it (the test is closed) |
| `Geometry.OutsideEdges` | crop.js:63-68 | a point strictly beyond any of the four edges is outside |
| `Handlers.Cursor` | crop.js:144-148 | the hint is `"move"` iff the pointer is in the region, and `"auto"` iff it is not |
| `Handlers.DragScale` | crop.js:151-160 | the scale, minus one, times the width equals the horizontal drag distance |
| `Handlers.CommitRect` | crop.js:183-196 | the new region's top-left and bottom-right corners are the old corners mapped through the matrix |
| `Handlers.OnMouseDown` | crop.js:168-178 | the target becomes `CropRegion` iff the pointer is in the region and `None` otherwise; the anchor becomes the pointer; the region and matrix are unchanged |
| `Handlers.OnMouseMove` | crop.js:141-166 | with no region target nothing changes; while dragging, entries 0 and 4 both become the drag scale, the other seven entries stay as they were, and the region, target and anchor are unchanged |
| `Handlers.OnMouseUp` | crop.js:180-202 | the target becomes `None`, the matrix becomes the identity, and the region's corners are the old corners mapped through the old matrix |
| `Handlers.MoveIgnoresDeltaY` | crop.js:151-160 | two moves with the same x give the same state, so the vertical drag distance has no effect |
| `Handlers.ReleaseWithIdentityKeepsRegion` | crop.js:183-200 | a release with an identity matrix leaves the region exactly as it was |
| `Handlers.InvertedRegionNeverSelected` | crop.js:171-175 | a press never selects a region whose width or height is negative |
| `Handlers.InvertedRegionStaysPut` | crop.js:141-202 | once idle with a negative width or height, the region is never changed by any further events, so an inverted region cannot be dragged again |
| `Handlers.ReleaseScalesAboutOrigin` | crop.js:183-196 | a release under a uniform scale `k` yields `{k·x, k·y, k·width, k·height}`, a scale about the canvas origin |
| `Handlers.NonPositiveScaleInverts` | crop.js:159-196 | nothing clamps the scale: `k <= 0` on a region of positive extent gives a width and height of zero or less |
| `Handlers.StepKeepsUniformScale` | crop.js:154-200 | every handler keeps the matrix a uniform scale about the origin |
| `Handlers.RunKeepsUniformScale` | crop.js:141-202 | every state reachable through any event sequence keeps the matrix a uniform scale |
| `Handlers.NeverCropControl` | crop.js:27-32 | no sequence of events ever makes `CropControl` the target |
| `Handlers.ReachableReleaseScales` | crop.js:141-202 | after any history from the initial state, a release scales the region about the origin by entry 0 and never translates it |
| `Handlers.DragThenRelease` | crop.js:141-202 | from any state whose matrix is a uniform scale (every reachable state), a press inside the region, one move and a release scale the region by `1 + deltaX/width` |
| `Handlers.WorkedDrag` | crop.js:18-23 | from `{10, 10, 300, 300}`, a press at (100, 100), a move to (130, 100) and a release give `{11, 11, 330, 330}` |
| `Handlers.IdleMovesChangeNothing` | crop.js:154-165 | any number of moves without a region target leave the whole state unchanged |
| `Handlers.StaleScaleSurvivesPress` | crop.js:168-178 | a press outside the region after a drag clears the target but keeps the scaled matrix, and the next release commits it |
| `CropCanvas.Cropper.constructor` | crop.js:13-54 | the initial state: region `{10, 10, 300, 300}`, identity matrix, no target, anchor at the origin |
| `CropCanvas.Cropper.ResetTransform` | crop.js:47-53 | the matrix is replaced by a newly allocated identity array and nothing else changes |
| `CropCanvas.Cropper.MouseDown` | crop.js:168-178 | the object moves as `OnMouseDown`: target iff inside, anchor set, matrix array untouched |
| `CropCanvas.Cropper.MouseMove` | crop.js:141-166 | the object moves as `OnMouseMove`: only array entries 0 and 4 are written, and only while the region is the target; returns the cursor hint |
| `CropCanvas.Cropper.MouseUp` | crop.js:180-202 | the object moves as `OnMouseUp`: corners mapped through the old matrix, target `None`, fresh identity matrix |
| `CropCanvas.DragScenario` | crop.js:141-202 | driving the object through press, move and release yields `{11, 11, 330, 330}` and the `"move"` cursor |

## Left out

- DOM lookup of the canvas and the throw when it is missing (crop.js:4-9): browser I/O.
- `getRelativeCursor` (crop.js:56-61): it only reads event fields. The pointer is a plain `Point` input.
- Photo loading, `onload`/`onerror`, canvas resizing and the clamped display size (crop.js:119-135): asynchronous image I/O and DOM style writes.
- The drawing in `render` (crop.js:80-116), which calls the rendering surface. Each handler's call to `render()` is treated as an uninterpreted side effect and omitted. Only the argument mapping of `setTransform` is modelled.
- Writing the cursor to the canvas style: `MouseMove` returns the cursor string instead.
- IEEE-754 doubles: coordinates are `real`. Exact results such as a scale of 1.1 hold in the reals, not necessarily in doubles.
- Matrix entries 6-8 are carried along but never read. Apart from the uniform-scale invariant, nothing is proved about them.
- `CropCanvas.Cropper.MouseMove`: requires a non-zero width while the region is the target. The JavaScript division would put an infinity or NaN into the matrix, and reals have no such values. `Handlers.OnMouseMove` has the same requirement (`CanMove`), and so do traces (`CanRun`).
