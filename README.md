# MathVis camera and matrix core in Dafny

MathVis draws a 3D scene with WebGL. The user moves the camera with the mouse, the wheel, the Alt key and touch. This project models the two pieces of the program that hold its logic:

- **The camera state machine** of `Engine`. It appears twice, in js/engine.js and engine.js, with the same handlers; the two `Update` methods differ only in where their matrix functions come from (engine.js calls an `m4` library). Its fields are:
  - the field of view;
  - the rotation and translation arrays;
  - the last pointer position;
  - the `moving` flag;
  - the movement mode (null, "rotate" or "pan");
  - whether Alt is held.

  Each listener updates these fields, and `Update` builds the frame matrix from them.
- **The matrix and vector algebra**:
  - column-major 4x4 `multiply`, `translate` and `inverse` (js/engine.js, repeated in js/math.js);
  - `Vector` and `VectorOps`;
  - the list-of-lists helpers of `MatrixOps`, plus `Create.perspective`, `Create.lookAt` and `Rotate.X/Y/Z`;
  - `TrigOps`;
  - the `Vector` class and array helpers of math.js.

Numbers are Dafny `real`s. `Math.PI` is the constant 3.141592653589793. `Math.cos`, `Math.sin`, `Math.tan` and `Math.hypot` are never computed. The caller passes them in as the fields of `JsMath.MathLib`, so every property proved here holds whatever those functions return, unless a lemma's `requires` says otherwise.

Modules:

- `Gesture` gives the camera state as a value (`Gesture.State`), with one transition function per handler. It also holds the invariant every handler keeps (`Gesture.Consistent`) and the properties of the handlers.
- `Engines.Engine` is the class. Its fields are updated in place, and the rotation and translation are arrays. Each method's `ensures` states that the new `Snapshot()` is the matching `Gesture` transition of the old one, and that nothing else changes.
- `M4` covers the 16-slot matrices. `Product`, `Translated` and `Inverted` are the specification functions. `Multiply`, `Translate` and `Inverse` fill a fresh array slot by slot and are proved against them.
- `Rotate` and `Create` cover the `MatrixOps.Rotate` and `MatrixOps.Create` builders.
- `Pipeline` describes the matrix `Update` builds.
- `Vectors` and `VectorOps` cover the vector code.
- `MatrixOps` covers the list-of-lists helpers.
- `JsArrays` models the `splice` that `sub`, `shifter` and `matrixSub` use to mutate their arguments. `JsArray` is a class with a sequence field.

`inverse` on a singular matrix divides by zero and yields Infinity/NaN entries. `M4.Inverted` returns `None` there, and `M4.Inverse` reports it through its `finite` result.

A rightward drag decreases rotation y, because the delta is `lastPos - pos`. `Gesture.DragRightExample` shows a 4-pixel drag to the right on a 400 x 300 canvas moving rotation y by -0.2.

## Model

| member | source | states |
|---|---|---|
| TrigOps.RadToDeg | js/math.js:200 | the result d satisfies d * PI == r * 180 |
| TrigOps.DegToRad | js/math.js:201 | the result r satisfies r * 180 == d * PI |
| TrigOps.RadToDegOfDegToRad | js/math.js:199-202 | radToDeg(degToRad(d)) == d for every d |
| TrigOps.DegToRadOfRadToDeg | js/math.js:199-202 | degToRad(radToDeg(r)) == r for every r |
| TrigOps.DegToRadMonotone | js/math.js:201 | a <= b exactly when degToRad(a) <= degToRad(b) |
| JsMath.Min | js/engine.js:306 | `Math.min` is at most both arguments and equals one of them |
| JsMath.Max | js/engine.js:306 | `Math.max` is at least both arguments and equals one of them |
| Vectors.Vector.Add | math.js:7-11 | the sum has the argument's length; entry i is this[i] + other[i] |
| Vectors.Vector.Sub | math.js:13-17 | the difference has the argument's length; entry i is this[i] - other[i] |
| Vectors.Vector.Scl | math.js:19-21 | the length is kept and every component is multiplied by the scalar |
| Vectors.DotFromAdds | math.js:27-29 | the left-to-right reduce from index i with accumulator acc is acc plus the inner product of the remaining entries |
| Vectors.Vector.Dot | math.js:27-29 | `dot` is the sum of b[i] * a[i] over b's indices, and 0 for an empty argument |
| Vectors.InnerProductSymmetric | math.js:27-29 | the inner product of equal-length sequences does not depend on their order |
| Vectors.DotSymmetric | math.js:27-29 | a.dot(b) == b.dot(a) for vectors of equal length |
| Vectors.SubSelf | math.js:13-17 | a.sub(a) is all zeros, of a's length |
| Vectors.SubThenAdd | math.js:7-17 | a.sub(b).add(b) == a for equal lengths |
| Vectors.AddCommutes | math.js:7-11 | a.add(b) == b.add(a) for equal lengths |
| Vectors.SclLaws | math.js:19-21 | scl(1) is the identity, and scaling by k then l is scaling by k * l |
| Vectors.InnerProductSelfNonNegative | math.js:27-29 | v.dot(v) >= 0 |
| VectorOps.Sub | js/math.js:42 | the result has vec1's length; entry i is vec1[i] - vec2[i] |
| VectorOps.Normalize | js/math.js:43 | the length is kept; if the length is <= 1e-7 the input is returned unchanged, otherwise entry i times the length is vec[i] |
| VectorOps.Cross | js/math.js:44-48 | the cross product has three entries (its meaning is in the next two rows) |
| VectorOps.CrossAntiCommutes | js/math.js:44-48 | cross(a, b) == 0 - cross(b, a), and cross(a, a) == 0 |
| VectorOps.CrossOrthogonal | js/math.js:44-48 | cross(a, b) is orthogonal to both a and b |
| VectorOps.Dot3 | js/math.js:32-37 | the three-term dot product is `Vector.dot` on three-entry vectors |
| VectorOps.SubSelf | js/math.js:42 | sub(v, v) is all zeros |
| VectorOps.NormalizeUnit | js/math.js:43 | with an exact length above 1e-7, the normalized vector has unit length |
| JsArrays.JsArray.Splice | js/math.js:56 | `splice(start)` returns the suffix from the clamped start and keeps the prefix; the two together are the old contents |
| MatrixOps.FoldAddIsTotal | js/math.js:54 | reducing with + from an accumulator adds the total of the rest |
| MatrixOps.Sum | js/math.js:54 | `sum` of a non-empty array is its total |
| MatrixOps.FoldMulIsProduct | js/math.js:55 | reducing with * from an accumulator multiplies in the product of the rest |
| MatrixOps.Mul | js/math.js:55 | `mul` of a non-empty array is its product |
| MatrixOps.FoldSubIsDifference | js/math.js:56 | reducing with - from a seed subtracts the total of the rest |
| MatrixOps.Sub | js/math.js:56 | `sub` returns a0 - (a1 + ... + an) and leaves the array holding only a0; an empty array yields undefined (None) and stays empty |
| MatrixOps.Shifter | js/math.js:58-61 | the result and the argument's new contents are the two splices taken in order |
| MatrixOps.ShiftedRotates | js/math.js:58-61 | for 0 <= step <= length, `shifter` returns the array rotated left by step and empties the argument |
| MatrixOps.ShiftedPair | js/math.js:58-61 | shifter([r, c], 1) returns [c, r] and leaves its argument empty |
| MatrixOps.MakeArray | js/math.js:62 | `makeArray(n, cb)` has n entries |
| MatrixOps.MakeArrayKeys | js/math.js:62 | without a callback, `makeArray(n)` is [0, 1, ..., n-1] |
| MatrixOps.MakeArrayMaps | js/math.js:62 | with a callback, `makeArray(n, cb)` is cb mapped over 0..n-1 |
| MatrixOps.MakeMatrix | js/math.js:63-66 | len rows of wid entries; entry (i, j) is fill(i, j), or 0 without fill |
| MatrixOps.MatrixSize | js/math.js:73 | `matrixSize` has two entries, and is [len, wid] for a matrix of len rows of wid entries |
| MatrixOps.MakeMatrixZeros | js/math.js:63-73 | `makeMatrix(len, wid)` is len rows of wid zeros, and its `matrixSize` is [len, wid] when len > 0 |
| MatrixOps.Arr2Mat | js/math.js:74 | `arr2mat` has len rows |
| MatrixOps.Arr2MatRow | js/math.js:74 | row i is the slice arr[i*wid .. i*wid + wid] |
| MatrixOps.Arr2MatRowMajor | js/math.js:74 | for an array of len * wid numbers the result is len x wid, and entry (i, j) is arr[i*wid + j] |
| MatrixOps.MatrixMap | js/math.js:75-80 | the mapped matrix has the shape of the input, and entry (ix, jx) is cb of the cell { row, ix, entry, jx, matrix } |
| MatrixOps.MatrixScalar | js/math.js:81 | the shape is kept and every entry is multiplied by n |
| MatrixOps.MatrixScalarLaws | js/math.js:81 | scaling by 1 is the identity, and scaling by b then a is scaling by a * b |
| MatrixOps.AddFoldSums | js/math.js:83-88 | the reduce of `matrixAdd` adds each entry's total over the remaining matrices |
| MatrixOps.MatrixAdd | js/math.js:83-88 | the sum has the first matrix's shape; entry (i, j) is the total of entry (i, j) over all matrices |
| MatrixOps.SubFoldSubtracts | js/math.js:89-99 | the reduce of `matrixSub` subtracts each entry's total over the remaining matrices |
| MatrixOps.MatrixSub | js/math.js:89-99 | entry (i, j) is m0[i][j] minus the total over the rest; the argument list is truncated to [m0]; an empty list yields undefined (None) |
| MatrixOps.MatrixMul | js/math.js:100-103 | the product is rows(m1) x cols(m2); entry (i, j) is the sum of m1[i][k] * m2[k][j]; only the rows of m2 that m1's rows reach must cover m2's first row |
| MatrixOps.MatrixMulShortRow | js/math.js:100-103 | `matrixMul([[1]], [[1, 2], [3]])` is defined and gives `[[1, 2]]`, since the short row of m2 is never read |
| MatrixOps.MatrixMulIdentity | js/math.js:100-103 | multiplying by the identity on the right gives the matrix back |
| MatrixOps.MulsFoldSnoc | js/math.js:104-113 | folding one more matrix into a chain multiplies the chain's result by it |
| MatrixOps.MatrixMuls | js/math.js:104-113 | the product has the first matrix's rows, and as many columns as the last matrix when there are several |
| MatrixOps.MatrixMulsNestsLeft | js/math.js:104-113 | `matrixMuls` of one matrix is that matrix, and of a longer list is the left-nested product |
| MatrixOps.MatrixTrans | js/math.js:114-118 | the transpose has swapped dimensions, and result[i][j] == matrix[j][i] |
| MatrixOps.MatrixTransTwice | js/math.js:114-118 | transposing twice gives the matrix back |
| Create.Perspective | js/math.js:120-130 | entry 11 is -1 and entry 15 is 0, and the off-diagonal entries are 0; m[0] * aspect == m[5] == tan(PI/2 - fov/2); m[10] (near - far) == near + far; m[14] (near - far) == 2 near far |
| Create.PerspectiveDepthRange | js/math.js:120-130 | the near plane maps to clip depth -w and the far plane to +w |
| Create.LookAt | js/math.js:131-142 | entries 3, 7, 11 are 0, entry 15 is 1, and entries 12..14 are camPos |
| Create.NormalizeKeepsOrthogonal | js/math.js:43 | normalizing a vector keeps it orthogonal to whatever it was orthogonal to |
| Create.LookAtAxesOrthogonal | js/math.js:131-142 | the three axes `lookAt` writes are pairwise orthogonal, for any `Math.hypot` |
| Rotate.X | js/math.js:145-161 | `Rotate.X` keeps entries 0-3 and 12-15 |
| Rotate.Y | js/math.js:162-178 | `Rotate.Y` keeps entries 4-7 and 12-15 |
| Rotate.Z | js/math.js:179-195 | `Rotate.Z` keeps entries 8-15 |
| Rotate.RotationsAreProducts | js/math.js:145-195 | each rotation is `multiply` on the right by the matching rotation matrix |
| Rotate.ZeroAngle | js/math.js:145-195 | with cosine 1 and sine 0, each rotation returns its input |
| Rotate.RotateBack | js/math.js:145-195 | when cos^2 + sin^2 == 1, rotating with -sine undoes each rotation |
| M4.ProductIsMatrixProduct | js/engine.js:215-266 | slot 4*col + row of `multiply(a, b)` is the row-times-column sum of a times b |
| M4.ProductIdentity | js/math.js:418-469 | multiply(m, I) == m == multiply(I, m) |
| M4.Translated | js/engine.js:24-67 | `translate` changes only the fourth column: slots 0-11 are copied |
| M4.TranslatedIsProduct | js/engine.js:24-67 | translate(m, t) == multiply(m, translation(t)), and slots 0-11 are copied unchanged |
| M4.TranslatedByZero | js/engine.js:24-67 | translate(m, 0, 0, 0) == m |
| M4.TranslatedTwice | js/engine.js:24-67 | translating by s and then by u is translating by s + u |
| M4.Inverted | js/engine.js:69-213 | the inverse exists exactly when the determinant is nonzero, and then has 16 slots |
| M4.InvertedTranslation | js/math.js:272-416 | the determinant of translation(t) is 1 and its inverse is translation(-t) |
| M4.InvertedIdentity | js/math.js:272-416 | the inverse of the identity is the identity |
| M4.Multiply | js/engine.js:215-266 | fills a fresh 16-slot array with `Product(a, b)` |
| M4.Translate | js/engine.js:24-67 | fills a fresh 16-slot array with `Translated(m, t)` |
| M4.WriteScaled | js/engine.js:133-211 | after the writes, the array holds d times each cofactor |
| M4.Inverse | js/engine.js:69-213 | fills a fresh array; `finite` holds exactly when the determinant is nonzero, and then the array is `Inverted(m)` |
| Gesture.RelativeMousePosition | js/engine.js:413-425 | each coordinate times dpr times the rectangle's extent is the canvas size times the pointer's offset from the rectangle's middle |
| Gesture.PointerMapping | engine.js:171-183 | clientX = rect.left maps to -width/(2 dpr), rect.right to +width/(2 dpr), the midpoint to 0; likewise top, bottom and middle vertically |
| Gesture.EdgeMapping | js/engine.js:413-425 | one axis of `getRelativeMousePosition`: low edge, high edge and midpoint |
| Gesture.SubAll | js/engine.js:367-374 | `sub(a, ...args)` subtracts the column totals of args from a's first two entries and keeps the rest |
| Gesture.Mult | js/engine.js:376-387 | `mult` gives a number pair exactly when at least one operand is an array and every array operand has two entries |
| Gesture.MultCommutes | js/engine.js:376-387 | because of the swap, mult(a, s) == mult(s, a) |
| Gesture.MultPoints | js/engine.js:376-387 | two points multiply entrywise |
| Gesture.Delta | js/engine.js:364-389 | delta = ((lastPos - pos).x * 4 / width, (lastPos - pos).y * 4 / height) |
| Gesture.Step | js/engine.js:301-353 | every listener keeps `moving ==> lastPos != null` |
| Gesture.Run | js/engine.js:301-353 | any sequence of events keeps `moving ==> lastPos != null` |
| Gesture.InitialConsistent | js/engine.js:273-289 | the field initialisers satisfy the invariant |
| Gesture.Wheel | js/engine.js:302-309 | the wheel handler leaves the field of view within [degToRad(30), degToRad(120)] and changes no other field |
| Gesture.Start | js/engine.js:356-359 | a gesture is in progress from the pointer's position; mode, Alt, camera and field of view are unchanged |
| Gesture.Stop | js/engine.js:407-411 | no gesture, no last position, no mode; Alt, camera and field of view are unchanged |
| Gesture.MouseDown | js/engine.js:311-320 | a gesture is in progress from the pointer with some mode set; Alt, camera and field of view are unchanged |
| Gesture.KeyDown | js/engine.js:322-328 | after an Alt keydown Alt counts as held, and the mode is "pan" unless Alt was held already; the gesture, camera and field of view are unchanged for every key |
| Gesture.KeyUp | js/engine.js:333-338 | after an Alt keyup Alt is not held, and the mode is "rotate" if Alt was held; the gesture, camera and field of view are unchanged for every key |
| Gesture.RotateOrPan | js/engine.js:361-405 | during a gesture lastPos becomes the pointer position; the flags, mode, field of view and depth entries stay; only rotate mode changes the rotation and only pan mode the translation |
| Gesture.WheelZoom | js/engine.js:302-309 | the new zoom in degrees is the old one minus 0.1·deltaY when that lies in [30, 120], and 30 or 120 when it falls below or above |
| Gesture.WheelClamps | js/engine.js:302-309 | after any wheel event the field of view is degToRad(z) for some z in [30, 120], whatever deltaY is, and no other field changes |
| Gesture.WheelMonotone | js/engine.js:302-309 | a larger deltaY never gives a wider field of view |
| Gesture.WheelStill | engine.js:60-67 | deltaY 0 leaves a field of view that is within the limits unchanged |
| Gesture.MouseDownMode | js/engine.js:311-320 | after mousedown the mode is non-null: "pan" if Alt is held, otherwise the previous non-null mode, or "rotate"; a gesture is in progress from the pointer |
| Gesture.StartStop | js/engine.js:356-411 | a start followed by a stop is just a stop, and stop is idempotent |
| Gesture.IdleMove | js/engine.js:361-362 | a move while `moving` is false changes nothing |
| Gesture.RotateMove | js/engine.js:364-397 | in rotate mode, rotation[0] grows by 5 * delta.y and rotation[1] by 5 * delta.x; rotation[2] and the translation stay the same; lastPos becomes the pointer position |
| Gesture.PanMove | js/engine.js:389-403 | in pan mode, translation[0] changes by -500 * delta.x and translation[1] by 500 * delta.y; translation[2] and the rotation stay the same |
| Gesture.ModelessMove | js/engine.js:389-403 | with no mode, a move changes only lastPos |
| Gesture.AltEdges | engine.js:80-96 | a keydown of Alt while held does nothing; other keys do nothing; a keyup of a held Alt selects "rotate", even with no gesture in progress |
| Gesture.AltMidGesture | js/engine.js:322-338 | Alt presses and releases never start or stop a gesture |
| Gesture.StepConsistent | js/engine.js:301-353 | every handler preserves the invariant: moving <=> lastPos != null; "pan" implies panKeyHold; panKeyHold implies the mode is not "rotate"; the field of view stays in [30, 120] degrees |
| Gesture.RunConsistent | js/engine.js:301-353 | every sequence of events preserves the invariant |
| Gesture.StepKeepsDepth | engine.js:152-160 | no handler changes rotation[2] or translation[2] |
| Gesture.RunKeepsDepth | engine.js:119-163 | no sequence of events changes rotation[2] or translation[2] |
| Gesture.TouchDragWithoutMode | engine.js:102-111 | touch events never set a mode, so a touch drag begun with mode null leaves the rotation and translation unchanged |
| Gesture.DragRightExample | js/engine.js:361-397 | a drag from (100, 100) to (104, 100) on a 400 x 300 canvas at ratio 1 moves rotation y by -0.2 and rotation x by 0 |
| Pipeline.NormalizeKeepsZeros | js/math.js:43 | `normalize` keeps exactly the zero entries zero |
| Pipeline.DiagonalDeterminant | js/engine.js:112-133 | for a diagonal matrix with a translation column, the determinant `inverse` computes is the product of the diagonal |
| Pipeline.Camera | js/engine.js:439-443 | the camera matrix has a zero bottom row apart from 1 in the corner, and its position column is (0, 0, 100) |
| Pipeline.CameraShape | js/engine.js:439-443 | for any `Math.hypot`, the camera matrix has a nonzero diagonal, zeros elsewhere, and translation (0, 0, 100) |
| Pipeline.CameraInvertible | js/engine.js:439-446 | `inverse(cameraMatrix)` never divides by zero |
| Pipeline.ExactCamera | js/engine.js:439-446 | with an exact `Math.hypot`, the camera is translation(0, 0, 100) and the view matrix is translation(0, 0, -100) |
| Pipeline.View | js/engine.js:446 | the view matrix is the inverse of the camera matrix |
| Pipeline.FrameIsProductChain | engine.js:185-218 | the frame is P * V * T(t) * Rx * Ry * Rz, in exactly that order |
| Pipeline.FrameAtRest | js/engine.js:427-459 | with zero rotation and translation, the frame is P * V; with an exact hypot it is P * translation(0, 0, -100) |
| Pipeline.RotationOrderMatters | js/engine.js:457-459 | a quarter turn about x then y differs from y then x, so the order of the three calls matters |
| Engines.SubAll | js/engine.js:367-374 | the `forEach` over a copy leaves the copy equal to `Gesture.SubAll(a, args)` |
| Engines.ViewProjection | js/engine.js:428-448 | the array holds `multiply(perspective, inverse(lookAt(...)))` |
| Engines.Engine.constructor | js/engine.js:268-289 | the new engine's state is the initial state: fov 60 degrees, rotation (30, -20, 0) degrees, translation (0, 0, -1000), no gesture, no mode, Alt not held |
| Engines.Engine.OnWheel | js/engine.js:302-309 | the new state is `Gesture.Wheel` of the old one |
| Engines.Engine.OnMouseDown | js/engine.js:311-320 | the new state is `Gesture.MouseDown` of the old one |
| Engines.Engine.OnKeyDown | js/engine.js:322-328 | the new state is `Gesture.KeyDown` of the old one |
| Engines.Engine.OnMouseUp | js/engine.js:330-332 | the new state is `Gesture.Stop` of the old one |
| Engines.Engine.OnKeyUp | js/engine.js:333-338 | the new state is `Gesture.KeyUp` of the old one |
| Engines.Engine.OnMouseMove | js/engine.js:340-342 | the new state is `Gesture.RotateOrPan` of the old one |
| Engines.Engine.OnTouchStart | js/engine.js:344-347 | the new state is `Gesture.Start` of the old one |
| Engines.Engine.OnTouchEnd | js/engine.js:348-350 | the new state is `Gesture.Stop` of the old one, whatever touch is passed |
| Engines.Engine.OnTouchMove | js/engine.js:351-353 | the new state is `Gesture.RotateOrPan` of the old one |
| Engines.Engine.StartRotateOrPanCamera | js/engine.js:356-359 | the new state is `Gesture.Start` of the old one |
| Engines.Engine.RotateOrPanCamera | js/engine.js:361-405 | the in-place array updates give exactly `Gesture.RotateOrPan` of the old state |
| Engines.Engine.StopRotateOrPanCamera | js/engine.js:407-411 | the new state is `Gesture.Stop` of the old one |
| Engines.Engine.Update | js/engine.js:427-459 | the camera state is unchanged, and `matrix` is `Pipeline.Frame` of it for the aspect clientWidth / clientHeight |

## Left out

- Drawing and GPU work are not part of this model: `Engine.Draw`, `GLProgram`, `resizeCanvasToDisplaySize`, and shader and attribute lookups.
- The DOM is not part of this model:
  - The listeners are methods called directly with the numbers they read. Registering them, `preventDefault`, the constructor's canvas/context lookup and its error, and `getBoundingClientRect` / `window.devicePixelRatio` (passed in as a `Gesture.Viewport`) are all left out.
- The animation loop in mathvis.js and the inert js/scenegraph.js are not part of this model.
- Floating point is not modelled. Reals stand in for doubles, so rounding, Infinity and NaN do not arise. `Math.cos/sin/tan/hypot` are parameters, not computed.
- Division by zero is excluded by preconditions; in the source it produces Infinity/NaN. This covers an empty bounding rectangle or a zero pixel ratio in `getRelativeMousePosition`, a zero canvas width or height in `rotateOrPanCamera` (whose scale factors divide by them), and a zero client width or height in `Update`. A zero canvas size alone is allowed where only the pointer is mapped (mousedown, touchstart), as in the source.
- Out-of-range reads (`undefined` in JavaScript) and calls that throw are excluded by preconditions on lengths and shapes. A singular matrix passed to `inverse` is the exception: it is modelled and yields `None`.
- `MatrixOps.MulReady`: `matrixMul(m1, m2)` with an empty first row in m2 returns rows of no entries without calling `sum`, so `matrixMul([[]], [[]])` gives `[[]]`; the precondition still asks for non-empty rows of m1, so that degenerate case is left out.
- `M4.Multiply`, `M4.Translate`, `M4.Inverse`: each source function writes its 16 slots in 16 unrolled assignments. The model writes the same slot formulas in a loop over the slot index.
- `dst` in these three functions is an implicit global in the source. The model returns a fresh local array; the aliasing through that global is not modelled.
- `translate(m, tx, ty, tz)` takes no destination: it assigns a fresh 16-slot array to the global `dst` (js/engine.js:27) before the `m !== dst` test (js/engine.js:46). That test is therefore always true, and `M4.Translate` always copies the first three columns.
- `Engines.Engine.Update`: engine.js calls `m4.inverse/multiply/translate` from a library that is not part of this model. The functions of js/engine.js stand in for them, so only the composition order is checked for engine.js.
- General `A * inverse(A) == I` is not proved. It holds only for the translation and identity cases `Update` uses (`M4.InvertedTranslation`, `Pipeline.ExactCamera`). The general degree-4 identity over reals is left out.
- `VectorOps.Cross`: its own contract states only the length. Its meaning is stated by `VectorOps.CrossAntiCommutes` and `VectorOps.CrossOrthogonal`.
- `MatrixOps.MatrixMap`: `console.log` is dropped, but the `matrix[0]` it reads throws on an empty matrix, so `MatrixMap` requires at least one row. `deepClone` is treated as the identity, because values are immutable here.
- `MatrixOps.MatrixScalar`: requires a non-empty matrix for the same reason; `matrixScalar(n, [])` throws in the source.
- `MatrixOps.MatrixSub`: a first matrix without rows throws in the source once there is a second matrix, so that case is excluded.
- `Vectors.Vector.Len`, `VectorOps.Len`: they return `Math.hypot`, which is a parameter, so they carry no contract of their own. `VectorOps.NormalizeUnit` states what an exact hypot gives.
- `M4.Product`, `M4.Adjugate`, `M4.Determinant`, `Pipeline.Frame`: specification functions without contracts of their own. Their meaning is stated by `M4.ProductIsMatrixProduct`, `M4.InvertedTranslation`, `Pipeline.DiagonalDeterminant` and `Pipeline.FrameIsProductChain`.
- `matrixRandom` is left out because it uses `Math.random`. `withAs` is left out because it only applies a callback.
- The helpers of math.js from `makeMatrix` onward (math.js:47-73) are left out. They call an undeclared `Matrix` object and cannot run; the working copies in js/math.js are modelled instead.
- `Gesture.Mult`: operands that are neither arrays nor numbers, and the NaN values JavaScript would compute, are all `None`.
