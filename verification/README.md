# OrientedEllipse and IndexBufferGL3 in Dafny

This project models two independent pieces of openrndr.

**`OrientedEllipse`** is an immutable ellipse value. It has a center, two radii measured before rotation, and a rotation in degrees about the center. Its copy-with-change operations are `moved`, `movedTo`, `scaled` and `scaledTo`, and `scaled` and `scaledTo` each have a one-argument default form. Its `contour` getter builds one closed path: a `moveTo`, four cubic Bézier quarter-arcs with the fixed factor κ = 0.5522848, and a `close()`. The getter then applies `translate(center) · rotate(rotation) · translate(−center)` to every point. Its `shape` getter wraps that one contour.

**`IndexBufferGL3`** is a GPU index buffer object. It has a buffer handle, an element type and a one-way `isDestroyed` flag. Its operations are `create`, `bind`, `unbind`, `write` (through the private `bound { }` helper) and `destroy`, plus the `IndexType.sizeInBytes` lookup. They act on the OpenGL driver state they touch:
- the `ELEMENT_ARRAY_BUFFER` binding;
- the name `glGenBuffers` hands out next;
- the data-store size of each live buffer name;
- a log of sub-uploads.

Files:
- `geometry.dfy` (`Geometry`): points with exact `real` coordinates, 2×2 linear maps, affine maps, and the rotate-about-a-pivot transform.
- `paths.dfy` (`Paths`): a contour as a start point, a sequence of cubic segments and a closed flag; transforming a contour; smoothness at the joints.
- `oriented_ellipse.dfy` (`OrientedEllipses`): the ellipse value, its operations, the contour, and their laws.
- `gl_driver.dfy` (`GLDriver`): the driver state and the five driver calls as pure transitions, plus Kotlin `Int` wrap-around.
- `index_buffer.dfy` (`IndexBuffers`): the buffer object, its operations as transitions that return the new driver state and either a value or the exception thrown, and the lifecycle laws.

The rotation matrix for an angle is a parameter `rotationMatrix: real -> Linear2` and is never computed, so no trigonometry is involved. Coordinates are `real`, so identities such as "the middle of the bounding box is the center" hold exactly.

The model follows the code as written, including these behaviours:
- `write` does not restore the binding from before the call. It leaves nothing bound.
- `unbind` does not check the destroyed flag.
- `destroy` has no guard, so a second `destroy` is accepted.
- `create` returns an object whose handle is `elementCount`, not the generated buffer name.
- For an element type the size lookup does not know, `create` throws after it has generated and bound the new name. The old binding is not restored, so there is a partial change of driver state.

## Model

| member | source | states |
|---|---|---|
| Geometry.Compose | openrndr-core/src/main/kotlin/org/openrndr/shape/OrientedEllipse.kt:49-53 | the matrix built by successive `transform { }` steps maps every point through the inner step first, then the outer one |
| Geometry.Translation | openrndr-core/src/main/kotlin/org/openrndr/shape/OrientedEllipse.kt:50-52 | `translate(v)` maps every point p to p + v |
| Geometry.LinearPart | openrndr-core/src/main/kotlin/org/openrndr/shape/OrientedEllipse.kt:51 | the rotation step maps every point through the linear map and keeps the origin fixed |
| Geometry.AboutPivot | openrndr-core/src/main/kotlin/org/openrndr/shape/OrientedEllipse.kt:49-53 | translate(c) · m · translate(−c) maps every point p to c + m(p − c) |
| Geometry.AboutPivotIsComposition | openrndr-core/src/main/kotlin/org/openrndr/shape/OrientedEllipse.kt:49-53 | that map agrees at every point with the composition of the three builder steps in the order the `contour` getter writes them |
| Geometry.PivotIsFixed | openrndr-core/src/main/kotlin/org/openrndr/shape/OrientedEllipse.kt:49-53 | the pivot is a fixed point, whatever the linear map |
| Geometry.AboutPivotCommutesWithTranslation | openrndr-core/src/main/kotlin/org/openrndr/shape/OrientedEllipse.kt:49-53 | shifting the pivot and the point by v shifts the image by v |
| Paths.Transformed | openrndr-core/src/main/kotlin/org/openrndr/shape/OrientedEllipse.kt:62 | transforming a contour keeps its segment count and closed flag and maps every point through the transform: the start point and each segment's two control points and end point |
| Paths.TransformedPreservesSmooth | openrndr-core/src/main/kotlin/org/openrndr/shape/OrientedEllipse.kt:62 | an affine transform keeps a closed path closed on itself and keeps every joint tangent-continuous |
| Paths.TransformedTwice | openrndr-core/src/main/kotlin/org/openrndr/shape/OrientedEllipse.kt:62 | transforming by g and then by f equals transforming once by the composed matrix f · g |
| OrientedEllipses.AxisAligned | openrndr-core/src/main/kotlin/org/openrndr/shape/OrientedEllipse.kt:16 | the primary constructor with rotation left at its default of 0 |
| OrientedEllipses.FromCoordinates | openrndr-core/src/main/kotlin/org/openrndr/shape/OrientedEllipse.kt:17 | the secondary constructor puts (x, y) in the center and keeps radii and rotation |
| OrientedEllipses.Moved | openrndr-core/src/main/kotlin/org/openrndr/shape/OrientedEllipse.kt:20 | center becomes center + offset; radii and rotation unchanged |
| OrientedEllipses.MovedByNothingIsIdentity | openrndr-core/src/main/kotlin/org/openrndr/shape/OrientedEllipse.kt:20 | moving by the zero vector gives back the same ellipse |
| OrientedEllipses.MovedTwice | openrndr-core/src/main/kotlin/org/openrndr/shape/OrientedEllipse.kt:20 | two moves add up, and moving by −v undoes moving by v |
| OrientedEllipses.MovedIsMovedTo | openrndr-core/src/main/kotlin/org/openrndr/shape/OrientedEllipse.kt:20-23 | `moved(v)` equals `movedTo(center + v)` |
| OrientedEllipses.MovedTo | openrndr-core/src/main/kotlin/org/openrndr/shape/OrientedEllipse.kt:23 | center becomes the position; radii and rotation unchanged |
| OrientedEllipses.MovedToIsIdempotent | openrndr-core/src/main/kotlin/org/openrndr/shape/OrientedEllipse.kt:23 | `movedTo(p)` applied twice equals applying it once, and moving to the own center is the identity |
| OrientedEllipses.Scaled | openrndr-core/src/main/kotlin/org/openrndr/shape/OrientedEllipse.kt:26 | radii become xRadius · xScale and yRadius · yScale; center and rotation unchanged; any sign of the factors is accepted |
| OrientedEllipses.ScaledUniformly | openrndr-core/src/main/kotlin/org/openrndr/shape/OrientedEllipse.kt:26 | the one-argument form multiplies both radii by the one factor; center and rotation unchanged |
| OrientedEllipses.ScaledByOneIsIdentity | openrndr-core/src/main/kotlin/org/openrndr/shape/OrientedEllipse.kt:26 | scaling by 1, in either form, gives back the same ellipse |
| OrientedEllipses.ScaledTwice | openrndr-core/src/main/kotlin/org/openrndr/shape/OrientedEllipse.kt:26 | two scalings compose into one scaling by the products of the factors |
| OrientedEllipses.ScaledIsScaledTo | openrndr-core/src/main/kotlin/org/openrndr/shape/OrientedEllipse.kt:26-29 | relative scaling equals `scaledTo` with the scaled radii |
| OrientedEllipses.ScaledTo | openrndr-core/src/main/kotlin/org/openrndr/shape/OrientedEllipse.kt:29 | the radii become exactly the given values; center and rotation unchanged |
| OrientedEllipses.ScaledToRadius | openrndr-core/src/main/kotlin/org/openrndr/shape/OrientedEllipse.kt:29 | the one-argument form sets both radii to the one value; center and rotation unchanged |
| OrientedEllipses.ScaledToIgnoresOldRadii | openrndr-core/src/main/kotlin/org/openrndr/shape/OrientedEllipse.kt:29 | two ellipses with the same center and rotation give the same result, whatever their old radii |
| OrientedEllipses.ScaledToOwnRadiiIsIdentity | openrndr-core/src/main/kotlin/org/openrndr/shape/OrientedEllipse.kt:29 | `scaledTo(xRadius, yRadius)` gives back the same ellipse |
| OrientedEllipses.AxisAlignedContour | openrndr-core/src/main/kotlin/org/openrndr/shape/OrientedEllipse.kt:37-61 | before the transform: a closed path of four segments that starts at (cx − rx, cy) and ends in turn at (cx, cy − ry), (cx + rx, cy), (cx, cy + ry) and back at the start; each control point sits at a bounding-box edge, κ·rx or κ·ry from an axis midpoint |
| OrientedEllipses.AxisAlignedArcFactors | openrndr-core/src/main/kotlin/org/openrndr/shape/OrientedEllipse.kt:41-60 | every point of each quarter-arc is the center plus fixed multiples (±1, ±κ or 0) of the two radii |
| OrientedEllipses.AxisAlignedContourIsSmooth | openrndr-core/src/main/kotlin/org/openrndr/shape/OrientedEllipse.kt:55-61 | the quarter-arcs meet with matching tangents at every joint, the closing joint included |
| OrientedEllipses.AxisAlignedContourHugsBoundingBox | openrndr-core/src/main/kotlin/org/openrndr/shape/OrientedEllipse.kt:37-60 | every point of the path lies on a bounding-box edge line; with non-negative radii every point lies inside [cx − rx, cx + rx] × [cy − ry, cy + ry] |
| OrientedEllipses.RotationTransform | openrndr-core/src/main/kotlin/org/openrndr/shape/OrientedEllipse.kt:49-53 | the `transform { }` block maps every point p to c + R(p − c), with c the center and R the matrix for the ellipse's rotation |
| OrientedEllipses.ContourOf | openrndr-core/src/main/kotlin/org/openrndr/shape/OrientedEllipse.kt:35-63 | every point, the start and each segment's control points and end point, is c + R(p − c) for the matching point p of the untransformed path, R the rotation matrix and c the center; for any radii and any rotation the result is one closed path of exactly four cubic segments that ends where it starts and is smooth at every joint |
| OrientedEllipses.ShapeOf | openrndr-core/src/main/kotlin/org/openrndr/shape/OrientedEllipse.kt:32 | the shape holds exactly one contour, the ellipse's contour |
| OrientedEllipses.CenterIsFixed | openrndr-core/src/main/kotlin/org/openrndr/shape/OrientedEllipse.kt:49-53 | the center is a fixed point of the contour's transform for any rotation |
| OrientedEllipses.ContourWithoutRotation | openrndr-core/src/main/kotlin/org/openrndr/shape/OrientedEllipse.kt:49-62 | when the rotation matrix is the identity, the contour is the untransformed path |
| OrientedEllipses.ExampleContour | openrndr-core/src/main/kotlin/org/openrndr/shape/OrientedEllipse.kt:37-62 | center (0, 0), radii 10 and 5, no rotation: start (−10, 0), first arc through (−10, −2.761424) and (−5.522848, −5) to (0, −5), closing back at (−10, 0) |
| OrientedEllipses.AxisAlignedContourOfMoved | openrndr-core/src/main/kotlin/org/openrndr/shape/OrientedEllipse.kt:37-60 | the untransformed path of `moved(v)` is the old path shifted by v |
| OrientedEllipses.ContourOfMoved | openrndr-core/src/main/kotlin/org/openrndr/shape/OrientedEllipse.kt:20-62 | the contour of `moved(v)` is the old contour with every point shifted by v, for any rotation |
| OrientedEllipses.ContourOfMovedTo | openrndr-core/src/main/kotlin/org/openrndr/shape/OrientedEllipse.kt:23-62 | the contour of `movedTo(p)` is the old contour shifted by p − center |
| OrientedEllipses.AxisAlignedContourOfScaled | openrndr-core/src/main/kotlin/org/openrndr/shape/OrientedEllipse.kt:26-60 | the untransformed path of `scaled(sx, sy)` is the old path scaled about the center by sx and sy, so the bounding box scales the same way |
| GLDriver.WrapInt32 | openrndr-gl3/src/main/kotlin/org/openrndr/internal/gl3/IndexBufferGL3.kt:24 | the result is congruent to the exact value modulo 2^32 and lies in the Int range, and it equals the exact value when that fits |
| GLDriver.GenBuffers | openrndr-gl3/src/main/kotlin/org/openrndr/internal/gl3/IndexBufferGL3.kt:21 | the new name is non-zero and has no data store yet; the binding, the stores and the uploads are unchanged |
| GLDriver.BindBuffer | openrndr-gl3/src/main/kotlin/org/openrndr/internal/gl3/IndexBufferGL3.kt:22 | the given name becomes the bound buffer, 0 clearing the binding; stores, next name and uploads unchanged |
| GLDriver.BufferData | openrndr-gl3/src/main/kotlin/org/openrndr/internal/gl3/IndexBufferGL3.kt:25 | the bound buffer gets a store of the requested size; a negative size or nothing bound leaves the state unchanged |
| GLDriver.BufferSubData | openrndr-gl3/src/main/kotlin/org/openrndr/internal/gl3/IndexBufferGL3.kt:49 | appends exactly one upload of the data at the offset to the bound buffer when a buffer is bound, and changes nothing when none is; binding, stores and next name unchanged |
| GLDriver.DeleteBuffers | openrndr-gl3/src/main/kotlin/org/openrndr/internal/gl3/IndexBufferGL3.kt:55 | the name's store is freed, and the binding is cleared if that name was bound |
| IndexBuffers.SizeInBytes | openrndr-gl3/src/main/kotlin/org/openrndr/internal/gl3/IndexBufferGL3.kt:66-73 | 2 for INT16, 4 for INT32, and the "unsupported size" error exactly for any other type |
| IndexBuffers.RequestedBytes | openrndr-gl3/src/main/kotlin/org/openrndr/internal/gl3/IndexBufferGL3.kt:24 | the Int product of size and count: exact when it fits, otherwise wrapped modulo 2^32 |
| IndexBuffers.Create | openrndr-gl3/src/main/kotlin/org/openrndr/internal/gl3/IndexBufferGL3.kt:19-29 | succeeds exactly for INT16 and INT32; then the binding is as before, only the generated name gains a store of the requested byte count, and the object is live with the requested type and handle `elementCount`; otherwise "unsupported size" with the new name left bound |
| IndexBuffers.Bind | openrndr-gl3/src/main/kotlin/org/openrndr/internal/gl3/IndexBufferGL3.kt:32-39 | a live buffer becomes the bound one and nothing else changes; a destroyed one throws "buffer is destroyed" and changes nothing |
| IndexBuffers.Unbind | openrndr-gl3/src/main/kotlin/org/openrndr/internal/gl3/IndexBufferGL3.kt:41-45 | always succeeds, destroyed or not, and leaves nothing bound; stores and uploads unchanged |
| IndexBuffers.Bound | openrndr-gl3/src/main/kotlin/org/openrndr/internal/gl3/IndexBufferGL3.kt:59-63 | on a live buffer, runs the body with the buffer bound and then unbinds; on a destroyed one, throws before the body runs |
| IndexBuffers.Write | openrndr-gl3/src/main/kotlin/org/openrndr/internal/gl3/IndexBufferGL3.kt:47-52 | on a live buffer, appends exactly one upload to its handle and leaves nothing bound, so the earlier binding is not restored; on a destroyed one, throws with no upload and no change |
| IndexBuffers.Destroy | openrndr-gl3/src/main/kotlin/org/openrndr/internal/gl3/IndexBufferGL3.kt:54-57 | the flag becomes set, with handle and type kept; only the handle's store is freed, and the binding is cleared if it held the handle |
| IndexBuffers.DestroyTwice | openrndr-gl3/src/main/kotlin/org/openrndr/internal/gl3/IndexBufferGL3.kt:54-57 | a second `destroy` is accepted and changes nothing further |
| IndexBuffers.CreateThenDestroyBinding | openrndr-gl3/src/main/kotlin/org/openrndr/internal/gl3/IndexBufferGL3.kt:19-57 | create followed by destroy restores the earlier binding, unless that binding was the name equal to `elementCount` |
| IndexBuffers.Perform | openrndr-gl3/src/main/kotlin/org/openrndr/internal/gl3/IndexBufferGL3.kt:32-57 | one call keeps handle and type; the flag ends set exactly when it was set before or the call is `destroy`; `unbind` and `destroy` never throw, bind and write throw exactly on a destroyed buffer, and a throw changes nothing |
| IndexBuffers.DestroyedFlagIsOneWay | openrndr-gl3/src/main/kotlin/org/openrndr/internal/gl3/IndexBufferGL3.kt:54-57 | after any sequence of calls, the object is destroyed exactly when it was before or the sequence contains `destroy` |
| IndexBuffers.DestroyedIsTerminal | openrndr-gl3/src/main/kotlin/org/openrndr/internal/gl3/IndexBufferGL3.kt:32-57 | after destruction, no sequence of calls uploads, generates a name or allocates a store, and the object stays destroyed |
| IndexBuffers.UploadsReachOwnHandle | openrndr-gl3/src/main/kotlin/org/openrndr/internal/gl3/IndexBufferGL3.kt:47-63 | any sequence of calls only appends uploads, and each one reaches the object's own handle |
| IndexBuffers.ExactBytes | openrndr-gl3/src/main/kotlin/org/openrndr/internal/gl3/IndexBufferGL3.kt:24 | the byte count computed as a Long is within the Long range and non-negative for a non-negative count |
| IndexBuffers.CreateCorrected | openrndr-gl3/src/main/kotlin/org/openrndr/internal/gl3/IndexBufferGL3.kt:19-29 | like `create`, but the object's handle is the generated name, whose store holds exactly sizeInBytes × elementCount bytes |
| IndexBuffers.CorrectedCreateThenDestroyLeavesNoTrace | openrndr-gl3/src/main/kotlin/org/openrndr/internal/gl3/IndexBufferGL3.kt:19-57 | with the corrected create, create then destroy leaves the binding and every data store as they were |
| IndexBuffers.CorrectedCreateUploadsReachOwnStore | openrndr-gl3/src/main/kotlin/org/openrndr/internal/gl3/IndexBufferGL3.kt:19-63 | with the corrected create, every later upload reaches the store that create allocated |
| IndexBuffers.CreateAsWrittenLosesItsBuffer | openrndr-gl3/src/main/kotlin/org/openrndr/internal/gl3/IndexBufferGL3.kt:28 | `create(100, INT16)` in a fresh context allocates name 1; the object writes to name 100, which has no store, and destroying it leaks name 1 |
| IndexBuffers.RequestedBytesWrapsAround | openrndr-gl3/src/main/kotlin/org/openrndr/internal/gl3/IndexBufferGL3.kt:24-25 | `create(0x4000_0001, INT32)` asks for 4 bytes instead of 0x1_0000_0004 |

## Left out

- Trigonometry. The matrix that `rotate(Vector3.UNIT_Z, degrees)` builds is an arbitrary 2×2 linear map supplied by the caller. Facts that depend on its values are not stated, for example that rotations by 0 and by 360 degrees give the same contour.
- IEEE-754 rounding. All coordinates are exact reals, so the model says nothing about rounding error or NaN and infinity propagation.
- The internals of `ShapeContour`, `Segment`, `Shape` and the `contour { }` builder. These classes are not part of this model. A contour is a start point, a list of cubic segments and a closed flag. Because the last quarter-arc ends exactly at the start point, `close()` adds no extra segment here.
- The declaration of `IndexType`, which is not part of this model. The constructor `OtherIndexType` stands for any entry the size lookup does not handle, so that the "unsupported size" branch can be reached.
- `checkGLErrors` and `debugGLErrors`, and every error the driver reports. A data-store call the driver would refuse leaves the state unchanged and raises no error.
- Driver validation of the name passed to `glBindBuffer`. The binding accepts any name, including one that `glGenBuffers` never returned.
- GLDriver.GenBuffers: names come from a counter and are never reused. A real driver may hand out a deleted name again, so the model cannot show that a second `destroy` might free a buffer that now belongs to someone else.
- The contents of the `ByteBuffer` passed to `write`, and any check that an upload stays within the store. The model logs each upload's handle, offset and bytes, and the range check belongs to the driver.
- Logging, thread ownership and the current GL context.

## Findings

| source | as written | input that shows it | evidently intended | confidence | as-written member | corrected member |
|---|---|---|---|---|---|---|
| openrndr-gl3/src/main/kotlin/org/openrndr/internal/gl3/IndexBufferGL3.kt:28 | `create` returns `IndexBufferGL3(elementCount, type)`, so the handle is the element count | `create(100, INT16)` in a context whose next free name is 1: writes go to name 100, and `destroy` frees name 100 and leaks name 1 | return `IndexBufferGL3(buffer, type)` with the generated name | high, not executed | `IndexBuffers.Create`, `IndexBuffers.CreateAsWrittenLosesItsBuffer` | `IndexBuffers.CreateCorrected`, `IndexBuffers.CorrectedCreateThenDestroyLeavesNoTrace`, `IndexBuffers.CorrectedCreateUploadsReachOwnStore` |
| openrndr-gl3/src/main/kotlin/org/openrndr/internal/gl3/IndexBufferGL3.kt:24-25 | `type.sizeInBytes * elementCount` is an `Int` product, widened to `Long` only after it wraps | `create(0x4000_0001, INT32)` asks the driver for 4 bytes, and the driver accepts that size | compute the product as a `Long` | medium (such a buffer is very large), not executed | `IndexBuffers.RequestedBytes`, `IndexBuffers.RequestedBytesWrapsAround` | `IndexBuffers.ExactBytes`, `IndexBuffers.CreateCorrected` |
