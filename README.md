# Tajine configurator core in Dafny

This project models the discrete core of the Angular/three.js tajine
configurator component (`AppComponent`) and proves properties of it. In the
configurator, a customer views a tajine (lid and plate) standing on a table,
switches between the whole assembly, the lid alone and the plate alone,
sticks decals on the visible part, paints a surface texture on it, and
rescales the tajine to a real-world diameter.

The model is one class, `App.AppComponent`, with the component's fields:
- the three meshes, as a map from `Lid`, `Plate` and `Table` to part records;
- the tajine group, with its scale and position;
- the uploaded decal texture;
- `currentView`, `viewMode` and `selectedPart`;
- the drag detector's `isDragging`, `mouseDownX` and `mouseDownY`.

A three.js mesh becomes a record (`Scene.Part`). It keeps:
- its `visible` flag;
- its `userData.decals` list, absent until the first push;
- its own `scale.x`;
- its material or array of materials.

A decal mesh (`Scene.DecalMesh`) keeps its geometry, material, `visible`
flag and name, and its own `position` and `rotation`. `DecalGeometry` is an
opaque constructor that only records its arguments.

Each method is proved against a pure function of the old state. The
functions live in their own modules:
- `Views`: the visibility transitions.
- `Placement`: click placement and stamping.
- `Selection`: the raycast filter and the target choices.
- `Rescale`: the records saved and the meshes rebuilt by the rescale.
- `Gesture`: the drag and click detector.

Lemmas in those modules state what the source promises about the functions.
The class keeps an invariant, `Valid`, that every method preserves:
- only the lid and the plate own decal lists;
- every decal was built against the part it is listed under;
- every decal keeps a new mesh's origin position and zero rotation.

Numbers are Dafny `real`s, so the rescale arithmetic is exact.

What the code does that one might not expect:
- **Rebuilt decals are centred at the origin.** When saving a record, the
  rescale reads `position` and `rotation` from the decal *mesh*
  (`src/app/app.component.ts:240-241`). Placement never sets these on the
  mesh, only on the geometry. So the saved position is the origin and the
  saved rotation is zero, and every rebuilt geometry is centred at
  `(0,0,0)` with zero rotation (`Rescale.RebuiltAttached`).
- **The rebuilt size does not depend on the new diameter.** The size
  passed is `(0.15, 0.15, 2)` × the old group scale (`Rescale.RebuiltDecal`).
  The group scale is set to the factor (line 264) before line 275 divides
  the factor by it, so that multiplier is 1.
- **Rebuilt decals are visible on hidden parts too.** A new mesh is visible
  by default, so after a rescale the decals of a hidden part are visible.
- **A stamped decal can be visible on a hidden part.** With both parts
  hidden, `applyDecalToMesh` stamps on the plate and the new mesh is visible
  (`Placement.StampedKeepsRegistry`). Only `LidView` calls
  `enforceVisibility` afterwards; `plateView` and `restoreOriginalView`
  don't.

## Model

| member | source | states |
|---|---|---|
| App.AppComponent.constructor | src/app/app.component.ts:14-26 | Nothing is loaded yet. The view is 'full', the mode is 'carousel', nothing is selected, and the drag detector starts released at (0.0, 0.0). |
| App.AppComponent.OnModelLoaded | src/app/app.component.ts:60-85 | The table is stored as found, and may be missing. The lid and plate are installed in a new unit-scale group at the origin only when both were found; otherwise the group and the parts are left as they were. |
| App.AppComponent.UseDecalTexture | src/app/app.component.ts:641-652 | A loaded decal texture becomes the one that clicks place. The registry invariant is kept. |
| App.AppComponent.ToggleDecals | src/app/app.component.ts:359-366 | Every decal of the part takes the flag. The list keeps its length and order, an absent list stays absent, and no other part changes. |
| Views.WithDecals | src/app/app.component.ts:359-366 | Toggling a part's decals keeps its visibility, scale and material and its decals up to their flags; an absent list stays absent, and every decal of a present one takes the flag. |
| Views.Toggled | src/app/app.component.ts:359-366 | The same decals in the same order. Each has the requested flag and differs from the original in nothing else. |
| Views.ToggledTwice | src/app/app.component.ts:359-366 | Toggling twice leaves what the second toggle asked for. |
| App.AppComponent.EnforceVisibility | src/app/app.component.ts:514-527 | With all three parts present, the parts become `Enforced` of the old parts; otherwise nothing changes. |
| Views.Enforced | src/app/app.component.ts:514-527 | Keys, visibility, scales, materials and the decals (up to their flags) are kept. Visible parts and the table are untouched. Every decal of a hidden lid or plate is hidden. |
| App.AppComponent.LidView | src/app/app.component.ts:304-320 | When already in 'lid', or when a part is missing, nothing changes, `currentView` included. Otherwise the parts become `InView(old, lid)` and the view becomes 'lid'. |
| App.AppComponent.PlateView | src/app/app.component.ts:322-338 | The mirror image of `LidView`, for 'plate'. |
| App.AppComponent.RestoreOriginalView | src/app/app.component.ts:340-356 | The same, for 'full'. |
| Views.InView | src/app/app.component.ts:304-356 | After a transition each part's visibility is what the view shows: lid unless 'plate', plate unless 'lid', table only in 'full'. Every lid and plate decal is as visible as its part. Keys, scales, materials and the decal lists (up to flags) are kept. |
| Views.InViewOverrides | src/app/app.component.ts:304-356 | A transition forgets the view it came from: going to `v` and then to `w` equals going to `w`. With `v == w` this is idempotence. |
| Views.EnforcedInView | src/app/app.component.ts:312-316 | The `enforceVisibility` call at the end of `LidView` has nothing left to hide. |
| Views.InViewWellFormed | src/app/app.component.ts:304-356 | Transitions keep the decal registry well formed. |
| App.AppComponent.HandleSelect | src/app/app.component.ts:533-558 | Always records the selection and enters 'customization'. The transition named by the selection runs exactly when the current view differs from it. |
| Selection.TargetView | src/app/app.component.ts:546-547 | 'lid' maps to the lid view, 'plate' to the plate view, anything else to 'full'. Each is stated as an if-and-only-if. |
| Selection.Intersectable | src/app/app.component.ts:142-144 | The lid and the plate are candidates exactly when present and visible. The table never is. The order is lid before plate. |
| Selection.HitsOn | src/app/app.component.ts:146 | A hit is reported exactly when it is a ray hit on a candidate mesh. No hits are invented. |
| Selection.FirstHitIsNearestEligible | src/app/app.component.ts:146-149 | The first intersection is the nearest ray hit on a candidate. |
| Selection.FirstHitIsOnVisiblePart | src/app/app.component.ts:142-149 | A click never lands on a hidden part or on the table. |
| Placement.ClickHit | src/app/app.component.ts:142-155 | The click uses the first intersection with a visible lid or plate. It places a decal there exactly when such an intersection exists, a texture was uploaded and that first intersection's face has a normal. |
| Placement.ClickOnNearestVisibleHit | src/app/app.component.ts:142-155 | The decal goes on the nearest ray hit on a visible lid or plate, given a texture and a face normal there; a normal on a farther hit does not help. |
| Placement.NoVisibleHitNoClick | src/app/app.component.ts:142-148 | A ray that meets no visible lid or plate places nothing. |
| Scene.ClickDecal | src/app/app.component.ts:165-187 | The click decal is centred on the hit point with the computed orientation, is 0.02 by 0.02 by 0.01, uses the uploaded texture with polygon offset -4 and both faces, and is a new, visible, unnamed mesh built against the hit part. |
| Scene.Pushed | src/app/app.component.ts:190-194 | Pushing creates an absent list and appends the decal at its end, keeping the old decals in front and the part's visibility, scale and material. |
| Placement.Placed | src/app/app.component.ts:142-194 | A click keeps the keys and every part's visibility, scale and material, and changes nothing when `ClickHit` finds no placement. |
| App.AppComponent.OnPointerDown | src/app/app.component.ts:133-198 | The parts become `Placed` of the old ones, and decal visibility keeps following the parts. |
| Placement.ClickPlacesOne | src/app/app.component.ts:148-194 | Exactly one decal is appended at the end of the hit part's list, creating it if absent, with the click's point, orientation, size and texture. The part keeps its visibility, scale and material and no other part changes. When there is no hit, texture or normal, nothing changes. |
| Placement.PlacedKeepsRegistry | src/app/app.component.ts:180-194 | A click keeps the registry well formed and keeps decals as visible as their parts. |
| Selection.DecalTarget | src/app/app.component.ts:464-468 | The stamp goes on the lid exactly when the lid alone is visible, and on the plate otherwise, never on the table. |
| App.AppComponent.ApplyDecalToMesh | src/app/app.component.ts:457-512 | The parts become `Stamped` of the old ones. |
| Scene.StampDecal | src/app/app.component.ts:474-499 | The stamped decal is centred on the world image of the local point, unrotated, 2 by 2 by 0.1, uses the loaded texture with polygon offset 5/2 on front faces only, and is a new, visible mesh built against the target and named `decal_<clock>`. |
| Placement.Stamped | src/app/app.component.ts:464-507 | Stamping keeps the keys and every part's visibility, scale and material, and leaves the table and the part not chosen as target unchanged. |
| Placement.StampPlacesOne | src/app/app.component.ts:464-507 | Exactly one decal is appended to the target's list: built against the target at the world image of its local point (0, 0, 2), unrotated, 2 by 2 by 0.1, with the texture, polygon offset 5/2 on front faces, visible and named `decal_<clock>`. The old decals stay in front, the target keeps its visibility, scale and material, and other parts are untouched. |
| Placement.StampedKeepsRegistry | src/app/app.component.ts:464-507 | Stamping keeps the registry well formed. Decals keep following their parts when a part is visible, and stop following them when both are hidden. |
| Selection.TextureTargets | src/app/app.component.ts:401-408 | A part is textured exactly when it is visible. The lid comes before the plate. |
| Selection.TexturedAreIntersectable | src/app/app.component.ts:401-408 | The textured parts are exactly the parts a click can hit. |
| Selection.Painted | src/app/app.component.ts:420-430 | Every material of the mesh maps the texture and is flagged for update. A single material stays single, and an array keeps its length. |
| App.AppComponent.ApplyTextureToMesh | src/app/app.component.ts:420-430 | Only that part's material changes, and it becomes `Painted`. |
| App.AppComponent.ApplyTextureToModel | src/app/app.component.ts:391-413 | Exactly the parts in `TextureTargets` of the old visibility are painted. The other parts are untouched. |
| Rescale.Saved | src/app/app.component.ts:234-262 | One record per decal, in list order, carrying the decal, its part, the mesh's own position and rotation, and `(0.15, 0.15, 2)` × the group scale. |
| App.AppComponent.TakeDecals | src/app/app.component.ts:234-262 | Returns the part's records and empties its list. An absent list stays absent and yields no record. The registry invariant is kept. |
| Rescale.Regen | src/app/app.component.ts:267-278 | A rebuilt mesh is built against the record's part, reuses the old material and the saved orientation, scales the saved position by the factor over the part's scale and the saved size by the factor over the group's scale, and is a new, visible, unnamed mesh. |
| Rescale.RegenAll | src/app/app.component.ts:266-286 | One rebuilt mesh per record, in order. |
| Rescale.Regenerated | src/app/app.component.ts:266-286 | The rebuild loop keeps the keys and the part scales and never touches the table. |
| Rescale.RegeneratedPart | src/app/app.component.ts:266-286 | Seen from the lid or the plate, the loop appends one rebuilt mesh per record of that part, in order, creating the list if absent. |
| Rescale.RegeneratedWellFormed | src/app/app.component.ts:266-286 | The rebuild loop keeps the registry well formed: each new mesh joins the list of the part it was built against. |
| App.AppComponent.RegenerateDecals | src/app/app.component.ts:266-286 | The parts become `Regenerated` of the old ones over the records. The registry invariant is kept. |
| Rescale.OnlyOwnRecords | src/app/app.component.ts:226-262 | The lid's records followed by the plate's split back into exactly each part's own records. |
| Rescale.RegeneratedIsRebuild | src/app/app.component.ts:234-286 | Emptying both lists and rebuilding from all records gives `Rebuild`. |
| Rescale.Rebuild | src/app/app.component.ts:234-286 | The rescale keeps the keys and the table. The lid and the plate keep their visibility, scale and material; each keeps its number of decals, and an absent list stays absent. |
| Rescale.RebuiltDecal | src/app/app.component.ts:240-275 | Rebuilt decal i is attached to the same part and reuses the material and orientation. Its position is multiplied by scale/part scale and its size is `(0.15, 0.15, 2)` × the old group scale. It is visible and unnamed. The list keeps its length. |
| Rescale.RebuiltAttached | src/app/app.component.ts:240-269 | Rebuilt decals stay attached to their part. Each rebuilt geometry is centred at the origin with zero rotation. |
| Rescale.RebuildWellFormed | src/app/app.component.ts:221-286 | The rescale keeps the registry well formed. |
| App.AppComponent.ResizeModelToRealWorldDiameter | src/app/app.component.ts:221-299 | Nothing changes unless the group, plate and table are present. Otherwise the group scale is `newDiameter / 26.7` on all axes, `position.y` rises by the table top minus the group bottom, and the parts become `Rebuild` of the old ones. |
| Gesture.Step | src/app/app.component.ts:579-617 | A press resets the drag flag and records the point. A move raises the flag exactly when it goes more than 5 px on some axis. A release goes from customization to carousel, clearing the selection, only when not dragging and the release is on the canvas and outside the toolkit. |
| App.AppComponent.OnMouseDown | src/app/app.component.ts:579-583 | The detector's state becomes `Step` of the press, and the registry invariant is kept. |
| App.AppComponent.OnMouseMove | src/app/app.component.ts:585-593 | The detector's state becomes `Step` of the move, and the registry invariant is kept. |
| App.AppComponent.OnMouseUp | src/app/app.component.ts:595-617 | The detector's state becomes `Step` of the release, and the registry invariant is kept. |
| Gesture.DragIsSticky | src/app/app.component.ts:585-596 | Once a drag is detected, no event short of a press changes anything. |
| Gesture.DragDetected | src/app/app.component.ts:585-593 | After a run of moves the flag is up exactly when it already was or some move went beyond the threshold. |
| Gesture.ClickDecides | src/app/app.component.ts:573-617 | A press, moves and a release return to the carousel exactly when customizing, every move stayed within 5 px of the press, and the release was on the canvas outside the toolkit. |

## Left out

- Rendering, the camera, orbit controls, the environment map, window resizing and `animate`: WebGL plumbing with no logic to state.
- Model and texture loading, and `FileReader`: asynchronous foreign APIs. Only the synchronous bodies that run on completion are modelled, and the loaded objects are parameters.
- The pointer listener is registered twice (`src/app/app.component.ts:100`, `102`), so a real click runs `onPointerDown` twice. Event dispatch is not part of this model; one handler call is.
- Pointer-to-device conversion, raycasting, and the tangent-frame and Euler computation: floating-point geometry. The nearest-first hits and the orientation are inputs. The code has no fallback for a normal parallel to up.
- `DecalGeometry` clipping, `Box3.setFromObject`, `localToWorld` and `getObjectByName`: library internals. They are opaque constructors or inputs.
- Shared materials: `GLTFLoader` can give the lid and the plate one material object. Painting one part (`src/app/app.component.ts:423-428`) then paints the other as well. Materials are values here, so App.AppComponent.ApplyTextureToModel's "other parts are untouched" holds only when the parts do not share a material.
- Descendant hits: `intersectObjects(meshes, true)` (`src/app/app.component.ts:146`) also reports hits on children of the lid or the plate. The decal is then built against the child and pushed onto the child's own `userData.decals` (lines 150, 190-194), which neither `toggleDecals` nor the rescale reads. `Scene.Hit` names the part hit, which assumes the lid and the plate are single meshes without children.
- `scene.add` and `scene.remove` of decal meshes: the scene graph is not modelled, only the parts' decal lists.
- DOM class toggling and element lookup in `handleSelect` and on release, and `triggerFileInput`/`triggerDecalInput`: DOM glue. The release's containment tests are boolean inputs.
- `sliderView`, `textureView`, `stickersView` and `activeView`: trivial setters with console logging.
- Texture `colorSpace` and wrap settings, and the decal materials' transparency and depth flags: rendering settings that no logic reads.
- All reals are exact: floating-point rounding of the rescale arithmetic is not modelled.
- App.AppComponent.ResizeModelToRealWorldDiameter: requires a nonzero diameter and nonzero lid and plate scales. The divisions that would then produce NaN or infinite geometry (`src/app/app.component.ts:269`, `275`) run only when a decal is rebuilt. With no decals, JavaScript would just set the group scale (line 264) to zero and re-seat the group; this model does not represent that case either.
- App.AppComponent.ApplyDecalToMesh: requires the lid and the plate to be loaded. The source would throw a TypeError reading `visible` of an unloaded part.
- App.AppComponent.ApplyTextureToModel: requires the lid and the plate to be loaded, for the same reason.
