# MixerGL selection and gizmo drag, in Dafny

MixerGL is an OpenGL/ImGui 3D scene editor. This project models the part of its
`App/Source/App.cpp` that decides what a mouse click selects and how a drag
on a gizmo handle moves, rotates or scales the selected object:

- the scene `Object` record;
- the editor globals (`objects`, `selectedObject`, `selectedAxis`,
  `isDragging`, `initialClickPosition`, `currentMode`, `movementSensitivity`),
  as one immutable `EditorState`;
- the left-button press and release handler;
- the per-frame drag update in the main loop;
- the Add Cube / Add Sphere buttons, the object-list selection and the
  Move / Rotate / Scale buttons;
- the start-up cube;
- the ray geometry: the bounding-sphere test `RayIntersectsObject`,
  `DistanceFromRayToLineSegment` and the screen-to-NDC step of
  `ScreenToWorldRay`.

All arithmetic is over `real`. No square root is needed, because every
comparison of the source is stated on squared lengths:

- the bounding radius `0.5 * length(scale)` becomes `r^2 = 0.25 |scale|^2`;
- `distance < 0.2` becomes `|dir x (p - origin)|^2 < 0.04 |dir|^2`.

Where the float code would produce NaN (a zero ray direction, a zero-length
segment), the model returns `None`, and a comparison with NaN is false, so
there is no hit.

Modules, in dependency order:

- `Wrappers`: `Option`.
- `Vectors`: `Vec3`, `Vec4`, `Quat`, and the glm operations used: add, subtract,
  scale, dot, cross, componentwise max, and the quaternion-vector product.
- `Geometry`: NDC mapping, sphere test, segment distance, handle test.
- `Scene`: `Object`, the bounding sphere, and the first-hit scan of the press
  handler.
- `Editor`: the state record and one pure function per event.
- `Session`: event sequences, the invariant kept along any of them, and the
  end-to-end drag.

The model follows the code as written, including where it differs from what
a reader might expect:

- **Unit-cube radius.** The radius is `0.5 * length(scale)`, so a unit-scale
  object has bounding radius `sqrt(3)/2`, not 0.5
  (`Scene.UnitObjectRadiusExceedsHalf`).
- **Handles are always segments.** The press handler tests the three unit
  segments whatever the mode. The rotate circles of `HandleGizmoInteraction`
  and `IsRayNearCircle` (App/Source/App.cpp:1005-1052) are never called.
- **The sphere test uses the whole line.** There is no `t >= 0` check, so an
  object behind the camera can be selected (`Scene.FirstHitIsNotNearest`).
- **Repeating a press changes the result.** A first press selects an object,
  and a second press on the same ray can grab its X handle
  (`Session.DragScenario`).
- **The handle distance is not the ray-to-segment distance.** The comment at
  App/Source/App.cpp:868 announces "the shortest distance between a ray and a
  line segment". The code measures from the handle point nearest the ray
  *origin* along the handle's axis instead. From the start-up camera, a click
  exactly on the tip of the start cube's X handle misses that handle
  (`Geometry.StartCameraTipClickMisses`).
- **A rotate drag never moves anything.** It logs "Rotating around axis"
  (App/Source/App.cpp:354) but rotates `position - position`, which is zero
  (`Editor.RotateFrameKeepsObjects`).

## Model

| member | source | states |
|---|---|---|
| Editor.Initial | App/Source/App.cpp:267-269 | start-up is one white untextured unit cube at (0, 0.5, 0), which is the camera start (0, 0, 3) plus (0, 0.5, -3); nothing is selected, no axis is active, no drag is under way, the anchor is zero and the mode is translate (line 95) |
| Session.InitialInv | App/Source/App.cpp:267-269 | the start-up state satisfies the editor invariant with the button up |
| Session.CentreRayHitsCubeAndHandle | App/Source/App.cpp:267-269 | any ray through the start cube's centre, from a camera at or left of it in x, hits both the cube's bounding sphere and its X handle |
| Geometry.ScreenToNdc | App/Source/App.cpp:538-539 | a cursor inside the 1920x1080 window maps into [-1, 1] in both NDC coordinates |
| Geometry.NdcRoundTrip | App/Source/App.cpp:538-539 | the pixel-to-NDC mapping is a bijection: mapping to NDC and back gives the cursor position, and back then forth gives the NDC point |
| Geometry.ScreenToNdcOrientation | App/Source/App.cpp:538-539 | x grows to the right, y is flipped so it grows upwards, and the top-left and bottom-right pixels are (-1, 1) and (1, -1) |
| Geometry.Discriminant | App/Source/App.cpp:553-557 | b^2 - 4ac of \|origin + t dir - center\|^2 = r^2, as the source computes a, b and c; characterised by Geometry.DiscriminantAsDistance |
| Geometry.SphereHit | App/Source/App.cpp:559-562 | the strictly positive discriminant test; characterised by Geometry.SphereHitIffLineWithinRadius |
| Scene.BoundingRadiusSq | App/Source/App.cpp:552 | the squared bounding radius (0.5 length(scale))^2 = 0.25 \|scale\|^2, the same for cubes and spheres |
| Scene.BoundingRadiusSqSign | App/Source/App.cpp:552 | the squared radius is never negative and is positive for any non-zero scale |
| Scene.RayHitsObject | App/Source/App.cpp:550-563 | `RayIntersectsObject`: the sphere test against the object's position and bounding radius |
| Geometry.DiscriminantAsDistance | App/Source/App.cpp:553-557 | the discriminant b^2 - 4ac equals 4 (r^2 \|dir\|^2 - \|oc x dir\|^2) |
| Geometry.SphereHitIffLineWithinRadius | App/Source/App.cpp:550-563 | the strict discriminant test holds exactly when the ray's whole line passes strictly closer than the radius to the centre; a zero direction never hits |
| Geometry.SphereHitIgnoresDirectionScale | App/Source/App.cpp:550-563 | multiplying the direction by any non-zero factor, including -1, gives the same answer, so there is no forward-only check |
| Scene.TangentRayMisses | App/Source/App.cpp:559-562 | a line tangent to the bounding sphere (discriminant exactly 0) misses, and a slightly closer parallel line hits |
| Scene.UnitObjectRadiusExceedsHalf | App/Source/App.cpp:552 | a unit-scale object's bounding radius is sqrt(3)/2: lines at 0.5 and 0.8 from its centre hit it, and one at 0.9 misses |
| Scene.RayThroughCentreHitsObject | App/Source/App.cpp:550-563 | a line through an object's centre hits it whenever its scale is non-zero |
| Geometry.Clamp01 | App/Source/App.cpp:880 | the clamped value is 0 below the range, 1 above it, and its argument inside [0, 1] |
| Geometry.SegmentParam | App/Source/App.cpp:870-880 | the projection parameter of the ray origin onto the segment lies in [0, 1] |
| Geometry.SegmentParamIsNearestToOrigin | App/Source/App.cpp:875-883 | the chosen segment point is the one nearest the ray origin: no other point of the segment is closer to it |
| Geometry.SegmentDistanceSq | App/Source/App.cpp:869-890 | the distance is defined (not NaN) exactly when the segment has non-zero length and the direction is non-zero, and then it is at least 0 |
| Geometry.SegmentDistanceIsLineDistance | App/Source/App.cpp:886-887 | the value is the squared distance from the chosen segment point to the ray's line: no line point is nearer, and the foot of the perpendicular is exactly that far |
| Geometry.SegmentDistanceIgnoresDirectionScale | App/Source/App.cpp:886-887 | multiplying the ray direction by a non-zero scalar does not change the distance |
| Geometry.HandleParamIsAxisOffset | App/Source/App.cpp:875-880 | for a unit handle along axis k, the segment parameter is the ray origin's k-offset from the object, clamped to [0, 1] |
| Geometry.HandlePoint | App/Source/App.cpp:879-883 | the handle point measured from is the base when the ray origin is at or before the base along the axis, and the tip when it is a unit or more past it |
| Geometry.HandleHit | App/Source/App.cpp:463-479 | the `distance < gizmoClickRadius` test against the unit handle along axis k; a zero direction (NaN distance) never hits; characterised by Geometry.HandleHitAsCrossNorm |
| Geometry.HandleHitAsCrossNorm | App/Source/App.cpp:463-467 | for a non-zero direction, `distance < 0.2` against a handle holds exactly when \|dir x (p - origin)\|^2 < 0.04 \|dir\|^2, where p is Geometry.HandlePoint |
| Geometry.HandleHitFromBaseSide | App/Source/App.cpp:467 | from the base side, the handle test holds exactly when the ray's line passes within 0.2 of the handle's base |
| Geometry.HandleHitFromTipSide | App/Source/App.cpp:467 | from a unit or more past the base, the handle test holds exactly when the ray's line passes within 0.2 of the handle's tip |
| Geometry.RayThroughBaseHitsHandle | App/Source/App.cpp:467 | a ray through the object's position, cast from the base side, hits the handle |
| Geometry.AimAtTipFromBaseSide | App/Source/App.cpp:467 | a click aimed at a handle's tip from the base side hits exactly when the camera's offset from the handle's axis line is small relative to the ray length; where the ray meets the handle plays no part |
| Geometry.TipClickLevelWithBase | App/Source/App.cpp:467 | from a camera level with the X handle's base, a click on the tip hits exactly when 24 times the squared distance from the camera to the axis line is below 1 |
| Geometry.StartCameraTipClickMisses | App/Source/App.cpp:467 | from the start-up camera, a click exactly on the tip of the start cube's X handle misses it |
| Geometry.HandleHitIgnoresDirectionScale | App/Source/App.cpp:467-483 | the handle test does not depend on the length or sign of the ray direction |
| Vectors.Basis | App/Source/App.cpp:323-332 | the axis vector for k has component 1 on axis k and 0 on the other two |
| Scene.FirstHitFrom | App/Source/App.cpp:498-504 | the scan from a given index returns the first index hit, or -1 exactly when no object from there on is hit |
| Scene.FirstHit | App/Source/App.cpp:495-508 | the scan returns -1 exactly when no object is hit; otherwise it returns a hit object with no hit object before it |
| Scene.FirstHitIsNotNearest | App/Source/App.cpp:498-504 | the first hit is selected, not the nearest: a far object at index 0 wins over a near one at index 1, and an object behind the camera is selected too |
| Editor.FirstHandle | App/Source/App.cpp:466-483 | the handle phase returns an axis whose handle is hit and no lower axis is hit, or -1 exactly when no handle is hit |
| Editor.Press | App/Source/App.cpp:443-509 | a press over a UI window changes nothing; a press never changes the objects or the mode, and it keeps the selection and axis in range; with nothing selected the handle phase is skipped, so no axis is activated and the drag flag is untouched (line 462) |
| Editor.PressHandlePriority | App/Source/App.cpp:462-488 | X wins over Y, and Y over Z; a handle hit starts a drag, keeps the selection and anchors the drag at origin + dir |
| Editor.PressSelectsFirstHit | App/Source/App.cpp:462-508 | with no drag under way, a press leaves no axis active exactly when nothing is selected or no handle of the selection is hit; such a press starts no drag and selects the lowest-index object hit, or -1 exactly when no object is hit |
| Editor.PressCouplesDrag | App/Source/App.cpp:459-483 | a press that starts with no drag leaves a drag under way exactly when an axis was activated |
| Editor.PressDuringDragKeepsDragging | App/Source/App.cpp:485-496 | a press while a drag is still flagged keeps the flag, the selection and re-anchors, even with no handle hit (so drag and axis decouple) |
| Editor.Release | App/Source/App.cpp:510-514 | release ends the drag and clears the axis, so drag and axis are coupled again; the objects, the selection, the anchor and the mode are kept |
| Editor.Movement | App/Source/App.cpp:323-335 | the movement vector has 4 times the change of the ray point's coordinate on the active axis, and 0 on the other axes |
| Editor.DragActive | App/Source/App.cpp:312 | the guard of the frame update: dragging, an object selected and an axis active |
| Editor.ApplyMovement | App/Source/App.cpp:338-367 | the mode switch: colour, kind and texture are always kept; only translate changes the position and only scale changes the scale; rotate leaves the object as it was; scale leaves every component at least 0.1 |
| Editor.MovementAtAnchor | App/Source/App.cpp:335 | a ray point equal to the anchor gives zero movement |
| Editor.Frame | App/Source/App.cpp:312-370 | outside a drag nothing changes; in a drag the anchor advances to the current ray point, and only the selected object can change |
| Editor.TranslateFrameMovesOnlyActiveAxis | App/Source/App.cpp:339-340 | a translate frame adds 4 (cur_k - anchor_k) to the active coordinate of the position; the other coordinates and every other field are kept |
| Editor.RotateFrameKeepsObjects | App/Source/App.cpp:346-352 | a rotate frame leaves every object as it was, whatever rotation it computes |
| Vectors.QuatRotate | App/Source/App.cpp:351 | glm's `rotation * v`: any quaternion rotates the zero vector to zero, and one with zero vector part leaves v unchanged |
| Vectors.MaxWith | App/Source/App.cpp:362 | `glm::max(v, vec3(floor))`: every component ends at least floor; a component already at least floor is kept, a smaller one becomes floor |
| Editor.ScaleFrameClampsScale | App/Source/App.cpp:360-362 | a scale frame sets each scale component to max(old + movement, 0.1), so all are at least 0.1, and leaves the position, colour, kind and texture alone |
| Editor.FrameAtAnchorIsIdentity | App/Source/App.cpp:335-369 | a frame whose ray point equals the anchor changes nothing, given a scale of at least 0.1 in scale mode |
| Editor.FrameTwiceIsFrameOnce | App/Source/App.cpp:360-369 | a second frame with the same ray changes nothing, because the anchor advanced |
| Editor.AddObject | App/Source/App.cpp:700-710 | Add Cube / Add Sphere append one white untextured unit object of that kind at (0, 0.5, 0); existing objects, the selection and the drag state are kept |
| Editor.SelectFromList | App/Source/App.cpp:713-718 | clicking row i selects object i and changes nothing else |
| Editor.SetMode | App/Source/App.cpp:682-692 | a mode button sets the mode and changes nothing else |
| Session.Step | App/Source/App.cpp:443-514 | every event keeps the selection and the axis in range; only the add buttons grow the list, by one; only a frame changes existing objects |
| Session.Run | App/Source/App.cpp:80-86 | along any event sequence the selection and the axis stay in range and objects are never removed |
| Session.FrameKeepsScaleFloor | App/Source/App.cpp:360-362 | a frame keeps every scale component at least 0.1, whatever the mode |
| Session.StepKeepsInv | App/Source/App.cpp:443-514 | every event keeps the invariant (selection and axis in range, scales at least 0.1, drag exactly when an axis is active, drag only with the button held), a press only when the button was up |
| Session.RunKeepsInv | App/Source/App.cpp:80-86 | the invariant holds after any sequence in which presses come only with the button up |
| Session.SessionInvariant | App/Source/App.cpp:80-86 | from start-up, after any such sequence, the selection is -1 or an object, the axis is -1, X, Y or Z, a drag is under way exactly when an axis is active, and every scale is at least 0.1 |
| Session.DragScenario | App/Source/App.cpp:443-514 | along a press/release-alternating sequence from a state with nothing selected: a first click selects the hit object without a drag; a second press grabs X; a frame moves the object by 4 dx along x only; release ends the drag and keeps the selection |

## Left out

- Rendering, windowing and ImGui layout: the grid, gizmo drawing, outline,
  framebuffer and sphere setup. They are graphics-API side effects.
- `Log`, the console, `LoadTexture`, image loading and file dialogs. They are
  I/O. `textureID` is kept as a field and new objects get 0.
- The camera and the unprojection part of `ScreenToWorldRay`: the inverse
  matrices and the normalisation. Rays enter the model as an origin and a
  direction.
- The window size is fixed at 1920x1080, as the source's constants are.
  Framebuffer resizing is not modelled.
- `HandleGizmoInteraction` and `IsRayNearCircle`: no caller reaches them.
- The `DragFloat3` edits of position and scale in the object settings window.
  They are UI widgets that write arbitrary values.
- Float rounding: every quantity is an exact real. A NaN distance is `None`,
  which never hits.
- Editor.ApplyMovement: the rotate-mode quaternion `glm::angleAxis(angle, axis)`
  needs trigonometry, so it is a parameter `spin`. The position it produces is
  the same for every `spin`.
- Editor.Press: requires `selectedObject < |objects|`; beyond that the source
  indexes past the end of the vector.
- Editor.Frame: requires `selectedAxis <= 2`; for a larger axis the source
  reads an uninitialised `axisDirection`.
- Session.Step: an object-list click on an index with no row is not an event
  the window can produce, so it changes nothing.
- Session.RunKeepsInv: assumes the window system reports a press only while
  the button is up. If a second press arrives without a release, the drag
  flag can stay set with no active axis (`Editor.PressDuringDragKeepsDragging`).
