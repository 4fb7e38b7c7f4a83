/** The editor's selection and gizmo-drag state machine: one immutable record
    for what the source keeps in globals, and one pure function per event. */
module Editor {
  import opened Vectors
  import opened Geometry
  import opened Scene

  /** The gizmo's transformation mode, chosen with the Move/Rotate/Scale buttons. */
  datatype Mode = Translate | Rotate | Scale

  /** The process-wide editor state. `selectedObject` is -1 for "none";
      `selectedAxis` is -1 for "none", else 0, 1, 2 for X, Y, Z; and
      `initialClickPosition` is the drag anchor, the ray point of the previous
      drag sample. */
  datatype EditorState = EditorState(
    objects: seq<Object>,
    selectedObject: int,
    selectedAxis: int,
    isDragging: bool,
    initialClickPosition: Vec3,
    currentMode: Mode)

  const MovementSensitivity: real := 4.0

  /** The floor `glm::max` puts under every scale component in scale mode. */
  const MinScale: real := 0.1

  /** Where Add Cube / Add Sphere place a new object. */
  const SpawnPosition: Vec3 := Vec3(0.0, 0.5, 0.0)

  /** The camera's starting position; the startup cube is placed 3 units in
      front of it and 0.5 up. */
  const InitialCameraPosition: Vec3 := Vec3(0.0, 0.0, 3.0)

  /** The state after start-up: one white untextured unit cube in front of the
      camera, nothing selected, no drag, translate mode. */
  function Initial(): (s: EditorState)
    ensures |s.objects| == 1 && s.objects[0].position == SpawnPosition
    ensures s.objects[0] == Object(SpawnPosition, Vec3(1.0, 1.0, 1.0), White, true, 0)
    ensures s.selectedObject == -1 && s.selectedAxis == -1 && !s.isDragging
    ensures s.initialClickPosition == Zero && s.currentMode == Translate
  {
    var start := Add(InitialCameraPosition, Vec3(0.0, 0.5, -3.0));
    EditorState([Object(start, Vec3(1.0, 1.0, 1.0), White, true, 0)], -1, -1, false, Zero, Translate)
  }

  /** The selection is "none" or names an object. */
  predicate SelectionValid(s: EditorState) {
    -1 <= s.selectedObject < |s.objects|
  }

  /** The axis is "none" or one of X, Y, Z. */
  predicate AxisValid(s: EditorState) {
    -1 <= s.selectedAxis <= 2
  }

  /** A drag is in progress exactly when an axis is active. */
  predicate DragCoupled(s: EditorState) {
    s.isDragging <==> 0 <= s.selectedAxis <= 2
  }

  /** Every object's scale is at least the scale-mode floor in every component. */
  predicate ScalesAtLeastMin(s: EditorState) {
    forall i :: 0 <= i < |s.objects| ==> AtLeastMin(s.objects[i].scale)
  }

  predicate AtLeastMin(v: Vec3) {
    v.x >= MinScale && v.y >= MinScale && v.z >= MinScale
  }

  // ---------------------------------------------------------------------------
  // Press

  /** The gizmo-handle phase: the first of the X, Y, Z unit handles of the object
      at `position` that the ray comes within the click radius of, or -1. The
      handles are always the translate-style segments, whatever the mode. */
  function FirstHandle(origin: Vec3, dir: Vec3, position: Vec3): (axis: int)
    ensures -1 <= axis <= 2
    ensures axis != -1 ==> HandleHit(origin, dir, position, axis)
    ensures forall k :: 0 <= k <= 2 && (axis == -1 || k < axis) ==> !HandleHit(origin, dir, position, k)
  {
    if HandleHit(origin, dir, position, 0) then 0
    else if HandleHit(origin, dir, position, 1) then 1
    else if HandleHit(origin, dir, position, 2) then 2
    else -1
  }

  /** The left-button press. With the mouse over a UI window nothing happens.
      Otherwise the axis is reset; with an object selected its handles are
      checked and a hit starts a drag anchored at origin + dir; and unless a drag
      is then under way on a selected object, the objects are scanned and the
      first one hit becomes the selection (-1 if none). */
  function Press(s: EditorState, origin: Vec3, dir: Vec3, wantCaptureMouse: bool): (r: EditorState)
    requires s.selectedObject < |s.objects|
    ensures wantCaptureMouse ==> r == s
    ensures r.objects == s.objects && r.currentMode == s.currentMode
    ensures !wantCaptureMouse || AxisValid(s) ==> AxisValid(r)
    ensures SelectionValid(s) ==> SelectionValid(r)
    ensures !wantCaptureMouse && s.selectedObject == -1 ==>
              r.selectedAxis == -1 && r.isDragging == s.isDragging
  {
    if wantCaptureMouse then s
    else
      var axis := if s.selectedObject >= 0 then FirstHandle(origin, dir, s.objects[s.selectedObject].position) else -1;
      var dragging := s.isDragging || axis != -1;
      var anchor := if s.selectedObject >= 0 && dragging then Add(origin, dir) else s.initialClickPosition;
      var selected := if s.selectedObject == -1 || !dragging then FirstHit(s.objects, origin, dir) else s.selectedObject;
      s.(selectedAxis := axis, isDragging := dragging, initialClickPosition := anchor, selectedObject := selected)
  }

  /** Handles before objects, and X before Y before Z: a handle hit on the
      selected object activates the first axis hit, starts a drag, keeps the
      selection and anchors the drag at origin + dir. */
  lemma PressHandlePriority(s: EditorState, origin: Vec3, dir: Vec3)
    requires 0 <= s.selectedObject < |s.objects|
    ensures var r := Press(s, origin, dir, false);
            var p := s.objects[s.selectedObject].position;
            && (HandleHit(origin, dir, p, 0) ==> r.selectedAxis == 0)
            && (!HandleHit(origin, dir, p, 0) && HandleHit(origin, dir, p, 1) ==> r.selectedAxis == 1)
            && (!HandleHit(origin, dir, p, 0) && !HandleHit(origin, dir, p, 1) && HandleHit(origin, dir, p, 2) ==>
                  r.selectedAxis == 2)
            && (!HandleHit(origin, dir, p, 0) && !HandleHit(origin, dir, p, 1) && !HandleHit(origin, dir, p, 2) ==>
                  r.selectedAxis == -1)
    ensures var r := Press(s, origin, dir, false);
            r.selectedAxis != -1 ==>
              && r.isDragging
              && r.selectedObject == s.selectedObject
              && r.initialClickPosition == Add(origin, dir)
  {
  }

  /** With nothing selected, or with no handle of the selection hit, a press
      that finds no drag under way activates no axis, starts no drag and rescans
      the objects: it selects the lowest-index object the ray's bounding-sphere
      test hits, or -1 when it hits none. These are exactly the presses that
      leave no axis active. */
  lemma PressSelectsFirstHit(s: EditorState, origin: Vec3, dir: Vec3)
    requires SelectionValid(s) && !s.isDragging
    ensures var r := Press(s, origin, dir, false);
            r.selectedAxis == -1 <==>
              s.selectedObject == -1 || FirstHandle(origin, dir, s.objects[s.selectedObject].position) == -1
    ensures var r := Press(s, origin, dir, false);
            s.selectedObject == -1 || FirstHandle(origin, dir, s.objects[s.selectedObject].position) == -1 ==>
              && r.selectedAxis == -1
              && !r.isDragging
              && (r.selectedObject == -1 <==>
                    forall i :: 0 <= i < |s.objects| ==> !RayHitsObject(origin, dir, s.objects[i]))
              && (r.selectedObject != -1 ==>
                    && RayHitsObject(origin, dir, s.objects[r.selectedObject])
                    && forall i :: 0 <= i < r.selectedObject ==> !RayHitsObject(origin, dir, s.objects[i]))
  {
  }

  /** A press that starts with no drag under way leaves `isDragging` true
      exactly when it activated an axis. */
  lemma PressCouplesDrag(s: EditorState, origin: Vec3, dir: Vec3)
    requires s.selectedObject < |s.objects| && !s.isDragging
    ensures DragCoupled(Press(s, origin, dir, false))
  {
  }

  /** As written, a press arriving while a drag is still flagged (no release in
      between) never clears the flag: with an object selected it keeps the
      selection and re-anchors even when no handle is hit, leaving the flag set
      with no active axis. */
  lemma PressDuringDragKeepsDragging(s: EditorState, origin: Vec3, dir: Vec3)
    requires 0 <= s.selectedObject < |s.objects| && s.isDragging
    ensures var r := Press(s, origin, dir, false);
            && r.isDragging
            && r.selectedObject == s.selectedObject
            && r.initialClickPosition == Add(origin, dir)
            && (FirstHandle(origin, dir, s.objects[s.selectedObject].position) == -1 ==> !DragCoupled(r))
  {
  }

  // ---------------------------------------------------------------------------
  // Release

  /** The left-button release ends any drag and clears the axis; the objects,
      the selection, the anchor and the mode are untouched. */
  function Release(s: EditorState): (r: EditorState)
    ensures !r.isDragging && r.selectedAxis == -1
    ensures DragCoupled(r)
    ensures r.objects == s.objects && r.selectedObject == s.selectedObject
    ensures r.initialClickPosition == s.initialClickPosition && r.currentMode == s.currentMode
  {
    s.(isDragging := false, selectedAxis := -1)
  }

  // ---------------------------------------------------------------------------
  // Per-frame drag update

  /** The drag step of one frame: the projection of (current - anchor) on the
      active axis, times the sensitivity, as a vector along that axis. */
  function Movement(current: Vec3, anchor: Vec3, axis: int): (m: Vec3)
    requires 0 <= axis <= 2
    ensures Component(m, axis) == MovementSensitivity * (Component(current, axis) - Component(anchor, axis))
    ensures forall j :: 0 <= j <= 2 && j != axis ==> Component(m, j) == 0.0
  {
    var e := Basis(axis);
    var m := ScaleBy(MovementSensitivity, ScaleBy(Dot(Sub(current, anchor), e), e));
    assert Dot(Sub(current, anchor), e) == Component(current, axis) - Component(anchor, axis);
    m
  }

  /** One drag step applied to an object, by mode. In rotate mode the source
      rotates position - position, the zero vector, about the active axis and adds
      the position back; `spin` is that rotation, glm::angleAxis of an angle
      derived from the movement, which needs trigonometry and is a parameter. */
  function ApplyMovement(mode: Mode, obj: Object, movement: Vec3, spin: Quat): (r: Object)
    ensures r.color == obj.color && r.isCube == obj.isCube && r.textureID == obj.textureID
    ensures mode != Scale ==> r.scale == obj.scale
    ensures mode != Translate ==> r.position == obj.position
    ensures mode == Rotate ==> r == obj
    ensures mode == Scale ==> AtLeastMin(r.scale)
  {
    match mode
    case Translate => obj.(position := Add(obj.position, movement))
    case Rotate =>
      var offset := Sub(obj.position, obj.position);
      assert offset == Zero;
      obj.(position := Add(QuatRotate(spin, offset), obj.position))
    case Scale => obj.(scale := MaxWith(Add(obj.scale, movement), MinScale))
  }

  /** The frame update runs only while a drag is under way on a selected object
      with an active axis. */
  predicate DragActive(s: EditorState) {
    s.isDragging && s.selectedObject >= 0 && s.selectedAxis >= 0
  }

  /** The per-frame drag update, given the current ray. The current ray point is
      origin + dir; the selected object moves by mode; the anchor advances to the
      current ray point. Outside a drag nothing changes. */
  function Frame(s: EditorState, origin: Vec3, dir: Vec3, spin: Quat): (r: EditorState)
    requires s.selectedObject < |s.objects| && s.selectedAxis <= 2
    ensures !DragActive(s) ==> r == s
    ensures DragActive(s) ==> r.initialClickPosition == Add(origin, dir)
    ensures |r.objects| == |s.objects|
    ensures forall i :: 0 <= i < |s.objects| && i != s.selectedObject ==> r.objects[i] == s.objects[i]
    ensures r.selectedObject == s.selectedObject && r.selectedAxis == s.selectedAxis
    ensures r.isDragging == s.isDragging && r.currentMode == s.currentMode
  {
    if !DragActive(s) then s
    else
      var current := Add(origin, dir);
      var movement := Movement(current, s.initialClickPosition, s.selectedAxis);
      var obj := ApplyMovement(s.currentMode, s.objects[s.selectedObject], movement, spin);
      s.(objects := s.objects[s.selectedObject := obj], initialClickPosition := current)
  }

  /** Translate mode moves the selected object along the active axis only, by
      the sensitivity times the change of that coordinate of the ray point. */
  lemma TranslateFrameMovesOnlyActiveAxis(s: EditorState, origin: Vec3, dir: Vec3, spin: Quat)
    requires s.selectedObject < |s.objects| && s.selectedAxis <= 2
    requires DragActive(s) && s.currentMode == Translate
    ensures var r := Frame(s, origin, dir, spin);
            var before := s.objects[s.selectedObject];
            var after := r.objects[s.selectedObject];
            var k := s.selectedAxis;
            && Component(after.position, k)
                 == Component(before.position, k)
                    + MovementSensitivity * (Component(Add(origin, dir), k) - Component(s.initialClickPosition, k))
            && (forall j :: 0 <= j <= 2 && j != k ==> Component(after.position, j) == Component(before.position, j))
            && after.scale == before.scale && after.color == before.color
            && after.isCube == before.isCube && after.textureID == before.textureID
  {
    var k := s.selectedAxis;
    var before := s.objects[s.selectedObject];
    var m := Movement(Add(origin, dir), s.initialClickPosition, k);
    var after := Frame(s, origin, dir, spin).objects[s.selectedObject];
    assert after.position == Add(before.position, m);
    forall j | 0 <= j <= 2
      ensures Component(after.position, j) == Component(before.position, j) + Component(m, j)
    {
      AddComponent(before.position, m, j);
    }
  }

  lemma AddComponent(a: Vec3, b: Vec3, j: int)
    requires 0 <= j <= 2
    ensures Component(Add(a, b), j) == Component(a, j) + Component(b, j)
  {
  }

  /** Rotate mode never changes any object, whatever rotation the movement
      produces: the rotated vector is position - position, which is zero. */
  lemma RotateFrameKeepsObjects(s: EditorState, origin: Vec3, dir: Vec3, spin: Quat)
    requires s.selectedObject < |s.objects| && s.selectedAxis <= 2
    requires s.currentMode == Rotate
    ensures Frame(s, origin, dir, spin).objects == s.objects
  {
    if DragActive(s) {
      var obj := s.objects[s.selectedObject];
      assert Sub(obj.position, obj.position) == Zero;
      assert ApplyMovement(Rotate, obj, Movement(Add(origin, dir), s.initialClickPosition, s.selectedAxis), spin) == obj;
    }
  }

  /** Scale mode changes only the selected object's scale: each component
      becomes max(old + movement, 0.1), so every component ends at least 0.1,
      and only the active axis's component can grow or shrink past the floor. */
  lemma ScaleFrameClampsScale(s: EditorState, origin: Vec3, dir: Vec3, spin: Quat)
    requires s.selectedObject < |s.objects| && s.selectedAxis <= 2
    requires DragActive(s) && s.currentMode == Scale
    ensures var r := Frame(s, origin, dir, spin);
            var before := s.objects[s.selectedObject];
            var after := r.objects[s.selectedObject];
            var k := s.selectedAxis;
            && AtLeastMin(after.scale)
            && Component(after.scale, k)
                 == MaxReal(Component(before.scale, k)
                              + MovementSensitivity * (Component(Add(origin, dir), k) - Component(s.initialClickPosition, k)),
                            MinScale)
            && (forall j :: 0 <= j <= 2 && j != k ==> Component(after.scale, j) == MaxReal(Component(before.scale, j), MinScale))
            && after.position == before.position
            && after.color == before.color && after.isCube == before.isCube && after.textureID == before.textureID
  {
    var k := s.selectedAxis;
    var before := s.objects[s.selectedObject];
    var m := Movement(Add(origin, dir), s.initialClickPosition, k);
    var after := Frame(s, origin, dir, spin).objects[s.selectedObject];
    assert after.scale == MaxWith(Add(before.scale, m), MinScale);
    forall j | 0 <= j <= 2
      ensures Component(after.scale, j) == MaxReal(Component(before.scale, j) + Component(m, j), MinScale)
    {
      AddComponent(before.scale, m, j);
    }
  }

  /** A frame whose ray point equals the anchor changes nothing, provided that in
      scale mode the selected object's scale is already at least the floor. */
  lemma FrameAtAnchorIsIdentity(s: EditorState, origin: Vec3, dir: Vec3, spin: Quat)
    requires s.selectedObject < |s.objects| && s.selectedAxis <= 2
    requires Add(origin, dir) == s.initialClickPosition
    requires DragActive(s) && s.currentMode == Scale ==> AtLeastMin(s.objects[s.selectedObject].scale)
    ensures Frame(s, origin, dir, spin) == s
  {
    if DragActive(s) {
      var obj := s.objects[s.selectedObject];
      var m := Movement(Add(origin, dir), s.initialClickPosition, s.selectedAxis);
      MovementAtAnchor(s.initialClickPosition, s.selectedAxis);
      match s.currentMode
      case Translate => assert Add(obj.position, m) == obj.position;
      case Rotate =>
      case Scale => assert Add(obj.scale, m) == obj.scale;
      assert ApplyMovement(s.currentMode, obj, m, spin) == obj;
      assert s.objects[s.selectedObject := obj] == s.objects;
    }
  }

  /** No movement when the ray point has not moved since the anchor. */
  lemma MovementAtAnchor(anchor: Vec3, axis: int)
    requires 0 <= axis <= 2
    ensures Movement(anchor, anchor, axis) == Zero
  {
    var m := Movement(anchor, anchor, axis);
    assert Component(m, 0) == 0.0 && Component(m, 1) == 0.0 && Component(m, 2) == 0.0;
  }

  /** Because the anchor advances to the ray point, a second frame with the same
      ray changes nothing: the drag is incremental. */
  lemma FrameTwiceIsFrameOnce(s: EditorState, origin: Vec3, dir: Vec3, spin1: Quat, spin2: Quat)
    requires s.selectedObject < |s.objects| && s.selectedAxis <= 2
    ensures var once := Frame(s, origin, dir, spin1);
            Frame(once, origin, dir, spin2) == once
  {
    var once := Frame(s, origin, dir, spin1);
    if DragActive(s) {
      if s.currentMode == Scale {
        ScaleFrameClampsScale(s, origin, dir, spin1);
      }
      FrameAtAnchorIsIdentity(once, origin, dir, spin2);
    }
  }

  // ---------------------------------------------------------------------------
  // UI actions

  /** Add Cube / Add Sphere: append a white untextured unit-scale object at
      (0, 0.5, 0). The selection and drag state are not touched. */
  function AddObject(s: EditorState, isCube: bool): (r: EditorState)
    ensures |r.objects| == |s.objects| + 1
    ensures r.objects[..|s.objects|] == s.objects
    ensures var added := r.objects[|s.objects|];
            && added.position == SpawnPosition && added.scale == Vec3(1.0, 1.0, 1.0)
            && added.color == White && added.isCube == isCube && added.textureID == 0
    ensures r.selectedObject == s.selectedObject && r.selectedAxis == s.selectedAxis
    ensures r.isDragging == s.isDragging && r.initialClickPosition == s.initialClickPosition
    ensures r.currentMode == s.currentMode
  {
    s.(objects := s.objects + [Object(SpawnPosition, Vec3(1.0, 1.0, 1.0), White, isCube, 0)])
  }

  /** Clicking row `index` of the object list selects that object; the list
      only has rows for existing objects. Nothing else changes. */
  function SelectFromList(s: EditorState, index: int): (r: EditorState)
    requires 0 <= index < |s.objects|
    ensures r.selectedObject == index && SelectionValid(r)
    ensures r.objects == s.objects && r.selectedAxis == s.selectedAxis && r.isDragging == s.isDragging
    ensures r.initialClickPosition == s.initialClickPosition && r.currentMode == s.currentMode
  {
    s.(selectedObject := index)
  }

  /** The Move / Rotate / Scale buttons. A mode change does not touch the drag
      state; it changes what the next drag frame does. */
  function SetMode(s: EditorState, mode: Mode): (r: EditorState)
    ensures r.currentMode == mode
    ensures r.objects == s.objects && r.selectedObject == s.selectedObject && r.selectedAxis == s.selectedAxis
    ensures r.isDragging == s.isDragging && r.initialClickPosition == s.initialClickPosition
  {
    s.(currentMode := mode)
  }
}
