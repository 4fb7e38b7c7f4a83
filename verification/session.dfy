/** Sequences of editor events: the mouse callbacks, the per-frame drag update
    and the UI buttons, with the invariants that hold along any sequence in
    which left-button presses and releases alternate. */
module Session {
  import opened Vectors
  import opened Geometry
  import opened Scene
  import opened Editor

  /** One input to the editor. Rays are given as the camera position and the
      unprojected direction under the cursor; `spin` is the rotation a rotate
      frame would apply. */
  datatype Event =
    | LeftPress(origin: Vec3, dir: Vec3, wantCaptureMouse: bool)
    | LeftRelease
    | FrameTick(origin: Vec3, dir: Vec3, spin: Quat)
    | AddCube
    | AddSphere
    | ListClick(index: int)
    | ModeButton(mode: Mode)

  /** Apply one event. The object list only offers rows for existing objects,
      so a click on any other index is no event at all. */
  function Step(s: EditorState, e: Event): (r: EditorState)
    requires SelectionValid(s) && AxisValid(s)
    ensures SelectionValid(r) && AxisValid(r)
    ensures |r.objects| == |s.objects| + (if e.AddCube? || e.AddSphere? then 1 else 0)
    ensures !e.FrameTick? ==> r.objects[..|s.objects|] == s.objects
  {
    match e
    case LeftPress(origin, dir, captured) => Press(s, origin, dir, captured)
    case LeftRelease => Release(s)
    case FrameTick(origin, dir, spin) => Frame(s, origin, dir, spin)
    case AddCube => AddObject(s, true)
    case AddSphere => AddObject(s, false)
    case ListClick(i) => if 0 <= i < |s.objects| then SelectFromList(s, i) else s
    case ModeButton(m) => SetMode(s, m)
  }

  /** Apply a sequence of events in order. */
  function Run(s: EditorState, es: seq<Event>): (r: EditorState)
    requires SelectionValid(s) && AxisValid(s)
    ensures SelectionValid(r) && AxisValid(r)
    ensures |s.objects| <= |r.objects|
    decreases |es|
  {
    if es == [] then s else Run(Step(s, es[0]), es[1..])
  }

  /** Whether the left button is held after event `e`, given whether it was
      held before. */
  function ButtonAfter(down: bool, e: Event): bool {
    if e.LeftPress? then true else if e.LeftRelease? then false else down
  }

  /** Whether the left button is held after the whole sequence. */
  function ButtonAfterAll(down: bool, es: seq<Event>): bool
    decreases |es|
  {
    if es == [] then down else ButtonAfterAll(ButtonAfter(down, es[0]), es[1..])
  }

  /** The window system reports a press only while the button is up; a release
      may arrive at any time. */
  predicate ButtonConsistent(down: bool, es: seq<Event>)
    decreases |es|
  {
    es == [] || ((es[0].LeftPress? ==> !down) && ButtonConsistent(ButtonAfter(down, es[0]), es[1..]))
  }

  /** The editor invariant, given whether the left button is held: the selection
      and axis are in range, every scale is at least 0.1, a drag is in progress
      exactly when an axis is active, and only while the button is held. */
  predicate Inv(s: EditorState, down: bool) {
    && SelectionValid(s)
    && AxisValid(s)
    && ScalesAtLeastMin(s)
    && DragCoupled(s)
    && (!down ==> !s.isDragging)
  }

  lemma InitialInv()
    ensures Inv(Initial(), false)
  {
  }

  /** A frame preserves the scale floor: translate and rotate frames do not touch
      any scale and a scale frame clamps the one it changes. */
  lemma FrameKeepsScaleFloor(s: EditorState, origin: Vec3, dir: Vec3, spin: Quat)
    requires s.selectedObject < |s.objects| && s.selectedAxis <= 2
    requires ScalesAtLeastMin(s)
    ensures ScalesAtLeastMin(Frame(s, origin, dir, spin))
  {
    var r := Frame(s, origin, dir, spin);
    if DragActive(s) {
      match s.currentMode
      case Translate => TranslateFrameMovesOnlyActiveAxis(s, origin, dir, spin);
      case Rotate => RotateFrameKeepsObjects(s, origin, dir, spin);
      case Scale => ScaleFrameClampsScale(s, origin, dir, spin);
      assert AtLeastMin(r.objects[s.selectedObject].scale);
    }
  }

  /** Every event keeps the invariant, a press provided the button was up. */
  lemma StepKeepsInv(s: EditorState, down: bool, e: Event)
    requires Inv(s, down)
    requires e.LeftPress? ==> !down
    ensures Inv(Step(s, e), ButtonAfter(down, e))
  {
    var r := Step(s, e);
    match e
    case LeftPress(origin, dir, captured) =>
      if !captured {
        PressCouplesDrag(s, origin, dir);
      }
    case LeftRelease =>
    case FrameTick(origin, dir, spin) =>
      FrameKeepsScaleFloor(s, origin, dir, spin);
    case AddCube =>
      assert forall i :: 0 <= i < |s.objects| ==> r.objects[i] == s.objects[i];
    case AddSphere =>
      assert forall i :: 0 <= i < |s.objects| ==> r.objects[i] == s.objects[i];
    case ListClick(i) =>
    case ModeButton(m) =>
  }

  /** Along any sequence in which presses and releases alternate, the invariant
      holds after every event. */
  lemma {:induction false} RunKeepsInv(s: EditorState, down: bool, es: seq<Event>)
    requires Inv(s, down)
    requires ButtonConsistent(down, es)
    ensures Inv(Run(s, es), ButtonAfterAll(down, es))
    decreases |es|
  {
    if es != [] {
      StepKeepsInv(s, down, es[0]);
      RunKeepsInv(Step(s, es[0]), ButtonAfter(down, es[0]), es[1..]);
    }
  }

  /** From start-up, whatever events arrive (presses only with the button up),
      the selection is -1 or an object, the axis is -1, X, Y or Z, every scale
      is at least 0.1, and `isDragging` holds exactly when an axis is active. */
  lemma SessionInvariant(es: seq<Event>)
    requires ButtonConsistent(false, es)
    ensures var r := Run(Initial(), es);
            && -1 <= r.selectedObject < |r.objects|
            && -1 <= r.selectedAxis <= 2
            && (r.isDragging <==> r.selectedAxis != -1)
            && forall i :: 0 <= i < |r.objects| ==> AtLeastMin(r.objects[i].scale)
  {
    InitialInv();
    RunKeepsInv(Initial(), false, es);
  }

  /** The end-to-end drag, from any state with nothing selected, no drag and
      translate mode, for a ray that hits the first object and that object's X
      handle. A click (press, then release) selects the object without starting
      a drag; a second press on the same ray grabs the X handle, so repeating a
      click is not idempotent; a frame whose ray point moved by (dx, dy, dz)
      since the press moves the object by 4 dx along x only; the release ends
      the drag and keeps the selection. The events alternate presses and
      releases as a window reports them. */
  lemma DragScenario(s0: EditorState, origin: Vec3, dir: Vec3, frameDir: Vec3, spin: Quat)
    requires SelectionValid(s0) && AxisValid(s0) && 1 <= |s0.objects|
    requires s0.selectedObject == -1 && !s0.isDragging && s0.currentMode == Translate
    requires RayHitsObject(origin, dir, s0.objects[0])
    requires HandleHit(origin, dir, s0.objects[0].position, 0)
    ensures ButtonConsistent(false, [LeftPress(origin, dir, false), LeftRelease, LeftPress(origin, dir, false),
                                     FrameTick(origin, frameDir, spin), LeftRelease])
    ensures var s1 := Step(s0, LeftPress(origin, dir, false));
            var s2 := Step(s1, LeftRelease);
            var s3 := Step(s2, LeftPress(origin, dir, false));
            var s4 := Step(s3, FrameTick(origin, frameDir, spin));
            var s5 := Step(s4, LeftRelease);
            && s1.selectedObject == 0 && s1.selectedAxis == -1 && !s1.isDragging
            && s2.selectedObject == 0 && s2.selectedAxis == -1 && !s2.isDragging
            && s3.selectedObject == 0 && s3.selectedAxis == 0 && s3.isDragging
            && s3.initialClickPosition == Add(origin, dir)
            && s4.objects[0].position
                 == Add(s0.objects[0].position, Vec3(MovementSensitivity * (frameDir.x - dir.x), 0.0, 0.0))
            && s4.initialClickPosition == Add(origin, frameDir)
            && !s5.isDragging && s5.selectedAxis == -1 && s5.selectedObject == 0
            && s5.objects == s4.objects
  {
    var press, tick := LeftPress(origin, dir, false), FrameTick(origin, frameDir, spin);
    assert ButtonConsistent(true, [tick, LeftRelease]);
    assert ButtonConsistent(false, [press, tick, LeftRelease]);
    assert ButtonConsistent(true, [LeftRelease, press, tick, LeftRelease]);
    PressSelectsFirstHit(s0, origin, dir);
    var s1 := Step(s0, LeftPress(origin, dir, false));
    var s2 := Step(s1, LeftRelease);
    PressHandlePriority(s2, origin, dir);
    var s3 := Step(s2, LeftPress(origin, dir, false));
    TranslateFrameMovesOnlyActiveAxis(s3, origin, frameDir, spin);
    var before := s0.objects[0].position;
    var after := Step(s3, FrameTick(origin, frameDir, spin)).objects[0].position;
    var m := Vec3(MovementSensitivity * (frameDir.x - dir.x), 0.0, 0.0);
    assert Component(after, 0) == Component(Add(before, m), 0);
    assert Component(after, 1) == Component(Add(before, m), 1);
    assert Component(after, 2) == Component(Add(before, m), 2);
  }

  /** A ray through the start cube's centre, cast from the base side of its X
      handle, hits both the cube and the handle. */
  lemma CentreRayHitsCubeAndHandle(origin: Vec3, dir: Vec3, s: real)
    requires dir != Zero && Add(origin, ScaleBy(s, dir)) == SpawnPosition && origin.x <= 0.0
    ensures RayHitsObject(origin, dir, Initial().objects[0])
    ensures HandleHit(origin, dir, SpawnPosition, 0)
  {
    RayThroughCentreHitsObject(origin, dir, Initial().objects[0], s);
    RayThroughBaseHitsHandle(origin, dir, SpawnPosition, 0, s);
  }
}
