/**
 The AR model controller: the list of placed models, the selection, the two
 manipulation modes, the control panel, the button and highlight colours,
 the per-frame touch handling and the pending placements. Each method is one
 engine callback (a button click, a frame update, a touch on a model) and
 changes the controller's fields in place.
 */
module Controller {
  import opened Engine
  import opened Rules

  const DefaultRotationSpeed: real := 100.0
  const DefaultScaleSpeed: real := 0.5
  const DefaultMinScale: real := 0.1
  const DefaultMaxScale: real := 2.0

  class ARModelController {
    // Tunables set in the scene, never changed by the controller.
    const rotationSpeed: real
    const scaleSpeed: real
    const minScale: real
    const maxScale: real

    var spawnedModels: seq<GameObject>
    var selectedModel: GameObject?
    var isRotateMode: bool
    var isScaleMode: bool
    var lastTouchPosition: Vec2
    var lastTouchDistance: real
    var controlPanelActive: bool
    var rotateButtonColor: Color
    var scaleButtonColor: Color
    /** The models of the placement coroutines still waiting for a tap, oldest first. */
    var pendingPlacements: seq<ModelData>

    /**
     At most one manipulation mode is on, every placed model is listed once,
     no listed model has been destroyed, and the selection, if any, is a
     listed model.
     */
    ghost predicate Valid()
      reads this, spawnedModels
    {
      && CurrentModes().Exclusive()
      && (selectedModel != null ==> selectedModel in spawnedModels)
      && Distinct(spawnedModels)
      && forall o :: o in spawnedModels ==> !o.destroyed
    }

    function CurrentModes(): Modes
      reads this
    {
      Modes(isRotateMode, isScaleMode)
    }

    /** The controller after its field initialisers and Start: nothing placed, nothing selected, panel hidden. */
    constructor (rotationSpeed: real, scaleSpeed: real, minScale: real, maxScale: real)
      ensures Valid()
      ensures this.rotationSpeed == rotationSpeed && this.scaleSpeed == scaleSpeed
      ensures this.minScale == minScale && this.maxScale == maxScale
      ensures spawnedModels == [] && selectedModel == null && CurrentModes() == Off
      ensures lastTouchPosition == Vec2(0.0, 0.0) && lastTouchDistance == 0.0
      ensures !controlPanelActive && pendingPlacements == []
      ensures rotateButtonColor == White && scaleButtonColor == White
    {
      this.rotationSpeed := rotationSpeed;
      this.scaleSpeed := scaleSpeed;
      this.minScale := minScale;
      this.maxScale := maxScale;
      spawnedModels := [];
      selectedModel := null;
      isRotateMode := false;
      isScaleMode := false;
      lastTouchPosition := Vec2(0.0, 0.0);
      lastTouchDistance := 0.0;
      controlPanelActive := false;
      rotateButtonColor := White;
      scaleButtonColor := White;
      pendingPlacements := [];
    }

    /** The controller with the scene's default tunables. */
    constructor WithDefaults()
      ensures Valid()
      ensures rotationSpeed == DefaultRotationSpeed && scaleSpeed == DefaultScaleSpeed
      ensures minScale == DefaultMinScale && maxScale == DefaultMaxScale
      ensures spawnedModels == [] && selectedModel == null && CurrentModes() == Off
      ensures lastTouchPosition == Vec2(0.0, 0.0) && lastTouchDistance == 0.0
      ensures !controlPanelActive && pendingPlacements == []
      ensures rotateButtonColor == White && scaleButtonColor == White
    {
      rotationSpeed := DefaultRotationSpeed;
      scaleSpeed := DefaultScaleSpeed;
      minScale := DefaultMinScale;
      maxScale := DefaultMaxScale;
      spawnedModels := [];
      selectedModel := null;
      isRotateMode := false;
      isScaleMode := false;
      lastTouchPosition := Vec2(0.0, 0.0);
      lastTouchDistance := 0.0;
      controlPanelActive := false;
      rotateButtonColor := White;
      scaleButtonColor := White;
      pendingPlacements := [];
    }

    // -------------------------------------------------------------------
    // Buttons

    /** The rotate button's click handler. */
    method OnRotateButton()
      requires Valid()
      modifies this`isRotateMode, this`isScaleMode, this`rotateButtonColor, this`scaleButtonColor
      ensures Valid()
      ensures CurrentModes() == ToggleRotate(old(CurrentModes()))
      ensures rotateButtonColor == ButtonColor(isRotateMode) && scaleButtonColor == ButtonColor(isScaleMode)
    {
      isRotateMode := !isRotateMode;
      isScaleMode := false;
      UpdateButtonColors();
    }

    /** The scale button's click handler. */
    method OnScaleButton()
      requires Valid()
      modifies this`isRotateMode, this`isScaleMode, this`rotateButtonColor, this`scaleButtonColor
      ensures Valid()
      ensures CurrentModes() == ToggleScale(old(CurrentModes()))
      ensures rotateButtonColor == ButtonColor(isRotateMode) && scaleButtonColor == ButtonColor(isScaleMode)
    {
      isScaleMode := !isScaleMode;
      isRotateMode := false;
      UpdateButtonColors();
    }

    /** Paints each button green when its mode is on and white when it is off. */
    method UpdateButtonColors()
      modifies this`rotateButtonColor, this`scaleButtonColor
      ensures rotateButtonColor == ButtonColor(isRotateMode) && scaleButtonColor == ButtonColor(isScaleMode)
    {
      rotateButtonColor := if isRotateMode then Green else White;
      scaleButtonColor := if isScaleMode then Green else White;
    }

    /** The delete button's click handler: without a selection nothing happens. */
    method DeleteSelectedModel()
      requires Valid()
      modifies this`spawnedModels, this`selectedModel, this`controlPanelActive, this`isRotateMode,
               this`isScaleMode, selectedModel
      ensures Valid()
      ensures old(selectedModel) == null ==>
                && spawnedModels == old(spawnedModels) && selectedModel == null
                && controlPanelActive == old(controlPanelActive) && CurrentModes() == old(CurrentModes())
      ensures old(selectedModel) != null ==>
                && spawnedModels == RemoveFirst(old(spawnedModels), old(selectedModel))
                && |spawnedModels| == |old(spawnedModels)| - 1
                && old(selectedModel) !in spawnedModels
                && old(selectedModel).destroyed
                && selectedModel == null && !controlPanelActive && CurrentModes() == Off
    {
      if selectedModel != null {
        RemoveFirstOfDistinct(spawnedModels, selectedModel);
        spawnedModels := RemoveFirst(spawnedModels, selectedModel);
        selectedModel.destroyed := true;
        selectedModel := null;
        controlPanelActive := false;
        isRotateMode := false;
        isScaleMode := false;
      }
    }

    // -------------------------------------------------------------------
    // Selection

    /**
     A touch on a placed model selects it, shows the panel and repaints every
     placed model. Only placed models carry the touch handler that calls it.
     */
    method SelectModel(model: GameObject)
      requires Valid()
      requires model in spawnedModels
      modifies this`selectedModel, this`controlPanelActive, spawnedModels
      ensures Valid()
      ensures selectedModel == model && controlPanelActive
      ensures spawnedModels == old(spawnedModels) && CurrentModes() == old(CurrentModes())
      ensures forall o :: o in spawnedModels && o.hasRenderer ==> o.color == HighlightColor(o == model)
      ensures forall o :: o in spawnedModels && !o.hasRenderer ==> o.color == old(o.color)
      ensures forall o :: o in spawnedModels ==>
                o.localScale == old(o.localScale) && o.pose == old(o.pose) && o.worldYaw == old(o.worldYaw)
                    && o.destroyed == old(o.destroyed)
    {
      selectedModel := model;
      controlPanelActive := true;
      var i := 0;
      while i < |spawnedModels|
        invariant 0 <= i <= |spawnedModels|
        invariant selectedModel == model && controlPanelActive
        invariant forall k :: 0 <= k < i && spawnedModels[k].hasRenderer ==>
                    spawnedModels[k].color == HighlightColor(spawnedModels[k] == model)
        invariant forall o :: o in spawnedModels && !o.hasRenderer ==> o.color == old(o.color)
        invariant forall o :: o in spawnedModels ==>
                    o.localScale == old(o.localScale) && o.pose == old(o.pose) && o.worldYaw == old(o.worldYaw)
                    && o.destroyed == old(o.destroyed)
      {
        var spawned := spawnedModels[i];
        if spawned.hasRenderer {
          spawned.color := if spawned == selectedModel then Yellow else White;
        }
        i := i + 1;
      }
    }

    // -------------------------------------------------------------------
    // Touch handling, once per frame

    /** This frame turns the selected model: rotation mode and a moving first touch. */
    predicate Rotating(f: Frame)
      reads this
    {
      selectedModel != null && |f.touches| > 0 && isRotateMode && f.touches[0].phase == Moved
    }

    /** This frame is a pinch frame: not a turn, scale mode and exactly two touches. */
    predicate Pinching(f: Frame)
      reads this
    {
      selectedModel != null && |f.touches| > 0 && !Rotating(f) && isScaleMode && |f.touches| == 2
    }

    /**
     The frame update. With a selection and at least one touch: a moving first
     touch in rotation mode turns the selected model about the world up axis
     by the horizontal movement since the last frame; otherwise, in scale mode
     with exactly two touches, the selected model is rescaled if either finger
     moved and the pinch distance is remembered. The first touch's position is
     remembered in both cases.
     */
    method HandleTouchInput(f: Frame)
      requires Valid()
      modifies this`lastTouchPosition, this`lastTouchDistance, selectedModel
      ensures Valid()
      ensures selectedModel == old(selectedModel) && spawnedModels == old(spawnedModels)
      ensures CurrentModes() == old(CurrentModes())
      ensures selectedModel == null || |f.touches| == 0 ==>
                lastTouchPosition == old(lastTouchPosition) && lastTouchDistance == old(lastTouchDistance)
      ensures selectedModel != null && |f.touches| > 0 ==> lastTouchPosition == f.touches[0].position
      ensures lastTouchDistance == if Pinching(f) then f.pinchDistance else old(lastTouchDistance)
      ensures selectedModel != null ==>
                selectedModel.worldYaw ==
                  if Rotating(f)
                  then old(selectedModel.worldYaw)
                       - (f.touches[0].position.x - old(lastTouchPosition).x) * rotationSpeed * f.deltaTime
                  else old(selectedModel.worldYaw)
      ensures selectedModel != null ==>
                selectedModel.localScale ==
                  if Pinching(f) && (f.touches[0].phase == Moved || f.touches[1].phase == Moved)
                  then PinchScale(old(selectedModel.localScale), f.pinchDistance, old(lastTouchDistance),
                                  scaleSpeed, f.deltaTime, minScale, maxScale)
                  else old(selectedModel.localScale)
      ensures selectedModel != null ==>
                && selectedModel.pose == old(selectedModel.pose) && selectedModel.color == old(selectedModel.color)
                && selectedModel.destroyed == old(selectedModel.destroyed)
    {
      if selectedModel == null || |f.touches| == 0 {
        return;
      }
      var touch := f.touches[0];
      if isRotateMode && touch.phase == Moved {
        var deltaPosition := Vec2(touch.position.x - lastTouchPosition.x, touch.position.y - lastTouchPosition.y);
        var angle := -deltaPosition.x * rotationSpeed * f.deltaTime;
        assert angle == -(f.touches[0].position.x - lastTouchPosition.x) * rotationSpeed * f.deltaTime;
        selectedModel.worldYaw := selectedModel.worldYaw + angle;
      } else if isScaleMode && |f.touches| == 2 {
        var touch1 := f.touches[0];
        var touch2 := f.touches[1];
        var currentDistance := f.pinchDistance;
        if touch1.phase == Moved || touch2.phase == Moved {
          var deltaDistance := currentDistance - lastTouchDistance;
          var scaleDelta := deltaDistance * scaleSpeed * f.deltaTime;
          assert scaleDelta == PinchDelta(currentDistance, lastTouchDistance, scaleSpeed, f.deltaTime);
          var s := selectedModel.localScale;
          var newScale := Vec3(s.x + scaleDelta, s.y + scaleDelta, s.z + scaleDelta);
          newScale := Vec3(Clamp(newScale.x, minScale, maxScale), Clamp(newScale.y, minScale, maxScale),
                           Clamp(newScale.z, minScale, maxScale));
          selectedModel.localScale := newScale;
        }
        lastTouchDistance := currentDistance;
      }
      lastTouchPosition := touch.position;
    }

    // -------------------------------------------------------------------
    // Placement

    /** Spawns a model at a pose and appends it to the list of placed models. */
    method PlaceModel(d: ModelData, at: Pose) returns (newModel: GameObject)
      requires Valid()
      modifies this`spawnedModels
      ensures Valid()
      ensures fresh(newModel)
      ensures spawnedModels == old(spawnedModels) + [newModel]
      ensures newModel.AsInstantiated(d, at)
    {
      newModel := new GameObject.Instantiate(d, at);
      AppendFreshKeepsDistinct(spawnedModels, newModel);
      spawnedModels := spawnedModels + [newModel];
    }

    /**
     One pass of a placement coroutine's loop for model d: the model is placed
     at the plane hit when the first touch has just begun over a plane.
     */
    method PlacementStep(d: ModelData, f: Frame) returns (placed: bool)
      requires Valid()
      modifies this`spawnedModels
      ensures Valid()
      ensures placed == IsPlacingFrame(f)
      ensures !placed ==> spawnedModels == old(spawnedModels)
      ensures placed ==>
                && |spawnedModels| == |old(spawnedModels)| + 1
                && spawnedModels[..|old(spawnedModels)|] == old(spawnedModels)
                && fresh(spawnedModels[|old(spawnedModels)|])
                && spawnedModels[|old(spawnedModels)|].AsInstantiated(d, f.planeHit.value)
    {
      placed := false;
      if |f.touches| > 0 {
        var touch := f.touches[0];
        if touch.phase == Began {
          if f.planeHit.Some? {
            var hitPose := f.planeHit.value;
            var _ := PlaceModel(d, hitPose);
            placed := true;
          }
        }
      }
    }

    /**
     A placement coroutine's whole life over a run of frames, on its own: it
     loops, one frame per pass, until a pass places the model. It reports
     whether that happened within the frames given and on which frame.
     */
    method PlaceModelCoroutine(d: ModelData, frames: seq<Frame>) returns (modelPlaced: bool, at: nat)
      requires Valid()
      modifies this`spawnedModels
      ensures Valid()
      ensures modelPlaced <==> FirstPlacingFrame(frames).Some?
      ensures !modelPlaced ==> spawnedModels == old(spawnedModels)
      ensures modelPlaced ==>
                && at == FirstPlacingFrame(frames).value
                && |spawnedModels| == |old(spawnedModels)| + 1
                && spawnedModels[..|old(spawnedModels)|] == old(spawnedModels)
                && fresh(spawnedModels[|old(spawnedModels)|])
                && spawnedModels[|old(spawnedModels)|].AsInstantiated(d, frames[at].planeHit.value)
    {
      modelPlaced := false;
      at := 0;
      var i := 0;
      while !modelPlaced && i < |frames|
        invariant Valid()
        invariant 0 <= i <= |frames|
        invariant !modelPlaced ==> spawnedModels == old(spawnedModels)
        invariant !modelPlaced ==> forall j :: 0 <= j < i ==> !IsPlacingFrame(frames[j])
        invariant modelPlaced ==>
                    && at < |frames| && IsPlacingFrame(frames[at])
                    && (forall j :: 0 <= j < at ==> !IsPlacingFrame(frames[j]))
                    && |spawnedModels| == |old(spawnedModels)| + 1
                    && spawnedModels[..|old(spawnedModels)|] == old(spawnedModels)
                    && fresh(spawnedModels[|old(spawnedModels)|])
                    && spawnedModels[|old(spawnedModels)|].AsInstantiated(d, frames[at].planeHit.value)
      {
        modelPlaced := PlacementStep(d, frames[i]);
        if modelPlaced {
          at := i;
        }
        i := i + 1;
      }
    }

    /**
     A catalogue button's click handler: starts a placement coroutine for d,
     which makes its first pass on the current frame and stays pending if
     that pass does not place the model.
     */
    method SelectModelToPlace(d: ModelData, f: Frame) returns (placed: bool)
      requires Valid()
      modifies this`spawnedModels, this`pendingPlacements
      ensures Valid()
      ensures placed == IsPlacingFrame(f)
      ensures pendingPlacements == old(pendingPlacements) + (if placed then [] else [d])
      ensures !placed ==> spawnedModels == old(spawnedModels)
      ensures placed ==>
                && |spawnedModels| == |old(spawnedModels)| + 1
                && spawnedModels[..|old(spawnedModels)|] == old(spawnedModels)
                && fresh(spawnedModels[|old(spawnedModels)|])
                && spawnedModels[|old(spawnedModels)|].AsInstantiated(d, f.planeHit.value)
    {
      placed := PlacementStep(d, f);
      if !placed {
        pendingPlacements := pendingPlacements + [d];
      }
    }

    /**
     The pending coroutines' passes on one frame, oldest first. They all see
     the same touch and plane hit, so either every one of them places its
     model, in order, and none is left pending, or nothing changes.
     */
    method ResumePlacements(f: Frame)
      requires Valid()
      modifies this`spawnedModels, this`pendingPlacements
      ensures Valid()
      ensures !IsPlacingFrame(f) ==>
                spawnedModels == old(spawnedModels) && pendingPlacements == old(pendingPlacements)
      ensures IsPlacingFrame(f) ==>
                && pendingPlacements == []
                && |spawnedModels| == |old(spawnedModels)| + |old(pendingPlacements)|
                && spawnedModels[..|old(spawnedModels)|] == old(spawnedModels)
                && forall k :: |old(spawnedModels)| <= k < |spawnedModels| ==>
                     && fresh(spawnedModels[k])
                     && spawnedModels[k].AsInstantiated(old(pendingPlacements)[k - |old(spawnedModels)|], f.planeHit.value)
    {
      var pending := pendingPlacements;
      var stillPending := [];
      var n := |spawnedModels|;
      var i := 0;
      while i < |pending|
        invariant Valid()
        invariant 0 <= i <= |pending|
        invariant pending == old(pendingPlacements) && n == |old(spawnedModels)|
        invariant !IsPlacingFrame(f) ==> spawnedModels == old(spawnedModels) && stillPending == pending[..i]
        invariant IsPlacingFrame(f) ==>
                    && stillPending == []
                    && |spawnedModels| == n + i
                    && spawnedModels[..n] == old(spawnedModels)
                    && forall k :: n <= k < |spawnedModels| ==>
                         && fresh(spawnedModels[k])
                         && spawnedModels[k].AsInstantiated(pending[k - n], f.planeHit.value)
      {
        ghost var before := spawnedModels;
        var placed := PlacementStep(pending[i], f);
        if !placed {
          stillPending := stillPending + [pending[i]];
        } else {
          assert spawnedModels[..n + i] == before;
          assert spawnedModels[..n] == before[..n];
        }
        i := i + 1;
      }
      assert pending[..i] == pending;
      pendingPlacements := stillPending;
    }

    /**
     A catalogue click on the first of a run of frames, with no other
     placement pending, followed by the frame-driven resumption on every later
     frame: the model is placed exactly as the coroutine run on its own would
     place it, on the first placing frame, and it stays pending otherwise.
     */
    method ClickThenResume(d: ModelData, frames: seq<Frame>) returns (modelPlaced: bool)
      requires Valid()
      requires pendingPlacements == []
      modifies this`spawnedModels, this`pendingPlacements
      ensures Valid()
      ensures modelPlaced <==> FirstPlacingFrame(frames).Some?
      ensures pendingPlacements == (if modelPlaced || |frames| == 0 then [] else [d])
      ensures !modelPlaced ==> spawnedModels == old(spawnedModels)
      ensures modelPlaced ==>
                && |spawnedModels| == |old(spawnedModels)| + 1
                && spawnedModels[..|old(spawnedModels)|] == old(spawnedModels)
                && fresh(spawnedModels[|old(spawnedModels)|])
                && spawnedModels[|old(spawnedModels)|]
                     .AsInstantiated(d, frames[FirstPlacingFrame(frames).value].planeHit.value)
    {
      modelPlaced := false;
      if |frames| == 0 {
        return;
      }
      var n := |spawnedModels|;
      modelPlaced := SelectModelToPlace(d, frames[0]);
      ghost var at := 0;
      var i := 1;
      while i < |frames|
        invariant Valid()
        invariant 1 <= i <= |frames| && n == |old(spawnedModels)|
        invariant pendingPlacements == (if modelPlaced then [] else [d])
        invariant !modelPlaced ==> spawnedModels == old(spawnedModels)
        invariant !modelPlaced ==> forall j :: 0 <= j < i ==> !IsPlacingFrame(frames[j])
        invariant modelPlaced ==>
                    && at < i && IsPlacingFrame(frames[at])
                    && (forall j :: 0 <= j < at ==> !IsPlacingFrame(frames[j]))
                    && |spawnedModels| == n + 1
                    && spawnedModels[..n] == old(spawnedModels)
                    && fresh(spawnedModels[n])
                    && spawnedModels[n].AsInstantiated(d, frames[at].planeHit.value)
      {
        ghost var before := spawnedModels;
        var wasPlaced := modelPlaced;
        ResumePlacements(frames[i]);
        if wasPlaced {
          assert spawnedModels[..|before|] == before;
        } else if IsPlacingFrame(frames[i]) {
          modelPlaced := true;
          at := i;
        }
        i := i + 1;
      }
      assert modelPlaced ==> FirstPlacingFrame(frames) == Some(at);
    }
  }
}
