# AR model controller, modelled in Dafny

This project models the bookkeeping of `ARModelController`, the behaviour
script of a mobile augmented-reality demo. The user picks a 3D model from a
catalogue. A tap on a detected real-world plane places the model. Touching a
placed model selects it, and the selected model can be turned, pinch-scaled
or deleted from a control panel.

The controller is a small frame-driven state machine that runs on one thread.
It keeps:
- the list of placed models;
- the selected model;
- two manipulation modes (rotate, scale), of which at most one is on;
- the control panel's visibility;
- the button and highlight colours;
- the first touch's last position and the last pinch distance;
- the placements still waiting for a tap.

Files:

- `engine.dfy` (module `Engine`): the engine-side values. These are vectors,
  poses, colours with the engine's values for white, yellow and green, touches
  and their phases, one frame's input (`Frame`) and a catalogue entry
  (`ModelData`). A placed scene object is a `GameObject` class with the fields
  the controller reads or writes.
- `rules.dfy` (module `Rules`): the controller's rules as functions on values,
  with the lemmas that say what they guarantee. They cover the per-component
  clamp, one pinch-scale step, the two mode toggles, the button and highlight
  colours, list removal of the first occurrence, and the search for the first
  frame that places a model.
- `controller.dfy` (module `Controller`): the class `ARModelController`. Its
  fields are the script's fields, and each method is one callback: a button
  click, the frame update, a touch on a model, or one pass of a placement
  coroutine. `Valid()` is the object invariant, and every method keeps it:
  - at most one mode is on;
  - no placed model is listed twice;
  - no listed model has been destroyed;
  - the selected model, if any, is a listed model.

Each method's `ensures` gives the new state in terms of the old state and the
functions in `Rules`. A model a method places is stated to be exactly as
`Instantiate` leaves it (`GameObject.AsInstantiated`): the descriptor, the
renderer flag, the hit pose, no turn, the prefab's scale and colour, and not
destroyed.

Behaviour of the code that a reader might expect to be otherwise:
- Selecting a model does not reset the manipulation mode.
- The reference pinch distance is not reset when a finger begins. It is
  overwritten on every frame that takes the scale branch.
- Rotation turns the model only about the world up axis, driven by horizontal
  movement. There is no turn about the camera's right axis.
- The scale is clamped on every frame. After several frames it is therefore not
  the clamp of the summed changes (`Rules.ClampPerFrameIsNotClampOfSum`).
- Deleting a model turns both modes off but does not repaint the two buttons.
  A button can stay green after a delete.
- A model whose scale is above the maximum, for instance because its prefab is
  larger than maxScale, shrinks to the maximum on its first pinch frame even
  when the fingers spread apart (`Rules.SpreadCanShrinkOversizedModel`).

## Model

| member | source | states |
|---|---|---|
| `Engine.GameObject.Instantiate` | Assets/scripts/ARModelController.cs:135 | a new instance sits at the given pose with the prefab's scale, colour and renderer, not yet turned and not destroyed |
| `Rules.Clamp` | Assets/scripts/ARModelController.cs:169 | a value below min gives min; otherwise a value above max gives max; a value already in range is kept; for min <= max the result lies in [min, max] |
| `Rules.PinchDelta` | Assets/scripts/ARModelController.cs:165-166 | defines the change added to every scale component on a pinch frame: the change in finger distance times the scale speed times the frame time |
| `Rules.PinchScale` | Assets/scripts/ARModelController.cs:165-170 | after a pinch frame each scale component lies in [minScale, maxScale] when minScale <= maxScale; a uniform scale stays uniform; when the unclamped sum is in range it is the result |
| `Rules.PinchScaleMonotone` | Assets/scripts/ARModelController.cs:165-170 | for an in-range model and non-negative speed and frame time, spreading the fingers never shrinks any component and pinching them never grows one |
| `Rules.SpreadCanShrinkOversizedModel` | Assets/scripts/ARModelController.cs:165-170 | a model at scale 5 with range [0.1, 2] ends at scale 2 after a frame whose fingers spread apart, so the in-range condition of the monotonicity lemma cannot be dropped |
| `Rules.PinchDeltaSign` | Assets/scripts/ARModelController.cs:165-166 | with non-negative speed and frame time, the change added to the scale has the sign of the change in finger distance |
| `Rules.ClampPerFrameIsNotClampOfSum` | Assets/scripts/ARModelController.cs:163-173 | two clamped frames (+5 then -1 from scale 1 within [0.1, 2]) end at 1, whereas clamping the summed change would give 2 |
| `Rules.ToggleRotate` | Assets/scripts/ARModelController.cs:54-58 | the rotate button flips rotation mode, turns scale mode off, and leaves at most one mode on |
| `Rules.ToggleScale` | Assets/scripts/ARModelController.cs:60-64 | the scale button flips scale mode, turns rotation mode off, and leaves at most one mode on |
| `Rules.ToggleTwice` | Assets/scripts/ARModelController.cs:54-64 | pressing the same button twice restores that mode and leaves the other one off |
| `Rules.ButtonColor` | Assets/scripts/ARModelController.cs:210-211 | a button is green exactly when its mode is on and white exactly when it is off |
| `Rules.HighlightColor` | Assets/scripts/ARModelController.cs:190 | a model is yellow exactly when it is the selected one and white exactly when it is not |
| `Rules.IndexOf` | Assets/scripts/ARModelController.cs:199 | the list lookup finds the first occurrence: the element there is the one sought, it occurs nowhere before, and the index is the length exactly when it is absent |
| `Rules.RemoveFirst` | Assets/scripts/ARModelController.cs:199 | removal leaves an absent element's list unchanged, otherwise shortens it by one, and removes exactly one copy of the element from its multiset |
| `Rules.RemoveFirstKeepsOrder` | Assets/scripts/ARModelController.cs:199 | the remaining entries keep their relative order: entry k is the old entry k before the removed position and old entry k+1 after it |
| `Rules.RemoveFirstOfDistinct` | Assets/scripts/ARModelController.cs:199 | in a list without repeats, removal leaves no copy of the element and keeps the list without repeats |
| `Rules.AppendFreshKeepsDistinct` | Assets/scripts/ARModelController.cs:135-136 | appending a newly instantiated object to a list without repeats keeps it without repeats |
| `Rules.IsPlacingFrame` | Assets/scripts/ARModelController.cs:115-121 | defines a placing frame: there is a touch, the first touch has just begun, and the plane raycast from it hits |
| `Rules.FirstPlacingFrame` | Assets/scripts/ARModelController.cs:113-130 | finds the first frame whose first touch has just begun over a plane hit, with no such frame before it, or reports that no frame places the model |
| `Controller.ARModelController.constructor` | Assets/scripts/ARModelController.cs:31-36 | the initial state: nothing placed or selected, both modes off, panel hidden, no pending placement, remembered touch position and distance zero |
| `Controller.ARModelController.WithDefaults` | Assets/scripts/ARModelController.cs:26-29 | the same initial state with rotation speed 100, scale speed 0.5 and scale range [0.1, 2] |
| `Controller.ARModelController.OnRotateButton` | Assets/scripts/ARModelController.cs:54-58 | the modes become `ToggleRotate` of the old modes, the invariant is kept, and each button is green exactly when its mode is on |
| `Controller.ARModelController.OnScaleButton` | Assets/scripts/ARModelController.cs:60-64 | the modes become `ToggleScale` of the old modes, the invariant is kept, and each button is green exactly when its mode is on |
| `Controller.ARModelController.UpdateButtonColors` | Assets/scripts/ARModelController.cs:208-212 | each button's colour is `ButtonColor` of its mode, and nothing else changes |
| `Controller.ARModelController.DeleteSelectedModel` | Assets/scripts/ARModelController.cs:195-206 | without a selection nothing changes. With one, the list loses the first occurrence of the selected model, shrinks by exactly one and keeps no copy of it; the model is destroyed, the selection is cleared, the panel is hidden and both modes are off |
| `Controller.ARModelController.SelectModel` | Assets/scripts/ARModelController.cs:179-193 | called for a listed model only, as the touch handler attached in `PlaceModel` is its only caller. The selection is the touched model and the panel is visible. Every listed model with a renderer is yellow exactly when it is the selected one; the others keep their colour. The list, the modes and every model's scale, pose and turn are unchanged |
| `Controller.ARModelController.Rotating` | Assets/scripts/ARModelController.cs:147-151 | defines a turning frame: a model is selected, there is a touch, rotation mode is on and the first touch is moving |
| `Controller.ARModelController.Pinching` | Assets/scripts/ARModelController.cs:147-156 | defines a pinch frame: a model is selected, there is a touch, the frame is not a turning frame, scale mode is on and there are exactly two touches |
| `Controller.ARModelController.HandleTouchInput` | Assets/scripts/ARModelController.cs:145-177 | without a selection or touches nothing changes. Otherwise the first touch's position is remembered. In rotation mode a moving first touch turns the model by minus the horizontal movement times speed times frame time. A pinch frame that is not a turn sets the remembered distance, and the model takes the clamped pinch scale exactly when a finger moved. The model's pose, colour and destroyed flag, the modes and the list are unchanged |
| `Controller.ARModelController.PlaceModel` | Assets/scripts/ARModelController.cs:133-143 | the list grows by exactly the new, freshly instantiated model at the end; earlier entries are unchanged; the model is exactly as instantiated: descriptor, renderer flag, pose, no turn, prefab scale and colour, not destroyed |
| `Controller.ARModelController.PlacementStep` | Assets/scripts/ARModelController.cs:115-128 | one coroutine pass places exactly when the first touch has just begun over a plane hit; then exactly one fresh model, as instantiated from the descriptor at that hit's pose, is appended; otherwise the list is unchanged |
| `Controller.ARModelController.PlaceModelCoroutine` | Assets/scripts/ARModelController.cs:108-131 | over a run of frames the coroutine places the model exactly when some frame is a placing frame, and it does so on the first such frame, with one fresh model as instantiated from the descriptor at that frame's hit pose; otherwise nothing is spawned |
| `Controller.ARModelController.SelectModelToPlace` | Assets/scripts/ARModelController.cs:102-106 | starting a placement runs its first pass on the current frame. It places exactly when that frame is a placing frame, appending one fresh model as instantiated from the descriptor at the hit pose; otherwise the list is unchanged and the descriptor joins the pending placements |
| `Controller.ARModelController.ResumePlacements` | Assets/scripts/ARModelController.cs:113-130 | on a frame that does not place, nothing changes and every placement stays pending. On a placing frame, every pending placement appends a fresh model as instantiated from its descriptor at the hit pose, oldest first, and none stays pending |
| `Controller.ARModelController.ClickThenResume` | Assets/scripts/ARModelController.cs:102-130 | a catalogue click on the first frame, with nothing else pending, followed by the per-frame resumption places the model exactly when the coroutine run on its own would: on the first placing frame, one fresh model as instantiated from the descriptor at that frame's hit pose; otherwise nothing is spawned and the descriptor stays pending |

## Left out

- The engine and AR calls are inputs or opaque effects. The raycast against tracked planes is the frame's `planeHit`. The distance between the two touches, a square root, is the frame's `pinchDistance`. `Instantiate` is the `GameObject.Instantiate` constructor. `Destroy` sets the object's `destroyed` flag.
- Floating-point rounding: scale, distance, frame time and angles are Dafny `real`s.
- The quaternion arithmetic of the rotation is not modelled. The model records the accumulated turn about the world up axis (`worldYaw`) on top of the placement pose. This is exact only because the code never turns about any other axis.
- The call `Vector3.Clamp` at Assets/scripts/ARModelController.cs:169 names no method of the engine's `Vector3`. The model reads it as what the code evidently intends: each component limited to [minScale, maxScale] on its own, with the minimum checked first. When minScale > maxScale that order decides the result, and nothing in the code fixes it.
- The initial colour of the two button images is taken as white, the image default, because the code does not set it before the first click.
- `lastTouchPosition` is a `Vector3` in the source. It is modelled as `Vec2`, because only its x and y are ever written or read.
- The placement coroutines: each pending coroutine is resumed once per frame in the order it was started, and all of them see the same frame. The relative order of the frame update, coroutine resumption and button clicks within a frame is not modelled.
- The engine's rule that a destroyed object compares equal to null is not modelled. `Valid()` keeps every listed model undestroyed and the selection among the listed models, and only a listed model can be selected, so the rule makes no difference there.
- The touch handler attached to each placed model, which forwards a touch on the model to `SelectModel` (`ModelTouchHandler.cs`), is not modelled. `SelectModel` is called directly, and its precondition that the model is listed stands for the fact that only placed models carry the handler.
- The per-object material copy made by `renderer.material` is not modelled.
- Not modelled, because each is UI construction or scene management:
  - `CreateModelButtons` and the listener wiring in `SetupUI`;
  - the back button, which loads the main menu scene;
  - the empty `OnPlanesChanged` handler;
  - the log messages.
- `GameManager.cs` and `MainMenu.cs` are not part of this model; they only load scenes and quit.
- `ModelData.cs` and `ModelDatabase.cs` are plain serialised records. `ModelData` is a datatype holding the name and what the prefab gives a new instance.
