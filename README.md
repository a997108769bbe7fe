# Viewport interaction core

A model of the interaction core of the zethus `Viewport` React component
(`src/components/viewport.js`): the resize hysteresis that reconciles the
renderer and camera with the container, the goal-setting state machine that
lets an operator drop and turn a navigation arrow on the ground plane, and the
construction of the pose message published when the drag ends.

Layout:

- `options.dfy` — `Options.Option`, standing for JavaScript's `null`/`undefined`.
- `hysteresis.dfy` — `Hysteresis`: pixel sizes, the 10-pixel threshold, the
  "applied or held back" test.
- `nav_message.dfy` — `NavMessage`: points, the orientation value, the two
  payload shapes (stamped pose in frame `map`, pose with a 36-entry zero
  covariance), their message kinds and `PublishNavMsg`.
- `viewport_model.dfy` — `ViewportModel`: the instance's state as a value
  (`ViewState`), one step function per handler, and `Deliver`/`Run`, which feed
  host events to the handlers (window listeners fire only while registered).
- `viewport_properties.dfy` — `ViewportProperties`: lemmas over arbitrary event
  sequences (append-only publish log, listener/arrow consistency, the drag
  blocked by `transformControlsEnabled`, no publish without re-arming, the
  full drag round trip, resize tracking).
- `viewport.dfy` — `ViewportComponent.Viewport`: a class with the instance's
  fields whose methods update them in place; each method's contract is
  `State() == <step>(old(State()))`.

Modelling decisions:

- The ground-plane cast is an `Option<Point>` argument of `OnMouseDown`
  (`None` when the ray misses the plane). The heading that `lookAt` and
  `rotateY(-π/2)` leave in `arrow.rotation.z` is a `real` argument of
  `OnMouseMove`.
- The quaternion is `RotationAboutZ(yaw)`: it stands for the value
  `setFromAxisAngle((0,0,1), yaw)` computes, so the published orientation is a
  function of `rotation.z` alone.
- `camera.aspect` is recorded as the size its ratio was computed from.
- `currentNavTopicType` is an `Option<string>`. The mouse-up check uses
  JavaScript truthiness, so `null`, `undefined` and `""` all mean "nothing
  recorded" (`TopicRecorded`).
- The publish collaborator is a ghost log of `Publication` values.
- The controller's `enabled` flag is taken to start `true` when
  `componentDidMount` creates it (three.js' `EditorControls` default). The
  arrow's starting position and heading come from the `Arrow` primitive, which
  is not part of this model; they are constructor arguments.
- The model follows the code in these behaviours a reader might not expect:
  `onMouseUp` does not re-enable the camera controller; `componentWillUnmount`
  removes only the resize listener and leaves a `mousemove` listener
  registered if a drag is in progress (`AfterUnmountOnlyHeadingChanges`); the mouse-down guard also requires
  `transformControlsEnabled` to be false, and nothing in the component clears
  it (`ArrowNeverShownFromMount`); a mouse-up publishes whether or not a drag
  was started (`MouseUpWithoutDragPublishes`); `enableEditorControls` keeps the
  armed topic, so after arming and disarming the next mouse-up on the viewport
  still publishes a goal (`DisarmDoesNotCancelPublish`).

## Model

| member | source | states |
|---|---|---|
| Hysteresis.HeldBackIffInsideBand | src/components/viewport.js:74-77 | a size is held back exactly when both dimensions are within 10 px (inclusive) of the last applied size |
| Hysteresis.ThresholdBoundary | src/components/viewport.js:74-77 | from any last size, including the initial 0 x 0, a move of exactly 10 px in both dimensions is held back and a move of 11 px in one dimension is applied, in either direction where the size stays non-negative |
| NavMessage.ZeroCovariance | src/components/viewport.js:184 | the covariance array has 36 entries, all 0 |
| NavMessage.PublishNavMsg | src/components/viewport.js:156-191 | topic passed through; position equals the arrow's; stamped shape iff the topic is exactly `/move_base_simple/goal`; kind matches shape; stamped shape has frame `map`; otherwise 36 zero covariance entries |
| NavMessage.PublishNavMsgRoundTrip | src/components/viewport.js:156-191 | every message built is well formed and gives back the arrow pose and topic it was built from |
| ViewportModel.OnWindowResize | src/components/viewport.js:70-84 | outside the dead band: last size, render size and camera aspect all become the container size; inside it: state unchanged; afterwards the last size is within 10 px of the container in each dimension; goal state untouched |
| ViewportModel.Mount | src/components/viewport.js:45-61 | renderer sized to the container, controller enabled, resize listener registered, then one reconcile: outside the dead band last size and camera match the container, inside it last size and camera aspect stay as they were; goal state untouched |
| ViewportModel.Initial | src/components/viewport.js:14-61 | after construction and mount: controller and transform controls enabled, no topic, arrow hidden, no move listener, nothing published |
| ViewportModel.ComponentWillUnmount | src/components/viewport.js:63-68 | resize listener removed; arrow, move listener, mode and log untouched |
| ViewportModel.DisableEditorControls | src/components/viewport.js:221-224 | controller disabled and the topic recorded; nothing else changes |
| ViewportModel.EnableEditorControls | src/components/viewport.js:226-228 | controller enabled, recorded topic untouched; nothing else changes |
| ViewportModel.OnMouseDown | src/components/viewport.js:193-206 | no-op when the controller or transform controls are enabled or the cast fails; otherwise arrow at (p.x, p.y, 0), in the scene, move listener registered; mode, topic and log untouched |
| ViewportModel.OnMouseMove | src/components/viewport.js:149-154 | only the arrow's heading changes |
| ViewportModel.OnMouseUp | src/components/viewport.js:208-219 | move listener removed, arrow hidden, topic cleared, controller left as it was; one publication of the arrow's pose if a topic was recorded, none otherwise |
| ViewportProperties.PublishLogAppendOnly | src/components/viewport.js:208-219 | over any events the publish log only grows, by at most one entry per mouse-up, each well formed and for a non-empty topic |
| ViewportProperties.DragConsistentPreserved | src/components/viewport.js:193-219 | the move listener is registered exactly while the arrow is in the scene, after any events |
| ViewportProperties.TransformControlsBlockDrag | src/components/viewport.js:193-206 | while `transformControlsEnabled` is set and no drag is under way, no events show or move the arrow |
| ViewportProperties.ArrowNeverShownFromMount | src/components/viewport.js:193-196 | from mount, the component's own events never show or move the arrow: the guard needs `transformControlsEnabled` false, it starts true (line 22) and nothing clears it |
| ViewportProperties.AfterUnmountOnlyHeadingChanges | src/components/viewport.js:63-68 | after teardown no event changes the state, except that a `mousemove` listener left by a drag in progress still sets the arrow's heading |
| ViewportProperties.MouseUpWithoutDragPublishes | src/components/viewport.js:208-219 | arming and releasing without a drag publishes the arrow's current pose once |
| ViewportProperties.DisarmDoesNotCancelPublish | src/components/viewport.js:208-228 | arming, disarming, then releasing the mouse publishes the arrow's current pose once: disarming does not clear the armed topic |
| ViewportProperties.NoPublishWithoutArm | src/components/viewport.js:214-218 | once the topic is cleared, no events without a new arm publish anything |
| ViewportProperties.SecondMouseUpPublishesNothing | src/components/viewport.js:214-218 | a second consecutive mouse-up publishes nothing |
| ViewportProperties.GoalDragRoundTrip | src/components/viewport.js:193-228 | arm, press on p, turn to yaw, release: exactly one message, at (p.x, p.y, 0) with that yaw and topic; controller stays disabled |
| ViewportProperties.AppliedSizeWasReported | src/components/viewport.js:78-83 | the last applied size is the starting one or a size the window reported |
| ViewportProperties.ResizesTrackContainer | src/components/viewport.js:70-84 | over resize events, the last applied size trails the latest container size by at most 10 px, and once a size is applied renderer and camera match it |
| ViewportComponent.Viewport.constructor | src/components/viewport.js:14-61 | the new instance is in the `Initial` state |
| ViewportComponent.Viewport.OnWindowResize | src/components/viewport.js:70-84 | fields updated as `ViewportModel.OnWindowResize`; inside the dead band nothing changes |
| ViewportComponent.Viewport.ComponentWillUnmount | src/components/viewport.js:63-68 | fields updated as `ViewportModel.ComponentWillUnmount` |
| ViewportComponent.Viewport.DisableEditorControls | src/components/viewport.js:221-224 | fields updated as `ViewportModel.DisableEditorControls` |
| ViewportComponent.Viewport.EnableEditorControls | src/components/viewport.js:226-228 | fields updated as `ViewportModel.EnableEditorControls` |
| ViewportComponent.Viewport.OnMouseDown | src/components/viewport.js:193-206 | fields updated as `ViewportModel.OnMouseDown`; when the guard rejects, nothing changes |
| ViewportComponent.Viewport.OnMouseMove | src/components/viewport.js:149-154 | fields updated as `ViewportModel.OnMouseMove` |
| ViewportComponent.Viewport.PublishNavMsg | src/components/viewport.js:156-191 | when a topic is recorded, exactly one call is appended to the publish log, carrying `NavMessage.PublishNavMsg` of the arrow's position, heading and topic; nothing else in the instance changes |
| ViewportComponent.Viewport.OnMouseUp | src/components/viewport.js:208-219 | fields updated as `ViewportModel.OnMouseUp`; the controller flag is unchanged |

## Left out

- `animate`, `initStats`, the WebGL renderer and `requestAnimationFrame`: rendering and browser plumbing; only the size handed to the renderer is kept.
- `initGrid`: cosmetic floating-point colours in a geometry buffer.
- `setMouse` and `castRay`: floating-point NDC and ray/plane arithmetic; the cast's result is an argument.
- `ViewportModel.OnMouseMove`: the heading computed by `lookAt` and `rotateY(-π/2)` is an argument, so what happens when the cast fails during a move (the arrow turning towards the previous intersection) is not modelled.
- `NavMessage.OrientationOf`: the quaternion's four components (floating-point trigonometry) are not computed.
- `ViewportModel.OnWindowResize`: `camera.aspect` is the size it is computed from, not the floating-point ratio (a zero height would give `Infinity` or `NaN`).
- `setupNavArrow`, the `Arrow` primitive, `EditorControls` and `ViewPortTransformControls` internals: library code; only the `enabled` flag and the arrow's position, heading and scene membership are kept.
- `onRef` and the rest of the React lifecycle: the parent's reference is represented by the `mounted` flag.
- Calls of the component's handlers before `componentDidMount` (when `this.controls` is still `null` and they would throw): the model starts from the mounted instance.
- The transport behind `publishNavMessages`: represented by a ghost log.
