/**
 * The interaction core of the viewport component as values: the state the
 * component instance keeps, one step function per handler, and the delivery
 * of host events (window listeners fire only while registered).
 */
module ViewportModel {
  import opened Options
  import opened Hysteresis
  import opened NavMessage

  /** Everything the handlers read or write. */
  datatype ViewState = ViewState(
    // resize reconciliation
    previousWidth: nat,
    previousHeight: nat,
    renderSize: Size,              // last size given to the renderer
    cameraAspect: Option<Size>,    // the width/height whose ratio was last written to camera.aspect
    resizeListening: bool,         // window 'resize' listener registered
    mounted: bool,                 // in the page and known to the parent
    // goal interaction
    controlsEnabled: bool,         // controls.enabled of the camera controller
    transformControlsEnabled: bool,
    navTopic: Option<string>,      // currentNavTopicType
    arrowInScene: bool,
    arrowPosition: Point,
    arrowYaw: real,                // arrow.rotation.z
    mouseMoveListening: bool,      // window 'mousemove' listener registered
    // every call made to the publish collaborator, oldest first
    published: seq<Publication>)

  /** The fields that only the resize handler and the lifecycle touch are equal. */
  predicate SameSizing(s: ViewState, t: ViewState)
  {
    && t.previousWidth == s.previousWidth && t.previousHeight == s.previousHeight
    && t.renderSize == s.renderSize && t.cameraAspect == s.cameraAspect
    && t.resizeListening == s.resizeListening && t.mounted == s.mounted
  }

  /** The arrow (position, heading, scene membership, move listener) is untouched. */
  predicate SameArrow(s: ViewState, t: ViewState)
  {
    && t.arrowInScene == s.arrowInScene && t.arrowPosition == s.arrowPosition
    && t.arrowYaw == s.arrowYaw && t.mouseMoveListening == s.mouseMoveListening
  }

  /** The mode flags, the armed topic and the publish log are untouched. */
  predicate SameMode(s: ViewState, t: ViewState)
  {
    && t.controlsEnabled == s.controlsEnabled
    && t.transformControlsEnabled == s.transformControlsEnabled
    && t.navTopic == s.navTopic && t.published == s.published
  }

  /** The renderer, the camera and the last applied size agree. */
  predicate SizeApplied(s: ViewState)
  {
    && s.renderSize == Size(s.previousWidth, s.previousHeight)
    && s.cameraAspect == Some(s.renderSize)
  }

  /** The instance right after its constructor ran: nothing is mounted yet. */
  function Constructed(arrowPosition: Point, arrowYaw: real): ViewState
  {
    ViewState(0, 0, Size(0, 0), None, false, false,
              true, true, None, false, arrowPosition, arrowYaw, false, [])
  }

  /** `onWindowResize`: apply the container size only outside the dead band. */
  function OnWindowResize(s: ViewState, offset: Size): (t: ViewState)
    ensures SameArrow(s, t) && SameMode(s, t)
    ensures t.resizeListening == s.resizeListening && t.mounted == s.mounted
    ensures ExceedsThreshold(s.previousWidth, s.previousHeight, offset) ==>
      t.previousWidth == offset.width && t.previousHeight == offset.height &&
      t.renderSize == offset && SizeApplied(t)
    ensures !ExceedsThreshold(s.previousWidth, s.previousHeight, offset) ==> t == s
    ensures Abs(offset.width - t.previousWidth) <= Threshold
    ensures Abs(offset.height - t.previousHeight) <= Threshold
  {
    if ExceedsThreshold(s.previousWidth, s.previousHeight, offset) then
      s.(cameraAspect := Some(offset), renderSize := offset,
         previousWidth := offset.width, previousHeight := offset.height)
    else
      s
  }

  /** `componentDidMount`: create the renderer at the container size, enable the
      camera controller, register the resize listener, then reconcile once. */
  function Mount(s: ViewState, offset: Size): (t: ViewState)
    ensures SameArrow(s, t) && t.transformControlsEnabled == s.transformControlsEnabled
    ensures t.navTopic == s.navTopic && t.published == s.published
    ensures t.mounted && t.resizeListening && t.controlsEnabled
    ensures t.renderSize == offset
    ensures ExceedsThreshold(s.previousWidth, s.previousHeight, offset) ==> SizeApplied(t)
    ensures !ExceedsThreshold(s.previousWidth, s.previousHeight, offset) ==>
      t.previousWidth == s.previousWidth && t.previousHeight == s.previousHeight &&
      t.cameraAspect == s.cameraAspect
  {
    OnWindowResize(s.(renderSize := offset, controlsEnabled := true,
                      resizeListening := true, mounted := true), offset)
  }

  /** The instance as its parent first sees it: constructed and mounted. */
  function Initial(offset: Size, arrowPosition: Point, arrowYaw: real): (t: ViewState)
    ensures t.controlsEnabled && t.transformControlsEnabled
    ensures t.navTopic == None && !t.arrowInScene && !t.mouseMoveListening
    ensures t.arrowPosition == arrowPosition && t.arrowYaw == arrowYaw
    ensures t.published == []
    ensures t.mounted && t.resizeListening
  {
    Mount(Constructed(arrowPosition, arrowYaw), offset)
  }

  /** `componentWillUnmount`: only the resize listener is removed. */
  function ComponentWillUnmount(s: ViewState): (t: ViewState)
    ensures !t.resizeListening && !t.mounted
    ensures SameArrow(s, t) && SameMode(s, t)
    ensures t.previousWidth == s.previousWidth && t.previousHeight == s.previousHeight
    ensures t.renderSize == s.renderSize && t.cameraAspect == s.cameraAspect
  {
    s.(resizeListening := false, mounted := false)
  }

  /** `disableEditorControls(topicName)`: arm a goal drag for `topic`. */
  function DisableEditorControls(s: ViewState, topic: string): (t: ViewState)
    ensures !t.controlsEnabled && t.navTopic == Some(topic)
    ensures t.transformControlsEnabled == s.transformControlsEnabled && t.published == s.published
    ensures SameSizing(s, t) && SameArrow(s, t)
  {
    s.(controlsEnabled := false, navTopic := Some(topic))
  }

  /** `enableEditorControls`: give the pointer back to the camera controller. */
  function EnableEditorControls(s: ViewState): (t: ViewState)
    ensures t.controlsEnabled && t.navTopic == s.navTopic
    ensures t.transformControlsEnabled == s.transformControlsEnabled && t.published == s.published
    ensures SameSizing(s, t) && SameArrow(s, t)
  {
    s.(controlsEnabled := true)
  }

  /** `onMouseDown`, with the ground-plane cast given as `cast` (`None` when the
      ray misses the plane). */
  function OnMouseDown(s: ViewState, cast: Option<Point>): (t: ViewState)
    ensures SameSizing(s, t) && SameMode(s, t) && t.arrowYaw == s.arrowYaw
    ensures s.controlsEnabled || s.transformControlsEnabled || cast.None? ==> t == s
    ensures !s.controlsEnabled && !s.transformControlsEnabled && cast.Some? ==>
      t.arrowInScene && t.mouseMoveListening &&
      t.arrowPosition.x == cast.value.x && t.arrowPosition.y == cast.value.y &&
      t.arrowPosition.z == 0.0
  {
    if s.controlsEnabled || s.transformControlsEnabled then
      s
    else
      match cast
      case None => s
      case Some(p) =>
        s.(arrowPosition := Point(p.x, p.y, 0.0), arrowInScene := true, mouseMoveListening := true)
  }

  /** `onMouseMove`: the arrow turns to face the pointer. The heading the
      floating-point `lookAt`/`rotateY` produce is given as `yaw`. */
  function OnMouseMove(s: ViewState, yaw: real): (t: ViewState)
    ensures t.arrowYaw == yaw
    ensures t.arrowPosition == s.arrowPosition && t.arrowInScene == s.arrowInScene
    ensures t.mouseMoveListening == s.mouseMoveListening
    ensures SameSizing(s, t) && SameMode(s, t)
  {
    s.(arrowYaw := yaw)
  }

  /** `onMouseUp`: stop following the pointer, hide the arrow, publish once if a
      topic is recorded, and forget the topic. The camera controller stays as it was. */
  function OnMouseUp(s: ViewState): (t: ViewState)
    ensures !t.mouseMoveListening && !t.arrowInScene && t.navTopic == None
    ensures t.controlsEnabled == s.controlsEnabled
    ensures t.transformControlsEnabled == s.transformControlsEnabled
    ensures t.arrowPosition == s.arrowPosition && t.arrowYaw == s.arrowYaw
    ensures SameSizing(s, t)
    ensures TopicRecorded(s.navTopic) ==>
      t.published == s.published + [PublishNavMsg(s.arrowPosition, s.arrowYaw, s.navTopic.value)]
    ensures !TopicRecorded(s.navTopic) ==> t.published == s.published
  {
    var log := if TopicRecorded(s.navTopic)
      then s.published + [PublishNavMsg(s.arrowPosition, s.arrowYaw, s.navTopic.value)]
      else s.published;
    s.(mouseMoveListening := false, arrowInScene := false, published := log, navTopic := None)
  }

  /** What reaches the component from its host. */
  datatype Event =
    | WindowResize(offset: Size)        // window 'resize'
    | MouseDown(cast: Option<Point>)   // mousedown on the viewport element
    | WindowMouseMove(yaw: real)       // window 'mousemove'
    | MouseUp                          // mouseup on the viewport element
    | Arm(topic: string)               // parent calls disableEditorControls
    | Disarm                           // parent calls enableEditorControls
    | Unmount                          // React removes the component

  /** Window events run their handler only while the listener is registered;
      element events and parent calls only while the component is mounted. */
  function Deliver(s: ViewState, e: Event): ViewState
  {
    match e
    case WindowResize(offset) => if s.resizeListening then OnWindowResize(s, offset) else s
    case WindowMouseMove(yaw) => if s.mouseMoveListening then OnMouseMove(s, yaw) else s
    case MouseDown(cast) => if s.mounted then OnMouseDown(s, cast) else s
    case MouseUp => if s.mounted then OnMouseUp(s) else s
    case Arm(topic) => if s.mounted then DisableEditorControls(s, topic) else s
    case Disarm => if s.mounted then EnableEditorControls(s) else s
    case Unmount => if s.mounted then ComponentWillUnmount(s) else s
  }

  /** The state after delivering `events` in order. */
  function Run(s: ViewState, events: seq<Event>): ViewState
    decreases |events|
  {
    if events == [] then s else Run(Deliver(s, events[0]), events[1..])
  }
}
