/**
 * The viewport component instance: the fields its handlers update in place.
 * Each handler is proved to take the instance from `old(State())` to the step
 * of `ViewportModel` that specifies it; the properties of those steps are in
 * `ViewportModel` and `ViewportProperties`.
 */
module ViewportComponent {
  import opened Options
  import opened Hysteresis
  import opened NavMessage
  import ViewportModel

  class Viewport {
    var previousWidth: nat
    var previousHeight: nat
    var renderSize: Size
    var cameraAspect: Option<Size>
    var resizeListening: bool
    var mounted: bool
    var controlsEnabled: bool
    var transformControlsEnabled: bool
    var currentNavTopicType: Option<string>
    var arrowInScene: bool
    var arrowPosition: Point
    var arrowYaw: real
    var mouseMoveListening: bool
    /** The calls made to the publish collaborator, oldest first. */
    ghost var published: seq<Publication>

    /** The instance's state as a value. */
    ghost function State(): ViewportModel.ViewState
      reads this
    {
      ViewportModel.ViewState(previousWidth, previousHeight, renderSize, cameraAspect,
        resizeListening, mounted, controlsEnabled, transformControlsEnabled,
        currentNavTopicType, arrowInScene, arrowPosition, arrowYaw, mouseMoveListening, published)
    }

    /** The constructor followed by `componentDidMount` with the container at
        `offset`; the arrow primitive starts at `position` with heading `yaw`. */
    constructor (offset: Size, position: Point, yaw: real)
      ensures State() == ViewportModel.Initial(offset, position, yaw)
      ensures controlsEnabled && transformControlsEnabled && currentNavTopicType == None
      ensures !arrowInScene && !mouseMoveListening && resizeListening && published == []
    {
      previousWidth, previousHeight := 0, 0;
      cameraAspect := None;
      transformControlsEnabled := true;
      currentNavTopicType := None;
      arrowInScene, mouseMoveListening := false, false;
      arrowPosition, arrowYaw := position, yaw;
      published := [];
      new;
      renderSize := offset;
      controlsEnabled := true;
      resizeListening, mounted := true, true;
      OnWindowResize(offset);
    }

    method OnWindowResize(offset: Size)
      modifies this
      ensures State() == ViewportModel.OnWindowResize(old(State()), offset)
      ensures !ExceedsThreshold(old(previousWidth), old(previousHeight), offset) ==> unchanged(this)
    {
      if Abs(offset.width - previousWidth) > Threshold || Abs(offset.height - previousHeight) > Threshold {
        cameraAspect := Some(offset);
        renderSize := offset;
        previousWidth := offset.width;
        previousHeight := offset.height;
      }
    }

    method ComponentWillUnmount()
      modifies this
      ensures State() == ViewportModel.ComponentWillUnmount(old(State()))
    {
      resizeListening := false;
      mounted := false;
    }

    method DisableEditorControls(topicName: string)
      modifies this
      ensures State() == ViewportModel.DisableEditorControls(old(State()), topicName)
    {
      controlsEnabled := false;
      currentNavTopicType := Some(topicName);
    }

    method EnableEditorControls()
      modifies this
      ensures State() == ViewportModel.EnableEditorControls(old(State()))
    {
      controlsEnabled := true;
    }

    /** `cast` is what the ground-plane ray cast returned for this pointer position. */
    method OnMouseDown(cast: Option<Point>)
      modifies this
      ensures State() == ViewportModel.OnMouseDown(old(State()), cast)
      ensures old(controlsEnabled || transformControlsEnabled) ==> unchanged(this)
    {
      if controlsEnabled || transformControlsEnabled {
        return;
      }
      if cast.Some? {
        arrowPosition := Point(cast.value.x, cast.value.y, 0.0);
        arrowInScene := true;
        mouseMoveListening := true;
      }
    }

    /** `yaw` is the heading the arrow has after turning towards the pointer. */
    method OnMouseMove(yaw: real)
      modifies this
      ensures State() == ViewportModel.OnMouseMove(old(State()), yaw)
    {
      arrowYaw := yaw;
    }

    /** `publishNavMsg`: one call of the publish collaborator with the message
        built from the arrow's pose and the recorded topic. */
    method PublishNavMsg()
      requires TopicRecorded(currentNavTopicType)
      modifies this
      ensures State() == old(State()).(published := old(published) +
        [NavMessage.PublishNavMsg(old(arrowPosition), old(arrowYaw), old(currentNavTopicType).value)])
    {
      published := published + [NavMessage.PublishNavMsg(arrowPosition, arrowYaw, currentNavTopicType.value)];
    }

    method OnMouseUp()
      modifies this
      ensures State() == ViewportModel.OnMouseUp(old(State()))
      ensures controlsEnabled == old(controlsEnabled)
    {
      mouseMoveListening := false;
      arrowInScene := false;
      if currentNavTopicType.Some? && currentNavTopicType.value != "" {
        PublishNavMsg();
      }
      currentNavTopicType := None;
    }
  }
}
