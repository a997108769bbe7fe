/**
 * Construction of the navigation-goal message published when a goal drag ends:
 * the pose taken from the arrow and the choice between the stamped-pose shape
 * and the pose-with-covariance shape, made from the armed topic name.
 */
module NavMessage {
  import opened Options

  /** A point in world coordinates. */
  datatype Point = Point(x: real, y: real, z: real)

  /** The orientation quaternion built by a rotation of `angle` radians about the
      world Z axis. Its four components come from floating-point trigonometry,
      which the model does not compute: the value stands for them. */
  datatype Orientation = RotationAboutZ(angle: real)

  datatype Pose = Pose(position: Point, orientation: Orientation)

  datatype Header = Header(frameId: string)

  /** The two payload shapes handed to the publish collaborator. */
  datatype Payload =
    | PoseStamped(header: Header, pose: Pose)
    | PoseWithCovariance(pose: Pose, covariance: seq<real>)

  /** The message kinds that go with the two shapes. */
  datatype MessageType = MessageTypePoseStamped | MessageTypePoseCovariance

  /** One call of the publish collaborator: payload, topic name, message kind. */
  datatype Publication = Publication(payload: Payload, topicName: string, messageType: MessageType)

  /** The one topic name that selects the stamped-pose shape. */
  const MoveBaseSimpleGoal: string := "/move_base_simple/goal"

  /** The frame every stamped goal is expressed in. */
  const MapFrame: string := "map"

  /** Number of entries in a 6x6 row-major covariance matrix. */
  const CovarianceSize: nat := 36

  /** JavaScript truthiness of the recorded topic: `null`, `undefined` and the
      empty string are falsy, every other string is truthy. */
  predicate TopicRecorded(topic: Option<string>)
  {
    topic.Some? && topic.value != ""
  }

  /** The orientation sent for an arrow whose rotation about Z is `yaw`. */
  function OrientationOf(yaw: real): Orientation
  {
    RotationAboutZ(yaw)
  }

  /** The zero-filled covariance array. */
  function ZeroCovariance(): (c: seq<real>)
    ensures |c| == CovarianceSize
    ensures forall i :: 0 <= i < |c| ==> c[i] == 0.0
  {
    seq(CovarianceSize, _ => 0.0)
  }

  /** The call made to the publish collaborator for an arrow at `position` with
      rotation `yaw` about Z, armed with `topic`. */
  function PublishNavMsg(position: Point, yaw: real, topic: string): (m: Publication)
    ensures m.topicName == topic
    ensures m.payload.pose.position == position
    ensures m.payload.pose.orientation == OrientationOf(yaw)
    ensures m.payload.PoseStamped? <==> topic == MoveBaseSimpleGoal
    ensures m.payload.PoseStamped? <==> m.messageType == MessageTypePoseStamped
    ensures m.payload.PoseStamped? ==> m.payload.header.frameId == MapFrame
    ensures m.payload.PoseWithCovariance? ==>
      |m.payload.covariance| == CovarianceSize &&
      forall i :: 0 <= i < |m.payload.covariance| ==> m.payload.covariance[i] == 0.0
  {
    var pose := Pose(Point(position.x, position.y, position.z), OrientationOf(yaw));
    if topic == MoveBaseSimpleGoal then
      Publication(PoseStamped(Header(MapFrame), pose), topic, MessageTypePoseStamped)
    else
      Publication(PoseWithCovariance(pose, ZeroCovariance()), topic, MessageTypePoseCovariance)
  }

  /** The well-formedness a receiver may rely on: the kind matches the shape, the
      stamped shape is in the map frame, the covariance is 36 zeros. */
  predicate WellFormed(m: Publication)
  {
    && (m.payload.PoseStamped? <==> m.messageType == MessageTypePoseStamped)
    && (m.payload.PoseStamped? ==> m.payload.header.frameId == MapFrame)
    && (m.payload.PoseWithCovariance? ==> m.payload.covariance == ZeroCovariance())
  }

  /** Reading a published message back gives the arrow's pose and topic that built it,
      and every message built is well formed. */
  lemma PublishNavMsgRoundTrip(position: Point, yaw: real, topic: string)
    ensures var m := PublishNavMsg(position, yaw, topic);
      WellFormed(m) && m.payload.pose == Pose(position, RotationAboutZ(yaw)) && m.topicName == topic
  {
  }
}
