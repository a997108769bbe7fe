/**
 * What the viewport's handlers guarantee over any sequence of host events.
 */
module ViewportProperties {
  import opened Options
  import opened Hysteresis
  import opened NavMessage
  import opened ViewportModel

  /** Number of mouse-up events in `events`. */
  function MouseUps(events: seq<Event>): (n: nat)
    ensures n == multiset(events)[MouseUp]
  {
    if events == [] then 0
    else
      assert events == [events[0]] + events[1..];
      (if events[0].MouseUp? then 1 else 0) + MouseUps(events[1..])
  }

  /** No event in `events` arms a goal drag. */
  predicate NoArm(events: seq<Event>)
  {
    forall i :: 0 <= i < |events| ==> !events[i].Arm?
  }

  /** The move listener is registered exactly while the arrow is in the scene. */
  predicate DragConsistent(s: ViewState)
  {
    s.mouseMoveListening == s.arrowInScene
  }

  /** The publish log only grows, and by at most one entry per mouse-up;
      every entry is a well-formed message for a non-empty topic. */
  lemma {:induction false} PublishLogAppendOnly(s: ViewState, events: seq<Event>)
    ensures var t := Run(s, events);
      && |s.published| <= |t.published| <= |s.published| + MouseUps(events)
      && t.published[..|s.published|] == s.published
      && forall i :: |s.published| <= i < |t.published| ==>
           WellFormed(t.published[i]) && t.published[i].topicName != ""
    decreases |events|
  {
    if events != [] {
      var s' := Deliver(s, events[0]);
      PublishLogAppendOnly(s', events[1..]);
      var t := Run(s', events[1..]);
      assert t == Run(s, events);
      if s'.published != s.published {
        assert events[0].MouseUp? && TopicRecorded(s.navTopic);
        PublishNavMsgRoundTrip(s.arrowPosition, s.arrowYaw, s.navTopic.value);
        assert s'.published == s.published + [s'.published[|s.published|]];
      }
      assert t.published[..|s'.published|][..|s.published|] == t.published[..|s.published|];
    }
  }

  /** Every handler keeps the move listener and the arrow's visibility in step:
      the listener never outlives the drag it belongs to. */
  lemma {:induction false} DragConsistentPreserved(s: ViewState, events: seq<Event>)
    requires DragConsistent(s)
    ensures DragConsistent(Run(s, events))
    decreases |events|
  {
    if events != [] {
      DragConsistentPreserved(Deliver(s, events[0]), events[1..]);
    }
  }

  /** While `transformControlsEnabled` is set, and no drag is under way, no sequence
      of events starts one: the arrow stays hidden and where it was. */
  lemma {:induction false} TransformControlsBlockDrag(s: ViewState, events: seq<Event>)
    requires s.transformControlsEnabled && !s.arrowInScene && !s.mouseMoveListening
    ensures var t := Run(s, events);
      && t.transformControlsEnabled && !t.arrowInScene && !t.mouseMoveListening
      && t.arrowPosition == s.arrowPosition && t.arrowYaw == s.arrowYaw
    decreases |events|
  {
    if events != [] {
      TransformControlsBlockDrag(Deliver(s, events[0]), events[1..]);
    }
  }

  /** Since nothing in the component clears `transformControlsEnabled`, its own
      events never show the arrow, move it or turn it. */
  lemma ArrowNeverShownFromMount(offset: Size, position: Point, yaw: real, events: seq<Event>)
    ensures var t := Run(Initial(offset, position, yaw), events);
      !t.arrowInScene && t.arrowPosition == position && t.arrowYaw == yaw
  {
    TransformControlsBlockDrag(Initial(offset, position, yaw), events);
  }

  /** A mouse-up publishes even when no drag was started, with the arrow's
      current pose. */
  lemma MouseUpWithoutDragPublishes(offset: Size, position: Point, yaw: real, topic: string)
    requires topic != ""
    ensures Run(Initial(offset, position, yaw), [Arm(topic), MouseUp]).published ==
      [PublishNavMsg(position, yaw, topic)]
  {
    var s0 := Initial(offset, position, yaw);
    assert Run(s0, [Arm(topic), MouseUp]) == Run(Deliver(s0, Arm(topic)), [MouseUp]);
  }

  /** Disarming gives the pointer back to the camera but keeps the armed topic,
      so the next mouse-up on the viewport (the end of a camera drag, say) still
      publishes a goal at the arrow's current pose. */
  lemma DisarmDoesNotCancelPublish(offset: Size, position: Point, yaw: real, topic: string)
    requires topic != ""
    ensures Run(Initial(offset, position, yaw), [Arm(topic), Disarm, MouseUp]).published ==
      [PublishNavMsg(position, yaw, topic)]
  {
    var s0 := Initial(offset, position, yaw);
    var s1 := Deliver(s0, Arm(topic));
    var s2 := Deliver(s1, Disarm);
    var s3 := Deliver(s2, MouseUp);
    var events := [Arm(topic), Disarm, MouseUp];
    assert events[1..] == [Disarm, MouseUp];
    assert events[1..][1..] == [MouseUp];
    assert Run(s2, [MouseUp]) == s3 by { assert [MouseUp][1..] == []; }
    assert Run(s0, events) == Run(s1, events[1..]) == Run(s2, events[1..][1..]);
  }

  /** Without a fresh arm, nothing is published once the topic is cleared:
      a second mouse-up, or any further drag, publishes nothing. */
  lemma {:induction false} NoPublishWithoutArm(s: ViewState, events: seq<Event>)
    requires !TopicRecorded(s.navTopic)
    requires NoArm(events)
    ensures Run(s, events).published == s.published
    decreases |events|
  {
    if events != [] {
      assert !events[0].Arm?;
      NoPublishWithoutArm(Deliver(s, events[0]), events[1..]);
    }
  }

  /** Two mouse-ups in a row publish at most once. */
  lemma SecondMouseUpPublishesNothing(s: ViewState)
    ensures OnMouseUp(OnMouseUp(s)).published == OnMouseUp(s).published
    ensures |OnMouseUp(s).published| <= |s.published| + 1
  {
  }

  /** The full goal drag: arm, press on a point of the ground plane, turn the
      arrow, release. Exactly one message is published, at the pressed point with
      z pinned to 0, with the last heading and the armed topic; the camera
      controller is left disabled. */
  lemma GoalDragRoundTrip(s: ViewState, topic: string, p: Point, yaw: real)
    requires s.mounted && !s.transformControlsEnabled && topic != ""
    ensures var t := Run(s, [Arm(topic), MouseDown(Some(p)), WindowMouseMove(yaw), MouseUp]);
      && t.published == s.published + [PublishNavMsg(Point(p.x, p.y, 0.0), yaw, topic)]
      && !t.controlsEnabled && !t.arrowInScene && !t.mouseMoveListening && t.navTopic == None
  {
    var s1 := Deliver(s, Arm(topic));
    var s2 := Deliver(s1, MouseDown(Some(p)));
    var s3 := Deliver(s2, WindowMouseMove(yaw));
    var s4 := Deliver(s3, MouseUp);
    assert s2.mouseMoveListening && s2.arrowPosition == Point(p.x, p.y, 0.0);
    var events := [Arm(topic), MouseDown(Some(p)), WindowMouseMove(yaw), MouseUp];
    assert events[1..] == [MouseDown(Some(p)), WindowMouseMove(yaw), MouseUp];
    assert events[1..][1..] == [WindowMouseMove(yaw), MouseUp];
    assert events[1..][1..][1..] == [MouseUp];
    assert Run(s3, [MouseUp]) == s4 by { assert [MouseUp][1..] == []; }
    assert Run(s, events) == Run(s1, events[1..]) == Run(s2, events[1..][1..]);
  }

  /** After teardown no event changes the state, except that a drag in progress
      keeps its `mousemove` listener, which still turns the detached arrow. */
  lemma {:induction false} AfterUnmountOnlyHeadingChanges(s: ViewState, events: seq<Event>)
    requires !s.mounted && !s.resizeListening
    ensures var t := Run(s, events); t == s.(arrowYaw := t.arrowYaw)
    ensures !s.mouseMoveListening ==> Run(s, events) == s
    decreases |events|
  {
    if events != [] {
      AfterUnmountOnlyHeadingChanges(Deliver(s, events[0]), events[1..]);
    }
  }

  /** The last applied size is the one the run started from or one of the
      sizes the window reported during the run. */
  lemma {:induction false} AppliedSizeWasReported(s: ViewState, events: seq<Event>)
    ensures var t := Run(s, events);
      (t.previousWidth == s.previousWidth && t.previousHeight == s.previousHeight) ||
      exists i :: 0 <= i < |events| && events[i].WindowResize? &&
        events[i].offset == Size(t.previousWidth, t.previousHeight)
    decreases |events|
  {
    if events != [] {
      var s' := Deliver(s, events[0]);
      AppliedSizeWasReported(s', events[1..]);
      var t := Run(s', events[1..]);
      if t.previousWidth == s'.previousWidth && t.previousHeight == s'.previousHeight {
        if !(s'.previousWidth == s.previousWidth && s'.previousHeight == s.previousHeight) {
          assert events[0].WindowResize? && events[0].offset == Size(t.previousWidth, t.previousHeight);
        }
      } else {
        var i :| 0 <= i < |events[1..]| && events[1..][i].WindowResize? &&
          events[1..][i].offset == Size(t.previousWidth, t.previousHeight);
        assert events[i + 1] == events[1..][i];
      }
    }
  }

  /** While the resize listener is registered, the applied size trails the
      latest container size by at most the threshold in each dimension, and
      once a size has been applied the renderer and camera match it. */
  lemma {:induction false} ResizesTrackContainer(s: ViewState, sizes: seq<Size>, events: seq<Event>)
    requires s.resizeListening && |sizes| > 0
    requires |events| == |sizes|
    requires forall i :: 0 <= i < |events| ==> events[i] == WindowResize(sizes[i])
    ensures var t := Run(s, events);
      && Abs(sizes[|sizes| - 1].width - t.previousWidth) <= Threshold
      && Abs(sizes[|sizes| - 1].height - t.previousHeight) <= Threshold
      && (SizeApplied(s) ==> SizeApplied(t))
      && (t.previousWidth != s.previousWidth || t.previousHeight != s.previousHeight ==> SizeApplied(t))
    decreases |events|
  {
    var s' := Deliver(s, events[0]);
    if |events| == 1 {
      assert Run(s, events) == Run(s', []) == s';
    } else {
      ResizesTrackContainer(s', sizes[1..], events[1..]);
      assert Run(s, events) == Run(s', events[1..]);
    }
  }
}
