/**
 * Scene: the frame driver. Each frame measures the time since the last one, runs the update
 * passes unless the game is paused, then draws the scene once, or once per eye in stereo, and
 * counts the frame. Opening the menu pauses the game and releases the mouse.
 */
module Scene {
  import opened Math3D
  import opened Wrappers
  import Eye

  /** The passes a frame runs, in the order they run. */
  datatype Event =
    | RootUpdate | RootUpdate2 | EyeUpdate | EyeApplyAL
    | EyeApplyGL(viewOffset: Vec3, aspect: real) | RootDraw | RootDraw2
    | DrawStereoFrameBuffers

  /** The frame time in seconds from the elapsed nanoseconds; an elapsed time of 0 counts as 1 ns. */
  function FrameDelta(ns: int): (d: real)
    ensures ns >= 0 ==> d > 0.0
    ensures ns != 0 ==> d * 1000000000.0 == ns as real
    ensures ns == 0 ==> d == 0.000000001
  {
    (if ns == 0 then 1 else ns) as real / 1000000000.0
  }

  /** updateObjects: the root's two update passes, then the eye follows and the listener moves. */
  const UpdateEvents: seq<Event> := [RootUpdate, RootUpdate2, EyeUpdate, EyeApplyAL]

  /** drawObjects: the eye loads its matrices for its current view offset and aspect, then the root's two draw passes. */
  function DrawEvents(viewOffset: Vec3, aspect: real): seq<Event> {
    [EyeApplyGL(viewOffset, aspect), RootDraw, RootDraw2]
  }

  predicate IsDraw(e: Event) {
    e.EyeApplyGL? || e.RootDraw? || e.RootDraw2?
  }

  /** C++ integer division by 2, which truncates toward zero. */
  function Half(w: int): (h: int)
    ensures w >= 0 ==> h == w / 2
    ensures w < 0 ==> h == -((-w) / 2)
  {
    if w >= 0 then w / 2 else -((-w) / 2)
  }

  /** The size of each stereo render target: half the screen width and the full height, each at least 1. */
  function StereoSize(width: int, height: int): (size: (int, int))
    ensures size.0 >= 1 && size.1 >= 1
    ensures width >= 2 ==> size.0 == width / 2 && 2 * size.0 <= width < 2 * size.0 + 2
    ensures width < 2 ==> size.0 == 1
    ensures size.1 == if height >= 1 then height else 1
  {
    var w := Half(width);
    (if w < 1 then 1 else w, if height < 1 then 1 else height)
  }

  /**
   * The draws of a frame: alone, one draw with no view offset at the screen's aspect; in
   * stereo, the left eye half the eye distance to the left, the right eye as far to the right,
   * both at the render targets' aspect, then the composition of the two targets.
   */
  function FrameDraws(stereo: bool, eyeDistance: real, screenAspect: real, targetAspect: real): seq<Event> {
    if stereo then
      DrawEvents(Vec3(-eyeDistance / 2.0, 0.0, 0.0), targetAspect) + DrawEvents(Vec3(eyeDistance / 2.0, 0.0, 0.0), targetAspect)
      + [DrawStereoFrameBuffers]
    else DrawEvents(Zero3, screenAspect)
  }

  /** What a frame runs: the update passes unless paused, then the frame's draws. */
  predicate IsFrame(events: seq<Event>, paused: bool, draws: seq<Event>) {
    events == (if paused then [] else UpdateEvents) + draws
  }

  /** In every frame all updates come before every draw, and nothing updates while paused. */
  lemma FrameOrder(events: seq<Event>, paused: bool, stereo: bool, eyeDistance: real, screenAspect: real, targetAspect: real)
    requires IsFrame(events, paused, FrameDraws(stereo, eyeDistance, screenAspect, targetAspect))
    ensures RootUpdate in events <==> !paused
    ensures EyeUpdate in events <==> !paused
    ensures forall i, j :: 0 <= i < |events| && 0 <= j < |events| && events[i] in UpdateEvents && IsDraw(events[j]) ==> i < j
    ensures |events| == (if paused then 0 else 4) + (if stereo then 7 else 3)
    ensures RootDraw in events && (stereo <==> DrawStereoFrameBuffers in events)
  {
    var draws := FrameDraws(stereo, eyeDistance, screenAspect, targetAspect);
    assert forall e :: e in draws ==> e !in UpdateEvents;
    assert forall i :: 0 <= i < |UpdateEvents| ==> !IsDraw(UpdateEvents[i]);
    if paused {
      assert events == draws;
    } else {
      assert events == UpdateEvents + draws;
      assert forall i :: 0 <= i < |events| ==> (events[i] in UpdateEvents <==> i < 4);
    }
  }

  class Scene {
    var delta: real
    var paused: bool
    var mouseGrabbing: bool
    var menuVisible: bool
    var frameCountSecond: int
    var framesPerSecond: int
    var blinkingState: bool
    var stereo: bool
    var stereoEyeDistance: real
    /** The size of the two stereo render targets; both exist exactly when this is Some. */
    var renderers: Option<(int, int)>
    var width: int
    var height: int
    const eye: Eye.Eye

    ghost predicate Valid()
      reads this
    {
      (renderers.Some? <==> stereo) && (renderers.Some? ==> renderers.value.0 >= 1 && renderers.value.1 >= 1)
    }

    /**
     * A new scene: not paused, no frame counted, eye distance 0.1, the stereo setting read
     * from the settings with its targets sized for a 400×600 screen, the menu hidden and the
     * mouse grabbed; the eye's far plane is the configured one.
     */
    constructor (stereoSetting: bool, farPlane: real, width: int, height: int)
      ensures Valid() && fresh(eye)
      ensures !paused && frameCountSecond == 0 && framesPerSecond == 0 && stereoEyeDistance == 0.1
      ensures stereo == stereoSetting && renderers == (if stereoSetting then Some((200, 600)) else None)
      ensures !menuVisible && mouseGrabbing && !blinkingState
      ensures eye.farPlane == farPlane && eye.attached == None && eye.clippingPlanes == []
    {
      delta := 0.0;
      paused, frameCountSecond, framesPerSecond := false, 0, 0;
      stereo, stereoEyeDistance := stereoSetting, 0.1;
      renderers := if stereoSetting then Some(StereoSize(400, 600)) else None;
      var e := new Eye.Eye();
      e.farPlane := farPlane;
      eye := e;
      menuVisible, mouseGrabbing, blinkingState := false, true, false;
      this.width, this.height := width, height;
    }

    /** updateObjects: the update passes in order; the eye follows its node over this frame's time. */
    method UpdateObjects(delta: real, poseOf: nat -> Option<Eye.Pose>) returns (events: seq<Event>)
      requires delta != 0.0
      modifies eye`position, eye`rotation, eye`velocity, eye`lastPosition
      ensures events == UpdateEvents
      ensures var p := if eye.attached.Some? then poseOf(eye.attached.value) else None;
        (p.Some? ==> eye.position == p.value.position && eye.rotation == p.value.rotation)
        && (p.None? ==> eye.position == old(eye.position) && eye.rotation == old(eye.rotation))
      ensures Add(old(eye.lastPosition), Scale(eye.velocity, delta)) == eye.position && eye.lastPosition == eye.position
    {
      events := [RootUpdate, RootUpdate2];
      eye.Update(delta, poseOf);
      events := events + [EyeUpdate, EyeApplyAL];
    }

    /**
     * The logic of drawBackground: the frame time, the update passes unless paused, the eye set
     * to a 90° field of view with no perspective offset, and one draw at the screen's aspect
     * or, in stereo, one per eye shifted by half the eye distance to either side, at the
     * targets' aspect, then the composition. The frame is counted.
     */
    method DrawBackground(ns: int, poseOf: nat -> Option<Eye.Pose>) returns (events: seq<Event>)
      requires Valid() && ns >= 0 && height != 0
      modifies this`delta, this`frameCountSecond
      modifies eye`position, eye`rotation, eye`velocity, eye`lastPosition
      modifies eye`fov, eye`perspectiveOffset, eye`viewOffset, eye`aspect
      ensures delta == FrameDelta(ns) && frameCountSecond == old(frameCountSecond) + 1
      ensures IsFrame(events, paused, FrameDraws(stereo, stereoEyeDistance, width as real / height as real,
                                                if stereo then renderers.value.0 as real / renderers.value.1 as real else 0.0))
      ensures paused ==> eye.position == old(eye.position) && eye.velocity == old(eye.velocity)
      ensures eye.fov == 90.0 && eye.perspectiveOffset == Zero3
      ensures !stereo ==> eye.viewOffset == Zero3 && eye.aspect == width as real / height as real
      ensures stereo ==> (eye.viewOffset == Vec3(stereoEyeDistance / 2.0, 0.0, 0.0)
                          && eye.aspect == renderers.value.0 as real / renderers.value.1 as real)
    {
      delta := FrameDelta(ns);
      events := [];
      if !paused {
        events := UpdateObjects(delta, poseOf);
      }
      eye.fov := 90.0;
      eye.perspectiveOffset := Zero3;
      if stereo {
        var size := renderers.value;
        eye.viewOffset := Vec3(-stereoEyeDistance / 2.0, 0.0, 0.0);
        eye.aspect := size.0 as real / size.1 as real;
        events := events + DrawEvents(eye.viewOffset, eye.aspect);
        eye.viewOffset := Vec3(stereoEyeDistance / 2.0, 0.0, 0.0);
        eye.aspect := size.0 as real / size.1 as real;
        events := events + DrawEvents(eye.viewOffset, eye.aspect) + [DrawStereoFrameBuffers];
      } else {
        eye.viewOffset := Zero3;
        eye.aspect := width as real / height as real;
        events := events + DrawEvents(eye.viewOffset, eye.aspect);
      }
      frameCountSecond := frameCountSecond + 1;
    }

    /** secondPassed: the frames counted in the last second are published and the count restarts. */
    method SecondPassed()
      modifies this`framesPerSecond, this`frameCountSecond
      ensures framesPerSecond == old(frameCountSecond) && frameCountSecond == 0
    {
      framesPerSecond := frameCountSecond;
      frameCountSecond := 0;
    }

    /** halfSecondPassed: the HUD's blinking flips. */
    method HalfSecondPassed()
      modifies this`blinkingState
      ensures blinkingState == !old(blinkingState)
    {
      blinkingState := !blinkingState;
    }

    /** toggleMenu: the mouse grab flips; the menu shows, and the game pauses, exactly when the mouse is free. */
    method ToggleMenu()
      modifies this`mouseGrabbing, this`menuVisible, this`paused
      ensures mouseGrabbing == !old(mouseGrabbing)
      ensures menuVisible == !mouseGrabbing && paused == !mouseGrabbing
    {
      mouseGrabbing := !mouseGrabbing;
      menuVisible := !mouseGrabbing;
      paused := !mouseGrabbing;
    }

    /** resizeStereoFrameBuffers: the old targets go; in stereo two new ones of the stereo size replace them. */
    method ResizeStereoFrameBuffers(screenWidth: int, screenHeight: int)
      modifies this`renderers
      ensures Valid()
      ensures stereo ==> renderers == Some(StereoSize(screenWidth, screenHeight))
      ensures !stereo ==> renderers == None
    {
      renderers := None;
      if stereo {
        renderers := Some(StereoSize(screenWidth, screenHeight));
      }
    }

    /** setStereo: the flag is stored and the targets are rebuilt for the current screen size. */
    method SetStereo(enable: bool)
      modifies this`stereo, this`renderers
      ensures Valid() && stereo == enable
      ensures renderers == if enable then Some(StereoSize(width, height)) else None
    {
      stereo := enable;
      ResizeStereoFrameBuffers(width, height);
    }
  }
}
