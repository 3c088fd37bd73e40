/**
 * The camera/overlay interaction controller of script.js: the module-level
 * state (`zooming`, `zoomed`, the saved camera pose, the rotation angles,
 * the clickable screens, the overlay video's source and click handler) as
 * the fields of one object, and the page's event handlers as its methods.
 *
 * `requestAnimationFrame(step)` is modelled by the `pending` field: the one
 * flight step that is scheduled, advanced by `Tick(now)`. The hit test of
 * three.js is an input: the set of meshes the ray through the pointer meets.
 */
module Viewer {
  import opened Wrappers
  import opened Easing
  import opened Orientation
  import opened Screens
  import opened Camera

  /** The ambient video the overlay loops while no screen is open (`VIDEO_URL`). */
  const IdleVideo: string := "SOLOERROR.webm"

  /** The four states encoded by the two flags `zooming` and `zoomed`. */
  datatype Mode = Idle | ZoomingIn | Zoomed | ZoomingOut

  /** A scheduled `step` closure, with what it captured when its flight began. */
  datatype Step =
    | ZoomInStep(finalPose: Pose, start: real, videoSrc: string)
    | ZoomOutStep(startPose: Pose, endPose: Pose, start: real)
  {
    /** `duration` of the flight, in milliseconds. */
    function Duration(): (d: real)
      ensures d > 0.0
      ensures ZoomInStep? ==> d == 1000.0
      ensures ZoomOutStep? ==> d == 800.0
    {
      if ZoomInStep? then ZoomInDuration else ZoomOutDuration
    }

    /** The pose the flight lands on. */
    function Target(): Pose {
      if ZoomInStep? then finalPose else endPose
    }
  }

  class Controller {
    /** `videoEl` was found in the page. */
    const hasVideo: bool
    /** `modelRoot` is set: the model has loaded. */
    var modelLoaded: bool
    /** `clickableScreens`. */
    var clickable: seq<Object3D>
    var zooming: bool
    var zoomed: bool
    /** The camera's position and orientation. */
    var camera: Pose
    /** `initialCamPos` and `initialCamQuat`: the pose a fly-in started from. */
    var initialPose: Pose
    /** The flight step `requestAnimationFrame` will run next, if any. */
    var pending: Option<Step>
    var targetRotationY: real
    var currentRotationY: real
    /** `modelRoot.rotation.y`. */
    var modelRotationY: real
    /** `modelRoot.scale` (the same on all three axes). */
    var modelScale: real
    /** `videoEl.src`. */
    var videoSrc: string
    /** `videoEl.onclick` is `handleVideoClickBack`. */
    var videoOnClick: bool

    function Mode(): Mode
      reads this
    {
      if !zooming && !zoomed then Idle
      else if zooming && !zoomed then ZoomingIn
      else if !zooming then Zoomed
      else ZoomingOut
    }

    /** The controller's invariant: the flags, the scheduled step and the overlay agree. */
    ghost predicate Valid()
      reads this
    {
      // exactly while a flag says a flight is under way, one step is scheduled
      && (zooming <==> pending.Some?)
      && (pending.Some? ==> (pending.value.ZoomInStep? <==> !zoomed))
      // a fly-back heads for the pose saved when the fly-in began
      && (pending.Some? && pending.value.ZoomOutStep? ==> pending.value.endPose == initialPose)
      // the overlay's return handler is installed exactly while a screen is open
      && (videoOnClick <==> hasVideo && zoomed && !zooming)
      && (zooming || zoomed ==> modelLoaded)
      && (forall o :: o in clickable ==> IsScreen(o))
      && (hasVideo && !zoomed ==> videoSrc == IdleVideo)
    }

    /** Both rotation angles lie within `MAX_ROT` either way. */
    predicate RotationInRange()
      reads this
    {
      InRange(targetRotationY) && InRange(currentRotationY)
    }

    /** Nothing but the flight state changed: the scene and the idle rotation are left alone. */
    twostate predicate SceneUnchanged()
      reads this
    {
      && modelLoaded == old(modelLoaded)
      && clickable == old(clickable)
      && targetRotationY == old(targetRotationY)
      && currentRotationY == old(currentRotationY)
      && modelRotationY == old(modelRotationY)
      && modelScale == old(modelScale)
    }

    /** A fly-in towards `screen`, playing `src` on arrival, began at time `now`. */
    twostate predicate ZoomInStarted(screen: Object3D, src: string, now: real)
      reads this
    {
      && Mode() == ZoomingIn
      && initialPose == old(camera)
      && pending == Some(ZoomInStep(Facing(screen, modelRotationY, modelScale, old(camera)), now, src))
      && camera == old(camera)
      && videoSrc == old(videoSrc)
      && videoOnClick == old(videoOnClick)
      && SceneUnchanged()
    }

    /** Page start-up (`initVideo`, `initThree`): idle, no model, the ambient video. */
    constructor (hasVideo: bool, startPose: Pose)
      ensures Valid() && Mode() == Idle && RotationInRange()
      ensures this.hasVideo == hasVideo && !modelLoaded && clickable == []
      ensures camera == startPose && initialPose == Origin && pending == None
      ensures targetRotationY == 0.0 && currentRotationY == 0.0 && modelRotationY == 0.0
      ensures modelScale == 1.0
      ensures videoSrc == (if hasVideo then IdleVideo else "") && !videoOnClick
    {
      this.hasVideo := hasVideo;
      modelLoaded := false;
      clickable := [];
      zooming, zoomed := false, false;
      camera := startPose;
      initialPose := Origin;
      pending := None;
      targetRotationY, currentRotationY, modelRotationY := 0.0, 0.0, 0.0;
      modelScale := 1.0;
      videoSrc := if hasVideo then IdleVideo else "";
      videoOnClick := false;
    }

    /** `applyResponsiveScale`, also run on every window resize. */
    method ApplyResponsiveScale(viewportWidth: real)
      requires Valid()
      modifies this`modelScale
      ensures Valid()
      ensures modelScale == if modelLoaded then ResponsiveScale(viewportWidth) else old(modelScale)
    {
      if !modelLoaded {
        return;
      }
      modelScale := ResponsiveScale(viewportWidth);
    }

    /**
     * The success callback of the model loader: the model is in, scaled for
     * the viewport, its screens registered by the traversal, and the camera
     * placed at `loadedPose` (the loaded camera or a framing of the model).
     */
    method LoadModel(nodes: seq<Object3D>, viewportWidth: real, loadedPose: Pose)
      requires Valid() && !modelLoaded
      modifies this
      ensures Valid() && modelLoaded && Mode() == Idle
      ensures clickable == old(clickable) + ScreensOf(nodes)
      ensures modelScale == ResponsiveScale(viewportWidth)
      ensures camera == loadedPose
      ensures initialPose == old(initialPose) && pending == old(pending)
      ensures targetRotationY == old(targetRotationY) && currentRotationY == old(currentRotationY)
      ensures modelRotationY == old(modelRotationY)
      ensures videoSrc == old(videoSrc) && videoOnClick == old(videoOnClick)
    {
      modelLoaded := true;
      ApplyResponsiveScale(viewportWidth);
      RegisterScreens(nodes);
      camera := loadedPose;
    }

    /** The traversal of the loaded model: `clickableScreens.push` for every screen mesh met. */
    method RegisterScreens(nodes: seq<Object3D>)
      requires forall o :: o in clickable ==> IsScreen(o)
      modifies this`clickable
      ensures clickable == old(clickable) + ScreensOf(nodes)
      ensures forall o :: o in clickable ==> IsScreen(o)
    {
      var i := 0;
      while i < |nodes|
        invariant 0 <= i <= |nodes|
        invariant clickable == old(clickable) + ScreensOf(nodes[..i])
      {
        ScreensOfPrefix(nodes, i);
        if IsScreen(nodes[i]) {
          clickable := clickable + [nodes[i]];
        }
        i := i + 1;
      }
      assert nodes[..i] == nodes;
    }

    /** `onMouseMove`: aim the idle rotation at the pointer, unless a zoom is on. */
    method OnMouseMove(clientX: real, innerWidth: real)
      requires Valid() && innerWidth > 0.0
      modifies this`targetRotationY
      ensures Valid()
      ensures targetRotationY
              == if Mode() == Idle then TargetRotation(clientX, innerWidth) else old(targetRotationY)
      ensures old(RotationInRange()) && 0.0 <= clientX <= innerWidth ==> RotationInRange()
    {
      if zooming || zoomed {
        return;
      }
      targetRotationY := TargetRotation(clientX, innerWidth);
    }

    /** The rotation part of `animate`, run every frame: ease the model towards its target angle. */
    method AnimateFrame()
      requires Valid()
      modifies this`currentRotationY, this`modelRotationY
      ensures Valid()
      ensures modelLoaded && Mode() == Idle ==>
                currentRotationY == Smooth(old(currentRotationY), targetRotationY)
                && modelRotationY == currentRotationY
      ensures !(modelLoaded && Mode() == Idle) ==>
                currentRotationY == old(currentRotationY) && modelRotationY == old(modelRotationY)
      ensures old(RotationInRange()) ==> RotationInRange()
    {
      if modelLoaded && !zooming && !zoomed {
        currentRotationY := Smooth(currentRotationY, targetRotationY);
        modelRotationY := currentRotationY;
      }
    }

    /** `raycastTV`: the screen called `tvName` if it is under the pointer and a click may start a zoom. */
    function RaycastTV(tvName: string, hits: set<Object3D>): (r: Option<Object3D>)
      reads this
      ensures r.Some? <==> modelLoaded && Mode() == Idle && HitNamed(clickable, hits, tvName)
      ensures r.Some? ==> r.value in clickable && r.value in hits && r.value.name == tvName
    {
      if !modelLoaded || zooming || zoomed then None
      else
        match FindByName(clickable, tvName)
        case None => None
        case Some(m) => if m in hits then Some(m) else None
    }

    /** `zoomToTVBase`: save the camera pose and start the fly-in towards `screen`. */
    method ZoomToTVBase(screen: Object3D, src: string, now: real)
      requires Valid() && modelLoaded && Mode() == Idle
      modifies this
      ensures Valid()
      ensures ZoomInStarted(screen, src, now)
    {
      zooming := true;
      initialPose := camera;
      var finalPose := Facing(screen, modelRotationY, modelScale, camera);
      pending := Some(ZoomInStep(finalPose, now, src));
    }

    /** `onClickTV01` .. `onClickTV08` with `zoomToTV01` .. `zoomToTV08`: handler `k` of a pointer-down. */
    method OnClickTV(k: TargetIndex, hits: set<Object3D>, now: real)
      requires Valid()
      modifies this
      ensures Valid()
      ensures !old(modelLoaded && Mode() == Idle && Hit(clickable, hits, k)) ==> unchanged(this)
      ensures old(modelLoaded && Mode() == Idle && Hit(clickable, hits, k)) ==>
                ZoomInStarted(old(FindByName(clickable, TargetName(k))).value, VideoFor(k), now)
    {
      var tv := RaycastTV(TargetName(k), hits);
      if tv.None? {
        return;
      }
      ZoomToTVBase(tv.value, VideoFor(k), now);
    }

    /** The handler whose zoom a pointer-down over `hits` starts, if any. */
    function Winner(hits: set<Object3D>): (w: Option<TargetIndex>)
      reads this
      ensures w.Some? ==> modelLoaded && Mode() == Idle && Hit(clickable, hits, w.value)
      ensures w.Some? ==> forall j :: 1 <= j < w.value ==> !HitAt(clickable, hits, j)
      ensures w.None? && modelLoaded && Mode() == Idle ==> forall j :: 1 <= j ==> !HitAt(clickable, hits, j)
    {
      if modelLoaded && Mode() == Idle then FirstHit(clickable, hits, 1) else None
    }

    /**
     * A pointer-down on the canvas: the eight handlers run in the order they
     * were registered. At most one zoom starts, that of the lowest-numbered
     * handler whose screen is hit; once it has started, the others find the
     * flags set and do nothing.
     */
    method PointerDown(hits: set<Object3D>, now: real)
      requires Valid()
      modifies this
      ensures Valid()
      ensures old(Winner(hits)).None? ==> unchanged(this)
      ensures old(Winner(hits)).Some? ==>
                var k := old(Winner(hits)).value;
                ZoomInStarted(old(FindByName(clickable, TargetName(k))).value, VideoFor(k), now)
    {
      ghost var w := Winner(hits);
      ghost var screen := if w.Some? then FindByName(clickable, TargetName(w.value)).value else Object3D(0, "", false);
      ghost var src := if w.Some? then VideoFor(w.value) else "";
      var k: int := 1;
      while k <= 8
        invariant 1 <= k <= 9
        invariant Valid()
        invariant w.Some? && w.value < k ==> ZoomInStarted(screen, src, now)
        invariant !(w.Some? && w.value < k) ==> unchanged(this)
        invariant !(w.Some? && w.value < k) && modelLoaded && Mode() == Idle ==>
                    w == FirstHit(clickable, hits, k)
      {
        OnClickTV(k, hits, now);
        k := k + 1;
      }
    }

    /** Where the scheduled flight `s` starts from: the fly-in reads the saved pose on every frame. */
    function FlightStart(s: Step): Pose
      reads this
    {
      if s.ZoomInStep? then initialPose else s.startPose
    }

    /**
     * One animation frame at time `now` for the scheduled flight step: move
     * the camera along the eased path; before the duration has elapsed, stay
     * scheduled; once it has, run the flight's completion and unschedule.
     */
    method Tick(now: real)
      requires Valid()
      modifies this
      ensures Valid()
      ensures old(pending).None? ==> unchanged(this)
      ensures initialPose == old(initialPose) && SceneUnchanged()
      ensures old(pending).Some? ==>
                var s := old(pending).value;
                camera == Interp(old(FlightStart(s)), s.Target(), Ease(Fraction(now, s.start, s.Duration())))
      // before the end: rescheduled, nothing else happens
      ensures old(pending).Some? && now - old(pending).value.start < old(pending).value.Duration() ==>
                pending == old(pending) && zooming == old(zooming) && zoomed == old(zoomed)
                && videoSrc == old(videoSrc) && videoOnClick == old(videoOnClick)
      // at the end: the camera is exactly on the target and the step is gone
      ensures old(pending).Some? && now - old(pending).value.start >= old(pending).value.Duration() ==>
                pending.None? && camera == old(pending).value.Target()
      // fly-in completion: the screen is open and its video and return handler installed
      ensures old(pending).Some? && old(pending).value.ZoomInStep?
              && now - old(pending).value.start >= ZoomInDuration ==>
                Mode() == Zoomed && videoOnClick == hasVideo
                && videoSrc == (if hasVideo then old(pending).value.videoSrc else old(videoSrc))
      // fly-back completion: idle again, at the pose saved by the fly-in
      ensures old(pending).Some? && old(pending).value.ZoomOutStep?
              && now - old(pending).value.start >= ZoomOutDuration ==>
                Mode() == Idle && camera == old(initialPose) && !videoOnClick
                && videoSrc == (if hasVideo then IdleVideo else old(videoSrc))
    {
      match pending
      case None =>
      case Some(s) =>
        var t := Fraction(now, s.start, s.Duration());
        var ease := Ease(t);
        camera := Interp(FlightStart(s), s.Target(), ease);
        if t < 1.0 {
          // requestAnimationFrame(step): the same step stays scheduled
        } else {
          pending := None;
          if s.ZoomInStep? {
            zooming, zoomed := false, true;
            if hasVideo {
              videoSrc := s.videoSrc;
              videoOnClick := true;
            }
          } else {
            zooming, zoomed := false, false;
            ResetVideoOverlayLayout();
          }
        }
    }

    /** `resetVideoOverlayLayout`: the overlay goes back to the ambient video. */
    method ResetVideoOverlayLayout()
      modifies this`videoSrc
      ensures videoSrc == if hasVideo then IdleVideo else old(videoSrc)
    {
      if !hasVideo {
        return;
      }
      videoSrc := IdleVideo;
    }

    /** `handleVideoClickBack`: leave the open screen and fly back to the saved pose. */
    method HandleVideoClickBack(now: real)
      requires Valid()
      modifies this
      ensures Valid()
      ensures !old(zoomed && !zooming && hasVideo) ==> unchanged(this)
      ensures old(zoomed && !zooming && hasVideo) ==>
                && Mode() == ZoomingOut
                && pending == Some(ZoomOutStep(old(camera), old(initialPose), now))
                && !videoOnClick
                && camera == old(camera) && initialPose == old(initialPose)
                && videoSrc == old(videoSrc) && SceneUnchanged()
    {
      if !zoomed || zooming {
        return;
      }
      if !hasVideo {
        return;
      }
      zooming := true;
      var startPose := camera;
      var endPose := initialPose;
      videoOnClick := false;
      pending := Some(ZoomOutStep(startPose, endPose, now));
    }

    /**
     * A click on the overlay video: it reaches `handleVideoClickBack` only
     * while that handler is installed, which is exactly while a screen is open.
     */
    method ClickVideo(now: real)
      requires Valid()
      modifies this
      ensures Valid()
      ensures old(Mode()) != Zoomed || !hasVideo ==> unchanged(this)
      ensures old(Mode()) == Zoomed && hasVideo ==>
                && Mode() == ZoomingOut
                && pending == Some(ZoomOutStep(old(camera), old(initialPose), now))
                && camera == old(camera) && initialPose == old(initialPose)
                && videoSrc == old(videoSrc) && SceneUnchanged()
    {
      if videoOnClick {
        HandleVideoClickBack(now);
      }
    }
  }

  /**
   * A whole zoom cycle on screen 3: the page starts at `startPose`, the model
   * loads with that camera, a click at `clickAt` hits screen 3, the fly-in's
   * last frame comes `inDelay` later, the overlay is clicked `openFor` after
   * that and the fly-back's last frame comes `outDelay` after the click.
   */
  method ZoomCycle(startPose: Pose, screen: Object3D, clickAt: real,
                   inDelay: real, openFor: real, outDelay: real)
    returns (openPose: Pose, openVideo: string, finalPose: Pose, finalMode: Mode, finalVideo: string)
    requires screen.isMesh && screen.name == TargetName(3)
    requires inDelay >= ZoomInDuration && outDelay >= ZoomOutDuration
    ensures openPose == Facing(screen, 0.0, ResponsiveScale(1280.0), startPose) && openVideo == "JUPITER.webm"
    ensures finalPose == startPose && finalMode == Idle && finalVideo == IdleVideo
  {
    var c := new Controller(true, startPose);
    LoneScreenRegistered(screen);
    c.LoadModel([screen], 1280.0, startPose);
    LoneScreenWins(screen);
    assert c.Winner({screen}) == Some(3);
    c.PointerDown({screen}, clickAt);
    assert c.pending == Some(ZoomInStep(Facing(screen, 0.0, ResponsiveScale(1280.0), startPose), clickAt, VideoFor(3)));
    assert c.initialPose == startPose;
    c.Tick(clickAt + inDelay);
    openPose, openVideo := c.camera, c.videoSrc;
    assert c.Mode() == Zoomed && c.initialPose == startPose;
    var clickBack := clickAt + inDelay + openFor;
    c.ClickVideo(clickBack);
    assert c.pending == Some(ZoomOutStep(openPose, startPose, clickBack));
    c.Tick(clickBack + outDelay);
    finalPose, finalMode, finalVideo := c.camera, c.Mode(), c.videoSrc;
  }

  /** A model whose only node is screen 3's mesh registers exactly that mesh. */
  lemma LoneScreenRegistered(screen: Object3D)
    requires screen.isMesh && screen.name == TargetName(3)
    ensures ScreensOf([screen]) == [screen]
  {
    TargetNameIsScreenName(3);
    assert [screen][..0] == [];
  }

  /** With screen 3 the only screen and under the pointer, handler 3 wins. */
  lemma LoneScreenWins(screen: Object3D)
    requires screen.name == TargetName(3)
    ensures FirstHit([screen], {screen}, 1) == Some(3)
  {
    TargetNamesDistinct(1, 3);
    TargetNamesDistinct(2, 3);
    assert !Hit([screen], {screen}, 1);
    assert !Hit([screen], {screen}, 2);
    assert Hit([screen], {screen}, 3);
  }
}
