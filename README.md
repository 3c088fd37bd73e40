# Camera/overlay interaction controller of the 3D showcase page

This Dafny project models the interaction core of `script.js`. That script
is a page that shows a 3D model of a table of television sets. The model
turns gently towards the mouse. Clicking one of the eight screens
(`TV_01_SCREEN-Mat` … `TV_08_SCREEN-Mat`) flies the camera to that screen
and plays the screen's video full-screen. Clicking the video flies the
camera back to where it started.

The core is a four-state machine kept in two flags, `zooming` and `zoomed`:

| `zooming` | `zoomed` | state |
|---|---|---|
| false | false | idle |
| true | false | zooming in |
| false | true | zoomed |
| true | true | zooming out |

Guards on those flags decide which events are live. Two time-driven flight
loops move between the states.

Modules, one per component:

- `Easing.dfy` (module `Easing`): the elapsed fraction `t = min((now-start)/duration, 1)`, the quadratic ease-in-out curve, and the flight durations (1000 ms in, 800 ms back).
- `Orientation.dfy` (module `Orientation`): the idle rotation's target angle, its per-frame smoothing, and the two-tier responsive model scale.
- `Screens.dfy` (module `Screens`): the screen-name filter of the load-time traversal, the handler → screen name → video table, the `find` lookup by name, and which handler wins a pointer-down.
- `Camera.dfy` (module `Camera`): symbolic camera poses and the interpolation laws used at the ends of a flight.
- `Viewer.dfy` (module `Viewer`): the controller class, whose fields are the script's module-level variables and whose methods are its event handlers. It also holds one whole zoom cycle as a client method.
- `Wrappers.dfy`: `Option`.

How the environment is modelled:

- `requestAnimationFrame(step)` becomes the field `pending`, which holds the one scheduled flight step. `Tick(now)` runs that step at frame time `now`.
- `performance.now()` becomes the `now` parameter.
- The three.js hit test becomes an input: `hits`, the set of meshes that the ray through the pointer meets.
- The pose computed from the loaded model's camera (or from framing the model) becomes the `loadedPose` parameter.
- The viewport width and the window width become parameters.
- Whether the page has a `videoOverlay` element is the constant `hasVideo`.
- JavaScript doubles are modelled as Dafny reals.
- `Math.PI` is written out as 3.141592653589793.

Two places where the code differs from what its design suggests; the model follows the code:

- The flight fraction is clamped only from above. A frame stamped before the flight's start gives a negative `t`, and `ease(t) = 2t²` is then slightly above 0. A clamp to [0, 1] at both ends is not what the code does.
- The saved pose `initialCamPos`/`initialCamQuat` is never cleared after a fly-back. It is only overwritten at the next fly-in.

## Model

| member | source | states |
|---|---|---|
| `Easing.Fraction` | script.js:314 | the fraction never exceeds 1; it is below 1 exactly while less than `duration` has elapsed; it is negative for a frame stamped before the start; between start and end it is elapsed/duration |
| `Easing.Ease` | script.js:315 | ease(0) = 0 and ease(1) = 1; at the switch point t = 0.5 the curve gives 0.5, and so does the lower branch 2t² |
| `Easing.EaseBounds` | script.js:315 | on [0, 1] the eased value lies in [0, 1] and is below 0.5 exactly on the first half |
| `Easing.EaseMonotone` | script.js:315 | on [0, 1] the curve is nondecreasing, so once frames have t in [0, 1] a later frame never moves the camera back along its path; a frame stamped before the start (t < 0) is outside this, since the curve decreases there |
| `Easing.EaseContinuousAtHalf` | script.js:315 | the two branches join without a jump at t = 0.5: on [0, 1] the value differs from 0.5 by at most twice the distance of t from 0.5, below it on the lower branch and at or above it on the upper |
| `Easing.EaseUpperBranch` | script.js:451 | the upper branch `-1 + (4 - 2t)t` equals `1 - 2(1-t)²` |
| `Easing.EaseSymmetric` | script.js:451 | ease(1 - t) = 1 - ease(t) for every t: it eases out as it eased in |
| `Orientation.TargetRotation` | script.js:203-207 | for a pointer inside the window the target angle lies in [-MAX_ROT, MAX_ROT]; it is negative exactly on the left half and zero exactly at the centre; the edges give ∓MAX_ROT |
| `Orientation.Smooth` | script.js:227 | one frame leaves the angle at 0.95 times its previous gap from the target; it moves strictly towards the target and never past it; it stays in range if both ends were in range |
| `Orientation.SmoothFramesGap` | script.js:223-229 | after n frames towards a fixed target the gap is 0.95ⁿ times the original gap |
| `Orientation.SmoothFramesInRange` | script.js:223-229 | repeated smoothing towards an in-range target keeps an in-range angle in range |
| `Orientation.ResponsiveScale` | script.js:32-40 | the scale is 0.4 exactly when the viewport is at most 1000 px wide, and 0.8 otherwise |
| `Orientation.ResponsiveScaleStep` | script.js:36-40 | a wider viewport never gets a smaller scale; crossing the breakpoint doubles the scale |
| `Screens.ScreensOf` | script.js:102-111 | every registered node is a mesh whose name starts with `TV_` and ends with `_SCREEN-Mat`; every such node is registered; nothing outside the traversal is registered |
| `Screens.TargetName` | script.js:281-424 | handler k asks for a 16-character name whose fifth character is the digit k |
| `Screens.TargetNameIsScreenName` | script.js:102-110 | each name a handler asks for passes the registration filter |
| `Screens.TargetNamesDistinct` | script.js:281-424 | different handlers ask for different screens |
| `Screens.VideoFor` | script.js:356-428 | each handler's video is a `.webm` file |
| `Screens.VideosDistinct` | script.js:356-428 | the eight handlers play eight different videos |
| `Screens.FindByName` | script.js:272-273 | the lookup finds nothing exactly when no registered screen has the name; what it finds is registered and has that name |
| `Screens.FindByNameFirst` | script.js:272 | of several screens with the same name, the lookup returns the first |
| `Screens.FirstHit` | script.js:77-84 | the result is a handler whose hit test succeeds and no lower-numbered handler's does; no result means no handler's hit test succeeds |
| `Camera.Interp` | script.js:317-318 | interpolation at weight 0 gives the start pose and at weight 1 the end pose; between equal poses it stays put |
| `Viewer.Step.Duration` | script.js:310 | the fly-in lasts 1000 ms and the fly-back 800 ms |
| `Viewer.Controller.constructor` | script.js:10-30 | the page starts idle, with no model, no screens, zero rotation, the ambient video and no return handler |
| `Viewer.Controller.ApplyResponsiveScale` | script.js:36-40 | without a model nothing changes; with one the scale is the responsive scale for the viewport |
| `Viewer.Controller.LoadModel` | script.js:87-111 | after loading, the registered screens are the old ones followed by the filtered traversal, the scale is responsive, the camera is at the loaded pose, the state is idle and the invariant holds |
| `Viewer.Controller.RegisterScreens` | script.js:102-111 | the traversal appends exactly the filtered nodes, in order, and every registered mesh passes the name filter |
| `Viewer.Controller.OnMouseMove` | script.js:203-207 | the target angle follows the pointer only when idle and is frozen in every zoom state; it stays in range for a pointer inside the window |
| `Viewer.Controller.AnimateFrame` | script.js:223-229 | the model turns one smoothing step only when loaded and idle; otherwise both angles are frozen; the angles stay in range |
| `Viewer.Controller.RaycastTV` | script.js:263-279 | the hit test returns a screen exactly when the model is loaded, both flags are false, and the first registered screen of that name is under the pointer; what it returns is registered, hit and so named |
| `Viewer.Controller.ZoomToTVBase` | script.js:287-311 | zooming in begins: the current pose is saved as the return pose, a fly-in step is scheduled towards the pose facing the screen, which depends on the screen, the model's current turn and scale, and the camera's pose; nothing else changes |
| `Viewer.Controller.OnClickTV` | script.js:281-285 | handler k starts a zoom towards its screen with its video when its hit test succeeds, and otherwise changes nothing |
| `Viewer.Controller.Winner` | script.js:77-84 | a winner exists only on a loaded idle page; it is the lowest-numbered handler whose screen is hit |
| `Viewer.Controller.PointerDown` | script.js:77-84 | running the eight handlers in order starts at most one zoom, the winner's; with no winner nothing changes |
| `Viewer.Controller.Tick` | script.js:313-351 | a frame moves the camera to the eased interpolation (fly-in from the saved pose; the fly-back at 449-469 from its captured start); before the duration it only reschedules; at or after it, the step is removed, the camera lands exactly on the end pose, fly-in completion opens the screen with its video and return handler, and fly-back completion returns to idle at the saved pose with the ambient video; without a scheduled step nothing changes, so completion happens once |
| `Viewer.Controller.ResetVideoOverlayLayout` | script.js:474-478 | the overlay source goes back to the ambient video when the overlay exists |
| `Viewer.Controller.HandleVideoClickBack` | script.js:430-472 | only when zoomed, not zooming, and with an overlay: the return handler is removed and a fly-back from the current pose to the saved pose is scheduled; otherwise nothing changes |
| `Viewer.Controller.ClickVideo` | script.js:348 | an overlay click starts the fly-back exactly in the zoomed state, because the handler is installed exactly then |
| `Viewer.ZoomCycle` | script.js:287-472 | a full cycle on screen 3 arrives facing that screen, as placed by the unturned model at the 0.8 scale of a 1280 px viewport, with `JUPITER.webm` and returns to idle at exactly the starting pose with the ambient video |

## Left out

- Rendering and loading with three.js are not modelled: the renderer and scene set-up, lights, the spotlight, GLTF loading and its error callback, the choice of the loaded camera, `frameObject`, and the `1.2` camera pull-back. The pose they produce enters as `loadedPose`.
- Ray/mesh intersection is not modelled: `raycaster.setFromCamera`, `intersectObject(s)`, and the pointer's conversion to normalised device coordinates. The set of hit meshes is an input.
- 3D geometry is not modelled: `lerpVectors`, `slerpQuaternions`, `getWorldPosition`, the 0.9-unit offset and `lookAt`. Poses are symbolic: the fly-in destination records the screen, the model's turn and scale, and the camera's pose it is computed from, and only the interpolation's laws at weights 0 and 1 are used.
- Camera.Interp: at weight 1 the result is exactly the end pose. In floating point, `slerpQuaternions` returns the end orientation at weight 1, but `lerpVectors` only comes within rounding of the end position.
- DOM side effects other than the overlay's source and click handler are not modelled: style assignments, `display`, `play()`/`pause()` and their swallowed rejections, `modelRoot.visible`, `scene.background`, and the cursor changes of `onPointerHover`.
- The camera aspect update in `onWindowResize` is not modelled. The scale rule it re-applies is `ApplyResponsiveScale`.
- Scheduling is not modelled: `requestAnimationFrame` for the render loop and the flight steps. It is replaced by caller-driven `AnimateFrame()` and `Tick(now)`.
- NaN and Infinity are not modelled. `OnMouseMove` requires a positive window width, so the division is defined.
