/**
 * The clickable screens of the loaded model (script.js): which meshes are
 * registered as screens, which screen name each of the eight pointer-down
 * handlers asks for, which video each one plays, how a screen is looked up
 * by name, and which handler wins when several screens are under the pointer.
 */
module Screens {
  import opened Wrappers

  /** A node of the loaded scene graph: its identity, its name and whether it is a mesh. */
  datatype Object3D = Object3D(id: nat, name: string, isMesh: bool)

  /** The eight pointer-down handlers, `onClickTV01` to `onClickTV08`. */
  type TargetIndex = k: int | 1 <= k <= 8 witness 1

  const ScreenPrefix: string := "TV_"
  const ScreenSuffix: string := "_SCREEN-Mat"

  predicate StartsWith(s: string, prefix: string) {
    prefix <= s
  }

  predicate EndsWith(s: string, suffix: string) {
    |suffix| <= |s| && s[|s| - |suffix|..] == suffix
  }

  /** The name filter of the load-time traversal. */
  predicate IsScreenName(name: string) {
    StartsWith(name, ScreenPrefix) && EndsWith(name, ScreenSuffix)
  }

  /** A node the traversal registers as clickable. */
  predicate IsScreen(o: Object3D) {
    o.isMesh && IsScreenName(o.name)
  }

  /**
   * The meshes registered as clickable, in traversal order: what the
   * traversal's `clickableScreens.push` leaves behind.
   */
  function ScreensOf(nodes: seq<Object3D>): (r: seq<Object3D>)
    ensures forall o :: o in r ==> IsScreen(o) && o in nodes
    ensures forall o :: o in nodes && IsScreen(o) ==> o in r
    ensures |r| <= |nodes|
    decreases |nodes|
  {
    if nodes == [] then []
    else
      var init := ScreensOf(nodes[..|nodes| - 1]);
      var last := nodes[|nodes| - 1];
      assert nodes == nodes[..|nodes| - 1] + [last];
      if IsScreen(last) then init + [last] else init
  }

  /** Registration visits the nodes one at a time, appending each screen as it is met. */
  lemma ScreensOfPrefix(nodes: seq<Object3D>, i: nat)
    requires i < |nodes|
    ensures ScreensOf(nodes[..i + 1])
            == ScreensOf(nodes[..i]) + (if IsScreen(nodes[i]) then [nodes[i]] else [])
  {
    assert nodes[..i + 1][..i] == nodes[..i];
  }

  /** The screen name each pointer-down handler asks the hit test for. */
  function TargetName(k: TargetIndex): (name: string)
    ensures |name| == 16 && name[4] == ('0' as int + k) as char
  {
    match k
    case 1 => "TV_01_SCREEN-Mat"
    case 2 => "TV_02_SCREEN-Mat"
    case 3 => "TV_03_SCREEN-Mat"
    case 4 => "TV_04_SCREEN-Mat"
    case 5 => "TV_05_SCREEN-Mat"
    case 6 => "TV_06_SCREEN-Mat"
    case 7 => "TV_07_SCREEN-Mat"
    case 8 => "TV_08_SCREEN-Mat"
  }

  /** The video file the zoom started by handler `k` plays on arrival (`zoomToTV01` .. `zoomToTV08`). */
  function VideoFor(k: TargetIndex): (src: string)
    ensures EndsWith(src, ".webm")
  {
    match k
    case 1 => "VENUS.webm"
    case 2 => "NEPTUNO.webm"
    case 3 => "JUPITER.webm"
    case 4 => "MARTE.webm"
    case 5 => "MERCURIO.webm"
    case 6 => "URANO.webm"
    case 7 => "SATURNO.webm"
    case 8 => "TIERRA.webm"
  }

  /** Every name a handler asks for passes the traversal's screen filter. */
  lemma TargetNameIsScreenName(k: TargetIndex)
    ensures IsScreenName(TargetName(k))
  {
  }

  /** Different handlers ask for different screens. */
  lemma TargetNamesDistinct(j: TargetIndex, k: TargetIndex)
    requires j != k
    ensures TargetName(j) != TargetName(k)
  {
    assert TargetName(j)[4] != TargetName(k)[4];
  }

  /** Different handlers play different videos. */
  lemma VideosDistinct(j: TargetIndex, k: TargetIndex)
    requires j != k
    ensures VideoFor(j) != VideoFor(k)
  {
    assert VideoFor(j)[0] != VideoFor(k)[0] || |VideoFor(j)| != |VideoFor(k)|;
  }

  /** `clickableScreens.find((m) => m.name === name)`: the first screen with that name. */
  function FindByName(screens: seq<Object3D>, name: string): (r: Option<Object3D>)
    ensures r.None? <==> forall i :: 0 <= i < |screens| ==> screens[i].name != name
    ensures r.Some? ==> r.value in screens && r.value.name == name
  {
    if screens == [] then None
    else if screens[0].name == name then Some(screens[0])
    else FindByName(screens[1..], name)
  }

  /** `i` is the first position in `screens` holding a node called `name`. */
  predicate FirstNamed(screens: seq<Object3D>, name: string, i: nat) {
    i < |screens| && screens[i].name == name
    && forall j :: 0 <= j < i ==> screens[j].name != name
  }

  /** The lookup returns the earliest of several screens sharing a name. */
  lemma {:induction false} FindByNameFirst(screens: seq<Object3D>, name: string, i: nat)
    requires FirstNamed(screens, name, i)
    ensures FindByName(screens, name) == Some(screens[i])
  {
    if i > 0 {
      assert screens[0].name != name;
      FindByNameFirst(screens[1..], name, i - 1);
    }
  }

  /**
   * A hit test for `name` succeeds on a loaded, idle page: the first
   * registered screen of that name is among the meshes under the pointer.
   */
  predicate HitNamed(screens: seq<Object3D>, hits: set<Object3D>, name: string) {
    var m := FindByName(screens, name);
    m.Some? && m.value in hits
  }

  /** Handler `k`'s hit test succeeds on a loaded, idle page. */
  predicate Hit(screens: seq<Object3D>, hits: set<Object3D>, k: TargetIndex) {
    HitNamed(screens, hits, TargetName(k))
  }

  /** The lowest-numbered handler from `from` on whose hit test succeeds, if any. */
  function FirstHit(screens: seq<Object3D>, hits: set<Object3D>, from: int): (r: Option<TargetIndex>)
    requires 1 <= from <= 9
    ensures r.Some? ==> from <= r.value && Hit(screens, hits, r.value)
    ensures r.Some? ==> forall j :: from <= j < r.value ==> !HitAt(screens, hits, j)
    ensures r.None? ==> forall j :: from <= j ==> !HitAt(screens, hits, j)
    decreases 9 - from
  {
    if from == 9 then None
    else if Hit(screens, hits, from) then Some(from)
    else FirstHit(screens, hits, from + 1)
  }

  /** `Hit` for any integer: false outside the eight handlers. */
  predicate HitAt(screens: seq<Object3D>, hits: set<Object3D>, k: int) {
    1 <= k <= 8 && Hit(screens, hits, k)
  }
}
