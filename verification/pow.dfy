/**
 * A rescuable prisoner (POW.java): its per-type speed, scale and animation
 * rate, fixed at construction, and the per-frame position step that drifts it
 * left once the player is far enough into the level.
 */
module Pow {
  import opened Wrappers
  import SpriteAnimation

  /** Player world-x from which prisoners start drifting left. */
  const DriftThreshold: real := 2500.0

  /** The prisoner types that have a sprite sheet. */
  const KnownTypes: set<string> := {
    "Old Man Sitting", "Old Man Log", "Man Log", "Old Man Run", "Man Run",
    "Old Man Hanging", "Man Hanging", "Rope", "CEO" }

  /** What the constructor settles from the type: speed, scale, and the frame rate of the animation if one is created. */
  datatype Config = Config(speed: real, scale: real, fps: Option<int>)

  datatype Pow = Pow(
    positionX: real,
    positionY: real,
    powType: string,
    speed: real,
    scale: real,
    animation: Option<SpriteAnimation.Anim>,
    viewX: real,
    viewY: real)

  /**
   * The constructor's defaults followed by the nine independent type tests of
   * `loadAnimations`, each of which may override speed and scale and chooses
   * the animation rate.
   */
  function Configure(powType: string): (c: Config)
    ensures c.speed == 2.0 <==> powType == "Old Man Run"
    ensures c.speed == 1.5 <==> powType == "Man Run"
    ensures powType != "Old Man Run" && powType != "Man Run" ==> c.speed == 0.0
    ensures c.speed >= 0.0
    ensures c.scale == (if powType == "Old Man Run" || powType == "Man Run" then 3.0
                        else if powType == "Old Man Hanging" || powType == "Man Hanging" then 2.4
                        else if powType == "Rope" then 2.0
                        else if powType == "CEO" then 3.5
                        else 2.75)
    ensures c.fps.Some? <==> powType in KnownTypes
    ensures c.fps == Some(8) <==> powType == "Old Man Log" || powType == "Man Log"
    ensures c.fps == Some(1) <==> powType == "Rope"
    ensures powType in KnownTypes - {"Old Man Log", "Man Log", "Rope"} ==> c.fps == Some(10)
  {
    var c := Config(0.0, 2.75, None);
    var c := if powType == "Old Man Sitting" then c.(fps := Some(10)) else c;
    var c := if powType == "Old Man Log" then c.(fps := Some(8)) else c;
    var c := if powType == "Man Log" then c.(fps := Some(8)) else c;
    var c := if powType == "Old Man Run" then c.(speed := 2.0, scale := 3.0, fps := Some(10)) else c;
    var c := if powType == "Man Run" then c.(speed := 1.5, scale := 3.0, fps := Some(10)) else c;
    var c := if powType == "Old Man Hanging" then c.(scale := 2.4, fps := Some(10)) else c;
    var c := if powType == "Man Hanging" then c.(scale := 2.4, fps := Some(10)) else c;
    var c := if powType == "Rope" then c.(scale := 2.0, fps := Some(1)) else c;
    var c := if powType == "CEO" then c.(scale := 3.5, fps := Some(10)) else c;
    c
  }

  /**
   * Nanoseconds per frame for a whole-number rate; exact for the rates used
   * here (1, 8 and 10 divide 10^9).
   */
  function FrameDurationNs(fps: int): (d: SpriteAnimation.Long)
    requires 0 < fps <= 1_000_000_000
    ensures d * fps <= 1_000_000_000 < (d + 1) * fps
  {
    1_000_000_000 / fps
  }

  /**
   * A new prisoner at (x, y). `frames` stands for the frame rectangles the
   * sprite-sheet loader reads for this type (empty when the resource is
   * missing); the animation is created and started only for known types.
   */
  function NewPow(x: real, y: real, powType: string, frames: seq<SpriteAnimation.Rect>): (p: Pow)
    ensures p.positionX == x && p.positionY == y && p.powType == powType
    ensures p.speed >= 0.0
    ensures p.speed == Configure(powType).speed && p.scale == Configure(powType).scale
    ensures p.animation.Some? ==> Configure(powType).fps.Some?
    ensures p.animation.Some? ==>
              p.animation.value.frameDurationNs == FrameDurationNs(Configure(powType).fps.value)
    ensures p.animation.Some? ==>
              p.animation.value.currentFrame == 0 && p.animation.value.loopCount == 0
              && p.animation.value.lastUpdateTime == 0
    ensures powType !in KnownTypes ==> p.animation == None && p.speed == 0.0 && p.scale == 2.75
    ensures p.animation.Some? <==> powType in KnownTypes
    ensures p.animation.Some? ==>
      && SpriteAnimation.Showing(p.animation.value)
      && p.animation.value.frames == frames
      && (p.animation.value.isPlaying <==> |frames| > 0)
  {
    var c := Configure(powType);
    var view := SpriteAnimation.View(false, None);
    var animation :=
      match c.fps
      case None => None
      case Some(fps) => Some(SpriteAnimation.Play(SpriteAnimation.New(frames, FrameDurationNs(fps), view)));
    Pow(x, y, powType, c.speed, c.scale, animation, 0.0, 0.0)
  }

  /** The per-frame step: drift left by `speed` once the player is at or past the threshold, then place the sprite. */
  function Update(p: Pow, cameraX: real, playerPositionX: real): (r: Pow)
    ensures playerPositionX >= DriftThreshold ==> r.positionX == p.positionX - p.speed
    ensures playerPositionX < DriftThreshold ==> r.positionX == p.positionX
    ensures r.positionY == p.positionY
    ensures r.viewX == r.positionX - cameraX && r.viewY == r.positionY
    ensures r.(positionX := p.positionX, viewX := p.viewX, viewY := p.viewY) == p
  {
    var x := if playerPositionX >= DriftThreshold then p.positionX - p.speed else p.positionX;
    p.(positionX := x, viewX := x - cameraX, viewY := p.positionY)
  }

  /** Applies `Update` for each (cameraX, playerPositionX) pair of `frames`, in order. */
  function Drift(p: Pow, frames: seq<(real, real)>): (r: Pow)
    ensures r.speed == p.speed && r.positionY == p.positionY && r.powType == p.powType
    decreases |frames|
  {
    if frames == [] then p else Drift(Update(p, frames[0].0, frames[0].1), frames[1..])
  }

  /** With a non-negative speed a prisoner never moves right, and never moves at all at speed 0. */
  lemma {:induction false} DriftNeverMovesRight(p: Pow, frames: seq<(real, real)>)
    requires p.speed >= 0.0
    ensures Drift(p, frames).positionX <= p.positionX
    ensures p.speed == 0.0 ==> Drift(p, frames).positionX == p.positionX
    decreases |frames|
  {
    if frames != [] {
      DriftNeverMovesRight(Update(p, frames[0].0, frames[0].1), frames[1..]);
    }
  }

  /** After `n` frames with the player past the threshold, a prisoner has moved exactly `n * speed` to the left. */
  lemma {:induction false} DriftDistance(p: Pow, frames: seq<(real, real)>)
    requires forall i :: 0 <= i < |frames| ==> frames[i].1 >= DriftThreshold
    ensures Drift(p, frames).positionX == p.positionX - (|frames| as real) * p.speed
    decreases |frames|
  {
    if frames != [] {
      DriftDistance(Update(p, frames[0].0, frames[0].1), frames[1..]);
    }
  }

  /** Only the two "Run" prisoners ever move; every other type stays where it was placed. */
  lemma OnlyRunnersMove(x: real, y: real, powType: string, sheet: seq<SpriteAnimation.Rect>, frames: seq<(real, real)>)
    requires powType != "Old Man Run" && powType != "Man Run"
    ensures Drift(NewPow(x, y, powType, sheet), frames).positionX == x
  {
    DriftNeverMovesRight(NewPow(x, y, powType, sheet), frames);
  }
}
