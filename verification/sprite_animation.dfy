/**
 * The per-sprite frame clock of SpriteAnimation.java: a stopped/playing state
 * machine that, on each timer tick, advances at most one frame of a fixed
 * sequence of sprite-sheet rectangles once a frame's duration has elapsed.
 *
 * The timer callback becomes `Tick`, which receives the timer's timestamp
 * `now`; the image view the animation draws into is the `View` field.
 */
module SpriteAnimation {
  import opened Wrappers

  /** A frame rectangle in sprite-sheet pixels. */
  datatype Rect = Rect(x: real, y: real, width: real, height: real)

  /** The image view: whether the sprite sheet is its image, and its viewport. */
  datatype View = View(showsSheet: bool, viewport: Option<Rect>)

  const LongMin: int := -0x8000_0000_0000_0000
  const LongModulus: int := 0x1_0000_0000_0000_0000

  /** Java's 64-bit `long`. */
  type Long = x: int | -0x8000_0000_0000_0000 <= x < 0x8000_0000_0000_0000

  /** Two's-complement wrap-around of a 64-bit subtraction or addition. */
  function WrapLong(x: int): (r: Long)
    ensures (r - x) % LongModulus == 0
    ensures LongMin <= x < -LongMin ==> r == x
  {
    (x - LongMin) % LongModulus + LongMin
  }

  datatype Anim = Anim(
    frames: seq<Rect>,
    frameDurationNs: Long,
    currentFrame: int,
    lastUpdateTime: Long,
    isPlaying: bool,
    loopCount: int,
    view: View)

  /**
   * The class invariant every public operation keeps: the frame index is in
   * range while playing, and a stopped animation has its counters at zero.
   */
  predicate Valid(a: Anim)
  {
    && 0 <= a.currentFrame
    && 0 <= a.loopCount
    && (a.isPlaying ==> a.currentFrame < |a.frames|)
    && (!a.isPlaying ==> a.currentFrame == 0 && a.loopCount == 0 && a.lastUpdateTime == 0)
  }

  /** While playing, the view shows the current frame. */
  predicate Showing(a: Anim)
  {
    && Valid(a)
    && (a.isPlaying ==> a.view == View(true, Some(a.frames[a.currentFrame])))
  }

  /** Frames shown since `play`: full loops times the loop length plus the index. */
  function Position(a: Anim): int
  {
    a.loopCount * |a.frames| + a.currentFrame
  }

  /** A new animation over `frames`, stopped at frame 0 (its timer runs from the start). */
  function New(frames: seq<Rect>, frameDurationNs: Long, view: View): (a: Anim)
    ensures Showing(a) && !a.isPlaying
    ensures a.frames == frames && a.frameDurationNs == frameDurationNs && a.view == view
  {
    Anim(frames, frameDurationNs, 0, 0, false, 0, view)
  }

  /** Whether a tick at `now` moves the animation on by one frame. */
  predicate Advances(a: Anim, now: Long)
  {
    a.isPlaying && WrapLong(now - a.lastUpdateTime) >= a.frameDurationNs
  }

  /** The timer callback: at most one frame forward, however much time has passed. */
  function Tick(a: Anim, now: Long): (r: Anim)
    requires Valid(a)
    ensures Valid(r)
    ensures Showing(a) ==> Showing(r)
    ensures !Advances(a, now) ==> r == a
    ensures Advances(a, now) ==>
      && r.currentFrame == (a.currentFrame + 1) % |a.frames|
      && r.loopCount == (if a.currentFrame + 1 == |a.frames| then a.loopCount + 1 else a.loopCount)
      && r.lastUpdateTime == now
      && r.view.viewport == Some(a.frames[r.currentFrame])
    ensures r.view.showsSheet == a.view.showsSheet
    ensures Position(r) == Position(a) + (if Advances(a, now) then 1 else 0)
    ensures r.frames == a.frames && r.frameDurationNs == a.frameDurationNs && r.isPlaying == a.isPlaying
  {
    if !a.isPlaying then a
    else
      var elapsedNs := WrapLong(now - a.lastUpdateTime);
      if elapsedNs >= a.frameDurationNs then
        var next := a.currentFrame + 1;
        var (frame, loops) := if next >= |a.frames| then (0, a.loopCount + 1) else (next, a.loopCount);
        a.(currentFrame := frame, loopCount := loops,
           view := a.view.(viewport := Some(a.frames[frame])), lastUpdateTime := now)
      else a
  }

  /** Starts (or restarts) playback from frame 0; with no frames it changes nothing. */
  function Play(a: Anim): (r: Anim)
    ensures |a.frames| == 0 ==> r == a
    ensures |a.frames| > 0 ==>
      && r.isPlaying && Showing(r) && Position(r) == 0
      && r.currentFrame == 0 && r.loopCount == 0 && r.lastUpdateTime == 0
      && r.view == View(true, Some(a.frames[0]))
    ensures Valid(a) ==> Showing(r)
    ensures r.frames == a.frames && r.frameDurationNs == a.frameDurationNs
  {
    if |a.frames| == 0 then a
    else
      a.(view := View(true, Some(a.frames[0])),
         currentFrame := 0, loopCount := 0, lastUpdateTime := 0, isPlaying := true)
  }

  /** Stops playback and rewinds the counters; the view returns to frame 0 when there is one. */
  function Stop(a: Anim): (r: Anim)
    ensures !r.isPlaying && r.currentFrame == 0 && r.loopCount == 0 && r.lastUpdateTime == 0
    ensures Showing(r)
    ensures |a.frames| > 0 ==> r.view.viewport == Some(a.frames[0])
    ensures |a.frames| == 0 ==> r.view == a.view
    ensures r.frames == a.frames && r.frameDurationNs == a.frameDurationNs && r.view.showsSheet == a.view.showsSheet
  {
    var stopped := a.(isPlaying := false, currentFrame := 0, loopCount := 0, lastUpdateTime := 0);
    if |a.frames| > 0 then stopped.(view := stopped.view.(viewport := Some(a.frames[0]))) else stopped
  }

  /** Shows frame 0 without touching the clock: only the view changes. */
  function SetToFirstFrame(a: Anim): (r: Anim)
    ensures r.(view := a.view) == a
    ensures |a.frames| > 0 ==> r.view == View(true, Some(a.frames[0]))
    ensures |a.frames| == 0 ==> r == a
    ensures Valid(a) ==> Valid(r)
  {
    if |a.frames| > 0 then a.(view := View(true, Some(a.frames[0]))) else a
  }

  /** `stop` is idempotent. */
  lemma StopIdempotent(a: Anim)
    ensures Stop(Stop(a)) == Stop(a)
  {
  }

  /** Feeds the timestamps of `nows` to the timer callback, in order. */
  function Run(a: Anim, nows: seq<Long>): (r: Anim)
    requires Valid(a)
    ensures Valid(r)
    decreases |nows|
  {
    if nows == [] then a else Run(Tick(a, nows[0]), nows[1..])
  }

  /** How many of the ticks in `nows` advance a frame. */
  function AdvanceCount(a: Anim, nows: seq<Long>): (n: nat)
    requires Valid(a)
    ensures n <= |nows|
    decreases |nows|
  {
    if nows == [] then 0
    else (if Advances(a, nows[0]) then 1 else 0) + AdvanceCount(Tick(a, nows[0]), nows[1..])
  }

  /** Each advancing tick moves the position by exactly one frame, the others by none. */
  lemma {:induction false} RunPosition(a: Anim, nows: seq<Long>)
    requires Valid(a)
    ensures Position(Run(a, nows)) == Position(a) + AdvanceCount(a, nows)
    ensures Showing(a) ==> Showing(Run(a, nows))
    ensures Run(a, nows).frames == a.frames && Run(a, nows).isPlaying == a.isPlaying
    decreases |nows|
  {
    if nows != [] {
      RunPosition(Tick(a, nows[0]), nows[1..]);
    }
  }

  /** Quotient and remainder are unique. */
  lemma DivModUnique(m: int, d: int, q: int, r: int)
    requires 0 < d && 0 <= r < d && q * d + r == m
    ensures q == m / d && r == m % d
  {
    var k := q - m / d;
    assert k * d == m % d - r;
  }

  /**
   * After `play` on a non-empty frame list, any run of ticks leaves the
   * animation `n / size` loops and `n % size` frames in, where `n` is the
   * number of ticks that advanced.
   */
  lemma PlayThenRunCounts(a: Anim, nows: seq<Long>)
    requires |a.frames| > 0
    ensures Valid(Play(a))
    ensures Run(Play(a), nows).loopCount == AdvanceCount(Play(a), nows) / |a.frames|
    ensures Run(Play(a), nows).currentFrame == AdvanceCount(Play(a), nows) % |a.frames|
    ensures Showing(Run(Play(a), nows))
  {
    var p := Play(a);
    var r := Run(p, nows);
    RunPosition(p, nows);
    DivModUnique(AdvanceCount(p, nows), |a.frames|, r.loopCount, r.currentFrame);
  }

  /**
   * `setToFirstFrame` on a playing animation past frame 0 leaves the view
   * out of step with the frame index until the next advancing tick.
   */
  lemma SetToFirstFrameDesyncs()
    ensures var r0 := Rect(0.0, 0.0, 1.0, 1.0);
            var r1 := Rect(1.0, 0.0, 1.0, 1.0);
            var a := Anim([r0, r1], 100, 1, 0, true, 0, View(true, Some(r1)));
            Showing(a) && !Showing(SetToFirstFrame(a))
  {
  }
}
