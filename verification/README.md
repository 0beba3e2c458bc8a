# Frame-loop core of a side-scrolling shooter, modelled in Dafny

This project models the per-frame simulation logic of a JavaFX side-scroller
(a Metal Slug clone) and proves properties of it. It covers three pieces:

- **SpriteAnimation** (`sprite_animation.dfy`). This is the frame clock of one
  sprite, a stopped/playing state machine over `currentFrame`, `loopCount`,
  `lastUpdateTime` and `isPlaying`. The timer callback becomes `Tick`, which
  takes the timer's timestamp as an argument. A tick moves at most one frame
  forward. It wraps to frame 0 and counts a loop at the end of the frame list.
  `isPlaying()` and `getLoopCount()` are the record's fields.
- **POW** (`pow.dfy`). This is a rescuable prisoner. Its type string fixes its
  speed, scale and animation rate when it is built. Each frame it drifts left
  by its speed once the player's x is at least 2500.
- **GameEngine** (`game_engine.dfy`, with the entities in `entities.dfy`). This
  is the frame orchestrator. It covers the pause gate and the escape debounce.
  It runs the steps in a fixed order: input, player, physics, enemies,
  collisions, prisoners, platforms, bullets, camera. It models the camera rule,
  the reverse-order enemy and bullet sweeps, and level changes.

Everything is an immutable record, and every operation returns the next
record. Some classes the engine calls are not part of this model: Player,
PhysicsManager, CollisionManager, BasicEnemy, ShieldedEnemy, Bullet, Platform
and LevelManager. The `Collaborators` record holds them as uninterpreted total
functions. The engine relies on nothing about them beyond their types. Two
source loops are modelled as methods that remove elements in place from the
last index down, as the source does: the enemy sweep and the bullet sweep.
Each method is proved equal to an order-preserving filter (`Seqs.Filter`).
Coordinates are Dafny `real`s.

Behaviour of the code worth noting:

- A fresh escape press always drops the rest of the frame. It pauses the game
  only when a window has been attached (`setStage`), because `showPauseMenu`
  does nothing otherwise. The model tracks this as `hasStage`.
- The bullet sweep covers every BasicEnemy still in the enemy list, whether or
  not it has been activated.
- The camera clamp is `max(0, min(target, levelWidth - 20 - 1200))`. On a
  level narrower than 1220 the camera therefore stays at 0, which is above
  `levelWidth - 1220`. The range proved is
  `0 <= cameraX <= max(0, levelWidth - 1220)`.
- `setToFirstFrame` on a playing animation that is past frame 0 shows frame 0.
  The frame index is not changed. So "the view shows `frames[currentFrame]`
  while playing" holds across `play`, `stop` and ticks, but not across
  `setToFirstFrame`. `SpriteAnimation.SetToFirstFrameDesyncs` gives an
  instance.
- A new `play` resets `lastUpdateTime` to 0. The next tick therefore compares
  the raw timer value against the frame duration. This is modelled as written,
  with Java's 64-bit wrap-around of the subtraction.

## Model

| member | source | states |
|---|---|---|
| `SpriteAnimation.WrapLong` | java_source_files/SpriteAnimation.java:31 | the `long` subtraction `now - lastUpdateTime` wraps modulo 2^64 and equals the exact difference when that fits in 64 bits |
| `SpriteAnimation.New` | java_source_files/SpriteAnimation.java:13-25 | a new animation is stopped at frame 0 with zero counters and satisfies the class invariant |
| `SpriteAnimation.Tick` | java_source_files/SpriteAnimation.java:28-46 | a tick while stopped, or before a frame's duration has elapsed, changes nothing. Otherwise it moves exactly one frame: `(currentFrame+1) % size`, counts a loop iff the index wrapped, records `now`, and moves the viewport to the new frame. The sheet flag is left as it was. It keeps the index in range and the view in step, and moves the position by 0 or 1 |
| `SpriteAnimation.Play` | java_source_files/SpriteAnimation.java:52-66 | with no frames nothing changes. Otherwise it is playing from frame 0 with zero counters and shows the sheet at `frames[0]` |
| `SpriteAnimation.Stop` | java_source_files/SpriteAnimation.java:68-77 | stopped with all counters at zero. The viewport returns to `frames[0]` when there are frames and is untouched when there are none |
| `SpriteAnimation.StopIdempotent` | java_source_files/SpriteAnimation.java:68-77 | stopping twice is the same as stopping once |
| `SpriteAnimation.SetToFirstFrame` | java_source_files/SpriteAnimation.java:79-84 | only the view changes (sheet and `frames[0]`). Counters and `isPlaying` are untouched, and with no frames nothing changes |
| `SpriteAnimation.SetToFirstFrameDesyncs` | java_source_files/SpriteAnimation.java:79-84 | a playing animation at frame 1 whose view was in step is out of step after `setToFirstFrame` |
| `SpriteAnimation.RunPosition` | java_source_files/SpriteAnimation.java:33-44 | over any run of ticks, `loopCount * size + currentFrame` grows by exactly the number of advancing ticks, and the view stays in step |
| `SpriteAnimation.PlayThenRunCounts` | java_source_files/SpriteAnimation.java:33-63 | after `play` and any run of ticks of which n advance, `loopCount == n / size` and `currentFrame == n % size` |
| `Pow.Configure` | java_source_files/POW.java:15-111 | speed is 2 exactly for "Old Man Run", 1.5 exactly for "Man Run" and 0 otherwise. Scale is 3 for the Run types, 2.4 for the Hanging types, 2 for Rope, 3.5 for CEO and 2.75 otherwise. The rate is 8 fps for the two Log types, 1 for Rope and 10 for the other known types. An unknown type gets no animation |
| `Pow.FrameDurationNs` | java_source_files/SpriteAnimation.java:24 | the frame duration is 10^9 / fps nanoseconds, truncated |
| `Pow.NewPow` | java_source_files/POW.java:15-25 | a new prisoner sits at (x, y) with the speed and scale its type's table entry gives. Its animation's frame duration is 10^9 / the entry's rate, and the animation starts at frame 0 with zero loop count and timestamp. It has a started animation exactly when its type is known, and that animation plays exactly when frames were loaded. An unknown type has speed 0, scale 2.75 and no animation |
| `Pow.Update` | java_source_files/POW.java:113-121 | with the player at x >= 2500 the prisoner moves left by `speed`, otherwise it stays. `positionY` never changes, the sprite is placed at `(positionX' - cameraX, positionY)`, and nothing else changes |
| `Pow.DriftNeverMovesRight` | java_source_files/POW.java:116-118 | with speed >= 0, `positionX` never increases over any sequence of frames, and never changes at speed 0 |
| `Pow.DriftDistance` | java_source_files/POW.java:116-118 | after n frames with the player past 2500, the prisoner has moved exactly `n * speed` left |
| `Pow.OnlyRunnersMove` | java_source_files/POW.java:15-62 | a prisoner of any type other than the two Run types never moves, whatever frames follow |
| `GameEngine.EnemiesOf` | java_source_files/GameEngine.java:62-78 | the enemy list collected from a level holds exactly the level's enemy objects and no more entries than the level |
| `GameEngine.EnemiesOfAppend` | java_source_files/GameEngine.java:62-78 | enemies are collected in level order, so collecting from a concatenation concatenates the results |
| `GameEngine.PowsOf` | java_source_files/GameEngine.java:80-89 | the prisoner list collected from a level holds exactly the level's prisoner objects |
| `GameEngine.PowsOfAppend` | java_source_files/GameEngine.java:80-89 | prisoners are collected in level order |
| `GameEngine.NewEngine` | java_source_files/GameEngine.java:22-42 | the engine starts unpaused with the camera at 0, the player at the first level's start with no bullets, and that level's enemies and prisoners |
| `GameEngine.SetStage` | java_source_files/GameEngine.java:48-50 | attaching a window enables the pause menu and passing `null` disables it. Nothing else changes |
| `GameEngine.PauseGame` | java_source_files/GameEngine.java:143-145 | pausing sets the flag and changes nothing else |
| `GameEngine.ResumeGame` | java_source_files/GameEngine.java:147-149 | resuming clears the flag and changes nothing else |
| `GameEngine.PauseResumeIdempotent` | java_source_files/GameEngine.java:143-149 | pausing twice is pausing once, and resuming twice is resuming once |
| `GameEngine.ShowPauseMenu` | java_source_files/GameEngine.java:161-169 | the menu pauses the game when a window is attached and otherwise leaves the state alone |
| `GameEngine.UpdateCamera` | java_source_files/GameEngine.java:215-223 | when the target `playerX - 1200/3.5` is not ahead, the camera stays put. When it is ahead, the camera lands in `[0, max(0, levelWidth - 1220)]`, exactly on the target if that is reachable. A target past the end lands on `max(0, levelWidth - 1220)`, and a target below 0 lands on 0. From a camera in range, the camera never decreases and stays in range |
| `GameEngine.Activate` | java_source_files/GameEngine.java:243-245 | afterwards the enemy is active iff it was active or its variant's activation test holds. Nothing else changes, and an active enemy is never deactivated |
| `GameEngine.StepEnemy` | java_source_files/GameEngine.java:241-257 | an enemy's turn keeps its variant, and only a shielded enemy's behaviour can affect the player |
| `GameEngine.TakeTurns` | java_source_files/GameEngine.java:240-257 | the turns keep the list's length and each enemy's variant |
| `GameEngine.Release` | java_source_files/GameEngine.java:264-275 | a removed basic enemy's bullet list is empty, and nothing else about a removed enemy changes |
| `GameEngine.UpdateEnemies` | java_source_files/GameEngine.java:239-281 | the in-place reverse sweep keeps exactly the enemies that are not dead-and-ready, in their order. It removes exactly the dead-and-ready ones, releasing them, so dead-but-not-ready enemies stay. Kept and removed together account for every enemy, and the player is threaded through the turns last-first |
| `GameEngine.SweepOutcome` | java_source_files/GameEngine.java:259-279 | no kept enemy is removable. Every removed enemy is removable and, if basic, has no bullets, and none is lost or duplicated |
| `GameEngine.TakeTurnsOrder` | java_source_files/GameEngine.java:240-257 | for every index i, enemy i takes its turn against the player left by the turns of all later indices. So the last enemy meets the frame's player, and the turns run last index first |
| `GameEngine.TakeTurnsStep` | java_source_files/GameEngine.java:240-257 | the turn of the enemy at index i comes after the turns of all later indices |
| `GameEngine.SweepBullets` | java_source_files/GameEngine.java:316-324 | after the sweep the result is exactly the moved bullets that are still active and in bounds. Every remaining bullet is one of the moved input bullets and survives, every surviving moved bullet remains, and the list never grows |
| `GameEngine.SweepKeepsOrder` | java_source_files/GameEngine.java:316-324 | the sweep keeps the survivors in order: sweeping `a + b` gives the sweep of `a` followed by the sweep of `b` |
| `GameEngine.UpdateBulletsForEntity` | java_source_files/GameEngine.java:309-325 | the in-place reverse sweep equals the order-preserving filter of the moved bullets, never grows the list, and leaves only active in-bounds bullets |
| `GameEngine.UpdateAllBullets` | java_source_files/GameEngine.java:294-307 | the shooters are the player and every basic enemy in the list. Each shooter's list becomes the sweep of its old list, so all remaining bullets survive. Other enemies are untouched, no enemy is added or dropped, and only bullet lists change |
| `GameEngine.UpdatePlatforms` | java_source_files/GameEngine.java:229-237 | every platform entry becomes its platform after `platformUpdate` with the camera and the view width. No other entry changes, and the level's width, start and length are kept |
| `GameEngine.Update` | java_source_files/GameEngine.java:184-213 | a fresh escape press sets the flag, pauses iff a window is attached, and returns with player, enemies, prisoners, bullets and camera unchanged. Otherwise the flag follows the key. The steps run in a fixed order: the player moves and physics runs on it, the enemies take their turns, the removable ones are dropped, and collisions are resolved. Then the player's and every basic enemy's bullets are swept, and the level's platforms are updated with the old camera. Every surviving bullet of every shooter is active and in bounds. Each prisoner moved with the old camera and the final player x, and the camera was recomputed last from the final player x. The camera stays in range and never decreases |
| `GameEngine.Handle` | java_source_files/GameEngine.java:132-138 | while paused, or with no input collaborator, a frame changes nothing. Otherwise the frame is exactly `Update` with that input. A frame can pause the game only through the pause menu, and it keeps the camera invariant |
| `GameEngine.CameraNeverScrollsBack` | java_source_files/GameEngine.java:215-223 | within a level, over any run of frames, the camera never decreases and stays in `[0, max(0, levelWidth - 1220)]` |
| `GameEngine.PausedFramesDoNothing` | java_source_files/GameEngine.java:134-138 | a paused engine is unchanged by any number of frames |
| `GameEngine.EscapeDebounce` | java_source_files/GameEngine.java:185-192 | a press pauses and drops the frame. After resuming, the still-held key does not pause again, and releasing it clears the flag |
| `GameEngine.ChangeLevel` | java_source_files/GameEngine.java:91-130 | the camera is 0 and the player is at the new level's start. The enemies are exactly the new level's, in level order. The old prisoners are kept and the new ones appended. Pause and debounce flags and the player's bullets are untouched |
| `GameEngine.PrisonersAccumulate` | java_source_files/GameEngine.java:119-126 | after any run of level changes, the prisoners are the original ones followed by every visited level's prisoners, because the list is never cleared |
| `GameEngine.EnemiesOfLastLevel` | java_source_files/GameEngine.java:119-125 | after any non-empty run of level changes, the enemies are exactly the last level's, because the list is cleared before each load |

## Left out

- Rendering: the scene graph is not modelled. This covers adding and removing
  children, image loading, the background translate, the player sprite's
  screen x, bullet image attachment, and `setScale`. Only the POW sprite
  position and an animation's image and viewport are modelled.
- Timing: the AnimationTimer scheduling is not modelled. The timestamp `now`
  is a parameter, and each timer callback is a function call. Each sprite
  animation runs its own timer, and pausing the engine does not stop those
  timers. So prisoners keep animating while the game is paused. The engine
  record does not hold ticking animations, and `PausedFramesDoNothing` is
  about the engine's frame step only.
- Pause menu: the scene swap in `showPauseMenu` is left out, and so is the
  audio in `stopGame` and `updateVolume`. Audio is external. `stopGame` only
  halts the timer, which in this model is the caller ceasing to call `Handle`.
- Input wiring: `setInputManager` is not an operation. Each frame's input is a
  parameter, and `None` stands for a missing input collaborator.
- Missing input manager: `update()` then throws a NullPointerException on its
  first read of the escape key (GameEngine.java:185). The model does not
  represent exceptions. `Handle` with `None` returns the engine unchanged,
  which is the state the exception leaves, since nothing was written before
  it.
- Shared objects: the source's `enemies` and `pow` lists hold the very objects
  of the level's object list (GameEngine.java:63-67, 81-85). So each frame's
  changes to enemies and prisoners are visible through the level. That covers
  the level handed to `PhysicsManager.updatePlayer` and any level the
  LevelManager hands back later. The model has no aliasing. `Level.objects`
  keeps each enemy and prisoner as it was when the level was loaded, and only
  platform entries are updated there. A collaborator that reads enemies or
  prisoners through the level sees those loaded copies.
- Collaborators: Player, PhysicsManager, CollisionManager, BasicEnemy,
  ShieldedEnemy, Bullet, Platform and LevelManager are not part of this model.
  They are uninterpreted functions of `Collaborators`. Their internal state
  (velocity, health, timers) is not represented beyond the fields the engine
  reads.
- `Player.setPosition`: its body is not part of this model. It is taken to set
  the position and level width its arguments name. Its fourth argument is
  ignored.
- Frame data: `SpriteSheetLoader.loadFrames` is external. Its result is a
  parameter of `Pow.NewPow`, and a missing resource is an empty list. A null
  frame list is treated like an empty one, since every branch of the source
  handles the two alike.
- `Pow.FrameDurationNs`: this does not model the double division and
  truncating cast in general. It is exact only for whole-number rates, and
  the only rates used are 1, 8 and 10.
- `SpriteAnimation.Tick`: this does not model the 32-bit wrap of `loopCount`,
  which needs 2^31 loops.
- IEEE double rounding: it is not modelled in positions, speeds, scales or the
  camera, which are exact reals. For example, `1200 / 3.5` is exact here.
- `GameEngine.StepEnemy`: an enemy keeps its variant, because a Java object
  cannot change class. Beyond that, this does not constrain what the enemy's
  own update and behaviour collaborators do to its flags. So "active never
  reverts" is proved only for the engine's own activation step (`Activate`).
- Enemy lifecycle: the progression inactive, active, dead, readyToRemove is
  driven by collaborator code. It is not proved beyond the engine's own steps.
- Platforms: `addLevelPlatforms` and the platform part of `changeLevel` only
  attach and detach collision-box nodes, so they belong to the rendering left
  out above.
