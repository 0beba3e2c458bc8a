/**
 * The frame orchestrator of GameEngine.java: the pause gate, the escape
 * debounce, the fixed order of the per-frame steps, the camera rule, the
 * reverse-order enemy and bullet sweeps, and level changes.
 *
 * The engine is an immutable record and every operation returns the next
 * record. The timer callback becomes `Handle`, fed one optional input snapshot
 * per frame (None when no input collaborator has been attached).
 */
module GameEngine {
  import opened Wrappers
  import Seqs
  import Pow
  import opened Entities

  /** The camera trails the player by the view width divided by this. */
  const CameraLeadDivisor: real := 3.5

  /** The camera stops this far short of the right end of the level. */
  const LevelEndMargin: real := 20.0

  datatype Engine = Engine(
    cameraX: real,
    isPaused: bool,
    escapePressed: bool,
    hasStage: bool,
    player: Player,
    enemies: seq<Enemy>,
    pow: seq<Pow.Pow>,
    level: Level)

  // ---------------------------------------------------------------- loading

  /** The enemies of a level's object list, in list order. */
  function EnemiesOf(objects: seq<GameObject>): (r: seq<Enemy>)
    ensures |r| <= |objects|
    ensures forall x :: x in r <==> EnemyObject(x) in objects
    decreases |objects|
  {
    if objects == [] then []
    else (if objects[0].EnemyObject? then [objects[0].enemy] else []) + EnemiesOf(objects[1..])
  }

  /** The prisoners of a level's object list, in list order. */
  function PowsOf(objects: seq<GameObject>): (r: seq<Pow.Pow>)
    ensures |r| <= |objects|
    ensures forall x :: x in r <==> PowObject(x) in objects
    decreases |objects|
  {
    if objects == [] then []
    else (if objects[0].PowObject? then [objects[0].prisoner] else []) + PowsOf(objects[1..])
  }

  /** Collecting enemies respects the order of the level's object list. */
  lemma {:induction false} EnemiesOfAppend(a: seq<GameObject>, b: seq<GameObject>)
    ensures EnemiesOf(a + b) == EnemiesOf(a) + EnemiesOf(b)
    decreases |a|
  {
    if a == [] {
      assert a + b == b;
    } else {
      assert (a + b)[1..] == a[1..] + b;
      EnemiesOfAppend(a[1..], b);
    }
  }

  /** Collecting prisoners respects the order of the level's object list. */
  lemma {:induction false} PowsOfAppend(a: seq<GameObject>, b: seq<GameObject>)
    ensures PowsOf(a + b) == PowsOf(a) + PowsOf(b)
    decreases |a|
  {
    if a == [] {
      assert a + b == b;
    } else {
      assert (a + b)[1..] == a[1..] + b;
      PowsOfAppend(a[1..], b);
    }
  }

  /** The engine as constructed: first level loaded, player at its start, camera at 0, not paused. */
  function NewEngine(env: Collaborators): (e: Engine)
    ensures e.cameraX == 0.0 && !e.isPaused && !e.escapePressed && !e.hasStage
    ensures e.level == env.initialLevel
    ensures e.player.x == e.level.startX && e.player.y == e.level.startY
    ensures e.player.levelWidth == e.level.width && e.player.bullets == []
    ensures e.enemies == EnemiesOf(e.level.objects) && e.pow == PowsOf(e.level.objects)
    ensures CameraInRange(e.cameraX, e.level.width)
  {
    var level := env.initialLevel;
    var player := Player(level.startX, level.startY, level.width, Intents(false, false, false, false, false), []);
    Engine(0.0, false, false, false, player, EnemiesOf(level.objects), PowsOf(level.objects), level)
  }

  /**
   * Attaching a window (`attached`) enables the pause menu; passing no window
   * (`!attached`, the source's `null`) detaches it again.
   */
  function SetStage(e: Engine, attached: bool): (r: Engine)
    ensures r.hasStage <==> attached
    ensures r.(hasStage := e.hasStage) == e
  {
    e.(hasStage := attached)
  }

  // ---------------------------------------------------------------- pause

  function PauseGame(e: Engine): (r: Engine)
    ensures r.isPaused && r.(isPaused := e.isPaused) == e
  {
    e.(isPaused := true)
  }

  function ResumeGame(e: Engine): (r: Engine)
    ensures !r.isPaused && r.(isPaused := e.isPaused) == e
  {
    e.(isPaused := false)
  }

  /** Pausing and resuming are idempotent. */
  lemma PauseResumeIdempotent(e: Engine)
    ensures PauseGame(PauseGame(e)) == PauseGame(e)
    ensures ResumeGame(ResumeGame(e)) == ResumeGame(e)
  {
  }

  /** The pause menu pauses the game only when a window is attached. */
  function ShowPauseMenu(e: Engine): (r: Engine)
    ensures r == e.(isPaused := e.isPaused || e.hasStage)
  {
    if e.hasStage then PauseGame(e) else e
  }

  // ---------------------------------------------------------------- camera

  function Max(a: real, b: real): real { if a >= b then a else b }

  function Min(a: real, b: real): real { if a <= b then a else b }

  /** Where the camera would like to be: the player a third-and-a-half of a view from the left edge. */
  function CameraTarget(playerX: real): real
  {
    playerX - SceneWidth / CameraLeadDivisor
  }

  /** The right-most camera position of a level. */
  function MaxCameraX(levelWidth: real): real
  {
    (levelWidth - LevelEndMargin) - SceneWidth
  }

  /** The camera range of a level; it is just 0 when the level is shorter than a view plus the margin. */
  predicate CameraInRange(cameraX: real, levelWidth: real)
  {
    0.0 <= cameraX <= Max(0.0, MaxCameraX(levelWidth))
  }

  /** The camera follows the player rightwards only, clamped to the level. */
  function UpdateCamera(cameraX: real, playerX: real, levelWidth: real): (r: real)
    ensures CameraTarget(playerX) <= cameraX ==> r == cameraX
    ensures cameraX < CameraTarget(playerX) ==> CameraInRange(r, levelWidth)
    ensures cameraX < CameraTarget(playerX) <= MaxCameraX(levelWidth) && 0.0 <= CameraTarget(playerX) ==>
              r == CameraTarget(playerX)
    ensures cameraX < CameraTarget(playerX) && MaxCameraX(levelWidth) < CameraTarget(playerX) ==>
              r == Max(0.0, MaxCameraX(levelWidth))
    ensures cameraX < CameraTarget(playerX) < 0.0 ==> r == 0.0
    ensures CameraInRange(cameraX, levelWidth) ==> cameraX <= r && CameraInRange(r, levelWidth)
  {
    var target := CameraTarget(playerX);
    if target > cameraX then Max(0.0, Min(target, MaxCameraX(levelWidth))) else cameraX
  }

  // ---------------------------------------------------------------- enemies

  /** The activation test each variant supplies; other subclasses never activate. */
  predicate ShouldActivate(env: Collaborators, e: Enemy, playerX: real, cameraX: real)
  {
    match e.variant
    case Basic => env.basicShouldActivate(e, playerX, cameraX, SceneWidth)
    case Shielded => env.shieldedShouldActivate(e, playerX, cameraX, SceneWidth)
    case OtherEnemy => false
  }

  /** An inactive enemy becomes active exactly when its test holds; the engine never deactivates one. */
  function Activate(env: Collaborators, e: Enemy, playerX: real, cameraX: real): (r: Enemy)
    ensures r.active <==> e.active || ShouldActivate(env, e, playerX, cameraX)
    ensures r == e.(active := r.active)
  {
    if !e.active && ShouldActivate(env, e, playerX, cameraX) then e.(active := true) else e
  }

  /**
   * One enemy's turn: activation, its generic update, then (if active) the
   * variant's behaviour. An object's class never changes, so the variant is
   * kept whatever the collaborators return.
   */
  function StepEnemy(env: Collaborators, e: Enemy, player: Player, cameraX: real): (r: (Enemy, Player))
    ensures r.0.variant == e.variant
    ensures e.variant != Shielded ==> r.1 == player
  {
    var activated := Activate(env, e, player.x, cameraX);
    var updated := env.enemyUpdate(activated, cameraX, SceneWidth).(variant := e.variant);
    if !updated.active then (updated, player)
    else
      match e.variant
      case Basic => (env.basicBehavior(updated, player.x).(variant := e.variant), player)
      case Shielded =>
        var (shielded, p) := env.shieldedBehavior(updated, player);
        (shielded.(variant := e.variant), p)
      case OtherEnemy => (updated, player)
  }

  /** The enemies after their turns, in list order, and the player they leave behind. */
  datatype EnemyTurns = EnemyTurns(enemies: seq<Enemy>, player: Player)

  /** Every enemy takes its turn, the last one first; the player is threaded through. */
  function TakeTurns(env: Collaborators, es: seq<Enemy>, player: Player, cameraX: real): (r: EnemyTurns)
    ensures |r.enemies| == |es|
    ensures forall i :: 0 <= i < |es| ==> r.enemies[i].variant == es[i].variant
    decreases |es|
  {
    if es == [] then EnemyTurns([], player)
    else
      var rest := TakeTurns(env, es[1..], player, cameraX);
      var (e, p) := StepEnemy(env, es[0], rest.player, cameraX);
      EnemyTurns([e] + rest.enemies, p)
  }

  /** Dead and past its removal delay: purged from the list. */
  predicate Removable(e: Enemy) { e.dead && e.readyToRemove }

  predicate Stays(e: Enemy) { !Removable(e) }

  /** What removal does to an enemy: a basic enemy's bullets are released and its list cleared. */
  function Release(e: Enemy): (r: Enemy)
    ensures r.variant == Basic ==> r.bullets == []
    ensures r.(bullets := e.bullets) == e
  {
    if e.variant == Basic then e.(bullets := []) else e
  }

  /**
   * The enemy sweep as the source runs it: from the last index down to 0,
   * take the enemy's turn and remove it in place when it is removable.
   */
  method UpdateEnemies(env: Collaborators, es: seq<Enemy>, player: Player, cameraX: real)
    returns (kept: seq<Enemy>, removed: seq<Enemy>, p: Player)
    ensures kept == Seqs.Filter(TakeTurns(env, es, player, cameraX).enemies, Stays)
    ensures removed == Seqs.Map(Seqs.Filter(TakeTurns(env, es, player, cameraX).enemies, Removable), Release)
    ensures p == TakeTurns(env, es, player, cameraX).player
    ensures |kept| + |removed| == |es|
    ensures forall i :: 0 <= i < |kept| ==> !Removable(kept[i])
    ensures forall i :: 0 <= i < |removed| ==>
              Removable(removed[i]) && (removed[i].variant == Basic ==> removed[i].bullets == [])
  {
    kept := es;
    removed := [];
    p := player;
    var i := |es|;
    while i > 0
      invariant SweptFrom(env, es, player, cameraX, i, kept, removed, p)
      decreases i
    {
      i := i - 1;
      assert kept[i] == kept[..i + 1][i] == es[i];
      var turn := StepEnemy(env, kept[i], p, cameraX);
      var e := turn.0;
      if Removable(e) {
        SweepStepRemove(env, es, player, cameraX, i + 1, kept, removed, p);
      } else {
        SweepStepKeep(env, es, player, cameraX, i + 1, kept, removed, p);
      }
      p := turn.1;
      if Removable(e) {
        removed := [Release(e)] + removed;
        kept := kept[..i] + kept[i + 1..];
      } else {
        kept := kept[..i] + [e] + kept[i + 1..];
      }
    }
    assert es[0..] == es;
    SweepOutcome(TakeTurns(env, es, player, cameraX).enemies);
    forall i | 0 <= i < |kept| ensures !Removable(kept[i]) {
      assert kept[i] in kept;
    }
  }

  /**
   * The state of the enemy sweep once indices `i` and above are done: the
   * untouched prefix, the survivors of the turns taken so far, the released
   * enemies in index order, and the player after those turns.
   */
  ghost predicate SweptFrom(env: Collaborators, es: seq<Enemy>, player: Player, cameraX: real,
                            i: int, kept: seq<Enemy>, removed: seq<Enemy>, p: Player)
  {
    && 0 <= i <= |es| && i <= |kept|
    && kept[..i] == es[..i]
    && var turns := TakeTurns(env, es[i..], player, cameraX);
       && kept[i..] == Seqs.Filter(turns.enemies, Stays)
       && removed == Seqs.Map(Seqs.Filter(turns.enemies, Removable), Release)
       && p == turns.player
  }

  /** One iteration of the sweep that removes the enemy at index `i - 1`. */
  lemma SweepStepRemove(env: Collaborators, es: seq<Enemy>, player: Player, cameraX: real,
                        i: int, kept: seq<Enemy>, removed: seq<Enemy>, p: Player)
    requires 0 < i && SweptFrom(env, es, player, cameraX, i, kept, removed, p)
    requires Removable(StepEnemy(env, es[i - 1], p, cameraX).0)
    ensures var turn := StepEnemy(env, es[i - 1], p, cameraX);
            SweptFrom(env, es, player, cameraX, i - 1, kept[..i - 1] + kept[i..], [Release(turn.0)] + removed, turn.1)
  {
    var rest := TakeTurns(env, es[i..], player, cameraX).enemies;
    var e := StepEnemy(env, es[i - 1], p, cameraX).0;
    TakeTurnsStep(env, es, i - 1, player, cameraX);
    Seqs.FilterCons(e, rest, Stays);
    Seqs.FilterCons(e, rest, Removable);
    Seqs.MapCons(e, Seqs.Filter(rest, Removable), Release);
    Seqs.ReplaceAt(kept, es, i, []);
  }

  /** One iteration of the sweep that keeps the enemy at index `i - 1`, updated in place. */
  lemma SweepStepKeep(env: Collaborators, es: seq<Enemy>, player: Player, cameraX: real,
                      i: int, kept: seq<Enemy>, removed: seq<Enemy>, p: Player)
    requires 0 < i && SweptFrom(env, es, player, cameraX, i, kept, removed, p)
    requires !Removable(StepEnemy(env, es[i - 1], p, cameraX).0)
    ensures var turn := StepEnemy(env, es[i - 1], p, cameraX);
            SweptFrom(env, es, player, cameraX, i - 1, kept[..i - 1] + [turn.0] + kept[i..], removed, turn.1)
  {
    var rest := TakeTurns(env, es[i..], player, cameraX).enemies;
    var e := StepEnemy(env, es[i - 1], p, cameraX).0;
    TakeTurnsStep(env, es, i - 1, player, cameraX);
    Seqs.FilterCons(e, rest, Stays);
    Seqs.FilterCons(e, rest, Removable);
    Seqs.ReplaceAt(kept, es, i, [e]);
  }

  /** Taking the turn of the enemy at index `i` extends the turns already taken by those after it. */
  lemma TakeTurnsStep(env: Collaborators, es: seq<Enemy>, i: int, player: Player, cameraX: real)
    requires 0 <= i < |es|
    ensures var rest := TakeTurns(env, es[i + 1..], player, cameraX);
            var turn := StepEnemy(env, es[i], rest.player, cameraX);
            TakeTurns(env, es[i..], player, cameraX) == EnemyTurns([turn.0] + rest.enemies, turn.1)
  {
    assert es[i..][1..] == es[i + 1..];
  }

  /**
   * The turn order, index by index: enemy i plays against the player left by
   * the turns of every later index, so the last enemy meets the player as the
   * frame handed it over.
   */
  lemma {:induction false} TakeTurnsOrder(env: Collaborators, es: seq<Enemy>, player: Player, cameraX: real)
    ensures forall i :: 0 <= i < |es| ==>
              TakeTurns(env, es, player, cameraX).enemies[i]
              == StepEnemy(env, es[i], TakeTurns(env, es[i + 1..], player, cameraX).player, cameraX).0
    ensures |es| > 0 ==>
              TakeTurns(env, es, player, cameraX).enemies[|es| - 1] == StepEnemy(env, es[|es| - 1], player, cameraX).0
    decreases |es|
  {
    if es != [] {
      var r := TakeTurns(env, es, player, cameraX);
      var rest := TakeTurns(env, es[1..], player, cameraX);
      TakeTurnsOrder(env, es[1..], player, cameraX);
      forall i | 0 < i < |es|
        ensures r.enemies[i] == StepEnemy(env, es[i], TakeTurns(env, es[i + 1..], player, cameraX).player, cameraX).0
      {
        assert es[1..][i - 1] == es[i];
        assert es[1..][i..] == es[i + 1..];
        assert r.enemies[i] == rest.enemies[i - 1];
      }
      assert es[|es|..] == [];
    }
  }

  /** The kept enemies are those that stay, the removed ones are released removable ones, and none is lost. */
  lemma SweepOutcome(turns: seq<Enemy>)
    ensures |Seqs.Filter(turns, Stays)| + |Seqs.Map(Seqs.Filter(turns, Removable), Release)| == |turns|
    ensures forall x :: x in Seqs.Filter(turns, Stays) ==> !Removable(x)
    ensures forall i :: 0 <= i < |Seqs.Map(Seqs.Filter(turns, Removable), Release)| ==>
              var gone := Seqs.Map(Seqs.Filter(turns, Removable), Release)[i];
              Removable(gone) && (gone.variant == Basic ==> gone.bullets == [])
  {
    var gone := Seqs.Filter(turns, Removable);
    Seqs.FilterPartition(turns, Stays, Removable);
    forall i | 0 <= i < |gone| ensures Removable(gone[i]) {
      assert gone[i] in gone;
    }
  }

  // ---------------------------------------------------------------- bullets

  /** A bullet survives the sweep when it is still active and inside the level. */
  predicate Survives(env: Collaborators, b: Bullet, levelWidth: real)
  {
    b.active && !env.isOutOfBounds(b, levelWidth)
  }

  function MoveBullet(env: Collaborators, cameraX: real): Bullet -> Bullet
  {
    (b: Bullet) => env.bulletUpdate(b, cameraX)
  }

  function KeepBullet(env: Collaborators, levelWidth: real): Bullet -> bool
  {
    (b: Bullet) => Survives(env, b, levelWidth)
  }

  /** One shooter's bullets after the sweep: each moved once, the spent ones dropped, order kept. */
  function SweepBullets(env: Collaborators, bullets: seq<Bullet>, cameraX: real, levelWidth: real): (r: seq<Bullet>)
    ensures |r| <= |bullets|
    ensures forall b :: b in r ==> Survives(env, b, levelWidth)
    ensures forall b :: b in r ==> exists i :: 0 <= i < |bullets| && b == env.bulletUpdate(bullets[i], cameraX)
    ensures forall i :: 0 <= i < |bullets| && Survives(env, env.bulletUpdate(bullets[i], cameraX), levelWidth) ==>
              env.bulletUpdate(bullets[i], cameraX) in r
  {
    var moved := Seqs.Map(bullets, MoveBullet(env, cameraX));
    var r := Seqs.Filter(moved, KeepBullet(env, levelWidth));
    assert forall i :: 0 <= i < |bullets| ==> moved[i] in moved;
    r
  }

  /**
   * The sweep keeps the survivors in their original order: sweeping a list
   * split in two is sweeping each part and putting the results side by side.
   */
  lemma SweepKeepsOrder(env: Collaborators, a: seq<Bullet>, b: seq<Bullet>, cameraX: real, levelWidth: real)
    ensures SweepBullets(env, a + b, cameraX, levelWidth)
            == SweepBullets(env, a, cameraX, levelWidth) + SweepBullets(env, b, cameraX, levelWidth)
  {
    Seqs.MapAppend(a, b, MoveBullet(env, cameraX));
    Seqs.FilterAppend(Seqs.Map(a, MoveBullet(env, cameraX)), Seqs.Map(b, MoveBullet(env, cameraX)), KeepBullet(env, levelWidth));
  }

  /**
   * The bullet sweep as the source runs it: from the last index down to 0,
   * move the bullet and remove it in place when it is spent.
   */
  method UpdateBulletsForEntity(env: Collaborators, bullets: seq<Bullet>, cameraX: real, levelWidth: real)
    returns (r: seq<Bullet>)
    ensures r == SweepBullets(env, bullets, cameraX, levelWidth)
    ensures |r| <= |bullets|
    ensures forall i :: 0 <= i < |r| ==> Survives(env, r[i], levelWidth)
  {
    r := bullets;
    var i := |bullets|;
    while i > 0
      invariant 0 <= i <= |bullets| && i <= |r|
      invariant r[..i] == bullets[..i]
      invariant r[i..] == Seqs.Filter(Seqs.Map(bullets[i..], MoveBullet(env, cameraX)), KeepBullet(env, levelWidth))
      decreases i
    {
      ghost var tail := Seqs.Map(bullets[i..], MoveBullet(env, cameraX));
      i := i - 1;
      assert r[i] == r[..i + 1][i] == bullets[i];
      var b := env.bulletUpdate(r[i], cameraX);
      assert bullets[i..] == [bullets[i]] + bullets[i + 1..];
      Seqs.MapCons(bullets[i], bullets[i + 1..], MoveBullet(env, cameraX));
      Seqs.FilterCons(b, tail, KeepBullet(env, levelWidth));
      if !b.active || env.isOutOfBounds(b, levelWidth) {
        Seqs.ReplaceAt(r, bullets, i + 1, []);
        r := r[..i] + r[i + 1..];
      } else {
        Seqs.ReplaceAt(r, bullets, i + 1, [b]);
        r := r[..i] + [b] + r[i + 1..];
      }
    }
    assert bullets[0..] == bullets;
    forall k | 0 <= k < |r| ensures Survives(env, r[k], levelWidth) {
      assert r[k] in r;
    }
  }

  function SweepShooter(env: Collaborators, cameraX: real, levelWidth: real): Enemy -> Enemy
  {
    (e: Enemy) => if e.variant == Basic then e.(bullets := SweepBullets(env, e.bullets, cameraX, levelWidth)) else e
  }

  /** The shooters are the player and every basic enemy still in the list; nothing else changes. */
  function UpdateAllBullets(env: Collaborators, player: Player, es: seq<Enemy>, cameraX: real, levelWidth: real)
    : (r: (Player, seq<Enemy>))
    ensures r.0 == player.(bullets := r.0.bullets)
    ensures forall b :: b in r.0.bullets ==> Survives(env, b, levelWidth)
    ensures |r.1| == |es|
    ensures forall i :: 0 <= i < |es| ==> r.1[i] == es[i].(bullets := r.1[i].bullets)
    ensures forall i :: 0 <= i < |es| && es[i].variant != Basic ==> r.1[i] == es[i]
    ensures forall i, b :: 0 <= i < |es| && es[i].variant == Basic && b in r.1[i].bullets ==>
              Survives(env, b, levelWidth)
    ensures r.0.bullets == SweepBullets(env, player.bullets, cameraX, levelWidth)
    ensures forall i :: 0 <= i < |es| && es[i].variant == Basic ==>
              r.1[i].bullets == SweepBullets(env, es[i].bullets, cameraX, levelWidth)
  {
    (player.(bullets := SweepBullets(env, player.bullets, cameraX, levelWidth)),
     Seqs.Map(es, SweepShooter(env, cameraX, levelWidth)))
  }

  // ---------------------------------------------------------------- platforms and prisoners

  function PlatformStep(env: Collaborators, cameraX: real): GameObject -> GameObject
  {
    (o: GameObject) => if o.PlatformObject? then PlatformObject(env.platformUpdate(o.platform, cameraX, SceneWidth)) else o
  }

  /** Platforms scroll with the camera; the level's other entries and its geometry are untouched. */
  function UpdatePlatforms(env: Collaborators, level: Level, cameraX: real): (r: Level)
    ensures r.width == level.width && r.startX == level.startX && r.startY == level.startY
    ensures |r.objects| == |level.objects|
    ensures forall i :: 0 <= i < |level.objects| && !level.objects[i].PlatformObject? ==>
              r.objects[i] == level.objects[i]
    ensures forall i :: 0 <= i < |level.objects| && level.objects[i].PlatformObject? ==>
              r.objects[i] == PlatformObject(env.platformUpdate(level.objects[i].platform, cameraX, SceneWidth))
  {
    level.(objects := Seqs.Map(level.objects, PlatformStep(env, cameraX)))
  }

  function PowStep(cameraX: real, playerX: real): Pow.Pow -> Pow.Pow
  {
    (p: Pow.Pow) => Pow.Update(p, cameraX, playerX)
  }

  // ---------------------------------------------------------------- the frame

  /**
   * The first half of a frame, up to the collisions: the player reads its
   * input and moves, physics resolves it against the level, every enemy
   * takes its turn (last index first), the removable ones are dropped, and
   * bullet and melee collisions are resolved in that order.
   */
  function AfterCollisions(env: Collaborators, e: Engine, input: Input): (Player, seq<Enemy>)
  {
    var p := env.playerUpdate(e.player.(intents := input.intents), e.cameraX, SceneWidth);
    var p := env.physics(p, e.level);
    var turns := TakeTurns(env, e.enemies, p, e.cameraX);
    var es := Seqs.Filter(turns.enemies, Stays);
    var (p, es) := env.bulletCollisions(turns.player, es, e.cameraX, SceneWidth);
    env.meleeCollisions(p, es)
  }

  /**
   * One frame. A fresh escape press only raises the debounce flag and opens
   * the pause menu, dropping the rest of the frame; otherwise the steps run in
   * the fixed order: input, player, physics, enemies, collisions, prisoners,
   * platforms, bullets, camera.
   */
  function Update(env: Collaborators, e: Engine, input: Input): (r: Engine)
    ensures input.escape && !e.escapePressed ==>
              r == e.(escapePressed := true, isPaused := e.isPaused || e.hasStage)
    ensures !(input.escape && !e.escapePressed) ==> r.escapePressed == input.escape && r.isPaused == e.isPaused
    ensures !(input.escape && !e.escapePressed) ==>
              (r.player, r.enemies)
              == UpdateAllBullets(env, AfterCollisions(env, e, input).0, AfterCollisions(env, e, input).1,
                                  e.cameraX, e.level.width)
    ensures !(input.escape && !e.escapePressed) ==> r.level == UpdatePlatforms(env, e.level, e.cameraX)
    ensures !(input.escape && !e.escapePressed) ==> r.cameraX == UpdateCamera(e.cameraX, r.player.x, e.level.width)
    ensures !(input.escape && !e.escapePressed) ==> forall b :: b in r.player.bullets ==> Survives(env, b, e.level.width)
    ensures !(input.escape && !e.escapePressed) ==>
              forall i, b :: 0 <= i < |r.enemies| && r.enemies[i].variant == Basic && b in r.enemies[i].bullets ==>
                Survives(env, b, e.level.width)
    ensures !(input.escape && !e.escapePressed) ==> |r.pow| == |e.pow|
    ensures !(input.escape && !e.escapePressed) ==>
              forall i :: 0 <= i < |e.pow| ==> r.pow[i] == Pow.Update(e.pow[i], e.cameraX, r.player.x)
    ensures r.hasStage == e.hasStage
    ensures r.level.width == e.level.width
    ensures CameraInRange(e.cameraX, e.level.width) ==> e.cameraX <= r.cameraX && CameraInRange(r.cameraX, r.level.width)
  {
    if input.escape && !e.escapePressed then
      ShowPauseMenu(e.(escapePressed := true))
    else
      var cleared := if !input.escape then e.(escapePressed := false) else e;
      var (p, es) := AfterCollisions(env, cleared, input);
      var pows := Seqs.Map(cleared.pow, PowStep(cleared.cameraX, p.x));
      var level := UpdatePlatforms(env, cleared.level, cleared.cameraX);
      var (p, es) := UpdateAllBullets(env, p, es, cleared.cameraX, level.width);
      var cameraX := UpdateCamera(cleared.cameraX, p.x, level.width);
      cleared.(player := p, enemies := es, pow := pows, level := level, cameraX := cameraX)
  }

  /**
   * The timer callback: nothing happens while paused. `None` stands for a
   * missing input manager, where the source fails on its first read of the
   * escape key before changing any state; the failure itself is not modelled.
   */
  function Handle(env: Collaborators, e: Engine, input: Option<Input>): (r: Engine)
    ensures e.isPaused || input.None? ==> r == e
    ensures !e.isPaused && input.Some? ==> r == Update(env, e, input.value)
    ensures r.isPaused ==> e.isPaused || e.hasStage
    ensures r.hasStage == e.hasStage
    ensures r.level.width == e.level.width
    ensures CameraInRange(e.cameraX, e.level.width) ==> e.cameraX <= r.cameraX && CameraInRange(r.cameraX, r.level.width)
  {
    if e.isPaused then e
    else match input
      case None => e
      case Some(i) => Update(env, e, i)
  }

  /** Feeds one input snapshot per frame, in order. */
  function RunFrames(env: Collaborators, e: Engine, inputs: seq<Option<Input>>): (r: Engine)
    decreases |inputs|
  {
    if inputs == [] then e else RunFrames(env, Handle(env, e, inputs[0]), inputs[1..])
  }

  /** Within a level the camera never scrolls back and never leaves the level's range. */
  lemma {:induction false} CameraNeverScrollsBack(env: Collaborators, e: Engine, inputs: seq<Option<Input>>)
    requires CameraInRange(e.cameraX, e.level.width)
    ensures RunFrames(env, e, inputs).level.width == e.level.width
    ensures e.cameraX <= RunFrames(env, e, inputs).cameraX
    ensures CameraInRange(RunFrames(env, e, inputs).cameraX, e.level.width)
    decreases |inputs|
  {
    if inputs != [] {
      CameraNeverScrollsBack(env, Handle(env, e, inputs[0]), inputs[1..]);
    }
  }

  /** A paused game stays exactly as it is, however many frames pass. */
  lemma {:induction false} PausedFramesDoNothing(env: Collaborators, e: Engine, inputs: seq<Option<Input>>)
    requires e.isPaused
    ensures RunFrames(env, e, inputs) == e
    decreases |inputs|
  {
    if inputs != [] {
      PausedFramesDoNothing(env, Handle(env, e, inputs[0]), inputs[1..]);
    }
  }

  /**
   * Escape debounce: a press pauses (with a window attached) and drops the
   * frame; after resuming, the same held key does not pause again, and
   * releasing it clears the flag.
   */
  lemma EscapeDebounce(env: Collaborators, e: Engine, held: Input, released: Input)
    requires !e.isPaused && !e.escapePressed && e.hasStage
    requires held.escape && !released.escape
    ensures var paused := Handle(env, e, Some(held));
            && paused == e.(escapePressed := true, isPaused := true)
            && var again := Handle(env, ResumeGame(paused), Some(held));
               && again.escapePressed && !again.isPaused
               && !Handle(env, again, Some(released)).escapePressed
  {
  }

  // ---------------------------------------------------------------- level changes

  /**
   * Loads another level: camera back to 0, player at the new start, the
   * enemy list replaced by the new level's enemies; the new prisoners are
   * appended to the old ones, which are never cleared.
   */
  function ChangeLevel(env: Collaborators, e: Engine, levelNumber: int): (r: Engine)
    ensures r.level == env.loadLevel(levelNumber)
    ensures r.cameraX == 0.0 && CameraInRange(r.cameraX, r.level.width)
    ensures r.player.x == r.level.startX && r.player.y == r.level.startY && r.player.levelWidth == r.level.width
    ensures r.player.bullets == e.player.bullets && r.player.intents == e.player.intents
    ensures r.enemies == EnemiesOf(r.level.objects)
    ensures r.pow == e.pow + PowsOf(r.level.objects)
    ensures r.isPaused == e.isPaused && r.escapePressed == e.escapePressed && r.hasStage == e.hasStage
  {
    var level := env.loadLevel(levelNumber);
    e.(level := level,
       enemies := EnemiesOf(level.objects),
       pow := e.pow + PowsOf(level.objects),
       player := e.player.(x := level.startX, y := level.startY, levelWidth := level.width),
       cameraX := 0.0)
  }

  /** Applies `ChangeLevel` for each level number in turn. */
  function ChangeLevels(env: Collaborators, e: Engine, levelNumbers: seq<int>): (r: Engine)
    decreases |levelNumbers|
  {
    if levelNumbers == [] then e else ChangeLevels(env, ChangeLevel(env, e, levelNumbers[0]), levelNumbers[1..])
  }

  /** The prisoners of every level visited, in visiting order. */
  function VisitedPows(env: Collaborators, levelNumbers: seq<int>): seq<Pow.Pow>
    decreases |levelNumbers|
  {
    if levelNumbers == [] then []
    else PowsOf(env.loadLevel(levelNumbers[0]).objects) + VisitedPows(env, levelNumbers[1..])
  }

  /**
   * Prisoners pile up across level changes: after any run of changes the
   * list is the original one followed by every visited level's prisoners.
   */
  lemma {:induction false} PrisonersAccumulate(env: Collaborators, e: Engine, levelNumbers: seq<int>)
    ensures ChangeLevels(env, e, levelNumbers).pow == e.pow + VisitedPows(env, levelNumbers)
    decreases |levelNumbers|
  {
    if levelNumbers != [] {
      var next := ChangeLevel(env, e, levelNumbers[0]);
      var found := PowsOf(env.loadLevel(levelNumbers[0]).objects);
      var later := VisitedPows(env, levelNumbers[1..]);
      assert ChangeLevels(env, e, levelNumbers) == ChangeLevels(env, next, levelNumbers[1..]);
      assert VisitedPows(env, levelNumbers) == found + later;
      PrisonersAccumulate(env, next, levelNumbers[1..]);
      assert next.pow + later == (e.pow + found) + later == e.pow + (found + later);
    }
  }

  /** Enemies, unlike prisoners, do not pile up: after a run of level changes only the last level's are left. */
  lemma {:induction false} EnemiesOfLastLevel(env: Collaborators, e: Engine, levelNumbers: seq<int>)
    requires levelNumbers != []
    ensures ChangeLevels(env, e, levelNumbers).enemies == EnemiesOf(env.loadLevel(levelNumbers[|levelNumbers| - 1]).objects)
    decreases |levelNumbers|
  {
    if |levelNumbers| > 1 {
      EnemiesOfLastLevel(env, ChangeLevel(env, e, levelNumbers[0]), levelNumbers[1..]);
      assert levelNumbers[1..][|levelNumbers[1..]| - 1] == levelNumbers[|levelNumbers| - 1];
    }
  }
}
