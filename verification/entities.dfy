/**
 * The entities the game engine orchestrates, reduced to the state the engine
 * itself reads or writes, and the collaborators whose code is not part of
 * this model (Player, PhysicsManager, CollisionManager, the enemy variants,
 * Bullet, Platform, LevelManager), passed in as uninterpreted functions.
 */
module Entities {
  import Pow

  /** Horizontal size of the view, in world units. */
  const SceneWidth: real := 1200.0

  /** A projectile; it belongs to exactly one shooter's list. */
  datatype Bullet = Bullet(x: real, y: real, active: bool)

  /** The movement and attack intents the engine copies into the player each frame. */
  datatype Intents = Intents(left: bool, right: bool, jump: bool, crouch: bool, shoot: bool)

  /** One frame's snapshot of the input collaborator. */
  datatype Input = Input(intents: Intents, escape: bool)

  datatype Player = Player(x: real, y: real, levelWidth: real, intents: Intents, bullets: seq<Bullet>)

  /** The enemy subclasses the engine distinguishes; any other subclass never activates. */
  datatype Variant = Basic | Shielded | OtherEnemy

  datatype Enemy = Enemy(
    variant: Variant,
    x: real,
    y: real,
    active: bool,
    dead: bool,
    readyToRemove: bool,
    bullets: seq<Bullet>)

  datatype Platform = Platform(x: real, y: real, viewX: real)

  /** An entry of a level's object list. */
  datatype GameObject =
    | PlatformObject(platform: Platform)
    | EnemyObject(enemy: Enemy)
    | PowObject(prisoner: Pow.Pow)
    | OtherObject

  datatype Level = Level(width: real, startX: real, startY: real, objects: seq<GameObject>)

  /**
   * The collaborators' behaviour. Each field stands for one call the engine
   * makes; the engine relies on nothing about them beyond their types.
   */
  datatype Collaborators = Collaborators(
    initialLevel: Level,
    loadLevel: int -> Level,
    playerUpdate: (Player, real, real) -> Player,
    physics: (Player, Level) -> Player,
    basicShouldActivate: (Enemy, real, real, real) -> bool,
    shieldedShouldActivate: (Enemy, real, real, real) -> bool,
    enemyUpdate: (Enemy, real, real) -> Enemy,
    basicBehavior: (Enemy, real) -> Enemy,
    shieldedBehavior: (Enemy, Player) -> (Enemy, Player),
    bulletCollisions: (Player, seq<Enemy>, real, real) -> (Player, seq<Enemy>),
    meleeCollisions: (Player, seq<Enemy>) -> (Player, seq<Enemy>),
    platformUpdate: (Platform, real, real) -> Platform,
    bulletUpdate: (Bullet, real) -> Bullet,
    isOutOfBounds: (Bullet, real) -> bool)
}
