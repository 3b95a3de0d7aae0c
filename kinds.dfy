/**
 * The sprite kinds of the engine and the per-file variants of it.  A sprite's `name` is its kind;
 * collision profiles (`collidesWith`) are lists of kinds.
 */
module Kinds {

  /** Sprite prototypes: "ship", "enemyship", "bullet", "enemybullet", "explosion". */
  datatype Kind = Ship | EnemyShip | Bullet | EnemyBullet | Explosion

  function Name(k: Kind): string
  {
    match k
    case Ship => "ship"
    case EnemyShip => "enemyship"
    case Bullet => "bullet"
    case EnemyBullet => "enemybullet"
    case Explosion => "explosion"
  }

  /** The three copies of the engine: app/game.js, game.js and bot/bot.js. */
  datatype Variant = App | Legacy | Bot
}
