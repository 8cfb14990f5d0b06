/** The moving entities of game.js: Obstacle, PowerUp and Bullet. Each object
    of these classes is held by exactly one of the game's arrays and by nothing
    else, so an entity is a value here and its `update()` gives the moved value. */
module Entities {
  import opened Collision

  const ObstacleY: real := 150.0
  const ObstacleWidth: real := 20.0
  const ObstacleMinHeight: real := 40.0
  const ObstacleHeightRange: real := 20.0

  const PowerUpSpawnRange: real := 400.0
  const PowerUpMinY: real := 100.0
  const PowerUpYRange: real := 40.0
  const PowerUpSize: real := 20.0
  /** A power-up drifts at this fraction of the game speed. */
  const PowerUpSpeedScale: real := 0.8

  const BulletWidth: real := 10.0
  const BulletHeight: real := 4.0
  const BulletSpeed: real := 8.0

  /** A value drawn by `Math.random()`. */
  predicate IsRandom(r: real) { 0.0 <= r < 1.0 }

  datatype Obstacle = Obstacle(x: real, y: real, width: real, height: real, speed: real)
  {
    function Box(): Rect { Rect(x, y, width, height) }

    /** Obstacle.update: scrolls left by the speed fixed at its creation. */
    function Update(): (o: Obstacle)
      ensures o.x == x - speed && o == this.(x := o.x)
    {
      this.(x := x - speed)
    }
  }

  /** `new Obstacle()`: at the right edge, on the ground line, with a random
      height and the game speed of the moment. */
  function NewObstacle(canvasWidth: real, gameSpeed: real, random: real): (o: Obstacle)
    requires IsRandom(random)
    ensures o.x == canvasWidth && o.y == ObstacleY && o.width == ObstacleWidth
    ensures ObstacleMinHeight <= o.height < ObstacleMinHeight + ObstacleHeightRange
    ensures o.speed == gameSpeed && o.Box().Proper()
  {
    Obstacle(canvasWidth, ObstacleY, ObstacleWidth, ObstacleMinHeight + random * ObstacleHeightRange, gameSpeed)
  }

  datatype PowerUp = PowerUp(x: real, y: real, width: real, height: real, speed: real, collected: bool)
  {
    function Box(): Rect { Rect(x, y, width, height) }

    /** PowerUp.update: a collected power-up stands still, any other one
        scrolls left by its speed. */
    function Update(): (p: PowerUp)
      ensures collected ==> p == this
      ensures !collected ==> p.x == x - speed
      ensures p == this.(x := p.x)
    {
      if !collected then this.(x := x - speed) else this
    }

    /** PowerUp.checkCollision(dino): never once collected, and otherwise
        exactly when the two boxes overlap, in either order. */
    predicate CheckCollision(dino: Rect)
      ensures collected ==> !CheckCollision(dino)
      ensures !collected ==> (CheckCollision(dino) <==> Overlaps(Box(), dino))
    {
      OverlapsSymmetric(dino, Box());
      !collected && Overlaps(dino, Box())
    }
  }

  /** `new PowerUp()`: somewhere in the 400 units right of the edge, at a random
      height band, at 0.8 times the game speed, not collected. */
  function NewPowerUp(canvasWidth: real, gameSpeed: real, randomX: real, randomY: real): (p: PowerUp)
    requires IsRandom(randomX) && IsRandom(randomY)
    ensures canvasWidth <= p.x < canvasWidth + PowerUpSpawnRange
    ensures PowerUpMinY <= p.y < PowerUpMinY + PowerUpYRange
    ensures p.speed == gameSpeed * PowerUpSpeedScale && !p.collected
    ensures p.width == PowerUpSize && p.height == PowerUpSize && p.Box().Proper()
  {
    PowerUp(canvasWidth + randomX * PowerUpSpawnRange, PowerUpMinY + randomY * PowerUpYRange,
            PowerUpSize, PowerUpSize, gameSpeed * PowerUpSpeedScale, false)
  }

  datatype Bullet = Bullet(x: real, y: real, width: real, height: real, speed: real, active: bool)
  {
    function Box(): Rect { Rect(x, y, width, height) }

    /** Bullet.update: an active bullet flies right by its speed, a spent one
        stands still. */
    function Update(): (b: Bullet)
      ensures active ==> b.x == x + speed
      ensures !active ==> b == this
      ensures b == this.(x := b.x)
    {
      if active then this.(x := x + speed) else this
    }

    /** Bullet.checkCollision(obstacle): never once spent, and otherwise
        exactly when the two boxes overlap, in either order. */
    predicate CheckCollision(obstacle: Obstacle)
      ensures !active ==> !CheckCollision(obstacle)
      ensures active ==> (CheckCollision(obstacle) <==> Overlaps(obstacle.Box(), Box()))
    {
      OverlapsSymmetric(Box(), obstacle.Box());
      active && Overlaps(Box(), obstacle.Box())
    }
  }

  /** `new Bullet(x, y)`. */
  function NewBullet(x: real, y: real): (b: Bullet)
    ensures b.x == x && b.y == y && b.active && b.speed == BulletSpeed
    ensures b.width == BulletWidth && b.height == BulletHeight && b.Box().Proper()
  {
    Bullet(x, y, BulletWidth, BulletHeight, BulletSpeed, true)
  }

  /** A collected power-up is never picked up again. */
  lemma CollectedNeverCollides(p: PowerUp, dino: Rect)
    requires p.collected
    ensures !p.CheckCollision(dino) && !p.Update().CheckCollision(dino)
  {
  }

  /** A spent bullet never hits anything. */
  lemma SpentBulletNeverHits(b: Bullet, obstacle: Obstacle)
    requires !b.active
    ensures !b.CheckCollision(obstacle) && !b.Update().CheckCollision(obstacle)
  {
  }
}
