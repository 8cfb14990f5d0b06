/** The global state of game.js and the functions that change it in place:
    the variables, the three entity arrays, the dino object, the spawns, the
    shot, the score, the reset, the input handlers and one frame of gameLoop.
    Each method is proved to do what the matching function of Rules says. */
module GameState {
  import opened Entities
  import opened Player
  import opened Passes
  import Rules

  class Game {
    /** canvas.width, fixed while the page runs. */
    const canvasWidth: real
    const dino: Dino
    var gameRunning: bool
    var gameOver: bool
    var score: nat
    var highScore: nat
    var gameSpeed: real
    var frameCount: nat
    var powerUpCount: nat
    var obstacles: seq<Obstacle>
    var powerUps: seq<PowerUp>
    var bullets: seq<Bullet>

    function State(): Rules.Session
      reads this, dino
    {
      Rules.Session(gameRunning, gameOver, score, highScore, gameSpeed, frameCount, powerUpCount,
                    dino.State(), obstacles, powerUps, bullets)
    }

    predicate Valid()
      reads this, dino
    {
      Rules.Valid(State())
    }

    /** The page load, with the high score read from storage. */
    constructor (width: real, storedHighScore: nat)
      ensures canvasWidth == width
      ensures State() == Rules.Initial(storedHighScore) && Valid()
    {
      canvasWidth := width;
      dino := new Dino();
      gameRunning, gameOver := false, false;
      score, highScore := 0, storedHighScore;
      gameSpeed, frameCount, powerUpCount := 3.0, 0, 0;
      obstacles, powerUps, bullets := [], [], [];
    }

    method SpawnObstacle(random: real)
      requires IsRandom(random)
      modifies this
      ensures State() == Rules.SpawnObstacle(old(State()), canvasWidth, random)
    {
      if |obstacles| == 0 || canvasWidth - obstacles[|obstacles| - 1].x > Rules.MinDistance {
        obstacles := obstacles + [NewObstacle(canvasWidth, gameSpeed, random)];
      }
    }

    method SpawnPowerUp(roll: real, randomX: real, randomY: real)
      requires IsRandom(roll) && IsRandom(randomX) && IsRandom(randomY)
      modifies this
      ensures State() == Rules.SpawnPowerUp(old(State()), canvasWidth, roll, randomX, randomY)
    {
      if roll < Rules.PowerUpChance {
        powerUps := powerUps + [NewPowerUp(canvasWidth, gameSpeed, randomX, randomY)];
      }
    }

    method ShootBullet()
      modifies this
      ensures State() == Rules.ShootBullet(old(State()))
    {
      if powerUpCount > 0 {
        var bulletY := dino.y + dino.height / 2.0;
        bullets := bullets + [NewBullet(dino.x + dino.width, bulletY)];
        powerUpCount := powerUpCount - 1;
      }
    }

    method UpdateScore()
      modifies this
      ensures State() == Rules.UpdateScore(old(State()))
    {
      if gameRunning && !gameOver {
        score := score + 1;
        if score % Rules.ScoreStep == 0 {
          gameSpeed := gameSpeed + Rules.SpeedStep;
        }
      }
    }

    method ResetGame()
      modifies this, dino
      ensures State() == Rules.ResetGame(old(State()))
    {
      obstacles, powerUps, bullets := [], [], [];
      score, gameSpeed, frameCount := 0, 3.0, 0;
      dino.y, dino.dy, dino.jumping, dino.grounded := Ground, 0.0, false, false;
      gameOver, powerUpCount := false, 0;
      assert State() == Rules.Session(old(gameRunning), false, 0, old(highScore), Rules.BaseSpeed, 0, 0,
                                      Motion(Ground, 0.0, false, false), [], [], []);
    }

    method HandleGameAction(action: Rules.Action)
      modifies this, dino
      ensures State() == Rules.HandleGameAction(old(State()), action)
      ensures old(Valid()) ==> Valid()
    {
      if !gameRunning && !gameOver {
        gameRunning := true;
      } else if gameOver {
        ResetGame();
        gameRunning := true;
      } else {
        // the third guard of the listener, gameRunning, always holds here
        match action {
          case Jump => dino.Jump();
          case Shoot => ShootBullet();
        }
      }
    }

    /** The canvas click listener. */
    method Click()
      modifies this, dino
      ensures State() == Rules.Click(old(State()))
    {
      if !gameRunning && !gameOver {
        gameRunning := true;
      } else if gameOver {
        ResetGame();
        gameRunning := true;
      } else {
        // the third guard of the listener, gameRunning, always holds here
        dino.Jump();
      }
    }

    /** The keydown listener. */
    method KeyDown(key: Rules.Key)
      modifies this, dino
      ensures State() == Rules.KeyDown(old(State()), key)
      ensures old(Valid()) ==> Valid()
    {
      if key == Rules.Space || key == Rules.ArrowUp {
        Click();
      }
      if key == Rules.KeyZ && gameRunning && !gameOver {
        ShootBullet();
      }
    }

    /** dino.update() and frameCount++. */
    method BeginFrame()
      modifies this, dino
      ensures State() == Rules.BeginFrame(old(State()))
    {
      dino.Update();
      frameCount := frameCount + 1;
    }

    /** The two timed spawns of gameLoop. */
    method SpawnPhase(random: Rules.Randomness)
      requires random.InRange()
      modifies this
      ensures State() == Rules.SpawnPhase(old(State()), canvasWidth, random)
    {
      if frameCount % Rules.ObstacleInterval == 0 {
        SpawnObstacle(random.obstacleHeight);
      }
      if frameCount % Rules.PowerUpInterval == 0 {
        SpawnPowerUp(random.powerUpRoll, random.powerUpX, random.powerUpY);
      }
    }

    /** The power-up pass of gameLoop and the ammo it gives. */
    method CollectPowerUps()
      modifies this
      ensures State() == Rules.CollectPowerUps(old(State()))
    {
      var collected;
      powerUps, collected := RunPowerUps(powerUps, dino.Box());
      powerUpCount := powerUpCount + Rules.AmmoPerPowerUp * collected;
    }

    /** The bullet pass of gameLoop. */
    method ShootObstacles()
      modifies this
      ensures State() == Rules.ShootObstacles(old(State()), canvasWidth)
    {
      bullets, obstacles := RunBullets(bullets, obstacles, canvasWidth);
    }

    /** The obstacle pass of gameLoop; a collision ends the round. */
    method MoveObstacles()
      modifies this
      ensures State() == Rules.MoveObstacles(old(State()))
    {
      var hit;
      obstacles, hit := RunObstacles(obstacles, dino.Box());
      if hit {
        gameOver := true;
        gameRunning := false;
        highScore := Rules.NewHighScore(highScore, score);
      }
    }

    /** One call of gameLoop, without the clouds and the drawing. */
    method Tick(random: Rules.Randomness)
      requires random.InRange()
      modifies this, dino
      ensures State() == Rules.Frame(old(State()), canvasWidth, random)
      ensures old(Valid()) ==> Valid()
    {
      if old(Valid()) {
        Rules.FramePreservesValid(State(), canvasWidth, random);
      }
      if !gameRunning {
        return;
      }
      if gameOver {
        return;
      }
      BeginFrame();
      SpawnPhase(random);
      CollectPowerUps();
      ShootObstacles();
      MoveObstacles();
      UpdateScore();
    }
  }
}
