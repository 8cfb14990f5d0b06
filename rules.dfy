/** The game session of game.js as a value: the global variables, the dino's
    motion and the three entity arrays, with one function per operation that
    changes them. The Game class runs these operations in place; this module
    says what each of them does and proves what holds across them. */
module Rules {
  import opened Collision
  import opened Entities
  import opened Player
  import opened Passes

  const BaseSpeed: real := 3.0
  const SpeedStep: real := 0.5
  /** The game speeds up every time the score reaches a multiple of this. */
  const ScoreStep: nat := 200
  const ObstacleInterval: nat := 100
  const PowerUpInterval: nat := 250
  /** The right edge must be more than this far past the last obstacle. */
  const MinDistance: real := 200.0
  const PowerUpChance: real := 0.3
  const AmmoPerPowerUp: nat := 3

  datatype Session = Session(
    running: bool,          // gameRunning
    over: bool,             // gameOver
    score: nat,             // raw score, one per frame played
    highScore: nat,
    speed: real,            // gameSpeed
    frameCount: nat,
    ammo: nat,              // powerUpCount
    dino: Motion,
    obstacles: seq<Obstacle>,
    powerUps: seq<PowerUp>,
    bullets: seq<Bullet>)

  /** The three states the controller can be in. */
  datatype Phase = Idle | Playing | Over

  function PhaseOf(s: Session): Phase
  {
    if s.over then Over else if s.running then Playing else Idle
  }

  /** What an input does while playing: jump, or shoot (the mobile buttons). */
  datatype Action = Jump | Shoot

  /** The keys the keydown handler tells apart. */
  datatype Key = Space | ArrowUp | KeyZ | OtherKey

  /** The four `Math.random()` draws a frame may make. */
  datatype Randomness = Randomness(obstacleHeight: real, powerUpRoll: real, powerUpX: real, powerUpY: real)
  {
    predicate InRange()
    {
      IsRandom(obstacleHeight) && IsRandom(powerUpRoll) && IsRandom(powerUpX) && IsRandom(powerUpY)
    }
  }

  /** The game speed after a given raw score, starting from a reset. */
  function Ramp(score: nat): real
  {
    BaseSpeed + (score / ScoreStep) as real * SpeedStep
  }

  predicate SpeedsWithin(obstacles: seq<Obstacle>, top: real)
  {
    forall o :: o in obstacles ==> BaseSpeed <= o.speed <= top
  }

  /** What every reachable session satisfies: never running and over at once;
      the speed follows the score; one frame more than score ticks once the
      round is over; the stored power-ups are uncollected and the stored bullets
      active (consumed ones are removed in the same frame); no obstacle moves
      faster than the game does now, since its speed is the one at its spawn. */
  predicate Valid(s: Session)
  {
    !(s.running && s.over) &&
    s.speed == Ramp(s.score) &&
    s.frameCount == s.score + (if s.over then 1 else 0) &&
    (forall p :: p in s.powerUps ==> !p.collected) &&
    (forall b :: b in s.bullets ==> b.active) &&
    SpeedsWithin(s.obstacles, s.speed)
  }

  /** The session as the page loads it, with the stored high score. */
  function Initial(highScore: nat): (s: Session)
    ensures Valid(s) && PhaseOf(s) == Idle
    ensures s.obstacles == [] && s.powerUps == [] && s.bullets == []
  {
    Session(false, false, 0, highScore, BaseSpeed, 0, 0, InitialMotion, [], [], [])
  }

  /** spawnObstacle. */
  function SpawnObstacle(s: Session, canvasWidth: real, random: real): (r: Session)
    requires IsRandom(random)
    ensures r == s.(obstacles := r.obstacles)
    ensures |r.obstacles| == |s.obstacles| || |r.obstacles| == |s.obstacles| + 1
    ensures r.obstacles[..|s.obstacles|] == s.obstacles
    ensures |r.obstacles| == |s.obstacles| + 1 <==>
              |s.obstacles| == 0 || canvasWidth - s.obstacles[|s.obstacles| - 1].x > MinDistance
    ensures |r.obstacles| > |s.obstacles| ==>
              var o := r.obstacles[|s.obstacles|];
              o.x == canvasWidth && o.speed == s.speed &&
              (|s.obstacles| > 0 ==> o.x - s.obstacles[|s.obstacles| - 1].x > MinDistance)
  {
    if |s.obstacles| == 0 || canvasWidth - s.obstacles[|s.obstacles| - 1].x > MinDistance then
      s.(obstacles := s.obstacles + [NewObstacle(canvasWidth, s.speed, random)])
    else
      s
  }

  /** spawnPowerUp, with the chance roll as a parameter. */
  function SpawnPowerUp(s: Session, canvasWidth: real, roll: real, randomX: real, randomY: real): (r: Session)
    requires IsRandom(roll) && IsRandom(randomX) && IsRandom(randomY)
    ensures r == s.(powerUps := r.powerUps)
    ensures roll >= PowerUpChance ==> r == s
    ensures roll < PowerUpChance ==>
              |r.powerUps| == |s.powerUps| + 1 && r.powerUps[..|s.powerUps|] == s.powerUps &&
              var p := r.powerUps[|s.powerUps|];
              !p.collected && p.speed == s.speed * PowerUpSpeedScale && canvasWidth <= p.x
  {
    if roll < PowerUpChance then
      s.(powerUps := s.powerUps + [NewPowerUp(canvasWidth, s.speed, randomX, randomY)])
    else
      s
  }

  /** shootBullet: a shot turns one unit of ammo into one bullet at the dino's
      mouth; without ammo nothing happens. */
  function ShootBullet(s: Session): (r: Session)
    ensures r == s.(ammo := r.ammo, bullets := r.bullets)
    ensures r.ammo + |r.bullets| == s.ammo + |s.bullets|
    ensures s.ammo == 0 ==> r == s
    ensures s.ammo > 0 ==>
              r.ammo == s.ammo - 1 && r.bullets[..|s.bullets|] == s.bullets &&
              r.bullets[|s.bullets|] == NewBullet(DinoX + DinoWidth, s.dino.y + DinoHeight / 2.0)
  {
    if s.ammo > 0 then
      var bullet := NewBullet(DinoX + DinoWidth, s.dino.y + DinoHeight / 2.0);
      s.(bullets := s.bullets + [bullet], ammo := s.ammo - 1)
    else
      s
  }

  /** One more point moves the ramp by one step exactly at multiples of 200. */
  lemma RampStep(score: nat)
    ensures Ramp(score + 1) == Ramp(score) + (if (score + 1) % ScoreStep == 0 then SpeedStep else 0.0)
  {
    var q := score / ScoreStep;
    assert score == q * ScoreStep + score % ScoreStep;
    if (score + 1) % ScoreStep == 0 {
      assert score % ScoreStep == ScoreStep - 1;
      assert (score + 1) / ScoreStep == q + 1;
    } else {
      assert score % ScoreStep < ScoreStep - 1;
      assert (score + 1) / ScoreStep == q;
    }
  }

  /** updateScore: a frame played scores one point, and the speed steps up by
      0.5 whenever the new score is a multiple of 200; outside play nothing
      changes. So the speed stays 3 + (score / 200) * 0.5 from a reset on. */
  function UpdateScore(s: Session): (r: Session)
    ensures PhaseOf(s) != Playing ==> r == s
    ensures PhaseOf(s) == Playing ==> r == s.(score := s.score + 1, speed := r.speed)
    ensures s.speed <= r.speed
    ensures s.speed == Ramp(s.score) ==> r.speed == Ramp(r.score)
  {
    if s.running && !s.over then
      var score := s.score + 1;
      RampStep(s.score);
      s.(score := score, speed := if score % ScoreStep == 0 then s.speed + SpeedStep else s.speed)
    else
      s
  }

  /** resetGame: back to the session the page loads with, except that the
      running flag and the high score are kept. */
  function ResetGame(s: Session): (r: Session)
    ensures r == Initial(s.highScore).(running := s.running)
  {
    Session(s.running, false, 0, s.highScore, BaseSpeed, 0, 0,
            Motion(Ground, 0.0, false, false), [], [], [])
  }

  /** A reset session satisfies the invariant, whatever came before. */
  lemma ResetIsValid(s: Session)
    ensures Valid(ResetGame(s))
  {
  }

  /** The action of a jump or shoot input while playing. */
  function Act(s: Session, action: Action): (r: Session)
    ensures PhaseOf(r) == PhaseOf(s)
    ensures Valid(s) ==> Valid(r)
  {
    match action
    case Jump => s.(dino := Leap(s.dino))
    case Shoot => ShootBullet(s)
  }

  /** handleGameAction: an input starts the game when idle, resets and restarts
      it when over, and otherwise performs its action; either way the game is
      being played afterwards. */
  function HandleGameAction(s: Session, action: Action): (r: Session)
    ensures PhaseOf(r) == Playing
    ensures PhaseOf(s) == Idle ==> r == s.(running := true)
    ensures PhaseOf(s) == Over ==> r == ResetGame(s).(running := true)
    ensures PhaseOf(s) == Playing ==> r == Act(s, action)
    ensures r.highScore == s.highScore
    ensures Valid(s) ==> Valid(r)
  {
    if !s.running && !s.over then
      s.(running := true)
    else if s.over then
      ResetIsValid(s);
      ResetGame(s).(running := true)
    else
      // s.running holds here, the third guard of handleGameAction
      Act(s, action)
  }

  /** The canvas click handler: the same dispatch, with a jump. */
  function Click(s: Session): (r: Session)
    ensures r == HandleGameAction(s, Jump)
  {
    if !s.running && !s.over then
      s.(running := true)
    else if s.over then
      ResetGame(s).(running := true)
    else
      s.(dino := Leap(s.dino))
  }

  /** The keydown handler: Space and ArrowUp dispatch like a click; Z shoots,
      but only while playing. */
  function KeyDown(s: Session, key: Key): (r: Session)
    ensures key == Space || key == ArrowUp ==> r == HandleGameAction(s, Jump)
    ensures key == KeyZ ==> r == if PhaseOf(s) == Playing then ShootBullet(s) else s
    ensures key == OtherKey ==> r == s
    ensures Valid(s) ==> Valid(r)
  {
    var afterJumpKey := if key == Space || key == ArrowUp then Click(s) else s;
    if key == KeyZ && afterJumpKey.running && !afterJumpKey.over then ShootBullet(afterJumpKey)
    else afterJumpKey
  }

  /** The high-score rule at a collision: the displayed score, score / 10,
      replaces the high score exactly when it is strictly greater. */
  function NewHighScore(highScore: nat, score: nat): (r: nat)
    ensures r >= highScore && r >= score / 10
    ensures r != highScore <==> score / 10 > highScore
    ensures r != highScore ==> r == score / 10
  {
    var finalScore := score / 10;
    if finalScore > highScore then finalScore else highScore
  }

  /** The obstacle pass runs the high-score rule once per obstacle that hits
      the dino, all with the same score; running it again changes nothing, so
      one application stands for all of them. */
  lemma NewHighScoreIdempotent(highScore: nat, score: nat)
    ensures NewHighScore(NewHighScore(highScore, score), score) == NewHighScore(highScore, score)
  {
  }

  // The playing branch of gameLoop, step by step.

  /** dino.update and frameCount++: the dino falls, the frame counter ticks,
      and nothing else changes. */
  function BeginFrame(s: Session): (r: Session)
    ensures r == s.(dino := r.dino, frameCount := r.frameCount)
    ensures r.frameCount == s.frameCount + 1 && r.dino == Fall(s.dino)
    ensures PhaseOf(r) == PhaseOf(s)
  {
    s.(dino := Fall(s.dino), frameCount := s.frameCount + 1)
  }

  /** The two timed spawns: each may add one entity at the end of its array,
      an obstacle only on frames that are multiples of 100 and a power-up only
      on multiples of 250. */
  function SpawnPhase(s: Session, canvasWidth: real, random: Randomness): (r: Session)
    requires random.InRange()
    ensures r == s.(obstacles := r.obstacles, powerUps := r.powerUps)
    ensures |s.obstacles| <= |r.obstacles| <= |s.obstacles| + 1 && r.obstacles[..|s.obstacles|] == s.obstacles
    ensures |s.powerUps| <= |r.powerUps| <= |s.powerUps| + 1 && r.powerUps[..|s.powerUps|] == s.powerUps
    ensures s.frameCount % ObstacleInterval != 0 ==> r.obstacles == s.obstacles
    ensures s.frameCount % PowerUpInterval != 0 ==> r.powerUps == s.powerUps
    ensures s.frameCount % ObstacleInterval == 0 ==>
              r.obstacles == SpawnObstacle(s, canvasWidth, random.obstacleHeight).obstacles
    ensures s.frameCount % PowerUpInterval == 0 ==>
              r.powerUps == SpawnPowerUp(s, canvasWidth, random.powerUpRoll, random.powerUpX, random.powerUpY).powerUps
  {
    var s1 := if s.frameCount % ObstacleInterval == 0 then SpawnObstacle(s, canvasWidth, random.obstacleHeight) else s;
    if s1.frameCount % PowerUpInterval == 0 then
      SpawnPowerUp(s1, canvasWidth, random.powerUpRoll, random.powerUpX, random.powerUpY)
    else
      s1
  }

  /** The power-up pass: the power-ups that remain stay, in order, and each one
      that touches the dino gives 3 ammo. */
  function CollectPowerUps(s: Session): (r: Session)
    ensures r == s.(powerUps := KeptPowerUps(s.powerUps, DinoBox(s.dino)),
                    ammo := s.ammo + AmmoPerPowerUp * CountTouching(s.powerUps, DinoBox(s.dino)))
  {
    var (kept, collected) := PowerUpPass(s.powerUps, DinoBox(s.dino));
    s.(powerUps := kept, ammo := s.ammo + AmmoPerPowerUp * collected)
  }

  /** The bullet pass: it adds no obstacle and no bullet. The bullets left are
      given ones moved, in order, and none of them overlaps an obstacle left.
      With no hit every obstacle stays and exactly the bullets in flight do;
      with a hit at least one obstacle and one bullet go. */
  function ShootObstacles(s: Session, canvasWidth: real): (r: Session)
    ensures r == s.(bullets := r.bullets, obstacles := r.obstacles)
    ensures multiset(r.obstacles) <= multiset(s.obstacles)
    ensures Subsequence(r.bullets, MovedBullets(s.bullets))
    ensures forall c, o :: c in r.bullets && o in r.obstacles ==> !c.CheckCollision(o)
    ensures NoHits(s.bullets, s.obstacles) ==>
              r.obstacles == s.obstacles && r.bullets == InFlightBullets(s.bullets, canvasWidth)
    ensures !NoHits(s.bullets, s.obstacles) ==>
              |r.obstacles| < |s.obstacles| && |r.bullets| < |s.bullets|
  {
    BulletPassWithoutHits(s.bullets, s.obstacles, canvasWidth);
    BulletPassWithHits(s.bullets, s.obstacles, canvasWidth);
    BulletPassKeepsGiven(s.bullets, s.obstacles, canvasWidth);
    BulletPassKeptClear(s.bullets, s.obstacles, canvasWidth);
    BulletPassProperties(s.bullets, s.obstacles, canvasWidth);
    var (kept, remaining) := BulletPass(s.bullets, s.obstacles, canvasWidth);
    s.(bullets := kept, obstacles := remaining)
  }

  /** The end of a round: over, not running, high score rule applied, and
      nothing else changed. */
  function EndRound(s: Session): (r: Session)
    ensures PhaseOf(r) == Over
    ensures r == s.(over := true, running := false, highScore := r.highScore)
    ensures r.highScore == NewHighScore(s.highScore, s.score)
  {
    s.(over := true, running := false, highScore := NewHighScore(s.highScore, s.score))
  }

  /** The obstacle pass: the obstacles still on screen stay, in order; if one of
      them, after moving, touches the dino, the round ends. */
  function MoveObstacles(s: Session): (r: Session)
    ensures r.obstacles == OnScreenObstacles(s.obstacles)
    ensures (exists i :: 0 <= i < |s.obstacles| && Overlaps(DinoBox(s.dino), s.obstacles[i].Update().Box())) ==>
              r == EndRound(s).(obstacles := r.obstacles)
    ensures (forall i :: 0 <= i < |s.obstacles| ==> !Overlaps(DinoBox(s.dino), s.obstacles[i].Update().Box())) ==>
              r == s.(obstacles := r.obstacles)
  {
    ObstaclePassProperties(s.obstacles, DinoBox(s.dino));
    var (kept, hit) := ObstaclePass(s.obstacles, DinoBox(s.dino));
    if hit then EndRound(s.(obstacles := kept)) else s.(obstacles := kept)
  }

  /** One call of gameLoop, apart from clouds and drawing: nothing happens
      unless the game is being played. */
  function Frame(s: Session, canvasWidth: real, random: Randomness): (r: Session)
    requires random.InRange()
    ensures PhaseOf(s) != Playing ==> r == s
  {
    if !s.running then s
    else if s.over then s
    else
      var s1 := SpawnPhase(BeginFrame(s), canvasWidth, random);
      UpdateScore(MoveObstacles(ShootObstacles(CollectPowerUps(s1), canvasWidth)))
  }

  lemma SpawnPhaseKeeps(s: Session, canvasWidth: real, random: Randomness)
    requires random.InRange()
    requires (forall p :: p in s.powerUps ==> !p.collected) && SpeedsWithin(s.obstacles, s.speed)
    requires BaseSpeed <= s.speed
    ensures var r := SpawnPhase(s, canvasWidth, random);
      r == s.(obstacles := r.obstacles, powerUps := r.powerUps) &&
      (forall p :: p in r.powerUps ==> !p.collected) && SpeedsWithin(r.obstacles, r.speed)
  {
    var s1 := if s.frameCount % ObstacleInterval == 0 then SpawnObstacle(s, canvasWidth, random.obstacleHeight) else s;
    assert s1.obstacles == s.obstacles || s1.obstacles == s.obstacles + [s1.obstacles[|s.obstacles|]];
    assert SpeedsWithin(s1.obstacles, s1.speed);
  }

  lemma ShootObstaclesKeeps(s: Session, canvasWidth: real)
    requires (forall b :: b in s.bullets ==> b.active) && SpeedsWithin(s.obstacles, s.speed)
    ensures var r := ShootObstacles(s, canvasWidth);
      r == s.(bullets := r.bullets, obstacles := r.obstacles) &&
      (forall b :: b in r.bullets ==> b.active) && SpeedsWithin(r.obstacles, r.speed)
  {
    BulletPassProperties(s.bullets, s.obstacles, canvasWidth);
    var remaining := ShootObstacles(s, canvasWidth).obstacles;
    forall o | o in remaining
      ensures o in s.obstacles
    {
      assert multiset(remaining)[o] > 0;
    }
  }

  lemma MoveObstaclesKeeps(s: Session)
    requires !s.over
    ensures var r := MoveObstacles(s);
      (SpeedsWithin(s.obstacles, s.speed) ==> SpeedsWithin(r.obstacles, r.speed)) &&
      r == s.(obstacles := r.obstacles, over := r.over, running := r.running, highScore := r.highScore) &&
      (r.over != s.over ==> r.over && !r.running && r.highScore == NewHighScore(s.highScore, s.score)) &&
      (r.over == s.over ==> r.running == s.running && r.highScore == s.highScore)
  {
    ObstaclePassProperties(s.obstacles, DinoBox(s.dino));
    var kept := ObstaclePass(s.obstacles, DinoBox(s.dino)).0;
    forall o | o in kept && SpeedsWithin(s.obstacles, s.speed)
      ensures BaseSpeed <= o.speed <= s.speed
    {
      assert o.(x := o.x + o.speed) in s.obstacles;
    }
  }

  /** A frame keeps every reachable session reachable. */
  lemma FramePreservesValid(s: Session, canvasWidth: real, random: Randomness)
    requires random.InRange() && Valid(s)
    ensures Valid(Frame(s, canvasWidth, random))
  {
    if PhaseOf(s) == Playing {
      var s0 := BeginFrame(s);
      var s1 := SpawnPhase(s0, canvasWidth, random);
      SpawnPhaseKeeps(s0, canvasWidth, random);
      var s2 := CollectPowerUps(s1);
      PowerUpPassKeeps(s1.powerUps, DinoBox(s1.dino));
      var s3 := ShootObstacles(s2, canvasWidth);
      ShootObstaclesKeeps(s2, canvasWidth);
      var s4 := MoveObstacles(s3);
      MoveObstaclesKeeps(s3);
      var s5 := UpdateScore(s4);
      assert s5 == Frame(s, canvasWidth, random);
      assert SpeedsWithin(s5.obstacles, s5.speed);
    }
  }

  /** A frame in play either scores one point and keeps playing with the high
      score untouched, or ends the round without the point and applies the
      high-score rule to the score reached. */
  lemma FrameOutcome(s: Session, canvasWidth: real, random: Randomness)
    requires random.InRange() && PhaseOf(s) == Playing
    ensures var r := Frame(s, canvasWidth, random);
      (PhaseOf(r) == Playing && r.score == s.score + 1 && r.highScore == s.highScore) ||
      (PhaseOf(r) == Over && !r.running && r.score == s.score &&
       r.highScore == NewHighScore(s.highScore, s.score))
  {
    var s1 := SpawnPhase(BeginFrame(s), canvasWidth, random);
    var s3 := ShootObstacles(CollectPowerUps(s1), canvasWidth);
    MoveObstaclesKeeps(s3);
  }

  /** The high score never goes down, whatever the frame or input. */
  lemma HighScoreNeverDecreases(s: Session, canvasWidth: real, random: Randomness, action: Action, key: Key)
    requires random.InRange()
    ensures Frame(s, canvasWidth, random).highScore >= s.highScore
    ensures HandleGameAction(s, action).highScore == s.highScore
    ensures KeyDown(s, key).highScore == s.highScore
    ensures Click(s).highScore == s.highScore
  {
    if PhaseOf(s) == Playing {
      FrameOutcome(s, canvasWidth, random);
    }
  }

  /** Idle is left on the first input and never entered again. */
  lemma IdleOnlyAtLoad(s: Session, canvasWidth: real, random: Randomness, action: Action, key: Key)
    requires random.InRange() && PhaseOf(s) != Idle
    ensures PhaseOf(Frame(s, canvasWidth, random)) != Idle
    ensures PhaseOf(HandleGameAction(s, action)) != Idle
    ensures PhaseOf(KeyDown(s, key)) != Idle
    ensures PhaseOf(Click(s)) != Idle
  {
    if PhaseOf(s) == Playing {
      FrameOutcome(s, canvasWidth, random);
    } else {
      assert Frame(s, canvasWidth, random) == s;
    }
    assert PhaseOf(HandleGameAction(s, action)) == Playing;
    assert Click(s) == HandleGameAction(s, Jump);
  }

  /** In a reachable session, the power-ups of the spawn at frame 250 move at
      2.8 and those of frame 500 at 3.2: the score is one behind the frame
      counter when the spawns run. */
  lemma PowerUpSpeedsAtSpawn(s: Session)
    requires Valid(s) && PhaseOf(s) == Playing
    ensures BeginFrame(s).frameCount == 250 ==> BeginFrame(s).speed * PowerUpSpeedScale == 2.8
    ensures BeginFrame(s).frameCount == 500 ==> BeginFrame(s).speed * PowerUpSpeedScale == 3.2
  {
  }

  /** After 2000 points from a reset the game runs at speed 8. */
  lemma SpeedAfter2000Points(s: Session)
    requires Valid(s) && s.score == 2000
    ensures s.speed == 8.0
  {
  }

  /** The Z key and the shoot button differ outside play: the key does nothing,
      the button starts or restarts the game. */
  lemma ShootKeyOutsidePlay(s: Session)
    requires PhaseOf(s) != Playing
    ensures KeyDown(s, KeyZ) == s
    ensures PhaseOf(HandleGameAction(s, Shoot)) == Playing
  {
  }
}
