# Dino runner: a Dafny model

A model of the core of a browser "dino runner" game, proved in Dafny. The
dino jumps over palm trees that scroll in from the right. It can pick up
power-ups that give ammunition, and shooting an obstacle destroys it. The
model covers three source files:

- `game.js`. The dino's physics (`update`, `jump`) and the three entity
  classes `Obstacle`, `PowerUp` and `Bullet`, with their updates and their
  bounding-box tests. The timed spawns, the shot, the score and speed ramp,
  the reset and the high-score rule. The keyboard, click and button handlers.
  One frame of `gameLoop`.
- `config.js`. `getBasePath` and `getAssetPath`. The page's hostname and
  pathname are parameters.
- `service-worker.js`. The service worker's own `getBasePath`, the list of
  URLs it precaches, and the caches its `activate` handler deletes.

Layout:

- `text.dfy`: the JavaScript string and array built-ins the configuration
  code uses (`split`, `filter(p => p)`, `includes`, `indexOf`, `slice`,
  `join`).
- `config.dfy`: the page's base path and asset paths.
- `service_worker.dfy`: the worker's base path, cache list and cache clean-up.
- `collision.dfy`: the box-overlap test.
- `entities.dfy`: obstacles, power-ups and bullets.
- `player.dfy`: the dino, a `Motion` value plus the `Dino` class that updates it in place.
- `passes.dfy`: the three per-frame passes over the entity arrays. Each pass
  is a function, plus a loop method proved to compute that function.
- `rules.dfy`: the whole session as a value, with one function per operation,
  the session invariant `Valid` and the lemmas across operations.
- `game.dfy`: the class `Game`, whose fields are the global variables of
  `game.js`. Its methods change them in place and are proved equal to the
  functions of `rules.dfy`.

Randomness is a parameter. Every `Math.random()` draw becomes an argument in
[0, 1) (`Entities.IsRandom`, `Rules.Randomness`). `canvas.width` is the
constant `Game.canvasWidth`. The high score read from storage is a
constructor argument.

The collision test uses strict inequalities on both axes, exactly as
`checkCollision` and both `checkCollision` methods do. So boxes that only
share an edge do not collide (`Collision.SharedEdgeIsNoCollision`), and an
obstacle that exactly touches the dino's box does not end the round.

## Model

| member | source | states |
|---|---|---|
| Text.Split | config.js:20 | `split('/')` gives at least one piece and no piece contains the separator |
| Text.Join | config.js:25 | `join(sep)` of no parts is the empty string; otherwise the result starts with the first part, followed by the separator when there are more parts |
| Text.JoinOfSplit | config.js:20 | joining the pieces of a split with the same separator gives the input back |
| Text.NonEmpty | config.js:20 | `filter(p => p)` keeps exactly the non-empty pieces and nothing else |
| Text.IndexOf | config.js:24 | `indexOf` is -1 exactly when the element is absent; otherwise it is the position of the first occurrence |
| Text.Take | config.js:25 | `slice(0, n)` is a prefix of length min(n, length) |
| Text.Includes | config.js:5 | `includes` holds exactly when the substring occurs at some position |
| Text.SplitAround | config.js:20 | splitting around one separator splits both sides independently |
| Text.NonEmptyAppend | config.js:20 | filtering distributes over concatenation |
| Text.SplitOfPiece | config.js:20 | a string without the separator splits into itself |
| Config.IsVSCodeDev | config.js:4-6 | holds exactly when `vscode.dev` occurs at some position of the host name |
| Config.IsVSCodeCom | config.js:9-11 | holds exactly when `vscode.com` occurs at some position of the host name |
| Config.IsVSCode | config.js:15 | holds exactly when either name occurs in the host name |
| Config.PathParts | config.js:20 | the path segments are non-empty and contain no `/` |
| Config.BaseOfSegments | config.js:17-33 | the chosen base starts with `/`, and is `/t-mobile` off vscode.dev/vscode.com or without a `github` segment |
| Config.GetBasePath | config.js:14-34 | the result starts with `/`. Off vscode.dev/vscode.com, or with no `github` segment, it is `/t-mobile` |
| Config.GetBasePathOfRepository | config.js:17-26 | on vscode.dev/vscode.com with a first `github` segment at i, the result is `/` plus segments 0 to i+2, joined by `/` |
| Config.GetAssetPath | config.js:37-42 | base path plus the asset path, with one `/` in between whether or not the asset path had a leading one |
| Config.StripLeadingSlash | config.js:40 | a leading `/` is removed, so that `/` plus the result is the input; without one the input is unchanged |
| Config.PathPartsAround | config.js:20 | a `/` between two paths separates their segments |
| Config.SameSegmentsSameBase | config.js:14-34 | two pathnames with the same segments have the same base path |
| Config.TrailingSlashParts | config.js:20 | a trailing `/` adds no segment |
| Config.LeadingSlashParts | config.js:20 | a leading `/` adds no segment |
| Config.DoubledSlashIgnored | config.js:20-26 | a doubled `/` in the pathname changes neither the segments nor the base path |
| Config.OuterSlashesIgnored | config.js:20-26 | leading and trailing `/` change neither the segments nor the base path |
| Config.PathPartsOfJoin | config.js:20-25 | joining proper segments with `/` and splitting again gives the segments back |
| Config.PathPartsOfRooted | config.js:25 | the same with the leading `/` the base path carries |
| Config.BasePathSegments | config.js:14-34 | read back as a path, the base path is the prefix of the segments through two past `github`, or `t-mobile` alone |
| Config.BasePathIdempotent | config.js:14-34 | taking the base path of a base path gives the same base path |
| Config.AssetPathLeadingSlash | config.js:40-41 | `/x` and `x` resolve to the same asset path |
| Config.AssetPathDoubleSlash | config.js:40-41 | only one leading `/` is removed; `//x` keeps a doubled slash |
| ServiceWorker.GetBasePath | service-worker.js:4-18 | the worker's base path is exactly the page's `Config.GetBasePath` for the same location |
| ServiceWorker.UrlsToCache | service-worker.js:20-31 | eight URLs, the first the base path with `/`, each the base path, `/`, and its asset name |
| ServiceWorker.CachedAssetsDistinct | service-worker.js:22-31 | the eight asset names differ pairwise |
| ServiceWorker.PrecachedUrlsDistinct | service-worker.js:22-31 | no URL is precached twice |
| ServiceWorker.CachedUrlsAreAssetPaths | service-worker.js:22-31 | every precached URL equals what `getAssetPath` gives the page for that asset |
| ServiceWorker.CachesToDelete | service-worker.js:61-75 | exactly the cache names other than `dino-game-v1` are deleted, so the current cache is never deleted |
| Collision.Overlaps | game.js:235-242 | colliding boxes overlap strictly on both axes; boxes that do not collide lie wholly left of, right of, above or below one another, touching allowed |
| Collision.OverlapsIffCommonInterior | game.js:235-242 | two boxes with positive size collide exactly when some point lies strictly inside both |
| Collision.OverlapsSymmetric | game.js:235-242 | the test does not depend on the order of its arguments |
| Collision.SharedEdgeIsNoCollision | game.js:235-242 | boxes that only share an edge do not collide |
| Entities.Obstacle.Update | game.js:107-109 | the obstacle moves left by its own speed; nothing else changes |
| Entities.NewObstacle | game.js:88-94 | spawned at the right edge on the ground line, 20 wide, height in [40, 60), at the current game speed |
| Entities.PowerUp.Update | game.js:169-173 | an uncollected power-up moves left by its speed; a collected one stays put |
| Entities.PowerUp.CheckCollision | game.js:175-184 | a collected power-up never collides; an uncollected one collides exactly when its box and the dino's overlap, in either order |
| Entities.NewPowerUp | game.js:139-146 | spawned within 400 right of the edge, y in [100, 140), 20 by 20, at 0.8 times the game speed, not collected |
| Entities.Bullet.Update | game.js:209-213 | an active bullet moves right by its speed; a spent one stays put |
| Entities.Bullet.CheckCollision | game.js:215-224 | a spent bullet never hits; an active one hits exactly when its box and the obstacle's overlap, in either order |
| Entities.NewBullet | game.js:189-196 | a new bullet is active, 10 by 4, at speed 8, at the given point |
| Entities.CollectedNeverCollides | game.js:175-184 | a collected power-up never collides, before or after its update |
| Entities.SpentBulletNeverHits | game.js:215-224 | a spent bullet never hits, before or after its update |
| Player.DinoBox | game.js:31-39 | the dino's box has positive size and its top at the dino's y |
| Player.Fall | game.js:53-68 | in the air, gravity 0.6 is added to dy and the dino moves by it. At or below ground it is put on the ground and stops jumping; landing with downward or no speed leaves it standing at y 150 with dy 0, and upward speed is kept and lifts it |
| Player.Leap | game.js:70-83 | the jump changes the motion exactly when grounded and not jumping, and then sets dy to -12 and jumping |
| Player.LeapTwiceIsLeapOnce | game.js:70-83 | a second jump in a row is a no-op |
| Player.TakeOffFrame | game.js:53-83 | the frame after take-off puts the dino 12 up, and the jump guard is open again for that frame |
| Player.Dino.Box | game.js:31-39 | the object's box is the box of its motion |
| Player.Dino.constructor | game.js:31-39 | the dino starts at y 150, at rest, neither grounded nor jumping |
| Player.Dino.Update | game.js:53-68 | the in-place update gives the motion `Fall` gives |
| Player.Dino.Jump | game.js:70-83 | the in-place jump gives the motion `Leap` gives |
| Passes.PowerUpPass | game.js:395-414 | the pass keeps exactly the moved power-ups that are on screen, uncollected and not touching the dino, in order (`KeptPowerUps`), and collects exactly as many as touch the dino after moving (`CountTouching`) |
| Passes.PowerUpPassCounts | game.js:395-414 | the pass never keeps plus collects more than it was given, and collects at least one exactly when some power-up touches the dino after moving |
| Passes.PowerUpPassKeeps | game.js:395-414 | every power-up kept was moved by its own speed, is uncollected, on screen and not touching the dino |
| Passes.SpliceSkipsNextPowerUp | game.js:395-414 | as written, the power-up after a removed one is skipped for the frame (see Findings) |
| Passes.PowerUpForEach | game.js:395-414 | the as-written pass never grows the array and never lowers the count it is given |
| Passes.RunPowerUps | game.js:395-414 | the loop computes the power-up pass |
| Passes.FirstHit | game.js:421-429 | the first obstacle the bullet hits, or none exactly when it hits none |
| Passes.FindHit | game.js:421-429 | the inner loop finds that first hit |
| Passes.RemoveAt | game.js:425 | `splice(i, 1)` removes exactly the element at i: the others keep their order, one fewer in all, one occurrence of that element fewer |
| Passes.BulletPass | game.js:417-436 | the obstacles left are some of those given |
| Passes.BulletPassProperties | game.js:417-436 | the obstacles left are some of those given. No more obstacles are destroyed than bullets used up. Kept bullets are on screen, and active if all given ones were |
| Passes.BulletPassWithoutHits | game.js:417-436 | when no bullet hits any obstacle after moving, every obstacle stays and exactly the bullets still in flight are kept, in order |
| Passes.BulletPassStep | game.js:417-436 | one more bullet never brings an obstacle back, and removes one when it hits one |
| Passes.BulletPassWithHits | game.js:417-436 | when some bullet hits some obstacle after moving, at least one obstacle is destroyed |
| Passes.BulletPassOnlyHitsDestroy | game.js:417-436 | every obstacle destroyed was hit by some bullet after it moved |
| Passes.BulletPassKeptClear | game.js:417-436 | no kept bullet overlaps an obstacle that is left |
| Passes.BulletPassKeepsMisses | game.js:417-436 | every bullet still in flight that hits none of the given obstacles is kept |
| Passes.BulletPassKeepsGiven | game.js:417-436 | the bullets kept are given bullets after moving, in their order: a subsequence of the moved bullets |
| Passes.RunBullets | game.js:417-436 | the loop computes the bullet pass |
| Passes.ObstaclePass | game.js:439-461 | the pass keeps exactly the moved obstacles not fully past the left edge, in order (`OnScreenObstacles`) |
| Passes.ObstaclePassProperties | game.js:439-461 | a hit is reported exactly when some obstacle touches the dino after moving; kept obstacles were moved by their own speed and are on screen |
| Passes.RunObstacles | game.js:439-461 | the loop computes the obstacle pass |
| Rules.Initial | game.js:5-12 | the loaded session is idle, valid and empty |
| Rules.SpawnObstacle | game.js:245-252 | an obstacle is added exactly when there is none or the last one is more than 200 from the edge. It comes at the current speed, more than 200 past the last one; nothing else changes |
| Rules.SpawnPowerUp | game.js:255-260 | a power-up is added exactly when the roll is below 0.3; nothing else changes |
| Rules.ShootBullet | game.js:263-273 | ammo plus bullets is conserved. Without ammo nothing happens; otherwise one ammo becomes a bullet at the dino's mouth |
| Rules.RampStep | game.js:284-294 | one more point raises the ramp by 0.5 exactly at multiples of 200 |
| Rules.UpdateScore | game.js:284-294 | outside play nothing changes. In play the score goes up by one, the speed never drops, and speed = 3 + (score / 200) * 0.5 is kept |
| Rules.ResetGame | game.js:335-349 | the reset gives the loaded session, keeping the running flag and the high score |
| Rules.ResetIsValid | game.js:335-349 | a reset session satisfies the session invariant whatever came before |
| Rules.Act | game.js:527 | the in-play action keeps the phase and the invariant |
| Rules.HandleGameAction | game.js:520-529 | idle starts, over resets and starts, and playing acts; afterwards the game is playing, the high score is kept, and so is the invariant |
| Rules.Click | game.js:504-513 | a click is the jump through handleGameAction |
| Rules.KeyDown | game.js:473-501 | Space/ArrowUp act like a click, Z shoots only while playing, and other keys do nothing; the invariant is kept |
| Rules.NewHighScore | game.js:444-454 | the high score changes exactly when score / 10 exceeds it, and then becomes score / 10 |
| Rules.NewHighScoreIdempotent | game.js:439-454 | applying the rule once per hitting obstacle equals applying it once |
| Rules.Frame | game.js:352-377 | when idle or over, a frame changes nothing |
| Rules.BeginFrame | game.js:380-385 | the dino falls and the frame counter goes up by one; the phase and everything else stay |
| Rules.SpawnPhase | game.js:384-392 | on frames that are multiples of 100 the obstacles become those `spawnObstacle` gives, on other frames they stay; the same for power-ups, `spawnPowerUp` and multiples of 250. Each array only grows at its end, by at most one, and nothing else changes |
| Rules.CollectPowerUps | game.js:395-414 | the remaining power-ups stay in order, and the ammo grows by 3 for each power-up touching the dino |
| Rules.ShootObstacles | game.js:417-436 | no obstacle or bullet is added: the obstacles left are some of those given, the bullets left a subsequence of the moved ones, and none of them overlaps an obstacle left. With no hit every obstacle and exactly the bullets in flight stay; with a hit at least one obstacle and one bullet go. Nothing else changes |
| Rules.EndRound | game.js:444-454 | the round is over, not running, with the high-score rule applied and nothing else changed |
| Rules.MoveObstacles | game.js:439-461 | the on-screen obstacles stay in order; a touching obstacle ends the round, otherwise nothing else changes |
| Rules.SpawnPhaseKeeps | game.js:384-392 | the spawns keep every power-up uncollected and every obstacle speed between 3 and the game speed |
| Rules.ShootObstaclesKeeps | game.js:417-436 | the bullet pass keeps bullets active and obstacle speeds in range |
| Rules.MoveObstaclesKeeps | game.js:439-461 | the obstacle pass keeps obstacle speeds in range; a hit ends the round with the high-score rule |
| Rules.FramePreservesValid | game.js:352-470 | every frame keeps the session invariant |
| Rules.FrameOutcome | game.js:352-470 | a frame in play either scores one point and keeps playing, or ends the round without the point and applies the high-score rule |
| Rules.HighScoreNeverDecreases | game.js:444-454 | neither frames nor inputs lower the high score |
| Rules.IdleOnlyAtLoad | game.js:363-377 | once started, the game never returns to the start screen |
| Rules.SpeedAfter2000Points | game.js:284-294 | after 2000 points from a reset the speed is 8 |
| Rules.PowerUpSpeedsAtSpawn | game.js:384-392 | power-ups spawned at frame 250 move at 2.8 and those spawned at frame 500 at 3.2 |
| Rules.ShootKeyOutsidePlay | game.js:497-500 | outside play Z does nothing, while the shoot button starts the game |
| GameState.Game.constructor | game.js:5-12 | the globals as the page loads them |
| GameState.Game.SpawnObstacle | game.js:245-252 | in place, as `Rules.SpawnObstacle` |
| GameState.Game.SpawnPowerUp | game.js:255-260 | in place, as `Rules.SpawnPowerUp` |
| GameState.Game.ShootBullet | game.js:263-273 | in place, as `Rules.ShootBullet` |
| GameState.Game.UpdateScore | game.js:284-294 | in place, as `Rules.UpdateScore` |
| GameState.Game.ResetGame | game.js:335-349 | in place, as `Rules.ResetGame` |
| GameState.Game.HandleGameAction | game.js:520-529 | in place, as `Rules.HandleGameAction`, keeping the invariant |
| GameState.Game.Click | game.js:504-513 | in place, as `Rules.Click` |
| GameState.Game.KeyDown | game.js:473-501 | in place, as `Rules.KeyDown`, keeping the invariant |
| GameState.Game.BeginFrame | game.js:380-385 | in place, as `Rules.BeginFrame` |
| GameState.Game.SpawnPhase | game.js:384-392 | in place, as `Rules.SpawnPhase` |
| GameState.Game.CollectPowerUps | game.js:395-414 | in place, as `Rules.CollectPowerUps` |
| GameState.Game.ShootObstacles | game.js:417-436 | in place, as `Rules.ShootObstacles` |
| GameState.Game.MoveObstacles | game.js:439-461 | in place, as `Rules.MoveObstacles` |
| GameState.Game.Tick | game.js:352-470 | one frame in place, as `Rules.Frame`, keeping the invariant |

## Left out

- Drawing, clouds, the ground pattern, the start and game-over screens, the power-up counter and the padded score display: they only render and change no state the model follows.
- Audio playback, `console.log`, `preventDefault` and `requestAnimationFrame`: side effects outside the game state.
- `localStorage`: the stored high score is a constructor argument, a natural number (the source may read it back as a string, which JavaScript compares numerically), and writing it back is not modelled.
- `Math.random()`: every draw is a parameter in [0, 1).
- `window.location` and `self.location`: hostname and pathname are parameters.
- The service worker's `install` and `fetch` handlers and all Cache API calls: they are I/O. Only the URL list and the choice of caches to delete are modelled.
- Numbers are exact reals and unbounded integers, not IEEE doubles, so rounding in positions and speeds is not modelled.
- Entities are values in sequences, not shared objects (`Entities`). Each entity object is referenced only from its one array, so no aliasing is lost. Updating an entity in place is modelled as replacing it.
- Passes.RunPowerUps, Passes.RunBullets, Passes.RunObstacles: each visits every entity once per frame. The source removes items with `splice` inside `forEach`, which makes the next item skip that frame. Only the power-up pass has an as-written model, in Findings. The same skip in the bullet and obstacle passes is not modelled.
- Passes.RunBullets: a bullet that hits an obstacle and is past the right edge in the same frame is spliced twice in the source, which removes a second bullet. The model removes only the bullet that hit. The inner loop stops at the first hit, because the bullet is inactive after it and cannot hit again.
- Passes.BulletPass: when bullets hit, which obstacle each one destroys depends on the bullets before it, so the result is characterised by lemmas rather than equated with a separate definition: the bullets kept are a subsequence of the moved bullets, only hit obstacles are destroyed, kept bullets clear the obstacles left, and missing bullets are kept. Which of several bullets hitting one obstacle is the one used up is not pinned down.
- A string is a sequence of characters; JavaScript's UTF-16 code units are not modelled.

## Findings

| source | as written | input that shows it | evidently intended | confidence | as-written member | corrected member |
|---|---|---|---|---|---|---|
| game.js:395-414 | `powerUps.splice(index, 1)` inside `powerUps.forEach`: the item after a removed one moves into the visited index and is skipped for that frame | on an 800-wide canvas, a power-up spawned at frame 250 (speed 2.8, x offset 21) and one spawned at frame 500 (speed 3.2, x offset 0), neither touched by the dino: in frame 550 the first is at x -19 and leaves the screen, and the second, at x 640, is neither moved nor checked | every power-up moves and is checked once per frame, so the second moves to x 636.8 | medium, not executed | Passes.SpliceSkipsNextPowerUp | Passes.PowerUpPass |
