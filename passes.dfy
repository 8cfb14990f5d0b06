/** The three `forEach` passes of gameLoop over the power-ups, the bullets and
    the obstacles. Each pass is a function (its meaning) and a method with the
    loop (the pass as the frame runs it), proved to compute that function.
    Removal is two-phase: an item that leaves the game this frame is simply
    not carried into the new sequence. */
module Passes {
  import opened Collision
  import opened Entities

  datatype Option<T> = None | Some(value: T)

  /** A power-up, after moving, stays in the game: it is on screen, uncollected
      and not touching the dino. */
  predicate Remains(p: PowerUp, dino: Rect)
  {
    p.x + p.width >= 0.0 && !p.collected && !p.CheckCollision(dino)
  }

  /** The power-ups a frame should leave, read front to back: every one moved by
      its speed, kept exactly when it remains. */
  function KeptPowerUps(powerUps: seq<PowerUp>, dino: Rect): seq<PowerUp>
    decreases |powerUps|
  {
    if |powerUps| == 0 then []
    else
      var p := powerUps[0].Update();
      (if Remains(p, dino) then [p] else []) + KeptPowerUps(powerUps[1..], dino)
  }

  /** How many power-ups touch the dino after moving, read front to back. */
  function CountTouching(powerUps: seq<PowerUp>, dino: Rect): nat
    decreases |powerUps|
  {
    if |powerUps| == 0 then 0
    else (if powerUps[0].Update().CheckCollision(dino) then 1 else 0) + CountTouching(powerUps[1..], dino)
  }

  lemma {:induction false} KeptPowerUpsAppend(powerUps: seq<PowerUp>, last: PowerUp, dino: Rect)
    ensures KeptPowerUps(powerUps + [last], dino) ==
            KeptPowerUps(powerUps, dino) + (if Remains(last.Update(), dino) then [last.Update()] else [])
    decreases |powerUps|
  {
    if |powerUps| == 0 {
      assert powerUps + [last] == [last];
      assert [last][1..] == [];
    } else {
      var all := powerUps + [last];
      assert all[0] == powerUps[0] && all[1..] == powerUps[1..] + [last];
      KeptPowerUpsAppend(powerUps[1..], last, dino);
      var head := if Remains(powerUps[0].Update(), dino) then [powerUps[0].Update()] else [];
      assert KeptPowerUps(all, dino) == head + KeptPowerUps(all[1..], dino);
      assert KeptPowerUps(powerUps, dino) == head + KeptPowerUps(powerUps[1..], dino);
    }
  }

  lemma {:induction false} CountTouchingAppend(powerUps: seq<PowerUp>, last: PowerUp, dino: Rect)
    ensures CountTouching(powerUps + [last], dino) ==
            CountTouching(powerUps, dino) + (if last.Update().CheckCollision(dino) then 1 else 0)
    decreases |powerUps|
  {
    if |powerUps| == 0 {
      assert powerUps + [last] == [last];
      assert [last][1..] == [];
    } else {
      var all := powerUps + [last];
      assert all[0] == powerUps[0] && all[1..] == powerUps[1..] + [last];
      CountTouchingAppend(powerUps[1..], last, dino);
    }
  }

  /** Power-ups: each one moves, is collected if it now touches the dino, and is
      dropped if collected or fully past the left edge. The second component
      counts the power-ups collected. The pass keeps exactly the power-ups that
      remain, in order, and collects exactly those that touch the dino. */
  function PowerUpPass(powerUps: seq<PowerUp>, dino: Rect): (r: (seq<PowerUp>, nat))
    ensures r == (KeptPowerUps(powerUps, dino), CountTouching(powerUps, dino))
    decreases |powerUps|
  {
    if |powerUps| == 0 then ([], 0)
    else
      var before := powerUps[..|powerUps| - 1];
      var prev := PowerUpPass(before, dino);
      var p := powerUps[|powerUps| - 1].Update();
      var hit := p.CheckCollision(dino);
      var p' := if hit then p.(collected := true) else p;
      var count := if hit then prev.1 + 1 else prev.1;
      assert powerUps == before + [powerUps[|powerUps| - 1]];
      KeptPowerUpsAppend(before, powerUps[|powerUps| - 1], dino);
      CountTouchingAppend(before, powerUps[|powerUps| - 1], dino);
      if p'.x + p'.width < 0.0 || p'.collected then
        assert !Remains(p, dino) && prev.0 + [] == prev.0;
        (prev.0, count)
      else
        (prev.0 + [p'], count)
  }

  /** The power-up pass never collects or keeps more power-ups than it was
      given, and it collects at least one exactly when some power-up touches the
      dino after moving. */
  lemma {:induction false} PowerUpPassCounts(powerUps: seq<PowerUp>, dino: Rect)
    ensures var (kept, collected) := PowerUpPass(powerUps, dino);
      |kept| + collected <= |powerUps| &&
      (collected > 0 <==> exists i :: 0 <= i < |powerUps| && powerUps[i].Update().CheckCollision(dino))
    decreases |powerUps|
  {
    if |powerUps| > 0 {
      var before := powerUps[..|powerUps| - 1];
      PowerUpPassCounts(before, dino);
      assert forall i :: 0 <= i < |before| ==> before[i] == powerUps[i];
      var last := |powerUps| - 1;
      if exists i :: 0 <= i < |powerUps| && powerUps[i].Update().CheckCollision(dino) {
        var i :| 0 <= i < |powerUps| && powerUps[i].Update().CheckCollision(dino);
        assert i < last ==> before[i].Update().CheckCollision(dino);
      }
    }
  }

  /** Everything the power-up pass keeps is a given power-up moved by its own
      speed, uncollected, not touching the dino and not past the left edge. */
  lemma {:induction false} PowerUpPassKeeps(powerUps: seq<PowerUp>, dino: Rect)
    ensures var kept := PowerUpPass(powerUps, dino).0;
      (forall q :: q in kept ==> !q.collected && q.x + q.width >= 0.0 && !Overlaps(dino, q.Box())) &&
      (forall q :: q in kept ==> q.(x := q.x + q.speed) in powerUps)
    decreases |powerUps|
  {
    if |powerUps| > 0 {
      var before := powerUps[..|powerUps| - 1];
      var last := powerUps[|powerUps| - 1];
      PowerUpPassKeeps(before, dino);
      var prev := PowerUpPass(before, dino).0;
      var kept := PowerUpPass(powerUps, dino).0;
      var p := last.Update();
      assert kept == prev || (kept == prev + [p] && !p.CheckCollision(dino));
      forall q | q in kept
        ensures !q.collected && q.x + q.width >= 0.0 && !Overlaps(dino, q.Box())
        ensures q.(x := q.x + q.speed) in powerUps
      {
        if q in prev {
          assert q.(x := q.x + q.speed) in before;
        } else {
          assert q == p && !last.collected;
          assert q.(x := q.x + q.speed) == last;
        }
      }
    }
  }

  /** The power-up pass as game.js writes it: `forEach` over the live array up
      to its starting length, removing with `splice` at once. The item after a
      removed one moves into the index just visited, so it is skipped for the
      frame: not moved, not checked against the dino. */
  function PowerUpForEach(powerUps: seq<PowerUp>, dino: Rect, index: nat, length: nat, collected: nat): (r: (seq<PowerUp>, nat))
    ensures |r.0| <= |powerUps| && collected <= r.1
    decreases length - index
  {
    if index >= length || index >= |powerUps| then (powerUps, collected)
    else
      var p := powerUps[index].Update();
      var hit := p.CheckCollision(dino);
      var p' := if hit then p.(collected := true) else p;
      var count := if hit then collected + 1 else collected;
      if p'.x + p'.width < 0.0 || p'.collected then
        PowerUpForEach(powerUps[..index] + powerUps[index + 1..], dino, index + 1, length, count)
      else
        PowerUpForEach(powerUps[index := p'], dino, index + 1, length, count)
  }

  /** A power-up that leaves the screen makes the next one skip the frame: as
      written, the second power-up below is neither moved nor checked, while the
      pass of this model moves it by its speed. The speeds are those of
      power-ups spawned at frames 250 and 500 (Rules.PowerUpSpeedsAtSpawn). */
  lemma SpliceSkipsNextPowerUp()
    ensures var dino := Rect(50.0, 150.0, 40.0, 44.0);
      var gone := PowerUp(-19.0, 120.0, 20.0, 20.0, 2.8, false);
      var next := PowerUp(640.0, 110.0, 20.0, 20.0, 3.2, false);
      PowerUpForEach([gone, next], dino, 0, 2, 0) == ([next], 0) &&
      PowerUpPass([gone, next], dino) == ([next.(x := 636.8)], 0)
  {
    var dino := Rect(50.0, 150.0, 40.0, 44.0);
    var gone := PowerUp(-19.0, 120.0, 20.0, 20.0, 2.8, false);
    var next := PowerUp(640.0, 110.0, 20.0, 20.0, 3.2, false);
    assert [gone, next][..0] + [gone, next][1..] == [next];
    assert [gone, next][1..] == [next];
    assert [next][1..] == [];
    assert next.Update() == next.(x := 636.8) && Remains(next.Update(), dino);
    assert !Remains(gone.Update(), dino);
    assert KeptPowerUps([next], dino) == [next.(x := 636.8)];
    assert !gone.Update().CheckCollision(dino) && !next.Update().CheckCollision(dino);
    assert CountTouching([next], dino) == 0;
    assert CountTouching([gone, next], dino) == 0;
    assert KeptPowerUps([gone, next], dino) == [next.(x := 636.8)];
  }

  method RunPowerUps(powerUps: seq<PowerUp>, dino: Rect) returns (kept: seq<PowerUp>, collected: nat)
    ensures (kept, collected) == PowerUpPass(powerUps, dino)
  {
    kept, collected := [], 0;
    var i := 0;
    while i < |powerUps|
      invariant 0 <= i <= |powerUps|
      invariant (kept, collected) == PowerUpPass(powerUps[..i], dino)
    {
      assert powerUps[..i + 1][..i] == powerUps[..i];
      var powerUp := powerUps[i].Update();
      if powerUp.CheckCollision(dino) {
        powerUp := powerUp.(collected := true);
        collected := collected + 1;
      }
      if !(powerUp.x + powerUp.width < 0.0 || powerUp.collected) {
        kept := kept + [powerUp];
      }
      i := i + 1;
    }
    assert powerUps[..i] == powerUps;
  }

  /** The first obstacle the bullet hits, if any. */
  function FirstHit(obstacles: seq<Obstacle>, b: Bullet): (r: Option<nat>)
    ensures r.None? <==> forall i :: 0 <= i < |obstacles| ==> !b.CheckCollision(obstacles[i])
    ensures r.Some? ==> r.value < |obstacles| && b.CheckCollision(obstacles[r.value]) &&
                        forall j :: 0 <= j < r.value ==> !b.CheckCollision(obstacles[j])
    decreases |obstacles|
  {
    if |obstacles| == 0 then None
    else if b.CheckCollision(obstacles[0]) then Some(0)
    else
      match FirstHit(obstacles[1..], b)
      case None => None
      case Some(k) => Some(k + 1)
  }

  /** The inner `obstacles.forEach` for one bullet. After the first hit the
      bullet is inactive, so no later obstacle can be hit by it; the loop
      stops there. */
  method FindHit(obstacles: seq<Obstacle>, b: Bullet) returns (r: Option<nat>)
    ensures r == FirstHit(obstacles, b)
  {
    var i := 0;
    while i < |obstacles|
      invariant 0 <= i <= |obstacles|
      invariant forall j :: 0 <= j < i ==> !b.CheckCollision(obstacles[j])
    {
      if b.CheckCollision(obstacles[i]) {
        return Some(i);
      }
      i := i + 1;
    }
    return None;
  }

  /** `s` without its element at i. */
  function RemoveAt<T>(s: seq<T>, i: nat): (r: seq<T>)
    requires i < |s|
    ensures |r| == |s| - 1
    ensures forall j :: 0 <= j < |r| ==> r[j] == s[if j < i then j else j + 1]
    ensures multiset(r) + multiset{s[i]} == multiset(s)
  {
    assert s == s[..i] + [s[i]] + s[i + 1..];
    s[..i] + s[i + 1..]
  }

  /** A bullet is not yet past the right edge. */
  predicate InFlight(b: Bullet, canvasWidth: real)
  {
    b.x <= canvasWidth
  }

  /** The bullets a frame leaves when none of them hits anything, read front to
      back: every one moved by its speed, kept exactly when still in flight. */
  function InFlightBullets(bullets: seq<Bullet>, canvasWidth: real): seq<Bullet>
    decreases |bullets|
  {
    if |bullets| == 0 then []
    else
      var b := bullets[0].Update();
      (if InFlight(b, canvasWidth) then [b] else []) + InFlightBullets(bullets[1..], canvasWidth)
  }

  lemma {:induction false} InFlightBulletsAppend(bullets: seq<Bullet>, last: Bullet, canvasWidth: real)
    ensures InFlightBullets(bullets + [last], canvasWidth) ==
            InFlightBullets(bullets, canvasWidth) + (if InFlight(last.Update(), canvasWidth) then [last.Update()] else [])
    decreases |bullets|
  {
    if |bullets| == 0 {
      assert bullets + [last] == [last];
      assert [last][1..] == [];
    } else {
      var all := bullets + [last];
      assert all[0] == bullets[0] && all[1..] == bullets[1..] + [last];
      InFlightBulletsAppend(bullets[1..], last, canvasWidth);
      var head := if InFlight(bullets[0].Update(), canvasWidth) then [bullets[0].Update()] else [];
      assert InFlightBullets(all, canvasWidth) == head + InFlightBullets(all[1..], canvasWidth);
      assert InFlightBullets(bullets, canvasWidth) == head + InFlightBullets(bullets[1..], canvasWidth);
    }
  }

  /** No bullet, after moving, overlaps any of the obstacles. */
  predicate NoHits(bullets: seq<Bullet>, obstacles: seq<Obstacle>)
  {
    forall i, j :: 0 <= i < |bullets| && 0 <= j < |obstacles| ==> !bullets[i].Update().CheckCollision(obstacles[j])
  }

  /** Bullets: each one moves; the first obstacle it hits is destroyed together
      with it; a bullet past the right edge is dropped. Returns the bullets and
      the obstacles that remain, which are some of those given. */
  function BulletPass(bullets: seq<Bullet>, obstacles: seq<Obstacle>, canvasWidth: real): (r: (seq<Bullet>, seq<Obstacle>))
    ensures multiset(r.1) <= multiset(obstacles)
    decreases |bullets|
  {
    if |bullets| == 0 then ([], obstacles)
    else
      var prev := BulletPass(bullets[..|bullets| - 1], obstacles, canvasWidth);
      var b := bullets[|bullets| - 1].Update();
      match FirstHit(prev.1, b)
      case Some(i) => (prev.0, RemoveAt(prev.1, i))
      case None => if b.x > canvasWidth then prev else (prev.0 + [b], prev.1)
  }

  /** With no bullet hitting anything, the pass destroys nothing and keeps
      exactly the bullets in flight, in order. */
  lemma {:induction false} BulletPassWithoutHits(bullets: seq<Bullet>, obstacles: seq<Obstacle>, canvasWidth: real)
    ensures NoHits(bullets, obstacles) ==>
              BulletPass(bullets, obstacles, canvasWidth) == (InFlightBullets(bullets, canvasWidth), obstacles)
    decreases |bullets|
  {
    if |bullets| > 0 && NoHits(bullets, obstacles) {
      var before := bullets[..|bullets| - 1];
      var last := bullets[|bullets| - 1];
      assert NoHits(before, obstacles) by {
        forall i, j | 0 <= i < |before| && 0 <= j < |obstacles|
          ensures !before[i].Update().CheckCollision(obstacles[j])
        {
          assert before[i] == bullets[i];
        }
      }
      BulletPassWithoutHits(before, obstacles, canvasWidth);
      var b := last.Update();
      assert FirstHit(obstacles, b).None? by {
        forall j | 0 <= j < |obstacles|
          ensures !b.CheckCollision(obstacles[j])
        {
          assert !bullets[|bullets| - 1].Update().CheckCollision(obstacles[j]);
        }
      }
      assert bullets == before + [last];
      InFlightBulletsAppend(before, last, canvasWidth);
      var prev := InFlightBullets(before, canvasWidth);
      assert !InFlight(b, canvasWidth) ==> prev + [] == prev;
    }
  }

  /** One more bullet never brings an obstacle back, and a hit removes one. */
  lemma BulletPassStep(bullets: seq<Bullet>, obstacles: seq<Obstacle>, canvasWidth: real)
    requires |bullets| > 0
    ensures var prev := BulletPass(bullets[..|bullets| - 1], obstacles, canvasWidth).1;
      var remaining := BulletPass(bullets, obstacles, canvasWidth).1;
      |remaining| <= |prev| &&
      ((exists j :: 0 <= j < |prev| && bullets[|bullets| - 1].Update().CheckCollision(prev[j])) ==> |remaining| < |prev|)
  {
    var prev := BulletPass(bullets[..|bullets| - 1], obstacles, canvasWidth);
    var b := bullets[|bullets| - 1].Update();
    var remaining := BulletPass(bullets, obstacles, canvasWidth).1;
    match FirstHit(prev.1, b) {
      case Some(k) => assert remaining == RemoveAt(prev.1, k);
      case None => assert remaining == prev.1;
    }
  }

  /** With some bullet hitting some obstacle after moving, at least one obstacle
      is destroyed. */
  lemma {:induction false} BulletPassWithHits(bullets: seq<Bullet>, obstacles: seq<Obstacle>, canvasWidth: real)
    ensures !NoHits(bullets, obstacles) ==> |BulletPass(bullets, obstacles, canvasWidth).1| < |obstacles|
    decreases |bullets|
  {
    if |bullets| > 0 && !NoHits(bullets, obstacles) {
      var before := bullets[..|bullets| - 1];
      var last := bullets[|bullets| - 1];
      BulletPassStep(bullets, obstacles, canvasWidth);
      var i, j :| 0 <= i < |bullets| && 0 <= j < |obstacles| && bullets[i].Update().CheckCollision(obstacles[j]);
      if i < |before| {
        assert before[i] == bullets[i];
        BulletPassWithHits(before, obstacles, canvasWidth);
      } else if NoHits(before, obstacles) {
        BulletPassWithoutHits(before, obstacles, canvasWidth);
        assert BulletPass(before, obstacles, canvasWidth).1 == obstacles;
        assert i == |bullets| - 1;
        assert bullets[i].Update() == last.Update();
      } else {
        BulletPassWithHits(before, obstacles, canvasWidth);
      }
    }
  }

  /** The given bullets, each moved by its speed. */
  function MovedBullets(bullets: seq<Bullet>): (r: seq<Bullet>)
    ensures |r| == |bullets| && forall i :: 0 <= i < |r| ==> r[i] == bullets[i].Update()
  {
    seq(|bullets|, i requires 0 <= i < |bullets| => bullets[i].Update())
  }

  /** `xs` is `ys` with some elements deleted, the rest in order. */
  predicate Subsequence<T(==)>(xs: seq<T>, ys: seq<T>)
    decreases |ys|
  {
    |xs| == 0 ||
    (|ys| > 0 &&
     ((xs[|xs| - 1] == ys[|ys| - 1] && Subsequence(xs[..|xs| - 1], ys[..|ys| - 1])) ||
      Subsequence(xs, ys[..|ys| - 1])))
  }

  /** The bullets the pass keeps are given bullets after moving, in their order,
      none twice: a subsequence of the moved bullets. */
  lemma {:induction false} BulletPassKeepsGiven(bullets: seq<Bullet>, obstacles: seq<Obstacle>, canvasWidth: real)
    ensures var kept := BulletPass(bullets, obstacles, canvasWidth).0;
      Subsequence(kept, MovedBullets(bullets)) &&
      forall c :: c in kept ==> exists i :: 0 <= i < |bullets| && c == bullets[i].Update()
    decreases |bullets|
  {
    if |bullets| > 0 {
      var before := bullets[..|bullets| - 1];
      var last := bullets[|bullets| - 1];
      BulletPassKeepsGiven(before, obstacles, canvasWidth);
      var prev := BulletPass(before, obstacles, canvasWidth).0;
      var b := last.Update();
      var kept := BulletPass(bullets, obstacles, canvasWidth).0;
      var moved := MovedBullets(bullets);
      assert moved[..|moved| - 1] == MovedBullets(before);
      assert moved[|moved| - 1] == b;
      assert kept == prev || kept == prev + [b];
      if kept == prev {
        assert Subsequence(kept, moved);
      } else {
        assert kept[..|kept| - 1] == prev;
        assert Subsequence(kept, moved);
      }
      forall c | c in kept
        ensures exists i :: 0 <= i < |bullets| && c == bullets[i].Update()
      {
        if c in prev {
          var i :| 0 <= i < |before| && c == before[i].Update();
          assert before[i] == bullets[i];
        } else {
          assert c == bullets[|bullets| - 1].Update();
        }
      }
    }
  }

  /** An obstacle is destroyed only by a bullet that hits it: each copy the pass
      removes overlaps some bullet after that bullet moved. */
  lemma {:induction false} BulletPassOnlyHitsDestroy(bullets: seq<Bullet>, obstacles: seq<Obstacle>, canvasWidth: real)
    ensures var remaining := BulletPass(bullets, obstacles, canvasWidth).1;
      forall o :: multiset(remaining)[o] < multiset(obstacles)[o] ==>
        exists i :: 0 <= i < |bullets| && bullets[i].Update().CheckCollision(o)
    decreases |bullets|
  {
    if |bullets| > 0 {
      var before := bullets[..|bullets| - 1];
      var last := bullets[|bullets| - 1];
      BulletPassOnlyHitsDestroy(before, obstacles, canvasWidth);
      var prev := BulletPass(before, obstacles, canvasWidth);
      var b := last.Update();
      var h := FirstHit(prev.1, b);
      var remaining := BulletPass(bullets, obstacles, canvasWidth).1;
      assert h.None? ==> remaining == prev.1;
      forall o | multiset(remaining)[o] < multiset(obstacles)[o]
        ensures exists i :: 0 <= i < |bullets| && bullets[i].Update().CheckCollision(o)
      {
        if multiset(prev.1)[o] < multiset(obstacles)[o] {
          var i :| 0 <= i < |before| && before[i].Update().CheckCollision(o);
          assert before[i] == bullets[i];
        } else if h.Some? {
          assert remaining == RemoveAt(prev.1, h.value);
          assert o == prev.1[h.value];
          assert bullets[|bullets| - 1].Update().CheckCollision(o);
        }
      }
    }
  }

  /** No bullet the pass keeps overlaps an obstacle it leaves. */
  lemma {:induction false} BulletPassKeptClear(bullets: seq<Bullet>, obstacles: seq<Obstacle>, canvasWidth: real)
    ensures var (kept, remaining) := BulletPass(bullets, obstacles, canvasWidth);
      forall c, o :: c in kept && o in remaining ==> !c.CheckCollision(o)
    decreases |bullets|
  {
    if |bullets| > 0 {
      var before := bullets[..|bullets| - 1];
      var last := bullets[|bullets| - 1];
      BulletPassKeptClear(before, obstacles, canvasWidth);
      var prev := BulletPass(before, obstacles, canvasWidth);
      var b := last.Update();
      var h := FirstHit(prev.1, b);
      var (kept, remaining) := BulletPass(bullets, obstacles, canvasWidth);
      assert kept == prev.0 || (kept == prev.0 + [b] && h.None?);
      assert h.None? ==> remaining == prev.1;
      assert h.Some? ==> remaining == RemoveAt(prev.1, h.value);
      forall c, o | c in kept && o in remaining
        ensures !c.CheckCollision(o)
      {
        assert multiset(remaining)[o] > 0;
        assert o in prev.1;
        if c !in prev.0 {
          var j :| 0 <= j < |prev.1| && prev.1[j] == o;
        }
      }
    }
  }

  /** A bullet still in flight that hits none of the given obstacles is kept. */
  lemma {:induction false} BulletPassKeepsMisses(bullets: seq<Bullet>, obstacles: seq<Obstacle>, canvasWidth: real)
    ensures var kept := BulletPass(bullets, obstacles, canvasWidth).0;
      forall i :: 0 <= i < |bullets| && InFlight(bullets[i].Update(), canvasWidth) &&
                  (forall o :: o in obstacles ==> !bullets[i].Update().CheckCollision(o)) ==>
        bullets[i].Update() in kept
    decreases |bullets|
  {
    if |bullets| > 0 {
      var before := bullets[..|bullets| - 1];
      var last := bullets[|bullets| - 1];
      BulletPassKeepsMisses(before, obstacles, canvasWidth);
      var prev := BulletPass(before, obstacles, canvasWidth);
      var b := last.Update();
      var h := FirstHit(prev.1, b);
      var kept := BulletPass(bullets, obstacles, canvasWidth).0;
      assert kept == prev.0 || kept == prev.0 + [b];
      forall i | 0 <= i < |bullets| && InFlight(bullets[i].Update(), canvasWidth) &&
                 (forall o :: o in obstacles ==> !bullets[i].Update().CheckCollision(o))
        ensures bullets[i].Update() in kept
      {
        if i < |before| {
          assert before[i] == bullets[i];
        } else {
          assert bullets[i] == last;
          forall j | 0 <= j < |prev.1|
            ensures !b.CheckCollision(prev.1[j])
          {
            assert multiset(prev.1)[prev.1[j]] > 0;
          }
          assert h.None?;
        }
      }
    }
  }

  /** What the bullet pass leaves: some of the obstacles it was given, and no
      more obstacles destroyed than bullets used up; the bullets left are on
      screen, and active if all of the given ones were. */
  lemma {:induction false} BulletPassProperties(bullets: seq<Bullet>, obstacles: seq<Obstacle>, canvasWidth: real)
    ensures var (kept, remaining) := BulletPass(bullets, obstacles, canvasWidth);
      |kept| <= |bullets| &&
      multiset(remaining) <= multiset(obstacles) &&
      |obstacles| - |remaining| <= |bullets| - |kept| &&
      (forall b :: b in kept ==> b.x <= canvasWidth) &&
      ((forall b :: b in bullets ==> b.active) ==> forall b :: b in kept ==> b.active)
    decreases |bullets|
  {
    if |bullets| > 0 {
      var before := bullets[..|bullets| - 1];
      var last := bullets[|bullets| - 1];
      BulletPassProperties(before, obstacles, canvasWidth);
      var prev := BulletPass(before, obstacles, canvasWidth);
      var b := last.Update();
      var (kept, remaining) := BulletPass(bullets, obstacles, canvasWidth);
      match FirstHit(prev.1, b)
      case Some(i) =>
        assert kept == prev.0 && remaining == RemoveAt(prev.1, i);
      case None =>
        assert remaining == prev.1;
        assert kept == prev.0 || (kept == prev.0 + [b] && b.x <= canvasWidth);
        if forall c :: c in bullets ==> c.active {
          assert last.active;
          assert forall c :: c in before ==> c in bullets;
        }
    }
  }

  method RunBullets(bullets: seq<Bullet>, obstacles: seq<Obstacle>, canvasWidth: real)
    returns (kept: seq<Bullet>, remaining: seq<Obstacle>)
    ensures (kept, remaining) == BulletPass(bullets, obstacles, canvasWidth)
  {
    kept, remaining := [], obstacles;
    var i := 0;
    while i < |bullets|
      invariant 0 <= i <= |bullets|
      invariant (kept, remaining) == BulletPass(bullets[..i], obstacles, canvasWidth)
    {
      assert bullets[..i + 1][..i] == bullets[..i];
      var bullet := bullets[i].Update();
      var hit := FindHit(remaining, bullet);
      match hit {
        case Some(k) =>
          remaining := RemoveAt(remaining, k);
        case None =>
          if !(bullet.x > canvasWidth) {
            kept := kept + [bullet];
          }
      }
      i := i + 1;
    }
    assert bullets[..i] == bullets;
  }

  /** An obstacle is not yet fully past the left edge. */
  predicate OnScreen(o: Obstacle)
  {
    o.x + o.width >= 0.0
  }

  /** The obstacles a frame should leave, read front to back: every one moved by
      its speed, kept exactly when not fully past the left edge. */
  function OnScreenObstacles(obstacles: seq<Obstacle>): seq<Obstacle>
    decreases |obstacles|
  {
    if |obstacles| == 0 then []
    else
      var o := obstacles[0].Update();
      (if OnScreen(o) then [o] else []) + OnScreenObstacles(obstacles[1..])
  }

  lemma {:induction false} OnScreenObstaclesAppend(obstacles: seq<Obstacle>, last: Obstacle)
    ensures OnScreenObstacles(obstacles + [last]) ==
            OnScreenObstacles(obstacles) + (if OnScreen(last.Update()) then [last.Update()] else [])
    decreases |obstacles|
  {
    if |obstacles| == 0 {
      assert obstacles + [last] == [last];
      assert [last][1..] == [];
    } else {
      var all := obstacles + [last];
      assert all[0] == obstacles[0] && all[1..] == obstacles[1..] + [last];
      OnScreenObstaclesAppend(obstacles[1..], last);
      var head := if OnScreen(obstacles[0].Update()) then [obstacles[0].Update()] else [];
      assert OnScreenObstacles(all) == head + OnScreenObstacles(all[1..]);
      assert OnScreenObstacles(obstacles) == head + OnScreenObstacles(obstacles[1..]);
    }
  }

  /** Obstacles: each one moves, is checked against the dino and is dropped once
      fully past the left edge. The second component tells whether any of them,
      after moving, touches the dino. The pass keeps exactly the obstacles still
      on screen, in order. */
  function ObstaclePass(obstacles: seq<Obstacle>, dino: Rect): (r: (seq<Obstacle>, bool))
    ensures r.0 == OnScreenObstacles(obstacles)
    decreases |obstacles|
  {
    if |obstacles| == 0 then ([], false)
    else
      var before := obstacles[..|obstacles| - 1];
      var prev := ObstaclePass(before, dino);
      var o := obstacles[|obstacles| - 1].Update();
      var hit := prev.1 || Overlaps(dino, o.Box());
      assert obstacles == before + [obstacles[|obstacles| - 1]];
      OnScreenObstaclesAppend(before, obstacles[|obstacles| - 1]);
      if o.x + o.width < 0.0 then
        assert prev.0 + [] == prev.0;
        (prev.0, hit)
      else
        (prev.0 + [o], hit)
  }

  /** What the obstacle pass keeps: given obstacles moved by their own speed and
      not yet fully past the left edge; it reports a hit exactly when some
      obstacle, after moving, touches the dino. */
  lemma {:induction false} ObstaclePassProperties(obstacles: seq<Obstacle>, dino: Rect)
    ensures var (kept, hit) := ObstaclePass(obstacles, dino);
      |kept| <= |obstacles| &&
      (hit <==> exists i :: 0 <= i < |obstacles| && Overlaps(dino, obstacles[i].Update().Box())) &&
      (forall o :: o in kept ==> o.x + o.width >= 0.0 && o.(x := o.x + o.speed) in obstacles)
    decreases |obstacles|
  {
    if |obstacles| > 0 {
      var before := obstacles[..|obstacles| - 1];
      ObstaclePassProperties(before, dino);
      assert forall o :: o in before ==> o in obstacles;
      assert forall i :: 0 <= i < |before| ==> before[i] == obstacles[i];
    }
  }

  method RunObstacles(obstacles: seq<Obstacle>, dino: Rect) returns (kept: seq<Obstacle>, hit: bool)
    ensures (kept, hit) == ObstaclePass(obstacles, dino)
  {
    kept, hit := [], false;
    var i := 0;
    while i < |obstacles|
      invariant 0 <= i <= |obstacles|
      invariant (kept, hit) == ObstaclePass(obstacles[..i], dino)
    {
      assert obstacles[..i + 1][..i] == obstacles[..i];
      var obstacle := obstacles[i].Update();
      if Overlaps(dino, obstacle.Box()) {
        hit := true;
      }
      if !(obstacle.x + obstacle.width < 0.0) {
        kept := kept + [obstacle];
      }
      i := i + 1;
    }
    assert obstacles[..i] == obstacles;
  }
}
