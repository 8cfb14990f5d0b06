/** The `dino` object of game.js: fixed horizontal position and size, and a
    vertical motion that `update()` (gravity, landing) and `jump()` change. */
module Player {
  import opened Collision

  /** The line the dino stands on. */
  const Ground: real := 150.0
  const Gravity: real := 0.6
  const JumpPower: real := -12.0
  const DinoX: real := 50.0
  const DinoWidth: real := 40.0
  const DinoHeight: real := 44.0

  /** The part of the dino that changes. */
  datatype Motion = Motion(y: real, dy: real, grounded: bool, jumping: bool)

  /** The dino as the page loads it, and as resetGame puts it back. */
  const InitialMotion: Motion := Motion(Ground, 0.0, false, false)

  /** The dino's bounding box at a given motion. */
  function DinoBox(m: Motion): (r: Rect)
    ensures r.Proper() && r.y == m.y
  {
    Rect(DinoX, m.y, DinoWidth, DinoHeight)
  }

  /** dino.update: in the air gravity speeds the fall; at or below the ground
      line the dino is put on it, may not keep falling, and then moves by dy. */
  function Fall(m: Motion): (r: Motion)
    ensures m.y < Ground ==>
      r.dy == m.dy + Gravity && !r.grounded && r.jumping == m.jumping && r.y == m.y + r.dy
    ensures Ground <= m.y ==>
      r.grounded && !r.jumping && r.dy <= 0.0 && r.dy <= m.dy && (m.dy <= 0.0 ==> r.dy == m.dy) &&
      r.y == Ground + r.dy && r.y <= Ground
    ensures Ground <= m.y && 0.0 <= m.dy ==> r == Motion(Ground, 0.0, true, false)
  {
    if m.y < Ground then
      var dy := m.dy + Gravity;
      Motion(m.y + dy, dy, false, m.jumping)
    else
      var dy := if m.dy > 0.0 then 0.0 else m.dy;
      Motion(Ground + dy, dy, true, false)
  }

  /** dino.jump: only a grounded dino that is not already jumping takes the
      impulse; otherwise nothing changes. */
  function Leap(m: Motion): (r: Motion)
    ensures r != m <==> m.grounded && !m.jumping
    ensures r != m ==> r.dy == JumpPower && r.jumping
    ensures r.y == m.y && r.grounded == m.grounded
    ensures !r.grounded || r.jumping
  {
    if m.grounded && !m.jumping then m.(dy := JumpPower, jumping := true) else m
  }

  /** A second jump right after the first is a no-op. */
  lemma LeapTwiceIsLeapOnce(m: Motion)
    ensures Leap(Leap(m)) == Leap(m)
  {
  }

  /** The frame after a jump from the ground takes the dino 12 units up, but
      the landing branch has already cleared `jumping` while `grounded` is still
      set, so the jump guard is open again for that one frame. */
  lemma TakeOffFrame(m: Motion)
    requires m.y == Ground && m.grounded && !m.jumping
    ensures Fall(Leap(m)).y == Ground + JumpPower < Ground
    ensures Leap(Fall(Leap(m))) != Fall(Leap(m))
  {
  }

  class Dino {
    const x: real := DinoX
    const width: real := DinoWidth
    const height: real := DinoHeight
    const jumpPower: real := JumpPower
    var y: real
    var dy: real
    var grounded: bool
    var jumping: bool

    function State(): Motion
      reads this
    {
      Motion(y, dy, grounded, jumping)
    }

    function Box(): (r: Rect)
      reads this
      ensures r == DinoBox(State())
    {
      Rect(x, y, width, height)
    }

    constructor ()
      ensures State() == InitialMotion
    {
      y, dy, grounded, jumping := Ground, 0.0, false, false;
    }

    /** dino.update. */
    method Update()
      modifies this
      ensures State() == Fall(old(State()))
    {
      if y < Ground {
        dy := dy + Gravity;
        grounded := false;
      } else {
        y := Ground;
        grounded := true;
        jumping := false;
        if dy > 0.0 {
          dy := 0.0;
        }
      }
      y := y + dy;
    }

    /** dino.jump (the sound it plays is not modelled). */
    method Jump()
      modifies this
      ensures State() == Leap(old(State()))
    {
      if grounded && !jumping {
        dy := jumpPower;
        jumping := true;
      }
    }
  }
}
