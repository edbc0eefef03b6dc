/**
 * The player sprite (`Player`): keyboard input to velocity, facing and animation,
 * and the idle/walk switch that swaps texture and scale and recomputes the
 * arcade hitbox from the current frame.
 *
 * Frame sizes are integer pixels; scales and hitbox dimensions are exact
 * rationals (`real`), so `0.4 * w` is the source's `w * 0.4` without rounding.
 */
module Avatar {

  /** Horizontal walking speed (`this.speed`). */
  const SPEED: int := 200
  /** Vertical velocity of a jump (`this.jumpVel`). */
  const JUMP_VELOCITY: int := -360
  /** Scale of the walking frames (`BASE_SCALE`). */
  const BASE_SCALE: real := 0.2

  /** A velocity in pixels per second. */
  datatype Motion = Motion(vx: int, vy: int)

  /** The key of `anims.currentAnim` (none before the first `play`). */
  datatype Anim = NoAnim | Idle | Walk

  /** The arcade body's size and offset inside the frame. */
  datatype Hitbox = Hitbox(width: real, height: real, offsetX: real, offsetY: real)

  /** `refreshHitbox` for a `w` by `h` frame. */
  function HitboxFor(w: nat, h: nat): (hb: Hitbox)
    ensures hb.width == 0.4 * w as real && hb.height == 0.6 * h as real
    ensures hb.offsetX + hb.width / 2.0 == w as real / 2.0
    ensures 0.0 <= hb.offsetX && hb.offsetX + hb.width <= w as real
    ensures 0.0 <= hb.offsetY && hb.offsetY + hb.height == 0.95 * h as real
  {
    Hitbox(w as real * 0.4, h as real * 0.6, w as real * 0.3, h as real * 0.35)
  }

  /**
   * `BASE_SCALE * sizeRatio`, the scale of the idle frame, where the ratio divides
   * `ratioHeight` (the height of the image read as `gatoWalk_0`) by the idle frame's
   * height: the idle frame is then shown `0.2 * ratioHeight` pixels tall.
   */
  function IdleScale(ratioHeight: nat, idleHeight: nat): (s: real)
    requires idleHeight > 0
    ensures idleHeight as real * s == BASE_SCALE * ratioHeight as real
  {
    var ratio := ratioHeight as real / idleHeight as real;
    assert idleHeight as real * ratio == ratioHeight as real;
    BASE_SCALE * ratio
  }

  /**
   * The intent of `sizeRatio`: the idle frame is shown exactly as tall as a walk
   * frame (`walkHeight` at scale `BASE_SCALE`) if and only if the ratio is read
   * from a walk frame's height.
   */
  lemma SameSizeExactlyWithWalkFrameRatio(ratioHeight: nat, idleHeight: nat, walkHeight: nat)
    requires idleHeight > 0
    ensures idleHeight as real * IdleScale(ratioHeight, idleHeight) == walkHeight as real * BASE_SCALE
            <==> ratioHeight == walkHeight
  {
    var s := IdleScale(ratioHeight, idleHeight);
    assert idleHeight as real * s == BASE_SCALE * ratioHeight as real;
  }

  /** Height of a frame of the `gatoWalk` sheet, the only walking texture the game loads. */
  const WALK_FRAME_HEIGHT: nat := 232
  /**
   * Height of the engine's placeholder image, which `textures.get` returns for a key
   * that was never loaded, such as `gatoWalk_0`.
   */
  const MISSING_TEXTURE_HEIGHT: nat := 32

  /** The idle scale as the constructor computes it: the ratio reads the placeholder. */
  function IdleScaleAsWritten(idleHeight: nat): (s: real)
    requires idleHeight > 0
    ensures idleHeight as real * s == 6.4
  {
    IdleScale(MISSING_TEXTURE_HEIGHT, idleHeight)
  }

  /**
   * Whatever the idle image's size, the idle cat is shown 6.4 pixels tall as
   * written, against 46.4 for the walking cat; with the ratio read from a walk frame
   * both are 46.4.
   */
  lemma IdleShrinksAsWritten(idleHeight: nat)
    requires idleHeight > 0
    ensures idleHeight as real * IdleScaleAsWritten(idleHeight) == 6.4
    ensures WALK_FRAME_HEIGHT as real * BASE_SCALE == 46.4
    ensures idleHeight as real * IdleScale(WALK_FRAME_HEIGHT, idleHeight) == 46.4
  {
  }

  class Player {
    var x: int
    var y: int
    var vx: int
    var vy: int
    var flipX: bool
    /** `body.allowGravity` (switched by the ladder logic only). */
    var allowGravity: bool
    var anim: Anim
    /** Size of the current texture's frame. */
    var width: nat
    var height: nat
    var scale: real
    var hitbox: Hitbox

    /** Frame size of the `gatoIdle` image. */
    const idleWidth: nat
    const idleHeight: nat
    /** Frame size of the `player-walk` animation, which `anims.play` installs. */
    const walkWidth: nat
    const walkHeight: nat
    /** Height of the image the constructor reads as `gatoWalk_0` to compute `sizeRatio`. */
    const ratioHeight: nat
    const baseScale: real
    /** `ratioHeight` over the idle frame height: meant to make both animations look the same size. */
    const sizeRatio: real

    function Velocity(): Motion
      reads this`vx, this`vy
    {
      Motion(vx, vy)
    }

    /**
     * The hitbox always matches the current frame, and the current animation's
     * texture and scale are the ones its switch installs.
     */
    ghost predicate Valid()
      reads this`anim, this`width, this`height, this`scale, this`hitbox
    {
      Consistent() && anim != NoAnim
    }

    /** `Valid()`, except that no animation may have been played yet. */
    ghost predicate Consistent()
      reads this`anim, this`width, this`height, this`scale, this`hitbox
    {
      && idleHeight > 0
      && baseScale == BASE_SCALE
      && sizeRatio == ratioHeight as real / idleHeight as real
      && hitbox == HitboxFor(width, height)
      && (anim == Idle ==> width == idleWidth && height == idleHeight && scale == baseScale * sizeRatio)
      && (anim == Walk ==> width == walkWidth && height == walkHeight && scale == baseScale)
    }

    constructor (x: int, y: int, idleWidth: nat, idleHeight: nat, walkWidth: nat, walkHeight: nat, ratioHeight: nat)
      requires idleHeight > 0
      ensures Valid()
      ensures this.x == x && this.y == y && Velocity() == Motion(0, 0) && !flipX && allowGravity
      ensures anim == Idle && scale == IdleScale(ratioHeight, idleHeight)
      ensures this.idleWidth == idleWidth && this.idleHeight == idleHeight
      ensures this.walkWidth == walkWidth && this.walkHeight == walkHeight && this.ratioHeight == ratioHeight
    {
      this.x, this.y := x, y;
      vx, vy := 0, 0;
      flipX := false;
      allowGravity := true;
      anim := NoAnim;
      this.idleWidth, this.idleHeight := idleWidth, idleHeight;
      this.walkWidth, this.walkHeight := walkWidth, walkHeight;
      this.ratioHeight := ratioHeight;
      width, height := idleWidth, idleHeight;
      sizeRatio := ratioHeight as real / idleHeight as real;
      scale := BASE_SCALE * (ratioHeight as real / idleHeight as real);
      baseScale := BASE_SCALE;
      hitbox := HitboxFor(idleWidth, idleHeight);
      new;
      RefreshHitbox();
      PlayIdle();
    }

    /** Switch to the idle animation; a no-op when it is already playing. */
    method PlayIdle()
      requires Consistent()
      modifies this`anim, this`width, this`height, this`scale, this`hitbox
      ensures old(anim) == Idle ==> unchanged(this)
      ensures Valid()
      ensures anim == Idle && width == idleWidth && height == idleHeight && scale == baseScale * sizeRatio
    {
      if anim != Idle {
        width, height := idleWidth, idleHeight;
        scale := baseScale * sizeRatio;
        anim := Idle;
        RefreshHitbox();
      }
    }

    /** Switch to the walk animation; a no-op when it is already playing. */
    method PlayWalk()
      requires Consistent()
      modifies this`anim, this`width, this`height, this`scale, this`hitbox
      ensures old(anim) == Walk ==> unchanged(this)
      ensures Valid()
      ensures anim == Walk && width == walkWidth && height == walkHeight && scale == baseScale
    {
      if anim != Walk {
        width, height := walkWidth, walkHeight;
        scale := baseScale;
        anim := Walk;
        RefreshHitbox();
      }
    }

    /** Recompute the hitbox from the current frame. */
    method RefreshHitbox()
      modifies this`hitbox
      ensures hitbox == HitboxFor(width, height)
    {
      hitbox := HitboxFor(width, height);
    }

    /**
     * `preUpdate`: left wins over right; with neither, the player stops and keeps its
     * facing; a jump starts only on the ground and on a fresh press of space.
     */
    method PreUpdate(leftDown: bool, rightDown: bool, spaceJustDown: bool, blockedDown: bool)
      requires Valid()
      modifies this`vx, this`vy, this`flipX, this`anim, this`width, this`height, this`scale, this`hitbox
      ensures Valid()
      ensures leftDown ==> vx == -SPEED && flipX && anim == Walk
      ensures !leftDown && rightDown ==> vx == SPEED && !flipX && anim == Walk
      ensures !leftDown && !rightDown ==> vx == 0 && flipX == old(flipX) && anim == Idle
      ensures vy == if blockedDown && spaceJustDown then JUMP_VELOCITY else old(vy)
    {
      if leftDown {
        vx := -SPEED;
        flipX := true;
        PlayWalk();
      } else if rightDown {
        vx := SPEED;
        flipX := false;
        PlayWalk();
      } else {
        vx := 0;
        PlayIdle();
      }
      var onFloor := blockedDown;
      if onFloor && spaceJustDown {
        vy := JUMP_VELOCITY;
      }
    }
  }
}
