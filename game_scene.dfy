/**
 * The level scene (`GameScene`): the state reset of `create`, the per-frame
 * `update` (floor selector, enemy attack pass, fall detector, throw key) and the
 * scene's own copies of the gameplay handlers.
 *
 * The scene's inline floor selector is the same code as `PlatformPhysics.update`,
 * so the scene holds a `PlatformPhysics` object for it. The handlers are proved
 * against the rules of module `Gameplay`. World geometry, the enemies spawned by
 * the enemy factory and the sprite frame sizes are a `Layout` given to the scene.
 */
module Scene {
  import opened Common
  import opened FloorSelection
  import opened Avatar
  import opened Lives
  import opened Gameplay

  /** An enemy attacks a player closer than this. */
  const ATTACK_RANGE: nat := 90
  /** The player falls out of the level this far below the bottom floor. */
  const FALL_MARGIN: int := 150
  const START_X: int := 80
  /** The player starts this far above the bottom floor. */
  const START_ABOVE_FLOOR: int := 50
  const SCENE_LIVES: int := 3
  const KEY_COUNT: nat := 3
  const YARN_PICKUP_COUNT: nat := 4

  /** What `create` takes from the floor builder, the enemy factory and the textures. */
  datatype Layout = Layout(
    /** The platforms as built; the moving steps shift later, so `update` is given them per frame. */
    platforms: seq<Platform>,
    /** `rooms[0].solidFloor.y`. */
    bottomFloorY: int,
    doorX: int,
    doorY: int,
    enemies: seq<Enemy>,
    /** Frame sizes of the idle image and of the walk sheet; the player's idle scale is computed from `walkHeight`. */
    idleWidth: nat,
    idleHeight: nat,
    walkWidth: nat,
    walkHeight: nat)

  // ---------------------------------------------------------------- enemy attacks

  /** The enemy starts an attack this frame: active, within range, not already attacking. */
  predicate StartsAttack(e: Enemy, px: int, py: int)
  {
    e.active && Closer(px, py, e.x, e.y, ATTACK_RANGE) && !e.isAttacking
  }

  predicate AnyStarts(es: seq<Enemy>, px: int, py: int)
  {
    exists i :: 0 <= i < |es| && StartsAttack(es[i], px, py)
  }

  /** The enemies, the player's velocity and the lives after the attack pass over a list. */
  datatype Encounter = Encounter(enemies: seq<Enemy>, velocity: Motion, life: LifeState)

  /** One round of the attack pass: the enemy `e` after the enemies before it. */
  function Engaged(prev: Encounter, e: Enemy, px: int, py: int): Encounter
  {
    if StartsAttack(e, px, py) then
      var blow := GhostBlow(prev.velocity, prev.life);
      Encounter(prev.enemies + [e.(isAttacking := true, flipX := px < e.x)], blow.0, blow.1)
    else Encounter(prev.enemies + [e], prev.velocity, prev.life)
  }

  /** The attack pass of `update` with the player at (`px`, `py`), enemies in list order. */
  function Attacks(es: seq<Enemy>, px: int, py: int, m: Motion, l: LifeState): (r: Encounter)
    ensures |r.enemies| == |es|
    decreases |es|
  {
    if es == [] then Encounter([], m, l)
    else Engaged(Attacks(es[..|es| - 1], px, py, m, l), es[|es| - 1], px, py)
  }

  /**
   * The attack latch: an enemy that starts an attack becomes attacking and turns
   * towards the player; every other enemy is left exactly as it was.
   */
  lemma {:induction false} AttackLatch(es: seq<Enemy>, px: int, py: int, m: Motion, l: LifeState)
    ensures forall i :: 0 <= i < |es| ==>
              Attacks(es, px, py, m, l).enemies[i]
              == if StartsAttack(es[i], px, py) then es[i].(isAttacking := true, flipX := px < es[i].x) else es[i]
    decreases |es|
  {
    if es != [] {
      AttackLatch(es[..|es| - 1], px, py, m, l);
    }
  }

  /**
   * One frame's attack pass costs at most one life: the lives are hit once, by
   * one life, exactly when some enemy starts an attack, and the velocity changes
   * only then.
   */
  lemma {:induction false} AttacksHitOnce(es: seq<Enemy>, px: int, py: int, m: Motion, l: LifeState)
    ensures Attacks(es, px, py, m, l).life == if AnyStarts(es, px, py) then Hit(l, 1) else l
    ensures !AnyStarts(es, px, py) ==> Attacks(es, px, py, m, l).velocity == m
    decreases |es|
  {
    if es != [] {
      var init := es[..|es| - 1];
      AttacksHitOnce(init, px, py, m, l);
      if AnyStarts(es, px, py) && !StartsAttack(es[|es| - 1], px, py) {
        var i :| 0 <= i < |es| && StartsAttack(es[i], px, py);
        assert init[i] == es[i];
      }
      if AnyStarts(init, px, py) {
        var i :| 0 <= i < |init| && StartsAttack(init[i], px, py);
        assert es[i] == init[i];
      }
    }
  }

  /** An enemy attacks once per attack cycle: right after a pass, no enemy at the same positions starts another attack. */
  lemma NoRehitWhileLatched(es: seq<Enemy>, px: int, py: int, m: Motion, l: LifeState)
    ensures var r := Attacks(es, px, py, m, l);
            !AnyStarts(r.enemies, px, py) && Attacks(r.enemies, px, py, r.velocity, r.life) == r
  {
    var r := Attacks(es, px, py, m, l);
    AttackLatch(es, px, py, m, l);
    AttackLatch(r.enemies, px, py, r.velocity, r.life);
    AttacksHitOnce(r.enemies, px, py, r.velocity, r.life);
    var again := Attacks(r.enemies, px, py, r.velocity, r.life);
    assert again.enemies == r.enemies by {
      forall i | 0 <= i < |r.enemies| ensures again.enemies[i] == r.enemies[i] {
        assert !StartsAttack(r.enemies[i], px, py);
      }
    }
    NoStartKeepsVelocity(r.enemies, px, py, r.velocity, r.life);
  }

  lemma {:induction false} NoStartKeepsVelocity(es: seq<Enemy>, px: int, py: int, m: Motion, l: LifeState)
    requires !AnyStarts(es, px, py)
    ensures Attacks(es, px, py, m, l).velocity == m
    decreases |es|
  {
    if es != [] {
      var init := es[..|es| - 1];
      assert !StartsAttack(es[|es| - 1], px, py);
      assert !AnyStarts(init, px, py) by {
        forall i | 0 <= i < |init| ensures !StartsAttack(init[i], px, py) {
          assert init[i] == es[i];
        }
      }
      NoStartKeepsVelocity(init, px, py, m, l);
    }
  }

  /** The attack animation's `complete` callback: an enemy no longer present or inactive is ignored. */
  function AttackOver(es: seq<Enemy>, id: nat): seq<Enemy>
  {
    match FindEnemy(es, id)
    case None => es
    case Some(i) => if !es[i].active then es else es[i := es[i].(isAttacking := false)]
  }

  /** Only the animation-complete event clears `isAttacking`, only for that enemy, and only if it is still active. */
  lemma AttackOverClearsOne(es: seq<Enemy>, i: nat)
    requires UniqueIds(es) && i < |es|
    ensures var r := AttackOver(es, es[i].id);
            && |r| == |es|
            && (forall j :: 0 <= j < |es| && j != i ==> r[j] == es[j])
            && r[i] == if es[i].active then es[i].(isAttacking := false) else es[i]
  {
    assert FindEnemy(es, es[i].id) == Some(i);
  }

  // ---------------------------------------------------------------- falling

  /** The fall detector fires: the player is far below the bottom floor and not already falling. */
  predicate FallTriggered(isFalling: bool, y: int, bottomFloorY: int)
  {
    y > bottomFloorY + FALL_MARGIN && !isFalling
  }

  /** How many times the detector fires over the player's heights in successive frames of one level. */
  function FallTriggers(isFalling: bool, ys: seq<int>, bottomFloorY: int): nat
    decreases |ys|
  {
    if ys == [] then 0
    else
      var fires := FallTriggered(isFalling, ys[0], bottomFloorY);
      (if fires then 1 else 0) + FallTriggers(isFalling || fires, ys[1..], bottomFloorY)
  }

  /** The fall detector fires at most once per level, and exactly once if the player ever drops below the limit. */
  lemma {:induction false} FallFiresOnce(isFalling: bool, ys: seq<int>, bottomFloorY: int)
    ensures FallTriggers(isFalling, ys, bottomFloorY) <= 1
    ensures isFalling ==> FallTriggers(isFalling, ys, bottomFloorY) == 0
    ensures !isFalling ==>
              (FallTriggers(isFalling, ys, bottomFloorY) == 1
               <==> exists k :: 0 <= k < |ys| && ys[k] > bottomFloorY + FALL_MARGIN)
    decreases |ys|
  {
    if ys != [] {
      var fires := FallTriggered(isFalling, ys[0], bottomFloorY);
      FallFiresOnce(isFalling || fires, ys[1..], bottomFloorY);
      if !isFalling && !fires && (exists k :: 0 <= k < |ys[1..]| && ys[1..][k] > bottomFloorY + FALL_MARGIN) {
        var k :| 0 <= k < |ys[1..]| && ys[1..][k] > bottomFloorY + FALL_MARGIN;
        assert ys[k + 1] == ys[1..][k];
      }
      if !isFalling && !fires && (exists k :: 0 <= k < |ys| && ys[k] > bottomFloorY + FALL_MARGIN) {
        var k :| 0 <= k < |ys| && ys[k] > bottomFloorY + FALL_MARGIN;
        assert k > 0;
        assert ys[1..][k - 1] == ys[k];
      }
    }
  }

  /** The pass over one more enemy is one more round of `Engaged`. */
  lemma AttacksExtend(es: seq<Enemy>, i: nat, px: int, py: int, m: Motion, l: LifeState)
    requires i < |es|
    ensures Attacks(es[..i + 1], px, py, m, l) == Engaged(Attacks(es[..i], px, py, m, l), es[i], px, py)
  {
    assert es[..i + 1][..i] == es[..i];
  }

  /** Replacing the first enemy after a prefix extends the prefix by that enemy. */
  lemma SpliceAt(done: seq<Enemy>, es: seq<Enemy>, i: nat, e: Enemy)
    requires i < |es|
    ensures (done + es[i..])[|done| := e] == (done + [e]) + es[i + 1..]
    ensures done + es[i..] == (done + [es[i]]) + es[i + 1..]
  {
    assert es[i..][1..] == es[i + 1..];
    assert (done + es[i..])[|done| := e] == (done + [e]) + es[i + 1..];
  }

  // ---------------------------------------------------------------- the scene

  class GameScene {
    const layout: Layout
    var player: Player
    var life: LifeManager
    /** The scene's `activeCollider` and `lastValidFloor`, with the collider handles. */
    var floors: PlatformPhysics
    var keysCollected: int
    var totalKeys: int
    var yarnCount: int
    var doorOpen: bool
    var doorUnlocks: nat
    var ectoplasmHurt: bool
    var keys: seq<Pickup>
    var yarnPickups: seq<Pickup>
    var yarns: seq<Yarn>
    var enemies: seq<Enemy>
    var isFalling: bool

    function State(): Board
      reads this
    {
      Board(keysCollected, totalKeys, yarnCount, doorOpen, doorUnlocks, ectoplasmHurt, keys, yarnPickups, yarns, enemies)
    }

    /** The player and its life manager, as the hit handlers need them. */
    ghost predicate Linked()
      reads this`player, this`life, player
    {
      life.player == player && player.Valid()
    }

    ghost predicate Valid()
      reads this`player, this`life, this`floors, player, floors
    {
      && Linked()
      && floors.Valid()
      && floors.floorCount == |layout.platforms|
    }

    /** The first run of `create`. */
    constructor (layout: Layout)
      requires layout.idleHeight > 0
      ensures Valid() && this.layout == layout
      ensures State() == NewBoard(KEY_COUNT, YARN_PICKUP_COUNT, layout.enemies)
      ensures !isFalling && floors.State() == Unbound && life.State() == LifeState(SCENE_LIVES, false, 0)
      ensures player.x == START_X && player.y == layout.bottomFloorY - START_ABOVE_FLOOR
    {
      this.layout := layout;
      var p := new Player(START_X, layout.bottomFloorY - START_ABOVE_FLOOR,
                          layout.idleWidth, layout.idleHeight, layout.walkWidth, layout.walkHeight, layout.walkHeight);
      player := p;
      life := new LifeManager(p, SCENE_LIVES);
      floors := new PlatformPhysics(layout.platforms);
      totalKeys := TOTAL_KEYS;
      keysCollected := 0;
      yarnCount := 0;
      isFalling := false;
      doorOpen := false;
      doorUnlocks := 0;
      ectoplasmHurt := false;
      var level := NewBoard(KEY_COUNT, YARN_PICKUP_COUNT, layout.enemies);
      keys, yarnPickups := level.keys, level.yarnPickups;
      yarns := [];
      enemies := layout.enemies;
    }

    /**
     * `create` on a restart: a new player, life manager and level, the counters and
     * the collider state reset. `ectoplasmHurt` is not among the fields reset.
     */
    method Create()
      requires layout.idleHeight > 0
      modifies this
      ensures Valid() && fresh(player) && fresh(life) && fresh(floors)
      ensures State() == NewBoard(KEY_COUNT, YARN_PICKUP_COUNT, layout.enemies).(ectoplasmHurt := old(ectoplasmHurt))
      ensures !isFalling && floors.State() == Unbound && life.State() == LifeState(SCENE_LIVES, false, 0)
      ensures player.x == START_X && player.y == layout.bottomFloorY - START_ABOVE_FLOOR
    {
      var p, lm, fl := Spawn();
      floors, player, life := fl, p, lm;
      isFalling := false;
      ResetBoard();
    }

    /** The counters, the door and the level's objects as `create` sets them; `ectoplasmHurt` keeps its value. */
    method ResetBoard()
      modifies this`keysCollected, this`totalKeys, this`yarnCount, this`doorOpen, this`doorUnlocks
      modifies this`keys, this`yarnPickups, this`yarns, this`enemies
      ensures State() == NewBoard(KEY_COUNT, YARN_PICKUP_COUNT, layout.enemies).(ectoplasmHurt := ectoplasmHurt)
    {
      totalKeys, keysCollected, yarnCount := TOTAL_KEYS, 0, 0;
      var level := NewBoard(KEY_COUNT, YARN_PICKUP_COUNT, layout.enemies);
      keys, yarnPickups := level.keys, level.yarnPickups;
      doorOpen, doorUnlocks := false, 0;
      enemies, yarns := layout.enemies, [];
    }

    /** The objects `create` builds: the player at its start point, a life manager for it, and an unbound floor selector. */
    method Spawn() returns (p: Player, lm: LifeManager, fl: PlatformPhysics)
      requires layout.idleHeight > 0
      ensures fresh(p) && fresh(lm) && fresh(fl)
      ensures p.Valid() && lm.player == p && fl.Valid() && fl.floorCount == |layout.platforms|
      ensures fl.State() == Unbound && lm.State() == LifeState(SCENE_LIVES, false, 0)
      ensures p.x == START_X && p.y == layout.bottomFloorY - START_ABOVE_FLOOR
    {
      p := new Player(START_X, layout.bottomFloorY - START_ABOVE_FLOOR,
                      layout.idleWidth, layout.idleHeight, layout.walkWidth, layout.walkHeight, layout.walkHeight);
      lm := new LifeManager(p, SCENE_LIVES);
      fl := new PlatformPhysics(layout.platforms);
    }

    /** `resetLevel`, run when the fall sound completes: the scene restarts. */
    method ResetLevel()
      requires layout.idleHeight > 0
      modifies this
      ensures Valid() && fresh(player) && fresh(life) && fresh(floors)
      ensures State() == NewBoard(KEY_COUNT, YARN_PICKUP_COUNT, layout.enemies).(ectoplasmHurt := old(ectoplasmHurt))
      ensures !isFalling && floors.State() == Unbound && life.State() == LifeState(SCENE_LIVES, false, 0)
    {
      Create();
    }

    /**
     * `update`, given the y of the player's bottom centre, its posture and whether
     * the throw key was just pressed. Returns whether the fall detector fired, in
     * which case the frame ends before the throw key is looked at.
     */
    method Update(platforms: seq<Platform>, playerBottom: int, isCrouching: bool, throwJustDown: bool) returns (falling: bool)
      requires Valid() && |platforms| == |layout.platforms|
      modifies this`enemies, this`isFalling, this`yarns, this`yarnCount, floors
      modifies player`vx, player`vy, life`lives, life`invulnerable, life`gameOvers
      ensures Valid()
      ensures floors.State() == Step(old(floors.State()), platforms, player.x, playerBottom, isCrouching)
      ensures var r := Attacks(old(enemies), player.x, player.y, old(player.Velocity()), old(life.State()));
              && enemies == r.enemies && player.Velocity() == r.velocity && life.State() == r.life
              && var attacked := old(State()).(enemies := r.enemies);
                 State() == if falling || !throwJustDown then attacked else Thrown(attacked, player.x, player.y, player.flipX)
      ensures falling == FallTriggered(old(isFalling), player.y, layout.bottomFloorY)
      ensures isFalling == (old(isFalling) || falling)
    {
      Physics(platforms, playerBottom, isCrouching);
      falling := CheckFall();
      if !falling && throwJustDown {
        ThrowYarn();
      }
    }

    /** The floor selector and the enemy loop of `update`. */
    method Physics(platforms: seq<Platform>, playerBottom: int, isCrouching: bool)
      requires Valid() && |platforms| == |layout.platforms|
      modifies this`enemies, floors, player`vx, player`vy, life`lives, life`invulnerable, life`gameOvers
      ensures Valid()
      ensures floors.State() == Step(old(floors.State()), platforms, player.x, playerBottom, isCrouching)
      ensures var r := Attacks(old(enemies), player.x, player.y, old(player.Velocity()), old(life.State()));
              && enemies == r.enemies && player.Velocity() == r.velocity && life.State() == r.life
              && State() == old(State()).(enemies := r.enemies)
    {
      floors.Update(platforms, player.x, playerBottom, isCrouching);
      AttackPass();
    }

    /** The fall detector of `update`: fires once, when the player first drops `FALL_MARGIN` below the bottom floor. */
    method CheckFall() returns (falling: bool)
      modifies this`isFalling
      ensures falling == FallTriggered(old(isFalling), player.y, layout.bottomFloorY)
      ensures isFalling == (old(isFalling) || falling)
    {
      falling := false;
      if player.y > layout.bottomFloorY + FALL_MARGIN && !isFalling {
        isFalling := true;
        falling := true;
      }
    }

    /** The enemy loop of `update`: each enemy in range that is not attacking yet starts an attack and hits the player. */
    method AttackPass()
      requires Valid()
      modifies this`enemies, player`vx, player`vy, life`lives, life`invulnerable, life`gameOvers
      ensures Valid()
      ensures var r := Attacks(old(enemies), player.x, player.y, old(player.Velocity()), old(life.State()));
              enemies == r.enemies && player.Velocity() == r.velocity && life.State() == r.life
    {
      ghost var es := enemies;
      ghost var m := player.Velocity();
      ghost var l := life.State();
      ghost var r := Encounter([], m, l);
      for i := 0 to |enemies|
        invariant |enemies| == |es| && |r.enemies| == i
        invariant r == Attacks(es[..i], player.x, player.y, m, l)
        invariant enemies == r.enemies + es[i..] && player.Velocity() == r.velocity && life.State() == r.life
        invariant Linked()
      {
        AttacksExtend(es, i, player.x, player.y, m, l);
        Engage(i);
        SpliceAt(r.enemies, es, i, enemies[i]);
        r := Engaged(r, es[i], player.x, player.y);
      }
      assert es[..|es|] == es;
    }

    /** One round of the enemy loop, for the enemy at position `i`. */
    method Engage(i: nat)
      requires Linked() && i < |enemies|
      modifies this`enemies, player`vx, player`vy, life`lives, life`invulnerable, life`gameOvers
      ensures Linked()
      ensures var e := old(enemies[i]);
              if StartsAttack(e, player.x, player.y) then
                && enemies == old(enemies)[i := e.(isAttacking := true, flipX := player.x < e.x)]
                && (player.Velocity(), life.State()) == GhostBlow(old(player.Velocity()), old(life.State()))
              else
                && enemies == old(enemies)
                && player.Velocity() == old(player.Velocity()) && life.State() == old(life.State())
    {
      var enemy := enemies[i];
      if enemy.active {
        var dx, dy := player.x - enemy.x, player.y - enemy.y;
        if dx * dx + dy * dy < ATTACK_RANGE * ATTACK_RANGE {
          if !enemy.isAttacking {
            enemies := enemies[i := enemy.(isAttacking := true, flipX := player.x < enemy.x)];
            HitGhost();
          }
        }
      }
    }

    /** The attack animation's `complete` callback for the enemy `id`. */
    method OnAttackAnimComplete(id: nat)
      modifies this`enemies
      ensures enemies == AttackOver(old(enemies), id)
    {
      var found := FindEnemy(enemies, id);
      if found.None? || !enemies[found.value].active {
        return;
      }
      enemies := enemies[found.value := enemies[found.value].(isAttacking := false)];
    }

    method CollectKey(k: nat)
      requires k < |keys|
      modifies this`keys
      ensures State() == KeyPicked(old(State()), k)
    {
      if keys[k] != Live {
        return;
      }
      keys := keys[k := Consuming];
    }

    /** The key tween's `onComplete`. */
    method OnKeyTweenComplete(k: nat)
      requires k < |keys| && keys[k] == Consuming
      modifies this`keys, this`keysCollected, this`doorOpen, this`doorUnlocks
      ensures State() == KeyCounted(old(State()), k)
    {
      keys := keys[k := Gone];
      keysCollected := keysCollected + 1;
      if keysCollected >= totalKeys && !doorOpen {
        doorOpen := true;
        OnDoorUnlocked();
      }
    }

    /** Message, tint and blink: only their count is kept. */
    method OnDoorUnlocked()
      modifies this`doorUnlocks
      ensures doorUnlocks == old(doorUnlocks) + 1
    {
      doorUnlocks := doorUnlocks + 1;
    }

    method HitGhost()
      requires Linked()
      modifies player`vx, player`vy, life`lives, life`invulnerable, life`gameOvers
      ensures (player.Velocity(), life.State()) == GhostBlow(old(player.Velocity()), old(life.State()))
    {
      player.vx, player.vy := GHOST_PUSH * SignOr1(player.vx), GHOST_LIFT;
      life.TakeDamage(1);
    }

    /** Whether the scene switches to `MultiFloorScene`. */
    method TryFinish(eJustDown: bool) returns (exit: bool)
      ensures exit <==> ExitGranted(doorOpen, eJustDown, player.x, player.y, layout.doorX, layout.doorY)
    {
      exit := false;
      if doorOpen {
        if eJustDown {
          var dx, dy := player.x - layout.doorX, player.y - layout.doorY;
          if dx * dx + dy * dy < EXIT_RADIUS * EXIT_RADIUS {
            exit := true;
          }
        }
      }
    }

    method HitEctoplasm(isOnFloor: bool)
      requires Linked()
      modifies this`ectoplasmHurt, player`vx, player`vy, life`lives, life`invulnerable, life`gameOvers
      ensures Outcome(State(), player.Velocity(), life.State())
              == EctoplasmTouched(old(State()), isOnFloor, old(player.Velocity()), old(life.State()))
    {
      if !isOnFloor {
        return;
      }
      if ectoplasmHurt {
        return;
      }
      ectoplasmHurt := true;
      var dir := SignOr1(player.vx);
      player.vx, player.vy := ECTOPLASM_PUSH * dir, ECTOPLASM_LIFT;
      life.TakeDamage(1);
    }

    /** The hazard's cooldown timer. */
    method OnEctoplasmCooldownExpired()
      modifies this`ectoplasmHurt
      ensures State() == CooldownOver(old(State()))
    {
      ectoplasmHurt := false;
    }

    method CollectYarn(i: nat)
      requires i < |yarnPickups|
      modifies this`yarnPickups
      ensures State() == YarnPicked(old(State()), i)
    {
      if yarnPickups[i] != Live {
        return;
      }
      yarnPickups := yarnPickups[i := Consuming];
    }

    /** The pickup tween's `onComplete`. */
    method OnYarnTweenComplete(i: nat)
      requires i < |yarnPickups| && yarnPickups[i] == Consuming
      modifies this`yarnPickups, this`yarnCount
      ensures State() == YarnCounted(old(State()), i)
    {
      yarnPickups := yarnPickups[i := Gone];
      yarnCount := yarnCount + 1;
    }

    method ThrowYarn()
      modifies this`yarns, this`yarnCount
      ensures State() == Thrown(old(State()), player.x, player.y, player.flipX)
    {
      if yarnCount <= 0 {
        return;
      }
      var direction := if player.flipX then -1 else 1;
      var ball := Yarn(player.x, player.y - YARN_SPAWN_ABOVE, YARN_SPEED * direction, YARN_LIFT, YARN_SPIN * direction, true);
      yarns := yarns + [ball];
      yarnCount := yarnCount - 1;
    }

    /** The thrown ball's lifetime timer. */
    method OnYarnLifetimeOver(j: nat)
      requires j < |yarns|
      modifies this`yarns
      ensures State() == YarnTimedOut(old(State()), j)
    {
      if yarns[j].active {
        yarns := yarns[j := yarns[j].(active := false)];
      }
    }

    method HitEnemyWithYarn(j: nat, id: nat)
      requires j < |yarns|
      modifies this`yarns, this`enemies
      ensures State() == EnemyHit(old(State()), j, id)
    {
      var found := FindEnemy(enemies, id);
      if found.None? || !enemies[found.value].active {
        return;
      }
      yarns := yarns[j := yarns[j].(active := false)];
      enemies := Without(enemies, id);
    }
  }
}
