/**
 * The gameplay coordinator (`GameplayManager`): key and yarn counters with their
 * "disable the body, animate, then count" guard, the door latch, throwing yarn,
 * the ectoplasm hazard with its own cooldown, ghost hits, yarn hitting an enemy,
 * and the level-exit gate.
 *
 * The rules are stated once, as functions on a `Board` value, and both the
 * manager below and the scene's own copies of the handlers (module `Scene`) are
 * proved against them. A key or yarn pickup is identified by its index and is
 * `Live` (body enabled), `Consuming` (body disabled, tween running) or `Gone`
 * (destroyed); a thrown yarn by its index in `yarns`; an enemy by its `id`.
 * Every deferred callback is an event of its own.
 */
module Gameplay {
  import opened Common
  import opened Avatar
  import opened Lives

  const TOTAL_KEYS: int := 3
  /** Horizontal speed of a thrown yarn ball. */
  const YARN_SPEED: int := 350
  /** Vertical velocity of a thrown yarn ball. */
  const YARN_LIFT: int := -200
  /** Angular velocity of a thrown yarn ball. */
  const YARN_SPIN: int := 400
  /** A yarn ball spawns this far above the player's centre. */
  const YARN_SPAWN_ABOVE: int := 10
  /** Knockback of the ectoplasm hazard (horizontal factor and vertical velocity). */
  const ECTOPLASM_PUSH: int := -150
  const ECTOPLASM_LIFT: int := -220
  /** Knockback of a ghost's hit. */
  const GHOST_PUSH: int := -200
  const GHOST_LIFT: int := -150
  /** The door can be used from closer than this. */
  const EXIT_RADIUS: nat := 100

  datatype Pickup = Live | Consuming | Gone

  /** A thrown yarn ball: position, velocity, spin, and whether it is still in the world. */
  datatype Yarn = Yarn(x: int, y: int, vx: int, vy: int, spin: int, active: bool)

  datatype Enemy = Enemy(id: nat, x: int, y: int, active: bool, isAttacking: bool, flipX: bool)

  /** Everything the handlers read and write, apart from the player's velocity and the lives. */
  datatype Board = Board(
    keysCollected: int,
    totalKeys: int,
    yarnCount: int,
    doorOpen: bool,
    /** How many times `onDoorUnlocked` ran (tint, blink tween, notice). */
    doorUnlocks: nat,
    ectoplasmHurt: bool,
    keys: seq<Pickup>,
    yarnPickups: seq<Pickup>,
    yarns: seq<Yarn>,
    enemies: seq<Enemy>)

  /** The board of a new level: nothing collected, door locked, every pickup live. */
  function NewBoard(keyCount: nat, pickupCount: nat, enemies: seq<Enemy>): (b: Board)
    ensures b.keysCollected == 0 && b.totalKeys == TOTAL_KEYS && b.yarnCount == 0
    ensures !b.doorOpen && !b.ectoplasmHurt && b.yarns == [] && b.enemies == enemies
    ensures |b.keys| == keyCount && |b.yarnPickups| == pickupCount
  {
    Board(0, TOTAL_KEYS, 0, false, 0, false, seq(keyCount, _ => Live), seq(pickupCount, _ => Live), [], enemies)
  }

  // ---------------------------------------------------------------- keys

  /** `collectKey(_, key)`: a key with no enabled body is ignored; otherwise its body is disabled and its tween starts. */
  function KeyPicked(b: Board, k: nat): Board
    requires k < |b.keys|
  {
    if b.keys[k] != Live then b else b.(keys := b.keys[k := Consuming])
  }

  /** The key tween's `onComplete`: destroy the key, count it, and unlock the door once enough keys are in. */
  function KeyCounted(b: Board, k: nat): Board
    requires k < |b.keys|
  {
    var collected := b.keysCollected + 1;
    var unlock := collected >= b.totalKeys && !b.doorOpen;
    b.(keys := b.keys[k := Gone],
       keysCollected := collected,
       doorOpen := b.doorOpen || unlock,
       doorUnlocks := if unlock then b.doorUnlocks + 1 else b.doorUnlocks)
  }

  // ---------------------------------------------------------------- yarn

  /** `collectYarn(player, pickup)`: the same guard as keys. */
  function YarnPicked(b: Board, i: nat): Board
    requires i < |b.yarnPickups|
  {
    if b.yarnPickups[i] != Live then b else b.(yarnPickups := b.yarnPickups[i := Consuming])
  }

  /** The pickup tween's `onComplete`: destroy the pickup and count one more yarn ball. */
  function YarnCounted(b: Board, i: nat): Board
    requires i < |b.yarnPickups|
  {
    b.(yarnPickups := b.yarnPickups[i := Gone], yarnCount := b.yarnCount + 1)
  }

  /** +1 facing right, -1 facing left (`flipX`). */
  function Facing(flipX: bool): int
  {
    if flipX then -1 else 1
  }

  /** `throwYarn()` with the player at (`x`, `y`): nothing without stock, else one ball thrown the way the player faces. */
  function Thrown(b: Board, x: int, y: int, flipX: bool): Board
  {
    if b.yarnCount <= 0 then b
    else
      var dir := Facing(flipX);
      var ball := Yarn(x, y - YARN_SPAWN_ABOVE, YARN_SPEED * dir, YARN_LIFT, YARN_SPIN * dir, true);
      b.(yarns := b.yarns + [ball], yarnCount := b.yarnCount - 1)
  }

  /** The ball's 3000 ms timer: destroy it if it is still active. */
  function YarnTimedOut(b: Board, j: nat): Board
    requires j < |b.yarns|
  {
    if b.yarns[j].active then b.(yarns := b.yarns[j := b.yarns[j].(active := false)]) else b
  }

  // ---------------------------------------------------------------- enemies

  /** Position of the first enemy with this `id`, if any. */
  function FindEnemy(es: seq<Enemy>, id: nat): (r: Option<nat>)
    ensures r.Some? ==> r.value < |es| && es[r.value].id == id
    ensures r.Some? ==> forall i :: 0 <= i < r.value ==> es[i].id != id
    ensures r.None? ==> forall i :: 0 <= i < |es| ==> es[i].id != id
  {
    if es == [] then None
    else if es[0].id == id then Some(0)
    else match FindEnemy(es[1..], id)
      case None => None
      case Some(i) => Some(i + 1)
  }

  /** `enemies.filter(e => e !== enemy)`. */
  function Without(es: seq<Enemy>, id: nat): (r: seq<Enemy>)
  {
    if es == [] then []
    else if es[0].id == id then Without(es[1..], id)
    else [es[0]] + Without(es[1..], id)
  }

  ghost predicate UniqueIds(es: seq<Enemy>)
  {
    forall i, j :: 0 <= i < j < |es| ==> es[i].id != es[j].id
  }

  /** `hitEnemyWithYarn(yarn, enemy)`: a missing or inactive enemy is ignored; otherwise both are destroyed and the enemy leaves the list. */
  function EnemyHit(b: Board, j: nat, id: nat): Board
    requires j < |b.yarns|
  {
    match FindEnemy(b.enemies, id)
    case None => b
    case Some(i) =>
      if !b.enemies[i].active then b
      else b.(enemies := Without(b.enemies, id), yarns := b.yarns[j := b.yarns[j].(active := false)])
  }

  // ---------------------------------------------------------------- hazards

  /** The effect of a handler on the board, the player's velocity and the life manager. */
  datatype Outcome = Outcome(board: Board, velocity: Motion, life: LifeState)

  /** `hitEctoplasm(player, trap)`: only on the floor and outside its own cooldown; knockback, then one hit. */
  function EctoplasmTouched(b: Board, isOnFloor: bool, m: Motion, l: LifeState): Outcome
  {
    if !isOnFloor || b.ectoplasmHurt then Outcome(b, m, l)
    else
      var push := Motion(ECTOPLASM_PUSH * SignOr1(m.vx), ECTOPLASM_LIFT);
      Outcome(b.(ectoplasmHurt := true), VelocityAfterHit(l, 1, push), Hit(l, 1))
  }

  /** The hazard's own 900 ms re-trigger timer. */
  function CooldownOver(b: Board): Board
  {
    b.(ectoplasmHurt := false)
  }

  /** `hitGhost()`: knockback against the current motion, then one hit. */
  function GhostBlow(m: Motion, l: LifeState): (Motion, LifeState)
  {
    var push := Motion(GHOST_PUSH * SignOr1(m.vx), GHOST_LIFT);
    (VelocityAfterHit(l, 1, push), Hit(l, 1))
  }

  /** `tryFinish()`: the door must be open, E just pressed, and the door closer than `EXIT_RADIUS`. */
  predicate ExitGranted(doorOpen: bool, eJustDown: bool, px: int, py: int, doorX: int, doorY: int)
  {
    doorOpen && eJustDown && Closer(px, py, doorX, doorY, EXIT_RADIUS)
  }

  // ---------------------------------------------------------------- event sequences

  /** The handlers and callbacks that touch only the board. */
  datatype Event =
    | PickKey(k: nat) | CountKey(k: nat)
    | PickYarn(i: nat) | CountYarn(i: nat)
    | Throw(x: int, y: int, flipX: bool) | Despawn(j: nat) | YarnHit(j: nat, id: nat)

  /**
   * Events that can occur: indices refer to existing objects, and a tween completes
   * only for a pickup whose tween was started (and has not completed).
   */
  predicate Enabled(b: Board, e: Event)
  {
    match e
    case PickKey(k) => k < |b.keys|
    case CountKey(k) => k < |b.keys| && b.keys[k] == Consuming
    case PickYarn(i) => i < |b.yarnPickups|
    case CountYarn(i) => i < |b.yarnPickups| && b.yarnPickups[i] == Consuming
    case Throw(_, _, _) => true
    case Despawn(j) => j < |b.yarns|
    case YarnHit(j, _) => j < |b.yarns|
  }

  function Apply(b: Board, e: Event): Board
    requires Enabled(b, e)
  {
    match e
    case PickKey(k) => KeyPicked(b, k)
    case CountKey(k) => KeyCounted(b, k)
    case PickYarn(i) => YarnPicked(b, i)
    case CountYarn(i) => YarnCounted(b, i)
    case Throw(x, y, flipX) => Thrown(b, x, y, flipX)
    case Despawn(j) => YarnTimedOut(b, j)
    case YarnHit(j, id) => EnemyHit(b, j, id)
  }

  /** Every event of the sequence is enabled when it occurs. */
  predicate Feasible(b: Board, evs: seq<Event>)
    decreases |evs|
  {
    evs == [] || (Enabled(b, evs[0]) && Feasible(Apply(b, evs[0]), evs[1..]))
  }

  function Run(b: Board, evs: seq<Event>): Board
    requires Feasible(b, evs)
    decreases |evs|
  {
    if evs == [] then b else Run(Apply(b, evs[0]), evs[1..])
  }

  function CountGone(s: seq<Pickup>): nat
  {
    if s == [] then 0 else CountGone(s[..|s| - 1]) + (if s[|s| - 1] == Gone then 1 else 0)
  }

  /**
   * The counters agree with the objects: every destroyed key was counted once, the
   * door is open exactly when enough keys are in and was unlocked once, and the yarn
   * stock is the pickups destroyed minus the balls thrown, never negative.
   */
  ghost predicate Consistent(b: Board)
  {
    && b.keysCollected == CountGone(b.keys)
    && (b.doorOpen <==> b.keysCollected >= b.totalKeys)
    && b.doorUnlocks == (if b.doorOpen then 1 else 0)
    && b.yarnCount == CountGone(b.yarnPickups) - |b.yarns|
    && b.yarnCount >= 0
    && UniqueIds(b.enemies)
  }

  lemma {:induction false} CountGoneUpdate(s: seq<Pickup>, k: nat, v: Pickup)
    requires k < |s|
    ensures CountGone(s[k := v]) == CountGone(s) - (if s[k] == Gone then 1 else 0) + (if v == Gone then 1 else 0)
    decreases |s|
  {
    var t := s[k := v];
    if k < |s| - 1 {
      assert t[..|t| - 1] == s[..|s| - 1][k := v];
      CountGoneUpdate(s[..|s| - 1], k, v);
    } else {
      assert t[..|t| - 1] == s[..|s| - 1];
    }
  }

  lemma {:induction false} CountGoneAllLive(n: nat)
    ensures CountGone(seq(n, _ => Live)) == 0
  {
    if n > 0 {
      assert seq(n, _ => Live)[..n - 1] == seq(n - 1, _ => Live);
      CountGoneAllLive(n - 1);
    }
  }

  /** Filtering out an id keeps the other enemies, in order. */
  lemma {:induction false} WithoutKeepsOthers(es: seq<Enemy>, id: nat)
    ensures forall e :: e in Without(es, id) <==> e in es && e.id != id
    ensures |Without(es, id)| <= |es|
  {
    if es != [] {
      WithoutKeepsOthers(es[1..], id);
    }
  }

  lemma {:induction false} WithoutKeepsUnique(es: seq<Enemy>, id: nat)
    requires UniqueIds(es)
    ensures UniqueIds(Without(es, id))
  {
    if es != [] {
      WithoutKeepsUnique(es[1..], id);
      WithoutKeepsOthers(es[1..], id);
      var r := Without(es[1..], id);
      if es[0].id != id {
        forall i, j | 0 <= i < j < |[es[0]] + r| ensures ([es[0]] + r)[i].id != ([es[0]] + r)[j].id {
          if i == 0 {
            assert r[j - 1] in es[1..];
          }
        }
      }
    }
  }

  /** With unique ids, removing the enemy at position `i` takes out exactly that one entry. */
  lemma {:induction false} WithoutRemovesExactly(es: seq<Enemy>, i: nat)
    requires UniqueIds(es) && i < |es|
    ensures Without(es, es[i].id) == es[..i] + es[i + 1..]
  {
    var id := es[i].id;
    if i == 0 {
      WithoutAbsent(es[1..], id);
    } else {
      assert es[0].id != id;
      WithoutRemovesExactly(es[1..], i - 1);
      assert es[1..][..i - 1] == es[1..i];
      assert es[1..][i..] == es[i + 1..];
    }
  }

  lemma {:induction false} WithoutAbsent(es: seq<Enemy>, id: nat)
    requires forall i :: 0 <= i < |es| ==> es[i].id != id
    ensures Without(es, id) == es
  {
    if es != [] {
      WithoutAbsent(es[1..], id);
    }
  }

  /**
   * A yarn ball hitting an active enemy removes exactly that enemy from the list,
   * keeping the others in order, and destroys the ball; a missing or inactive enemy
   * is ignored.
   */
  lemma EnemyHitRemovesOne(b: Board, j: nat, i: nat)
    requires UniqueIds(b.enemies) && j < |b.yarns| && i < |b.enemies|
    ensures var r := EnemyHit(b, j, b.enemies[i].id);
            && (b.enemies[i].active ==> r.enemies == b.enemies[..i] + b.enemies[i + 1..] && !r.yarns[j].active)
            && (!b.enemies[i].active ==> r == b)
  {
    var found := FindEnemy(b.enemies, b.enemies[i].id);
    assert found == Some(i);
    if b.enemies[i].active {
      WithoutRemovesExactly(b.enemies, i);
    }
  }

  /**
   * `hitEnemyWithYarn(yarn, enemy)` as the scene registers it: a collider between the
   * yarn group and the enemy array calls it with the enemy sprite first, so the
   * parameter `yarn` is the enemy at position `i` and `enemy` is the ball `j`. The
   * guard reads the ball, both objects are destroyed, and the filter looks for the
   * ball in the enemy list, so it removes nothing.
   */
  function EnemyHitAsRegistered(b: Board, j: nat, i: nat): (r: Board)
    requires j < |b.yarns| && i < |b.enemies|
    ensures |r.enemies| == |b.enemies| && |r.yarns| == |b.yarns|
    ensures forall k :: 0 <= k < |b.enemies| && k != i ==> r.enemies[k] == b.enemies[k]
    ensures b.yarns[j].active ==> !r.yarns[j].active && r.enemies[i] == b.enemies[i].(active := false)
    ensures !b.yarns[j].active ==> r == b
  {
    if !b.yarns[j].active then b
    else b.(yarns := b.yarns[j := b.yarns[j].(active := false)],
            enemies := b.enemies[i := b.enemies[i].(active := false)])
  }

  /**
   * A ball hitting an active ghost: as registered, the ghost is destroyed but stays
   * in the enemy list; with the arguments in the order the handler expects, it
   * leaves the list.
   */
  lemma DefeatedGhostStaysListedAsRegistered(b: Board, j: nat, i: nat)
    requires UniqueIds(b.enemies) && j < |b.yarns| && i < |b.enemies|
    requires b.yarns[j].active && b.enemies[i].active
    ensures |EnemyHitAsRegistered(b, j, i).enemies| == |b.enemies|
    ensures EnemyHitAsRegistered(b, j, i).enemies[i].id == b.enemies[i].id
    ensures |EnemyHit(b, j, b.enemies[i].id).enemies| == |b.enemies| - 1
    ensures FindEnemy(EnemyHit(b, j, b.enemies[i].id).enemies, b.enemies[i].id).None?
  {
    EnemyHitRemovesOne(b, j, i);
    var r := EnemyHit(b, j, b.enemies[i].id);
    forall k | 0 <= k < |r.enemies| ensures r.enemies[k].id != b.enemies[i].id {
      if k < i {
        assert r.enemies[k] == b.enemies[k];
      } else {
        assert r.enemies[k] == b.enemies[k + 1];
      }
    }
  }

  /** Every enabled event keeps the board consistent. */
  lemma StepKeepsConsistent(b: Board, e: Event)
    requires Consistent(b) && Enabled(b, e)
    ensures Consistent(Apply(b, e))
  {
    match e
    case PickKey(k) =>
      if b.keys[k] == Live { CountGoneUpdate(b.keys, k, Consuming); }
    case CountKey(k) =>
      CountGoneUpdate(b.keys, k, Gone);
    case PickYarn(i) =>
      if b.yarnPickups[i] == Live { CountGoneUpdate(b.yarnPickups, i, Consuming); }
    case CountYarn(i) =>
      CountGoneUpdate(b.yarnPickups, i, Gone);
    case Throw(_, _, _) =>
    case Despawn(_) =>
    case YarnHit(j, id) =>
      WithoutKeepsUnique(b.enemies, id);
  }

  /** Consistency holds after any feasible sequence of events. */
  lemma {:induction false} RunKeepsConsistent(b: Board, evs: seq<Event>)
    requires Consistent(b) && Feasible(b, evs)
    ensures Consistent(Run(b, evs))
    decreases |evs|
  {
    if evs != [] {
      StepKeepsConsistent(b, evs[0]);
      RunKeepsConsistent(Apply(b, evs[0]), evs[1..]);
    }
  }

  /** A new level's board is consistent. */
  lemma NewBoardConsistent(keyCount: nat, pickupCount: nat, enemies: seq<Enemy>)
    requires UniqueIds(enemies)
    ensures Consistent(NewBoard(keyCount, pickupCount, enemies))
  {
    CountGoneAllLive(keyCount);
    CountGoneAllLive(pickupCount);
  }

  /** The door latch: once open, the door stays open and is never unlocked again. */
  lemma {:induction false} DoorStaysOpen(b: Board, evs: seq<Event>)
    requires Feasible(b, evs) && b.doorOpen
    ensures Run(b, evs).doorOpen && Run(b, evs).doorUnlocks == b.doorUnlocks
    decreases |evs|
  {
    if evs != [] {
      DoorStaysOpen(Apply(b, evs[0]), evs[1..]);
    }
  }

  /** The key count never goes down, and the yarn stock never goes below zero. */
  lemma {:induction false} CountersBounded(b: Board, evs: seq<Event>)
    requires Consistent(b) && Feasible(b, evs)
    ensures Run(b, evs).keysCollected >= b.keysCollected
    ensures Run(b, evs).yarnCount >= 0
    ensures Run(b, evs).doorUnlocks <= 1
    decreases |evs|
  {
    if evs != [] {
      StepKeepsConsistent(b, evs[0]);
      CountersBounded(Apply(b, evs[0]), evs[1..]);
    }
    RunKeepsConsistent(b, evs);
  }

  /**
   * A key overlapped twice before its tween ends is counted once: the second
   * overlap changes nothing, and after the one completion no further completion
   * for that key can occur.
   */
  lemma DoubleOverlapCountsOnce(b: Board, k: nat)
    requires k < |b.keys| && b.keys[k] == Live
    ensures var once := KeyPicked(b, k);
            && KeyPicked(once, k) == once
            && Feasible(b, [PickKey(k), PickKey(k), CountKey(k)])
            && Run(b, [PickKey(k), PickKey(k), CountKey(k)]).keysCollected == b.keysCollected + 1
            && !Enabled(Run(b, [PickKey(k), PickKey(k), CountKey(k)]), CountKey(k))
  {
    var once := KeyPicked(b, k);
    var done := KeyCounted(once, k);
    assert Apply(once, PickKey(k)) == once;
    assert Feasible(done, []);
    assert Feasible(once, [CountKey(k)]);
    assert Feasible(once, [PickKey(k), CountKey(k)]);
    assert [PickKey(k), PickKey(k), CountKey(k)][1..] == [PickKey(k), CountKey(k)];
    assert [PickKey(k), CountKey(k)][1..] == [CountKey(k)];
    assert Run(once, [CountKey(k)]) == done;
  }

  /** With the three keys of a level collected, the door is open. */
  lemma ThreeKeysOpenDoor()
    ensures var b := NewBoard(3, 0, []);
            var evs := [PickKey(0), CountKey(0), PickKey(2), PickKey(1), CountKey(2), CountKey(1)];
            Feasible(b, evs) && Run(b, evs).doorOpen && Run(b, evs).doorUnlocks == 1
  {
    var b := NewBoard(3, 0, []);
    var b1 := Apply(b, PickKey(0));
    var b2 := Apply(b1, CountKey(0));
    var b3 := Apply(b2, PickKey(2));
    var b4 := Apply(b3, PickKey(1));
    var b5 := Apply(b4, CountKey(2));
    var b6 := Apply(b5, CountKey(1));
    assert Feasible(b6, []);
    assert Feasible(b5, [CountKey(1)]);
    assert Feasible(b4, [CountKey(2), CountKey(1)]);
    assert Feasible(b3, [PickKey(1), CountKey(2), CountKey(1)]);
    assert Feasible(b2, [PickKey(2), PickKey(1), CountKey(2), CountKey(1)]);
    assert Feasible(b1, [CountKey(0), PickKey(2), PickKey(1), CountKey(2), CountKey(1)]);
  }

  /**
   * Throwing: with no stock nothing is spawned and the count stays; otherwise the
   * count drops by one and exactly one ball is launched at (350 dir, -200), dir
   * being -1 exactly when the player faces left.
   */
  lemma ThrowRule(b: Board, x: int, y: int, flipX: bool)
    ensures var r := Thrown(b, x, y, flipX);
            && (b.yarnCount <= 0 ==> r == b)
            && (b.yarnCount > 0 ==>
                  && r.yarnCount == b.yarnCount - 1
                  && |r.yarns| == |b.yarns| + 1 && r.yarns[..|b.yarns|] == b.yarns
                  && r.yarns[|b.yarns|].vx == (if flipX then -YARN_SPEED else YARN_SPEED)
                  && r.yarns[|b.yarns|].vy == YARN_LIFT
                  && r.yarns[|b.yarns|].active)
            && r.yarnCount >= 0 <== b.yarnCount >= 0
  {
  }

  /**
   * The ectoplasm cooldown is independent of invulnerability: during the cooldown
   * the hazard does nothing even when the player could be hurt, and outside it the
   * hazard knocks the player back and restarts the cooldown even while the life
   * manager ignores the hit.
   */
  lemma EctoplasmCooldownIndependent(b: Board, m: Motion, l: LifeState)
    ensures b.ectoplasmHurt ==> EctoplasmTouched(b, true, m, l) == Outcome(b, m, l)
    ensures !EctoplasmTouched(b, false, m, l).board.ectoplasmHurt <== !b.ectoplasmHurt
    ensures !b.ectoplasmHurt && l.invulnerable ==>
              var r := EctoplasmTouched(b, true, m, l);
              r.board.ectoplasmHurt && r.life == l && r.velocity == Motion(ECTOPLASM_PUSH * SignOr1(m.vx), ECTOPLASM_LIFT)
    ensures !b.ectoplasmHurt && !l.invulnerable ==>
              var r := EctoplasmTouched(b, true, m, l);
              r.life.lives == l.lives - 1 && r.life.invulnerable && CooldownOver(r.board).ectoplasmHurt == false
  {
  }

  /**
   * `player.isOnFloor` as both copies of the hazard handler read it: nothing in the
   * game defines a property of that name on the player, so it is `undefined`.
   */
  const IS_ON_FLOOR_AS_WRITTEN: bool := false

  /** The hazard handler as written: its first guard always returns, so touching ectoplasm never does anything. */
  function EctoplasmAsWritten(b: Board, m: Motion, l: LifeState): (r: Outcome)
    ensures r == Outcome(b, m, l)
  {
    EctoplasmTouched(b, IS_ON_FLOOR_AS_WRITTEN, m, l)
  }

  /**
   * A player standing on ectoplasm with three lives, outside the cooldown and not
   * invulnerable: as written no life is lost; with the ground contact
   * (`body.blocked.down`, which `preUpdate` reads for jumping) one life is.
   */
  lemma EctoplasmNeverHurtsAsWritten()
    ensures var b := NewBoard(3, 4, []);
            var l := LifeState(3, false, 0);
            && EctoplasmAsWritten(b, Motion(200, 0), l).life.lives == 3
            && EctoplasmTouched(b, true, Motion(200, 0), l).life == LifeState(2, true, 0)
            && EctoplasmTouched(b, true, Motion(200, 0), l).velocity == Motion(-150, -220)
  {
  }

  /** The manager object. The key, pickup, yarn and enemy collections it works on are the scene's, held here as fields. */
  class GameplayManager {
    const player: Player
    const life: LifeManager
    var keysCollected: int
    var totalKeys: int
    var yarnCount: int
    var doorOpen: bool
    var doorUnlocks: nat
    var ectoplasmHurt: bool
    var keys: seq<Pickup>
    var yarnPickups: seq<Pickup>
    var yarns: seq<Yarn>
    var enemies: seq<Enemy>

    function State(): Board
      reads this
    {
      Board(keysCollected, totalKeys, yarnCount, doorOpen, doorUnlocks, ectoplasmHurt, keys, yarnPickups, yarns, enemies)
    }

    /** The life manager acts on the same player as the coordinator. */
    predicate Valid()
    {
      life.player == player
    }

    constructor (player: Player, life: LifeManager, keyCount: nat, pickupCount: nat, enemies: seq<Enemy>)
      requires life.player == player
      ensures Valid() && this.player == player && this.life == life
      ensures State() == NewBoard(keyCount, pickupCount, enemies)
    {
      this.player := player;
      this.life := life;
      keysCollected := 0;
      totalKeys := TOTAL_KEYS;
      yarnCount := 0;
      doorOpen := false;
      doorUnlocks := 0;
      ectoplasmHurt := false;
      var level := NewBoard(keyCount, pickupCount, enemies);
      keys, yarnPickups := level.keys, level.yarnPickups;
      yarns := [];
      this.enemies := enemies;
    }

    method CollectKey(k: nat)
      requires k < |keys|
      modifies this
      ensures State() == KeyPicked(old(State()), k)
    {
      if keys[k] != Live {
        return;
      }
      keys := keys[k := Consuming];
    }

    /** The key tween's `onComplete`. */
    method OnKeyTweenComplete(k: nat)
      requires k < |keys| && keys[k] == Consuming
      modifies this
      ensures State() == KeyCounted(old(State()), k)
    {
      keys := keys[k := Gone];
      keysCollected := keysCollected + 1;
      if keysCollected >= totalKeys && !doorOpen {
        doorOpen := true;
        OnDoorUnlocked();
      }
    }

    /** Tint, blink and notice: only their count is kept. */
    method OnDoorUnlocked()
      modifies this`doorUnlocks
      ensures doorUnlocks == old(doorUnlocks) + 1
    {
      doorUnlocks := doorUnlocks + 1;
    }

    method HitGhost()
      requires Valid()
      modifies player`vx, player`vy, life`lives, life`invulnerable, life`gameOvers
      ensures (player.Velocity(), life.State()) == GhostBlow(old(player.Velocity()), old(life.State()))
    {
      player.vx, player.vy := GHOST_PUSH * SignOr1(player.vx), GHOST_LIFT;
      life.TakeDamage(1);
    }

    /** Whether the scene switches to `EndScene`. */
    method TryFinish(eJustDown: bool, doorX: int, doorY: int) returns (exit: bool)
      ensures exit <==> ExitGranted(doorOpen, eJustDown, player.x, player.y, doorX, doorY)
    {
      exit := false;
      if doorOpen {
        if eJustDown {
          var dx, dy := player.x - doorX, player.y - doorY;
          if dx * dx + dy * dy < EXIT_RADIUS * EXIT_RADIUS {
            exit := true;
          }
        }
      }
    }

    method HitEctoplasm(isOnFloor: bool)
      requires Valid()
      modifies this`ectoplasmHurt, player`vx, player`vy, life`lives, life`invulnerable, life`gameOvers
      ensures Outcome(State(), player.Velocity(), life.State())
              == EctoplasmTouched(old(State()), isOnFloor, old(player.Velocity()), old(life.State()))
    {
      if !isOnFloor {
        return;
      }
      if ectoplasmHurt {
        return;
      }
      ectoplasmHurt := true;
      var dir := SignOr1(player.vx);
      player.vx, player.vy := ECTOPLASM_PUSH * dir, ECTOPLASM_LIFT;
      life.TakeDamage(1);
    }

    /** The hazard's cooldown timer. */
    method OnEctoplasmCooldownExpired()
      modifies this`ectoplasmHurt
      ensures State() == CooldownOver(old(State()))
    {
      ectoplasmHurt := false;
    }

    method CollectYarn(i: nat)
      requires i < |yarnPickups|
      modifies this
      ensures State() == YarnPicked(old(State()), i)
    {
      if yarnPickups[i] != Live {
        return;
      }
      yarnPickups := yarnPickups[i := Consuming];
    }

    /** The pickup tween's `onComplete`. */
    method OnYarnTweenComplete(i: nat)
      requires i < |yarnPickups| && yarnPickups[i] == Consuming
      modifies this
      ensures State() == YarnCounted(old(State()), i)
    {
      yarnPickups := yarnPickups[i := Gone];
      yarnCount := yarnCount + 1;
    }

    method ThrowYarn()
      modifies this
      ensures State() == Thrown(old(State()), player.x, player.y, player.flipX)
    {
      if yarnCount <= 0 {
        return;
      }
      var direction := if player.flipX then -1 else 1;
      var ball := Yarn(player.x, player.y - YARN_SPAWN_ABOVE, YARN_SPEED * direction, YARN_LIFT, YARN_SPIN * direction, true);
      yarns := yarns + [ball];
      yarnCount := yarnCount - 1;
    }

    /** The thrown ball's lifetime timer. */
    method OnYarnLifetimeOver(j: nat)
      requires j < |yarns|
      modifies this
      ensures State() == YarnTimedOut(old(State()), j)
    {
      if yarns[j].active {
        yarns := yarns[j := yarns[j].(active := false)];
      }
    }

    method HitEnemyWithYarn(j: nat, id: nat)
      requires j < |yarns|
      modifies this
      ensures State() == EnemyHit(old(State()), j, id)
    {
      var found := FindEnemy(enemies, id);
      if found.None? || !enemies[found.value].active {
        return;
      }
      yarns := yarns[j := yarns[j].(active := false)];
      enemies := Without(enemies, id);
    }
  }
}
