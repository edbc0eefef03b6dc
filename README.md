# Wiskers gameplay core, modelled in Dafny

Wiskers is a small 2D platformer built on Phaser: a cat walks through a haunted
house, collects three keys to open the attic door, picks up and throws balls of
yarn at ghost cats, and avoids ectoplasm traps and falling out of the level.
This project models the gameplay core of the game and proves properties of it:

- the per-frame **platform selector** (`PlatformPhysics.update`, run inline in
  `GameScene.update` too): the nearest floor under the feet, one arcade collider
  bound to it, and a sticky window while crouching (module `FloorSelection`, on
  the collider handles of module `Colliders`);
- the **player sprite** (`Player`): keys to velocity and facing, and the idle/walk
  switch that swaps frame, scale and hitbox (module `Avatar`);
- the **life manager** (`LifeManager`): one hit per invulnerability window, game
  over at zero lives or fewer (module `Lives`);
- the **gameplay coordinator** (`GameplayManager`): keys and yarn with their
  disable-then-animate guard, the door latch, throwing yarn, ghost and ectoplasm
  hits, yarn hitting an enemy, and the exit gate (module `Gameplay`);
- the **level scene** (`GameScene`): the reset of `create`, the per-frame
  `update` (selector, enemy attack pass, fall detector, throw key) and the scene's
  own copies of the handlers (module `Scene`);
- the **ladder logic** (`updateLadders`, `startClimb`, `moveToFloor`): the
  floor collider that follows the player, climbing down onto a ladder, climbing,
  and hopping to the floor above or below (module `Ladders`).

Objects whose fields the game updates in place are classes (`Player`,
`LifeManager`, `PlatformPhysics`, `GameplayManager`, `GameScene`,
`LadderSystem`). Each method is proved against a function on a value of the
object's state (`Binding`, `LifeState`, `Board`, `LadderState`). The properties
are lemmas about those functions. Several of them are about sequences of events,
folded by `Run`.

Engine objects are identified by index: a platform by its place in the
platform list, a collider handle by its place in the list of handles created so
far, a key or yarn pickup by its index, and an enemy by an `id`. A handle is
`live` until `destroy()` and `active` while it collides.

Deferred engine callbacks are methods of their own, called by the environment:
tween `onComplete`, `delayedCall` timers, animation-complete and overlap
callbacks. Keyboard state, the player's position and bottom edge, the
platforms as they are on the current frame (two steps move), and the overlap
tests are parameters. Positions, spans and distances are whole pixels.

In a few places the code does less than its names suggest; the model follows the code:

- `Player` switches only between idle and walk, and its hitbox is always 40% by
  60% of the frame.
- `player.isCrouching` and `player.isOnFloor` are read but never set by the game.
  They are inputs of the model (`isCrouching`, `isOnFloor`). The second one is a
  finding below.
- `takeDamage` checks only invulnerability, not game over. Lives can go below
  zero, and each hit that leaves zero or fewer lives runs `gameOver()` again.
- Standing, the selector also rebinds when its collider exists but is inactive.
- `create` does not reset `ectoplasmHurt`.
- `GameplayManager.tryFinish` starts `EndScene`; the scene's own `tryFinish`
  starts `MultiFloorScene`.

## Model

| member | source | states |
|---|---|---|
| Common.Abs | Wiskers/src/systems/PlatformPhysics.js:31 | the result is the input or its negation, never negative (`Math.abs`) |
| Common.SignOr1 | Wiskers/src/systems/GameplayManager.js:41 | `Math.sign(v \|\| 1)` on integer velocities: always ±1, and +1 exactly when the velocity is zero or positive |
| Colliders.Add | Wiskers/src/systems/PlatformPhysics.js:77 | creating a collider appends one live, active handle for that floor and leaves every earlier handle as it was |
| Colliders.Destroy | Wiskers/src/systems/PlatformPhysics.js:74-76 | destroying handle `i` makes it neither live nor active, keeps its floor, and changes no other handle |
| Colliders.OnlyBoundAtMostOneLive | Wiskers/src/systems/PlatformPhysics.js:66-80 | when no handle but the current one is live, at most one handle is live, and exactly one iff the current one is |
| Colliders.LiveCountAdd | Wiskers/src/systems/PlatformPhysics.js:62 | creating a collider raises the live count by one |
| Colliders.LiveCountDestroy | Wiskers/src/systems/PlatformPhysics.js:54 | destroying a handle lowers the live count by one if it was live, else leaves it |
| FloorSelection.Nearest | Wiskers/src/systems/PlatformPhysics.js:20-40 | no floor iff no platform is a candidate (has a body, x within its span ±4, surface at most 10 above the feet, gap under 180); otherwise the pick is a candidate with the least gap, strictly closer than every earlier candidate (first wins ties) |
| FloorSelection.NearestIsUnique | Wiskers/src/systems/PlatformPhysics.js:36-39 | the strict-minimum rule picks exactly one platform |
| FloorSelection.ClosestFloor | Wiskers/src/systems/PlatformPhysics.js:17-40 | the one-pass scan with `minDistance` returns exactly `Nearest` |
| FloorSelection.StepWellFormed | Wiskers/src/systems/PlatformPhysics.js:42-80 | a tick keeps the indices in range and `activeCollider` and `lastValidFloor` set together, the collider bound to `lastValidFloor` |
| FloorSelection.NoCandidateNoChange | Wiskers/src/systems/PlatformPhysics.js:53-80 | with no candidate floor, a tick changes nothing, crouching or standing |
| FloorSelection.StandingRebind | Wiskers/src/systems/PlatformPhysics.js:66-80 | standing, the selector rebinds iff there is a candidate and the collider is missing, inactive, or on another floor; a rebind destroys the old handle and leaves an active collider on the candidate |
| FloorSelection.StandingSettles | Wiskers/src/systems/PlatformPhysics.js:66-80 | standing, a second tick with the same inputs changes nothing |
| FloorSelection.CrouchSticky | Wiskers/src/systems/PlatformPhysics.js:43-58 | crouching on a live bound floor: the binding is kept while the surface is within [-40, 180) of the feet, whatever the candidate; outside it moves to the candidate if there is one |
| FloorSelection.CrouchOnLostFloor | Wiskers/src/systems/PlatformPhysics.js:46 | crouching while the bound floor is inactive or has lost its body changes nothing |
| FloorSelection.StepKeepsSingleBinding | Wiskers/src/systems/PlatformPhysics.js:42-80 | unless the current handle is live but inactive, a tick keeps at most one live collider, the current one |
| FloorSelection.RebindKeepsSingleBinding | Wiskers/src/systems/PlatformPhysics.js:73-78 | destroy-then-create leaves only the new handle live |
| FloorSelection.BindKeepsSingleBinding | Wiskers/src/systems/PlatformPhysics.js:60-64 | create-without-destroy keeps a single live handle when the current one is not live |
| FloorSelection.CrouchBindLeaksDormant | Wiskers/src/systems/PlatformPhysics.js:60-64 | crouching with a live but inactive collider and a candidate leaves two live colliders: the single-binding guarantee needs that state excluded |
| FloorSelection.StepKeepsLiveActive | Wiskers/src/systems/PlatformPhysics.js:42-80 | when every live collider is active, a tick keeps it so, and then no handle is ever live but inactive |
| FloorSelection.PlatformPhysics.constructor | Wiskers/src/systems/PlatformPhysics.js:4-10 | no collider and no last floor, with the selector's invariant holding |
| FloorSelection.PlatformPhysics.Update | Wiskers/src/systems/PlatformPhysics.js:12-81 | given the platforms as they are on this tick (the array keeps its length), the new state is `Step` of the old one; the invariant (well formed, only the current handle live, every live handle active) is kept, so at most one collider is live after every tick |
| FloorSelection.PlatformPhysics.RebindTo | Wiskers/src/systems/PlatformPhysics.js:73-78 | the current handle (if any) destroyed, a new handle for the floor created and recorded with `lastValidFloor` |
| FloorSelection.PlatformPhysics.BindTo | Wiskers/src/systems/PlatformPhysics.js:61-64 | a new handle for the floor created and recorded, nothing destroyed |
| Avatar.IdleScale | Wiskers/src/entities/Player.js:18-31 | the idle frame times the scale `0.2 * ratioH / idleH` is `0.2 * ratioH` pixels tall |
| Avatar.SameSizeExactlyWithWalkFrameRatio | Wiskers/src/entities/Player.js:16-31 | the idle cat is shown as tall as a walk frame at scale 0.2 iff the ratio is read from a walk frame's height |
| Avatar.IdleScaleAsWritten | Wiskers/src/entities/Player.js:18-31 | with `gatoWalk_0` unloaded the ratio reads the 32-pixel placeholder, and the idle frame is shown 6.4 pixels tall |
| Avatar.IdleShrinksAsWritten | Wiskers/src/entities/Player.js:18-31 | as written the idle cat is 6.4 pixels tall against 46.4 for a 232-pixel walk frame at 0.2, which the walk-frame ratio would match |
| Avatar.HitboxFor | Wiskers/src/entities/Player.js:59-64 | the body is 40% by 60% of the frame, centred horizontally, inside the frame, its bottom at 95% of the frame height |
| Avatar.Player.constructor | Wiskers/src/entities/Player.js:4-39 | a still player at (x, y) playing idle at `IdleScale` of the ratio height it is given, the hitbox consistent with the idle frame |
| Avatar.Player.PlayIdle | Wiskers/src/entities/Player.js:41-48 | a no-op when idle already plays; otherwise idle frame, scale `0.2 * ratioH / idleH`, hitbox recomputed |
| Avatar.Player.PlayWalk | Wiskers/src/entities/Player.js:50-57 | a no-op when walk already plays; otherwise walk frame, scale 0.2, hitbox recomputed |
| Avatar.Player.RefreshHitbox | Wiskers/src/entities/Player.js:59-64 | the hitbox matches the current frame |
| Avatar.Player.PreUpdate | Wiskers/src/entities/Player.js:66-88 | left wins over right (velocity ∓200, facing, walk); neither stops the player (idle, facing kept); a jump (-360) only on the ground and a fresh press |
| Lives.InvulnerableAbsorbsHits | Wiskers/src/systems/lifeManager.js:17-18 | while invulnerable, any number of hits changes nothing |
| Lives.OneHitPerWindow | Wiskers/src/systems/lifeManager.js:17-36 | a burst of hits with no expiry between them costs only the first hit's amount, leaves the player invulnerable and runs game over at most once |
| Lives.OneLifePerWindow | Wiskers/src/systems/lifeManager.js:17-25 | any number of one-life hits inside one window cost exactly one life |
| Lives.ExpiryReopensWindow | Wiskers/src/systems/lifeManager.js:28-31 | after the 1000 ms callback the next hit applies in full |
| Lives.GameOverExactlyWhenOutOfLives | Wiskers/src/systems/lifeManager.js:33-35 | game over runs iff a hit applies and leaves zero lives or fewer, at most once per hit; lives are not clamped |
| Lives.HazardScenario | Wiskers/src/systems/lifeManager.js:17-36 | three lives, hits at 0 and 500 ms, expiry, a hit at 1200 ms: one life left and invulnerable; a 3-point hit at one life gives -2 and game over |
| Lives.LifeManager.constructor | Wiskers/src/systems/lifeManager.js:3-7 | the initial lives, not invulnerable, no game over |
| Lives.LifeManager.TakeDamage | Wiskers/src/systems/lifeManager.js:17-36 | the state becomes `Hit` of the old one, and the player stops exactly when the hit ends the game |
| Lives.LifeManager.OnInvulnerabilityExpired | Wiskers/src/systems/lifeManager.js:28-31 | invulnerability ends, nothing else changes |
| Lives.LifeManager.GameOver | Wiskers/src/systems/lifeManager.js:42-58 | the player's velocity is zero and one more restart is scheduled |
| Gameplay.NewBoard | Wiskers/src/systems/GameplayManager.js:4-12 | nothing collected, three keys needed, no yarn stock, door locked, no hazard cooldown, no ball thrown, one pickup entry per key and yarn ball placed, and the enemies given |
| Gameplay.FindEnemy | Wiskers/src/systems/GameplayManager.js:155 | the position of the first enemy with the id, or none iff no enemy has it |
| Gameplay.EnemyHitRemovesOne | Wiskers/src/systems/GameplayManager.js:149-159 | a ball hitting an active enemy removes exactly that enemy, the others kept in order, and destroys the ball; an inactive enemy is ignored |
| Gameplay.EnemyHitAsRegistered | Wiskers/src/scenes/GameScene.js:178 | with the handler called (enemy, ball), an active ball deactivates the enemy in place and itself, and the enemy list keeps its length |
| Gameplay.DefeatedGhostStaysListedAsRegistered | Wiskers/src/scenes/GameScene.js:568-576 | as registered a defeated ghost stays listed under its id; in the intended order it leaves the list, which then has no enemy with that id |
| Gameplay.StepKeepsConsistent | Wiskers/src/systems/GameplayManager.js:14-159 | every enabled event keeps the counters consistent with the objects: keys counted once each, door open iff enough keys and unlocked once, yarn stock = pickups taken − balls thrown ≥ 0, enemy ids unique |
| Gameplay.RunKeepsConsistent | Wiskers/src/systems/GameplayManager.js:14-159 | consistency holds after any feasible sequence of events |
| Gameplay.NewBoardConsistent | Wiskers/src/systems/GameplayManager.js:4-12 | a new level is consistent |
| Gameplay.DoorStaysOpen | Wiskers/src/systems/GameplayManager.js:32-35 | once open, the door stays open and `onDoorUnlocked` never runs again |
| Gameplay.CountersBounded | Wiskers/src/systems/GameplayManager.js:14-147 | over any feasible run the key count never decreases, the yarn stock never goes negative and the door is unlocked at most once |
| Gameplay.DoubleOverlapCountsOnce | Wiskers/src/systems/GameplayManager.js:14-38 | a key overlapped twice before its tween ends is counted once, and no second completion for it can follow |
| Gameplay.ThreeKeysOpenDoor | Wiskers/src/systems/GameplayManager.js:28-35 | on a new three-key level, overlaps and tween completions of the three keys, interleaved, are all enabled and leave the door open, unlocked exactly once |
| Gameplay.ThrowRule | Wiskers/src/systems/GameplayManager.js:121-147 | with no stock nothing is spawned; otherwise the stock drops by one and exactly one active ball is appended, launched at ±350 by facing and -200 |
| Gameplay.EctoplasmCooldownIndependent | Wiskers/src/systems/GameplayManager.js:73-91 | the 900 ms hazard cooldown is separate from invulnerability: during it the hazard does nothing; outside it the hazard pushes the player and restarts the cooldown even while the hit is ignored, and otherwise costs one life |
| Gameplay.EctoplasmAsWritten | Wiskers/src/systems/GameplayManager.js:73-74 | the handler as written never changes the board, the velocity or the lives |
| Gameplay.EctoplasmNeverHurtsAsWritten | Wiskers/src/systems/GameplayManager.js:73-91 | a grounded player on ectoplasm loses no life as written, and one life with the ground contact read |
| Gameplay.GameplayManager.constructor | Wiskers/src/systems/GameplayManager.js:4-12 | the state is `NewBoard` |
| Gameplay.GameplayManager.CollectKey | Wiskers/src/systems/GameplayManager.js:14-24 | a live key's body is disabled and its tween starts; a key already disabled or gone changes nothing |
| Gameplay.GameplayManager.OnKeyTweenComplete | Wiskers/src/systems/GameplayManager.js:25-36 | the key is destroyed and counted, and the door opens (and is unlocked) when the count reaches the total while closed |
| Gameplay.GameplayManager.OnDoorUnlocked | Wiskers/src/systems/GameplayManager.js:161-175 | the unlock effects run once more |
| Gameplay.GameplayManager.HitGhost | Wiskers/src/systems/GameplayManager.js:40-49 | knockback (-200 against the motion, -150), then one hit; the player stops if the hit ends the game |
| Gameplay.GameplayManager.TryFinish | Wiskers/src/systems/GameplayManager.js:51-71 | the level ends iff the door is open, E was just pressed and the player is closer than 100 to the door |
| Gameplay.GameplayManager.HitEctoplasm | Wiskers/src/systems/GameplayManager.js:73-87 | off the floor or in the cooldown nothing happens; otherwise cooldown on, knockback (-150 against the motion, -220), one hit |
| Gameplay.GameplayManager.OnEctoplasmCooldownExpired | Wiskers/src/systems/GameplayManager.js:88-90 | the cooldown ends |
| Gameplay.GameplayManager.CollectYarn | Wiskers/src/systems/GameplayManager.js:100-110 | the same disable-then-animate guard as keys |
| Gameplay.GameplayManager.OnYarnTweenComplete | Wiskers/src/systems/GameplayManager.js:111-117 | the pickup is destroyed and the stock grows by one |
| Gameplay.GameplayManager.ThrowYarn | Wiskers/src/systems/GameplayManager.js:121-143 | the state becomes `Thrown`, whose rule `ThrowRule` states |
| Gameplay.GameplayManager.OnYarnLifetimeOver | Wiskers/src/systems/GameplayManager.js:144-146 | the ball is destroyed if still active, else nothing changes |
| Gameplay.GameplayManager.HitEnemyWithYarn | Wiskers/src/systems/GameplayManager.js:149-159 | the state becomes `EnemyHit`, whose rule `EnemyHitRemovesOne` states |
| Scene.Attacks | Wiskers/src/scenes/GameScene.js:344-380 | the attack pass visits every enemy once, in list order, and keeps the list's length |
| Scene.AttackLatch | Wiskers/src/scenes/GameScene.js:358-363 | an enemy that starts an attack (active, within 90, not attacking) becomes attacking and faces the player; every other enemy is unchanged |
| Scene.AttacksHitOnce | Wiskers/src/scenes/GameScene.js:344-380 | one frame's pass hits the player once, for one life, exactly when some enemy starts an attack, and leaves the velocity alone otherwise |
| Scene.NoRehitWhileLatched | Wiskers/src/scenes/GameScene.js:358-377 | right after a pass no enemy at the same positions starts another attack: a second pass changes nothing |
| Scene.NoStartKeepsVelocity | Wiskers/src/scenes/GameScene.js:344-380 | a pass in which no enemy starts an attack keeps the player's velocity |
| Scene.AttackOverClearsOne | Wiskers/src/scenes/GameScene.js:369-376 | the animation-complete callback clears `isAttacking` of that enemy only, and only if it is still active |
| Scene.FallFiresOnce | Wiskers/src/scenes/GameScene.js:382-395 | over a level the fall detector fires at most once, and exactly once iff the player ever drops more than 150 below the bottom floor |
| Scene.GameScene.constructor | Wiskers/src/scenes/GameScene.js:40-247 | the first `create`: a new level board, no collider, three lives, the player at (80, bottom floor − 50) |
| Scene.GameScene.Create | Wiskers/src/scenes/GameScene.js:40-247 | a restart: fresh player, life manager and selector, the board of a new level except that `ectoplasmHurt` keeps its value |
| Scene.GameScene.ResetBoard | Wiskers/src/scenes/GameScene.js:44-166 | counters, door, pickups, thrown balls and enemies as a new level has them; `ectoplasmHurt` untouched |
| Scene.GameScene.Spawn | Wiskers/src/scenes/GameScene.js:68-73 | a new idle player at the start point, a life manager with three lives on it, and an unbound selector |
| Scene.GameScene.ResetLevel | Wiskers/src/scenes/GameScene.js:506-511 | the scene restarts as `Create` does |
| Scene.GameScene.Update | Wiskers/src/scenes/GameScene.js:249-401 | the selector steps on this frame's platforms, the attack pass runs, the fall detector fires at most once, and a throw happens only when the detector did not fire this frame |
| Scene.GameScene.Physics | Wiskers/src/scenes/GameScene.js:252-380 | the selector steps as `PlatformPhysics.update` on this frame's platforms and the enemies, velocity and lives become those of the attack pass; nothing else on the board changes |
| Scene.GameScene.CheckFall | Wiskers/src/scenes/GameScene.js:382-395 | the detector fires iff the player is more than 150 below the bottom floor and not yet falling, and then latches |
| Scene.GameScene.AttackPass | Wiskers/src/scenes/GameScene.js:344-380 | the `forEach` over the enemies ends in exactly the state `Attacks` describes |
| Scene.GameScene.Engage | Wiskers/src/scenes/GameScene.js:345-377 | one enemy: if it starts an attack it latches and faces the player and the player takes a ghost blow; otherwise nothing changes |
| Scene.GameScene.OnAttackAnimComplete | Wiskers/src/scenes/GameScene.js:369-376 | the enemies become `AttackOver`, whose rule `AttackOverClearsOne` states |
| Scene.GameScene.CollectKey | Wiskers/src/scenes/GameScene.js:418-430 | the disable-then-animate guard of `KeyPicked` |
| Scene.GameScene.OnKeyTweenComplete | Wiskers/src/scenes/GameScene.js:431-443 | the key is counted and the door opens once, as `KeyCounted` |
| Scene.GameScene.OnDoorUnlocked | Wiskers/src/scenes/GameScene.js:580-597 | the unlock effects run once more |
| Scene.GameScene.HitGhost | Wiskers/src/scenes/GameScene.js:447-458 | knockback then one hit, as `GhostBlow` |
| Scene.GameScene.TryFinish | Wiskers/src/scenes/GameScene.js:461-482 | the scene switches iff the door is open, E was just pressed and the door is closer than 100 |
| Scene.GameScene.HitEctoplasm | Wiskers/src/scenes/GameScene.js:484-499 | the hazard rule `EctoplasmTouched` on the board, velocity and lives |
| Scene.GameScene.OnEctoplasmCooldownExpired | Wiskers/src/scenes/GameScene.js:500-503 | the cooldown ends |
| Scene.GameScene.CollectYarn | Wiskers/src/scenes/GameScene.js:513-525 | the disable-then-animate guard of `YarnPicked` |
| Scene.GameScene.OnYarnTweenComplete | Wiskers/src/scenes/GameScene.js:526-533 | the pickup is destroyed and the stock grows by one |
| Scene.GameScene.ThrowYarn | Wiskers/src/scenes/GameScene.js:537-561 | the state becomes `Thrown` (see `ThrowRule`) |
| Scene.GameScene.OnYarnLifetimeOver | Wiskers/src/scenes/GameScene.js:562-565 | the ball is destroyed if still active |
| Scene.GameScene.HitEnemyWithYarn | Wiskers/src/scenes/GameScene.js:568-578 | the state becomes `EnemyHit` (see `EnemyHitRemovesOne`) |
| Ladders.FirstFloor | Wiskers/src/systems/laddersManager.js:29 | none iff no floor lies in [0, 120) below the player; otherwise the first such floor in list order |
| Ladders.NearbyLadder | Wiskers/src/systems/laddersManager.js:43-47 | none iff no ladder is within 30 horizontally and 180 vertically; otherwise the first such ladder |
| Ladders.UpperFloor | Wiskers/src/systems/laddersManager.js:64 | none iff no floor is above the player; otherwise the lowest floor above (greatest y), the earliest on a tie (stable sort) |
| Ladders.LowerFloor | Wiskers/src/systems/laddersManager.js:67 | none iff no floor is below the player; otherwise the highest floor below (least y), the earliest on a tie |
| Ladders.ScrollTarget | Wiskers/src/systems/laddersManager.js:118 | the camera target is `y − viewHeight / 1.4`, raised to 0 when negative |
| Ladders.SwapBindsClosest | Wiskers/src/systems/laddersManager.js:32-40 | after the swap the collider is bound exactly to the floor found (none without one); the swap is a no-op iff it already was; the old handle is destroyed and the new one is live and active; at most one handle stays live |
| Ladders.SetActiveKeepsBinding | Wiskers/src/systems/laddersManager.js:58 | switching the collider on or off keeps its binding and which handles are live |
| Ladders.StepRules | Wiskers/src/systems/laddersManager.js:18-73 | `onLadder` is the overlap; the collider is bound to the first floor below; a climb down turns gravity and the collider off and queues the climb; on a ladder without a hop gravity and collider are off and the velocity follows the keys; a hop zeroes the velocity, turns gravity and collider on and queues a camera target ≥ 0; off a ladder gravity and collider are on |
| Ladders.ClimbStartedRules | Wiskers/src/systems/laddersManager.js:75-93 | `startClimb` starts a transition, turns gravity and the collider off and queues a climb to (ladder x, y + 50) |
| Ladders.GrippedRules | Wiskers/src/systems/laddersManager.js:56-62 | on a ladder gravity and the collider are off and the velocity is -110 (up), 110 (down) or 0 |
| Ladders.HopsRules | Wiskers/src/systems/laddersManager.js:64-68 | with no hop nothing changes; a hop zeroes the velocity, turns gravity and the collider on, starts a transition and queues a camera target ≥ 0 |
| Ladders.ReleasedRules | Wiskers/src/systems/laddersManager.js:69-72 | off a ladder gravity and the collider are on, nothing else changes |
| Ladders.BothHopsInOneCall | Wiskers/src/systems/laddersManager.js:64-68 | with up and down held between two close floors both hops run in one call, queuing two hop and two camera tweens |
| Ladders.SetActiveWellFormed | Wiskers/src/systems/laddersManager.js:58 | toggling the collider keeps the single binding |
| Ladders.ClimbingWellFormed | Wiskers/src/systems/laddersManager.js:56-68 | climbing and hopping keep the single binding |
| Ladders.StepWellFormed | Wiskers/src/systems/laddersManager.js:18-73 | a call keeps at most one live collider, the current one, bound to a known floor |
| Ladders.LadderSystem.UpdateLadders | Wiskers/src/systems/laddersManager.js:18-73 | the new state is `LadderStep` of the old one (rules in `StepRules`), and at most one collider is live |
| Ladders.LadderSystem.Locate | Wiskers/src/systems/laddersManager.js:24-40 | `onLadder` is the overlap and the collider is swapped to the first floor below |
| Ladders.LadderSystem.Act | Wiskers/src/systems/laddersManager.js:42-72 | climb down, climb or let go, as `Acted` |
| Ladders.LadderSystem.Release | Wiskers/src/systems/laddersManager.js:69-72 | gravity and the collider on |
| Ladders.LadderSystem.SwapCollider | Wiskers/src/systems/laddersManager.js:31-40 | the handles and current collider become `Swap` of the old ones (see `SwapBindsClosest`) |
| Ladders.LadderSystem.Climb | Wiskers/src/systems/laddersManager.js:56-68 | gripped, then the hops, as `Climbing` |
| Ladders.LadderSystem.HopToFloors | Wiskers/src/systems/laddersManager.js:64-68 | hop up when up is held within 8 of the floor above, then hop down when down is held within 40 of the floor below |
| Ladders.LadderSystem.StartClimb | Wiskers/src/systems/laddersManager.js:75-93 | as `ClimbStarted` (see `ClimbStartedRules`) |
| Ladders.LadderSystem.MoveToFloor | Wiskers/src/systems/laddersManager.js:95-125 | transition on, velocity 0, gravity and collider on, a hop tween to the floor (up: the player's displayed height plus 2 above it) and a camera tween to `ScrollTarget` |
| Ladders.LadderSystem.OnClimbTweenComplete | Wiskers/src/systems/laddersManager.js:88-91 | the transition ends on the ladder |
| Ladders.LadderSystem.OnHopTweenComplete | Wiskers/src/systems/laddersManager.js:112-115 | the transition ends off the ladder |

## Findings

| source | as written | input that shows it | evidently intended | confidence | as-written member | corrected member |
|---|---|---|---|---|---|---|
| Wiskers/src/systems/GameplayManager.js:74 (and Wiskers/src/scenes/GameScene.js:485) | `hitEctoplasm` returns unless `player.isOnFloor`, a property nothing in the game sets, so it is always `undefined` and the hazard never does anything | a player standing on ectoplasm with 3 lives, not invulnerable, outside the cooldown: no life is lost | hurt a grounded player, reading the ground contact the way `preUpdate` does (`body.blocked.down`) | medium, not executed | Gameplay.EctoplasmAsWritten | Gameplay.EctoplasmCooldownIndependent |
| Wiskers/src/scenes/GameScene.js:178 (with :568-576) | the ball-versus-enemy collider is registered group first, array second, and the engine then calls `hitEnemyWithYarn(enemy, ball)`: the guard reads the ball, both are destroyed, and the filter looks for the ball among the enemies, so nothing is removed | an active ball hitting an active ghost: the ghost is destroyed but stays in `this.enemies` | the defeated ghost leaves `this.enemies` | medium, not executed (rests on the engine's argument order) | Gameplay.DefeatedGhostStaysListedAsRegistered | Gameplay.EnemyHitRemovesOne |
| Wiskers/src/entities/Player.js:18-31 | the ratio reads `gatoWalk_0`, a key the game never loads (Wiskers/src/scenes/BootScene.js:20-26 loads `gatoWalk` as a sheet of 232-pixel frames); the engine returns its 32-pixel placeholder, so the idle cat is drawn at `0.2 * 32 / idleH` | any idle frame height: the idle cat is 6.4 pixels tall, the walking cat 46.4 | the idle cat as tall as the walking cat | medium, not executed (rests on the engine's placeholder texture) | Avatar.IdleShrinksAsWritten | Avatar.SameSizeExactlyWithWalkFrameRatio |

The handlers `GameplayManager.HitEctoplasm` and `GameScene.HitEctoplasm` take
the ground contact as the parameter `isOnFloor`, so the rest of the model uses
the corrected rule. `EctoplasmNeverHurtsAsWritten` puts the two side by side on
the input above.

The yarn handlers `HitEnemyWithYarn` take the ball and the enemy in the intended
order and remove the enemy (`EnemyHit`). `EnemyHitAsRegistered` is the handler
under the registered order.

The scene builds its player with the walk frame's height as the ratio height, so
`PlayIdle` and `PlayWalk` show the cat at the same height.

## Left out

- Rendering, audio, UI text and messages, tints, camera shake and follow, the debug graphics, and the blink tween: they change nothing the gameplay reads.
- Physics integration: the player's and enemies' positions are inputs, and enemy patrol and floating are not modelled.
- Fractional coordinates: positions, platform spans and distances are integers here, while the engine's are floating point (the feet at `y + displayHeight / 2`, floor segments `0.38 * width` wide, steps placed by linear interpolation, positions integrated from velocity times frame time). The rules only compare these values, so they read the same on fractional pixels. `Common.Abs` and `Common.Closer` are exact on integers only.
- The moving steps' tweens are not modelled: `FloorSelection.PlatformPhysics.Update`, `Scene.GameScene.Update` and `Scene.GameScene.Physics` take each tick's platform geometry as a parameter, any geometry of the same length.
- Tween interpolation: tweens are recorded by their targets, and a tween's `onComplete` is an event method.
- Deferred callbacks: their timing (1000, 2000, 900, 3000 and 800 ms) is not modelled; a callback is an event that can be called at any later point.
- Scene restart discards pending timers and tweens; the model does not track them.
- floorManager, UIManager, the prefabs, the enemy factory, `createLadders`, the Boot, End and MultiFloor scenes, DebugSystem and the Java copy of the player are not part of this model.
- `GameplayManager.resetLevel` stops the music and restarts the scene; the restart is `Scene.GameScene.ResetLevel` and `Create`.
- Gameplay.GameplayManager.TryFinish: returns whether the level ends instead of starting `EndScene`. `JustDown(keyE)` is read only while the door is open, and the handler runs only while the player overlaps the door, so a press made while the door is closed or away from it is not consumed and, if E is still held when the player reaches the open door, ends the level without a fresh press; the input `eJustDown` does not capture this.
- Scene.GameScene.TryFinish: returns whether the scene switches instead of starting `MultiFloorScene`. As in `GameplayManager.tryFinish`, `JustDown(keyE)` is read only while the door is open, which `eJustDown` does not capture.
- Scene.GameScene.OnAttackAnimComplete: does not model the `evilCat-float` animation it plays.
- Scene.GameScene.Update: the floor selector works on the player's `x` and the bottom edge it is given, not on an engine call.
- Ladders.LadderSystem.StartClimb: records the climb target but does not move the player.
- Ladders.LadderSystem.MoveToFloor: records the hop and camera targets but does not move the player or the camera; `displayHeight` is taken as frame height times scale, which is never negative here.
- Ladders.LadderSystem.OnClimbTweenComplete: the player is not moved to the climb target.
- Ladders.LadderSystem.OnHopTweenComplete: the player is not moved to the hop target.
- Avatar.Player.PreUpdate: the engine's own `preUpdate` (animation frames) is not modelled; `blockedDown` and the key states are inputs. `JustDown(space)` is read only when the player is on the ground, so a press in the air is not consumed and, if the key is still held, triggers a jump on landing. The input `spaceJustDown` is the value `JustDown` would return on the ground and does not capture this.
- Lives.LifeManager.GameOver: the "GAME OVER" text, the tint and stopping the music are not modelled; the scheduled restart is counted in `gameOvers`.
- Collections the coordinator works on (keys, pickups, thrown balls, enemies) belong to the scene; `GameplayManager` holds them as fields.
- A tween-completion or timer method requires that its tween or timer was started (`Consuming` pickup, existing ball); the engine only calls it then.
