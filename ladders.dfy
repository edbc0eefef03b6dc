/**
 * The ladder and floor-switching logic (`updateLadders`, `startClimb`,
 * `moveToFloor`): the floor collider follows the first floor just below the
 * player, a ladder in reach starts a climb down, and on a ladder the player
 * climbs and hops to the nearest floor above or below.
 *
 * Floors are given by their `y`; ladders by their centre. `y` grows downwards,
 * so the floor "above" the player has the greater `y` among those smaller than
 * the player's. Tweens are recorded by their targets; their completion is an
 * event of its own.
 */
module Ladders {
  import opened Common
  import opened Colliders
  import opened Avatar

  /** A floor is picked when it is at most this far below the player's centre (exclusive). */
  const FLOOR_REACH: int := 120
  /** A ladder is in reach within these distances (exclusive). */
  const LADDER_REACH_X: int := 30
  const LADDER_REACH_Y: int := 180
  /** Climbing speed. */
  const CLIMB_SPEED: int := 110
  /** Distance moved by the climb-down tween. */
  const CLIMB_STEP: int := 50
  /** How close to the floor above (below) the player must be to hop onto it. */
  const UPPER_SNAP: int := 8
  const LOWER_SNAP: int := 40
  /** Clearance kept above a floor the player hops up to. */
  const HOP_CLEARANCE: real := 2.0
  /** The camera scrolls so that the target floor sits at 1/1.4 of the view height. */
  const VIEW_FRACTION: real := 1.4

  datatype Ladder = Ladder(x: int, y: int)

  /** Tweens started by the ladder logic, by target. */
  datatype Tween = ClimbTo(x: int, y: int) | HopTo(targetY: real) | ScrollTo(scrollY: real)

  // ---------------------------------------------------------------- searches

  /** The floor is below the player's centre, and less than `FLOOR_REACH` below. */
  predicate FloorBelow(floorY: int, py: int)
  {
    floorY >= py && floorY - py < FLOOR_REACH
  }

  /** `platforms.find(...)`: the first floor in list order just below the player. */
  function FirstFloor(fs: seq<int>, py: int): (r: Option<nat>)
    ensures r.None? <==> forall i :: 0 <= i < |fs| ==> !FloorBelow(fs[i], py)
    ensures r.Some? ==> r.value < |fs| && FloorBelow(fs[r.value], py)
    ensures r.Some? ==> forall i :: 0 <= i < r.value ==> !FloorBelow(fs[i], py)
  {
    if fs == [] then None
    else if FloorBelow(fs[0], py) then Some(0)
    else match FirstFloor(fs[1..], py)
      case None => None
      case Some(i) => Some(i + 1)
  }

  predicate InReach(l: Ladder, px: int, py: int)
  {
    Abs(l.x - px) < LADDER_REACH_X && Abs(l.y - py) < LADDER_REACH_Y
  }

  /** `ladders.getChildren().find(...)`: the first ladder in reach. */
  function NearbyLadder(ls: seq<Ladder>, px: int, py: int): (r: Option<nat>)
    ensures r.None? <==> forall i :: 0 <= i < |ls| ==> !InReach(ls[i], px, py)
    ensures r.Some? ==> r.value < |ls| && InReach(ls[r.value], px, py)
    ensures r.Some? ==> forall i :: 0 <= i < r.value ==> !InReach(ls[i], px, py)
  {
    if ls == [] then None
    else if InReach(ls[0], px, py) then Some(0)
    else match NearbyLadder(ls[1..], px, py)
      case None => None
      case Some(i) => Some(i + 1)
  }

  /**
   * `platforms.filter(f => f.y < y).sort((a, b) => b.y - a.y)[0]`: the floor with
   * the greatest `y` above the player; the sort is stable, so the earliest wins ties.
   */
  function UpperFloor(fs: seq<int>, py: int): (r: Option<nat>)
    ensures r.None? <==> forall i :: 0 <= i < |fs| ==> fs[i] >= py
    ensures r.Some? ==> r.value < |fs| && fs[r.value] < py
    ensures r.Some? ==> forall i :: 0 <= i < |fs| && fs[i] < py ==> fs[i] <= fs[r.value]
    ensures r.Some? ==> forall i :: 0 <= i < r.value && fs[i] < py ==> fs[i] < fs[r.value]
    decreases |fs|
  {
    if fs == [] then None
    else
      var last := |fs| - 1;
      var prev := UpperFloor(fs[..last], py);
      if fs[last] < py && (prev.None? || fs[last] > fs[prev.value]) then Some(last)
      else prev
  }

  /**
   * `platforms.filter(f => f.y > y).sort((a, b) => a.y - b.y)[0]`: the floor with
   * the least `y` below the player; the earliest wins ties.
   */
  function LowerFloor(fs: seq<int>, py: int): (r: Option<nat>)
    ensures r.None? <==> forall i :: 0 <= i < |fs| ==> fs[i] <= py
    ensures r.Some? ==> r.value < |fs| && fs[r.value] > py
    ensures r.Some? ==> forall i :: 0 <= i < |fs| && fs[i] > py ==> fs[i] >= fs[r.value]
    ensures r.Some? ==> forall i :: 0 <= i < r.value && fs[i] > py ==> fs[i] > fs[r.value]
    decreases |fs|
  {
    if fs == [] then None
    else
      var last := |fs| - 1;
      var prev := LowerFloor(fs[..last], py);
      if fs[last] > py && (prev.None? || fs[last] < fs[prev.value]) then Some(last)
      else prev
  }

  /** `Math.max(0, y - viewHeight / 1.4)`: the camera never scrolls above the world. */
  function ScrollTarget(floorY: int, viewHeight: nat): (r: real)
    ensures r >= 0.0 && r >= floorY as real - viewHeight as real / VIEW_FRACTION
    ensures r == 0.0 || r == floorY as real - viewHeight as real / VIEW_FRACTION
  {
    var t := floorY as real - viewHeight as real / VIEW_FRACTION;
    if t > 0.0 then t else 0.0
  }

  /** The y a hop to `floorY` ends at: on the floor when going down, a player's height above it (plus clearance) when going up. */
  function HopTarget(floorY: int, direction: int, displayHeight: real, height: nat): real
  {
    if direction < 0 then floorY as real - (if displayHeight != 0.0 then displayHeight else height as real) - HOP_CLEARANCE
    else floorY as real
  }

  /** `setVelocityY` while on a ladder: up wins over down. */
  function ClimbVelocity(up: bool, down: bool): int
  {
    if up then -CLIMB_SPEED else if down then CLIMB_SPEED else 0
  }

  // ---------------------------------------------------------------- the collider

  /** The floor the current collider is bound to, if any. */
  function BoundFloor(hs: seq<Collider>, ac: Option<nat>): Option<nat>
    requires ac.Some? ==> ac.value < |hs|
  {
    if ac.Some? then Some(hs[ac.value].floor) else None
  }

  predicate InRange(hs: seq<Collider>, ac: Option<nat>)
  {
    ac.Some? ==> ac.value < |hs|
  }

  /** Lines 32-40: if the collider is not bound to `closest`, destroy it and bind a new one to `closest` (or none). */
  function Swap(hs: seq<Collider>, ac: Option<nat>, closest: Option<nat>): (r: (seq<Collider>, Option<nat>))
    requires InRange(hs, ac)
    ensures InRange(r.0, r.1)
  {
    if (ac.None? && closest.Some?) || (ac.Some? && Some(hs[ac.value].floor) != closest) then
      var kept := if ac.Some? then Destroy(hs, ac.value) else hs;
      var added: Option<nat> := Some(|kept|);
      if closest.Some? then (Add(kept, closest.value), added) else (kept, None)
    else (hs, ac)
  }

  /** `activeCollider.active = v`, when there is a collider. */
  function SetActive(hs: seq<Collider>, ac: Option<nat>, v: bool): (r: seq<Collider>)
    requires InRange(hs, ac)
    ensures |r| == |hs|
  {
    if ac.Some? then hs[ac.value := hs[ac.value].(active := v)] else hs
  }

  /**
   * After the swap the collider is bound exactly to `closest` (none when there is no
   * floor); the swap is a no-op exactly when it already was; a swap destroys the old
   * handle before binding the new one, which is live and active; and at most one
   * handle stays live.
   */
  lemma {:induction false} SwapBindsClosest(hs: seq<Collider>, ac: Option<nat>, closest: Option<nat>)
    requires InRange(hs, ac) && OnlyBound(hs, ac)
    ensures var (hs', ac') := Swap(hs, ac, closest);
            && InRange(hs', ac')
            && BoundFloor(hs', ac') == closest
            && ((hs', ac') == (hs, ac) <==> BoundFloor(hs, ac) == closest)
            && (BoundFloor(hs, ac) != closest && ac.Some? ==> |hs'| >= |hs| && !hs'[ac.value].live)
            && (ac'.Some? && ac' != ac ==> hs'[ac'.value] == Collider(closest.value, true, true))
            && OnlyBound(hs', ac') && LiveCount(hs') <= 1
  {
    var (hs', ac') := Swap(hs, ac, closest);
    if BoundFloor(hs, ac) != closest {
      var kept := if ac.Some? then Destroy(hs, ac.value) else hs;
      assert OnlyBound(kept, None);
    }
    OnlyBoundAtMostOneLive(hs', ac');
  }

  lemma SetActiveKeepsBinding(hs: seq<Collider>, ac: Option<nat>, v: bool)
    requires InRange(hs, ac) && OnlyBound(hs, ac)
    ensures OnlyBound(SetActive(hs, ac, v), ac)
    ensures BoundFloor(SetActive(hs, ac, v), ac) == BoundFloor(hs, ac)
    ensures forall i :: 0 <= i < |hs| ==> SetActive(hs, ac, v)[i].live == hs[i].live
  {
  }

  // ---------------------------------------------------------------- one call

  /** What `updateLadders` reads and writes, apart from positions. */
  datatype LadderState = LadderState(
    handles: seq<Collider>,
    activeCollider: Option<nat>,
    onLadder: bool,
    isTransitioning: bool,
    tweens: seq<Tween>,
    vy: int,
    allowGravity: bool)

  ghost predicate WellFormed(s: LadderState, floorCount: nat)
  {
    && InRange(s.handles, s.activeCollider)
    && OnlyBound(s.handles, s.activeCollider)
    && (forall i :: 0 <= i < |s.handles| ==> s.handles[i].floor < floorCount)
  }

  /** `startClimb(scene, ladder, 'down')`. */
  function ClimbStarted(s: LadderState, l: Ladder, py: int): LadderState
    requires InRange(s.handles, s.activeCollider)
  {
    s.(isTransitioning := true, allowGravity := false,
       handles := SetActive(s.handles, s.activeCollider, false),
       tweens := s.tweens + [ClimbTo(l.x, py + CLIMB_STEP)])
  }

  /** `moveToFloor(scene, floor, direction)`. */
  function Hopped(s: LadderState, floorY: int, direction: int, displayHeight: real, height: nat, viewHeight: nat): LadderState
    requires InRange(s.handles, s.activeCollider)
  {
    s.(isTransitioning := true, vy := 0, allowGravity := true,
       handles := SetActive(s.handles, s.activeCollider, true),
       tweens := s.tweens + [HopTo(HopTarget(floorY, direction, displayHeight, height)), ScrollTo(ScrollTarget(floorY, viewHeight))])
  }

  /** The player may hop up: up is held, there is a floor above, and the player is within `UPPER_SNAP` of it. */
  predicate HopsUp(fs: seq<int>, py: int, up: bool)
  {
    var upper := UpperFloor(fs, py);
    up && upper.Some? && py <= fs[upper.value] + UPPER_SNAP
  }

  predicate HopsDown(fs: seq<int>, py: int, down: bool)
  {
    var lower := LowerFloor(fs, py);
    down && lower.Some? && py >= fs[lower.value] - LOWER_SNAP
  }

  /** The climb-down condition of line 50. */
  predicate ClimbsDown(s: LadderState, ls: seq<Ladder>, px: int, py: int, down: bool, overlaps: bool)
  {
    !overlaps && down && NearbyLadder(ls, px, py).Some? && !s.isTransitioning
  }

  /** Lines 56-68, on a ladder: gravity and the collider off, climb with the keys, and hop to a floor in snapping distance. */
  function Climbing(s: LadderState, fs: seq<int>, py: int, up: bool, down: bool,
                    displayHeight: real, height: nat, viewHeight: nat): LadderState
    requires InRange(s.handles, s.activeCollider)
  {
    Hops(Gripped(s, up, down), fs, py, up, down, displayHeight, height, viewHeight)
  }

  /** Lines 57-62: gravity and the collider off, velocity from the keys. */
  function Gripped(s: LadderState, up: bool, down: bool): LadderState
    requires InRange(s.handles, s.activeCollider)
  {
    s.(allowGravity := false, handles := SetActive(s.handles, s.activeCollider, false), vy := ClimbVelocity(up, down))
  }

  /** Lines 64-68: a hop to the floor above, then possibly one to the floor below. */
  function Hops(s: LadderState, fs: seq<int>, py: int, up: bool, down: bool,
                displayHeight: real, height: nat, viewHeight: nat): LadderState
    requires InRange(s.handles, s.activeCollider)
  {
    var s2 := if HopsUp(fs, py, up) then Hopped(s, fs[UpperFloor(fs, py).value], -1, displayHeight, height, viewHeight) else s;
    if HopsDown(fs, py, down) then Hopped(s2, fs[LowerFloor(fs, py).value], 1, displayHeight, height, viewHeight) else s2
  }

  /** Lines 70-71, off a ladder: gravity and the collider on. */
  function Released(s: LadderState): LadderState
    requires InRange(s.handles, s.activeCollider)
  {
    s.(allowGravity := true, handles := SetActive(s.handles, s.activeCollider, true))
  }

  /** Lines 25-40: record the overlap, then bind the collider to the first floor below the player. */
  function Located(s: LadderState, fs: seq<int>, py: int, overlaps: bool): LadderState
    requires InRange(s.handles, s.activeCollider)
  {
    var (hs, ac) := Swap(s.handles, s.activeCollider, FirstFloor(fs, py));
    s.(onLadder := overlaps, handles := hs, activeCollider := ac)
  }

  /** Lines 43-72: climb down onto a nearby ladder, climb the current one, or let go. */
  function Acted(s: LadderState, fs: seq<int>, ls: seq<Ladder>, px: int, py: int, up: bool, down: bool,
                 displayHeight: real, height: nat, viewHeight: nat): LadderState
    requires InRange(s.handles, s.activeCollider)
  {
    if ClimbsDown(s, ls, px, py, down, s.onLadder) then ClimbStarted(s, ls[NearbyLadder(ls, px, py).value], py)
    else if s.onLadder then Climbing(s, fs, py, up, down, displayHeight, height, viewHeight)
    else Released(s)
  }

  /** `updateLadders` with the player at (`px`, `py`); `overlaps` is whether the ladder overlap fired this call. */
  function LadderStep(s: LadderState, fs: seq<int>, ls: seq<Ladder>, px: int, py: int, up: bool, down: bool,
                      overlaps: bool, displayHeight: real, height: nat, viewHeight: nat): LadderState
    requires InRange(s.handles, s.activeCollider)
  {
    Acted(Located(s, fs, py, overlaps), fs, ls, px, py, up, down, displayHeight, height, viewHeight)
  }

  /** Whether the current collider (if any) is active. */
  predicate ColliderActive(s: LadderState)
    requires InRange(s.handles, s.activeCollider)
  {
    s.activeCollider.Some? && s.handles[s.activeCollider.value].active
  }

  /**
   * The rules of one call: `onLadder` is exactly whether the overlap fired; the
   * collider is bound to the first floor just below; a climb down turns gravity
   * and the collider off and starts the transition; on a ladder without a hop,
   * gravity and the collider are off and the velocity follows the keys; a hop sets
   * the velocity to zero, gravity and the collider on, and starts a transition
   * whose camera target is never negative; off a ladder gravity and the collider
   * are on.
   */
  lemma StepRules(s: LadderState, fs: seq<int>, ls: seq<Ladder>, px: int, py: int, up: bool, down: bool,
                  overlaps: bool, displayHeight: real, height: nat, viewHeight: nat)
    requires WellFormed(s, |fs|)
    ensures var r := LadderStep(s, fs, ls, px, py, up, down, overlaps, displayHeight, height, viewHeight);
            && r.onLadder == overlaps
            && InRange(r.handles, r.activeCollider)
            && BoundFloor(r.handles, r.activeCollider) == FirstFloor(fs, py)
            && (ClimbsDown(s, ls, px, py, down, overlaps) ==>
                  r.isTransitioning && !r.allowGravity && r.vy == s.vy && (r.activeCollider.Some? ==> !ColliderActive(r))
                  && r.tweens == s.tweens + [ClimbTo(ls[NearbyLadder(ls, px, py).value].x, py + CLIMB_STEP)])
            && (overlaps && !HopsUp(fs, py, up) && !HopsDown(fs, py, down) ==>
                  !r.allowGravity && r.vy == ClimbVelocity(up, down) && !ColliderActive(r)
                  && r.isTransitioning == s.isTransitioning && r.tweens == s.tweens)
            && (overlaps && (HopsUp(fs, py, up) || HopsDown(fs, py, down)) ==>
                  r.allowGravity && r.vy == 0 && r.isTransitioning && (r.activeCollider.Some? ==> ColliderActive(r))
                  && r.tweens[|r.tweens| - 1].ScrollTo? && r.tweens[|r.tweens| - 1].scrollY >= 0.0)
            && (!overlaps && !ClimbsDown(s, ls, px, py, down, overlaps) ==>
                  r.allowGravity && r.vy == s.vy && (r.activeCollider.Some? ==> ColliderActive(r)) && r.tweens == s.tweens)
  {
    var (hs, ac) := Swap(s.handles, s.activeCollider, FirstFloor(fs, py));
    SwapBindsClosest(s.handles, s.activeCollider, FirstFloor(fs, py));
    var s1 := s.(onLadder := overlaps, handles := hs, activeCollider := ac);
    if ClimbsDown(s, ls, px, py, down, overlaps) {
      ClimbStartedRules(s1, ls[NearbyLadder(ls, px, py).value], py);
    } else if overlaps {
      var g := Gripped(s1, up, down);
      GrippedRules(s1, up, down);
      HopsRules(g, fs, py, up, down, displayHeight, height, viewHeight);
    } else {
      ReleasedRules(s1);
    }
  }

  /** Setting the collider's flag keeps its binding and leaves it with that flag. */
  lemma SetActiveSets(hs: seq<Collider>, ac: Option<nat>, v: bool)
    requires InRange(hs, ac)
    ensures InRange(SetActive(hs, ac, v), ac)
    ensures BoundFloor(SetActive(hs, ac, v), ac) == BoundFloor(hs, ac)
    ensures ac.Some? ==> SetActive(hs, ac, v)[ac.value].active == v
  {
  }

  /** A climb down switches gravity and the collider off and queues the climb tween. */
  lemma ClimbStartedRules(s: LadderState, l: Ladder, py: int)
    requires InRange(s.handles, s.activeCollider)
    ensures var r := ClimbStarted(s, l, py);
            && r.onLadder == s.onLadder && r.activeCollider == s.activeCollider
            && InRange(r.handles, r.activeCollider)
            && BoundFloor(r.handles, r.activeCollider) == BoundFloor(s.handles, s.activeCollider)
            && r.isTransitioning && !r.allowGravity && r.vy == s.vy && (r.activeCollider.Some? ==> !ColliderActive(r))
            && r.tweens == s.tweens + [ClimbTo(l.x, py + CLIMB_STEP)]
  {
    SetActiveSets(s.handles, s.activeCollider, false);
  }

  /** Gripping the ladder switches gravity and the collider off and sets the velocity from the keys. */
  lemma GrippedRules(s: LadderState, up: bool, down: bool)
    requires InRange(s.handles, s.activeCollider)
    ensures var r := Gripped(s, up, down);
            && r.onLadder == s.onLadder && r.activeCollider == s.activeCollider
            && InRange(r.handles, r.activeCollider)
            && BoundFloor(r.handles, r.activeCollider) == BoundFloor(s.handles, s.activeCollider)
            && !r.allowGravity && r.vy == ClimbVelocity(up, down) && !ColliderActive(r)
            && r.isTransitioning == s.isTransitioning && r.tweens == s.tweens
  {
    SetActiveSets(s.handles, s.activeCollider, false);
  }

  /** Either hop sets the velocity to zero, switches gravity and the collider on and queues a non-negative camera target. */
  lemma HopsRules(s: LadderState, fs: seq<int>, py: int, up: bool, down: bool,
                  displayHeight: real, height: nat, viewHeight: nat)
    requires InRange(s.handles, s.activeCollider)
    ensures var r := Hops(s, fs, py, up, down, displayHeight, height, viewHeight);
            && r.onLadder == s.onLadder && r.activeCollider == s.activeCollider
            && InRange(r.handles, r.activeCollider)
            && BoundFloor(r.handles, r.activeCollider) == BoundFloor(s.handles, s.activeCollider)
            && (!HopsUp(fs, py, up) && !HopsDown(fs, py, down) ==> r == s)
            && (HopsUp(fs, py, up) || HopsDown(fs, py, down) ==>
                  r.allowGravity && r.vy == 0 && r.isTransitioning && (r.activeCollider.Some? ==> ColliderActive(r))
                  && r.tweens[|r.tweens| - 1].ScrollTo? && r.tweens[|r.tweens| - 1].scrollY >= 0.0)
  {
    SetActiveSets(s.handles, s.activeCollider, true);
    if HopsUp(fs, py, up) {
      var s2 := Hopped(s, fs[UpperFloor(fs, py).value], -1, displayHeight, height, viewHeight);
      SetActiveSets(s2.handles, s2.activeCollider, true);
    }
  }

  /** Off a ladder, gravity and the collider are switched on and nothing else changes. */
  lemma ReleasedRules(s: LadderState)
    requires InRange(s.handles, s.activeCollider)
    ensures var r := Released(s);
            && r.onLadder == s.onLadder && r.activeCollider == s.activeCollider
            && InRange(r.handles, r.activeCollider)
            && BoundFloor(r.handles, r.activeCollider) == BoundFloor(s.handles, s.activeCollider)
            && r.allowGravity && r.vy == s.vy && (r.activeCollider.Some? ==> ColliderActive(r)) && r.tweens == s.tweens
  {
    SetActiveSets(s.handles, s.activeCollider, true);
  }

  /** Both hops can happen in one call (up and down held on a ladder between two close floors), starting two hop tweens. */
  lemma BothHopsInOneCall()
    ensures var s := LadderState([], None, false, false, [], 0, true);
            var r := LadderStep(s, [100, 140], [], 0, 105, true, true, true, 30.0, 150, 700);
            |r.tweens| == 4 && r.tweens[0] == HopTo(68.0) && r.tweens[2] == HopTo(140.0)
  {
    var fs := [100, 140];
    assert UpperFloor(fs, 105) == Some(0);
    assert LowerFloor(fs, 105) == Some(1);
    assert FirstFloor(fs, 105) == Some(1) by {
      assert !FloorBelow(fs[0], 105);
    }
  }

  /** Toggling the collider's `active` flag keeps the state well formed. */
  lemma SetActiveWellFormed(s: LadderState, v: bool, floorCount: nat)
    requires WellFormed(s, floorCount)
    ensures WellFormed(s.(handles := SetActive(s.handles, s.activeCollider, v)), floorCount)
  {
    SetActiveKeepsBinding(s.handles, s.activeCollider, v);
  }

  lemma ClimbingWellFormed(s: LadderState, fs: seq<int>, py: int, up: bool, down: bool,
                           displayHeight: real, height: nat, viewHeight: nat)
    requires WellFormed(s, |fs|)
    ensures WellFormed(Climbing(s, fs, py, up, down, displayHeight, height, viewHeight), |fs|)
  {
    var climbing := Gripped(s, up, down);
    SetActiveWellFormed(s, false, |fs|);
    SetActiveWellFormed(climbing, true, |fs|);
    var up1 := Hopped(climbing, 0, -1, displayHeight, height, viewHeight);
    SetActiveWellFormed(up1, true, |fs|);
  }

  /** A call keeps the state well formed: at most one collider is live, and it is the current one. */
  lemma StepWellFormed(s: LadderState, fs: seq<int>, ls: seq<Ladder>, px: int, py: int, up: bool, down: bool,
                       overlaps: bool, displayHeight: real, height: nat, viewHeight: nat)
    requires WellFormed(s, |fs|)
    ensures var r := LadderStep(s, fs, ls, px, py, up, down, overlaps, displayHeight, height, viewHeight);
            WellFormed(r, |fs|) && LiveCount(r.handles) <= 1
  {
    var closest := FirstFloor(fs, py);
    var (hs, ac) := Swap(s.handles, s.activeCollider, closest);
    SwapBindsClosest(s.handles, s.activeCollider, closest);
    var s1 := s.(onLadder := overlaps, handles := hs, activeCollider := ac);
    assert WellFormed(s1, |fs|);
    SetActiveWellFormed(s1, false, |fs|);
    SetActiveWellFormed(s1, true, |fs|);
    ClimbingWellFormed(s1, fs, py, up, down, displayHeight, height, viewHeight);
    var r := LadderStep(s, fs, ls, px, py, up, down, overlaps, displayHeight, height, viewHeight);
    OnlyBoundAtMostOneLive(r.handles, r.activeCollider);
  }

  // ---------------------------------------------------------------- the scene state

  /** The scene fields the ladder logic owns, with the player it moves. */
  class LadderSystem {
    const player: Player
    const floorYs: seq<int>
    const ladders: seq<Ladder>
    /** `scene.scale.height`. */
    const viewHeight: nat
    var handles: seq<Collider>
    var activeCollider: Option<nat>
    var onLadder: bool
    var isTransitioning: bool
    var tweens: seq<Tween>

    function State(): LadderState
      reads this, player`vy, player`allowGravity
    {
      LadderState(handles, activeCollider, onLadder, isTransitioning, tweens, player.vy, player.allowGravity)
    }

    ghost predicate Valid()
      reads this, player`vy, player`allowGravity
    {
      WellFormed(State(), |floorYs|)
    }

    /** `player.displayHeight`: the frame height at the current scale. */
    function DisplayHeight(): real
      reads player`height, player`scale
    {
      player.height as real * player.scale
    }

    constructor (player: Player, floorYs: seq<int>, ladders: seq<Ladder>, viewHeight: nat)
      ensures Valid() && LiveCount(handles) == 0
      ensures this.player == player && this.floorYs == floorYs && this.ladders == ladders && this.viewHeight == viewHeight
      ensures State() == LadderState([], None, false, false, [], player.vy, player.allowGravity)
    {
      this.player := player;
      this.floorYs := floorYs;
      this.ladders := ladders;
      this.viewHeight := viewHeight;
      handles := [];
      activeCollider := None;
      onLadder := false;
      isTransitioning := false;
      tweens := [];
    }

    /** `updateLadders`, given the up and down keys and whether the player overlaps a ladder. */
    method UpdateLadders(up: bool, down: bool, overlapsLadder: bool)
      requires Valid()
      modifies this`handles, this`activeCollider, this`onLadder, this`isTransitioning, this`tweens
      modifies player`vy, player`allowGravity
      ensures Valid() && LiveCount(handles) <= 1
      ensures State() == LadderStep(old(State()), floorYs, ladders, player.x, player.y, up, down, overlapsLadder,
                                    DisplayHeight(), player.height, viewHeight)
    {
      ghost var r := LadderStep(State(), floorYs, ladders, player.x, player.y, up, down, overlapsLadder,
                                DisplayHeight(), player.height, viewHeight);
      StepWellFormed(State(), floorYs, ladders, player.x, player.y, up, down, overlapsLadder, DisplayHeight(), player.height, viewHeight);
      Locate(overlapsLadder);
      Act(up, down);
      assert State() == r;
    }

    /** Lines 25-40 of `updateLadders`. */
    method Locate(overlapsLadder: bool)
      requires InRange(handles, activeCollider)
      modifies this`onLadder, this`handles, this`activeCollider
      ensures State() == Located(old(State()), floorYs, player.y, overlapsLadder)
    {
      onLadder := false;
      if overlapsLadder {
        onLadder := true;
      }
      var closestFloor := FirstFloor(floorYs, player.y);
      SwapCollider(closestFloor);
    }

    /** Lines 43-72 of `updateLadders`. */
    method Act(up: bool, down: bool)
      requires InRange(handles, activeCollider)
      modifies this`handles, this`isTransitioning, this`tweens, player`vy, player`allowGravity
      ensures State() == Acted(old(State()), floorYs, ladders, player.x, player.y, up, down,
                               DisplayHeight(), player.height, viewHeight)
    {
      var nearbyLadder := NearbyLadder(ladders, player.x, player.y);
      if !onLadder && down && nearbyLadder.Some? && !isTransitioning {
        StartClimb(ladders[nearbyLadder.value]);
      } else if onLadder {
        Climb(up, down);
      } else {
        Release();
      }
    }

    /** Lines 70-71 of `updateLadders`, off a ladder. */
    method Release()
      requires InRange(handles, activeCollider)
      modifies this`handles, player`allowGravity
      ensures State() == Released(old(State()))
    {
      player.allowGravity := true;
      if activeCollider.Some? {
        handles := handles[activeCollider.value := handles[activeCollider.value].(active := true)];
      }
    }

    /** Lines 32-40 of `updateLadders`. */
    method SwapCollider(closestFloor: Option<nat>)
      requires InRange(handles, activeCollider)
      modifies this`handles, this`activeCollider
      ensures (handles, activeCollider) == Swap(old(handles), old(activeCollider), closestFloor)
    {
      if (activeCollider.None? && closestFloor.Some?)
         || (activeCollider.Some? && Some(handles[activeCollider.value].floor) != closestFloor) {
        if activeCollider.Some? {
          handles := Destroy(handles, activeCollider.value);
        }
        if closestFloor.Some? {
          handles, activeCollider := Add(handles, closestFloor.value), Some(|handles|);
        } else {
          activeCollider := None;
        }
      }
    }

    /** Lines 57-68 of `updateLadders`, on a ladder. */
    method Climb(up: bool, down: bool)
      requires InRange(handles, activeCollider)
      modifies this`handles, this`isTransitioning, this`tweens, player`vy, player`allowGravity
      ensures State() == Climbing(old(State()), floorYs, player.y, up, down, DisplayHeight(), player.height, viewHeight)
    {
      player.allowGravity := false;
      if activeCollider.Some? {
        handles := handles[activeCollider.value := handles[activeCollider.value].(active := false)];
      }

      if up {
        player.vy := -CLIMB_SPEED;
      } else if down {
        player.vy := CLIMB_SPEED;
      } else {
        player.vy := 0;
      }
      assert State() == Gripped(old(State()), up, down);
      HopToFloors(up, down);
    }

    /** Lines 64-68 of `updateLadders`. */
    method HopToFloors(up: bool, down: bool)
      requires InRange(handles, activeCollider)
      modifies this`handles, this`isTransitioning, this`tweens, player`vy, player`allowGravity
      ensures State() == Hops(old(State()), floorYs, player.y, up, down, DisplayHeight(), player.height, viewHeight)
    {
      var upperFloor := UpperFloor(floorYs, player.y);
      if up && upperFloor.Some? && player.y <= floorYs[upperFloor.value] + UPPER_SNAP {
        MoveToFloor(floorYs[upperFloor.value], -1);
      }
      var lowerFloor := LowerFloor(floorYs, player.y);
      if down && lowerFloor.Some? && player.y >= floorYs[lowerFloor.value] - LOWER_SNAP {
        MoveToFloor(floorYs[lowerFloor.value], 1);
      }
    }

    /** `startClimb(scene, ladder, 'down')`; the tween's completion is `OnClimbTweenComplete`. */
    method StartClimb(ladder: Ladder)
      requires InRange(handles, activeCollider)
      modifies this`isTransitioning, this`handles, this`tweens, player`allowGravity
      ensures State() == ClimbStarted(old(State()), ladder, player.y)
    {
      isTransitioning := true;
      player.allowGravity := false;
      if activeCollider.Some? {
        handles := handles[activeCollider.value := handles[activeCollider.value].(active := false)];
      }
      tweens := tweens + [ClimbTo(ladder.x, player.y + CLIMB_STEP)];
    }

    /** `moveToFloor(scene, floor, direction)`; the hop tween's completion is `OnHopTweenComplete`. */
    method MoveToFloor(floorY: int, direction: int)
      requires InRange(handles, activeCollider)
      modifies this`isTransitioning, this`handles, this`tweens, player`vy, player`allowGravity
      ensures State() == Hopped(old(State()), floorY, direction, DisplayHeight(), player.height, viewHeight)
    {
      isTransitioning := true;
      player.vy := 0;
      player.allowGravity := true;
      if activeCollider.Some? {
        handles := handles[activeCollider.value := handles[activeCollider.value].(active := true)];
      }
      var displayHeight := DisplayHeight();
      var targetY := if direction < 0
        then floorY as real - (if displayHeight != 0.0 then displayHeight else player.height as real) - HOP_CLEARANCE
        else floorY as real;
      var targetScrollY := floorY as real - viewHeight as real / VIEW_FRACTION;
      if targetScrollY < 0.0 {
        targetScrollY := 0.0;
      }
      tweens := tweens + [HopTo(targetY), ScrollTo(targetScrollY)];
    }

    /** The climb tween's `onComplete`. */
    method OnClimbTweenComplete()
      modifies this`isTransitioning, this`onLadder
      ensures !isTransitioning && onLadder
    {
      isTransitioning := false;
      onLadder := true;
    }

    /** The hop tween's `onComplete`. */
    method OnHopTweenComplete()
      modifies this`isTransitioning, this`onLadder
      ensures !isTransitioning && !onLadder
    {
      isTransitioning := false;
      onLadder := false;
    }
  }
}
