/**
 * The platform selector of `PlatformPhysics` (the same code runs inline at the top
 * of `GameScene.update`): each tick it picks the nearest floor under the player's
 * feet and keeps exactly one arcade collider bound to it, holding on to the current
 * floor while the player crouches.
 *
 * Platforms are identified by their index in the scene's platform list; a
 * platform's arcade body supplies `left`, `right` and `top` in integer pixels.
 */
module FloorSelection {
  import opened Common
  import opened Colliders

  /** Horizontal slack around a platform's span. */
  const X_TOLERANCE: int := 4
  /** How far above the feet a surface may lie and still count as "below". */
  const ABOVE_TOLERANCE: int := 10
  /** Surfaces this far from the feet, or farther, are ignored. */
  const MAX_GAP: int := 180
  /** While crouching, the bound floor is kept down to this far above the feet. */
  const CROUCH_KEEP_ABOVE: int := 40

  /** A floor segment: whether it still has an arcade body, whether it is active, and its body's bounds. */
  datatype Platform = Platform(hasBody: bool, active: bool, left: int, right: int, top: int)

  /** Vertical distance between a platform's surface and the player's feet. */
  function Gap(p: Platform, feet: int): nat
  {
    Abs(p.top - feet)
  }

  /** The acceptance window of the scan. */
  predicate IsCandidate(p: Platform, x: int, feet: int)
  {
    && p.hasBody
    && p.left - X_TOLERANCE <= x <= p.right + X_TOLERANCE
    && p.top >= feet - ABOVE_TOLERANCE
    && Gap(p, feet) < MAX_GAP
  }

  /**
   * Platform `i` is the floor the scan picks: a candidate at least as close as every
   * other candidate, and strictly closer than every candidate before it in list order.
   */
  ghost predicate IsNearest(ps: seq<Platform>, x: int, feet: int, i: nat)
  {
    && i < |ps|
    && IsCandidate(ps[i], x, feet)
    && (forall j :: 0 <= j < |ps| && IsCandidate(ps[j], x, feet) ==> Gap(ps[i], feet) <= Gap(ps[j], feet))
    && (forall j :: 0 <= j < i && IsCandidate(ps[j], x, feet) ==> Gap(ps[j], feet) > Gap(ps[i], feet))
  }

  /** The floor the scan picks: the nearest candidate, the earliest one on a tie. */
  function Nearest(ps: seq<Platform>, x: int, feet: int): (r: Option<nat>)
    ensures r.None? <==> forall j :: 0 <= j < |ps| ==> !IsCandidate(ps[j], x, feet)
    ensures r.Some? ==> IsNearest(ps, x, feet, r.value)
    decreases |ps|
  {
    if ps == [] then None
    else
      var init := ps[..|ps| - 1];
      var prev := Nearest(init, x, feet);
      var f := ps[|ps| - 1];
      assert forall j :: 0 <= j < |init| ==> init[j] == ps[j];
      if IsCandidate(f, x, feet) && (prev.None? || Gap(f, feet) < Gap(ps[prev.value], feet))
      then Some(|ps| - 1)
      else prev
  }

  /** Any two indices that satisfy `IsNearest` are the same: the pick is well defined. */
  lemma NearestIsUnique(ps: seq<Platform>, x: int, feet: int, i: nat, k: nat)
    requires IsNearest(ps, x, feet, i) && IsNearest(ps, x, feet, k)
    ensures i == k
  {
  }

  /** The candidate scan of `update()`: one pass keeping the strict minimum. */
  method ClosestFloor(ps: seq<Platform>, playerX: int, playerBottom: int) returns (closestFloor: Option<nat>)
    ensures closestFloor == Nearest(ps, playerX, playerBottom)
  {
    closestFloor := None;
    var minDistance: Option<nat> := None;  // None stands for Infinity
    for i := 0 to |ps|
      invariant closestFloor == Nearest(ps[..i], playerX, playerBottom)
      invariant closestFloor.Some? ==> closestFloor.value < i
      invariant minDistance == if closestFloor.Some? then Some(Gap(ps[closestFloor.value], playerBottom)) else None
    {
      assert ps[..i + 1][..i] == ps[..i];
      var f := ps[i];
      if !f.hasBody {
        continue;
      }
      var withinX := playerX >= f.left - X_TOLERANCE && playerX <= f.right + X_TOLERANCE;
      if !withinX {
        continue;
      }
      var surfaceY := f.top;
      var distance := Abs(surfaceY - playerBottom);
      var isBelow := surfaceY >= playerBottom - ABOVE_TOLERANCE;
      var isClose := distance < MAX_GAP;
      if isBelow && isClose && (minDistance.None? || distance < minDistance.value) {
        minDistance := Some(distance);
        closestFloor := Some(i);
      }
    }
    assert ps[..|ps|] == ps;
  }

  /** The selector's own state: the handles it created, `activeCollider` and `lastValidFloor`. */
  datatype Binding = Binding(handles: seq<Collider>, activeCollider: Option<nat>, lastValidFloor: Option<nat>)

  /** The state of a freshly constructed selector. */
  const Unbound: Binding := Binding([], None, None)

  /**
   * Indices are in range, and the selector's collider (when it has one) is the one
   * created for `lastValidFloor`: the two fields are always assigned together.
   */
  ghost predicate WellFormed(b: Binding, platformCount: nat)
  {
    && (b.activeCollider.Some? ==> b.activeCollider.value < |b.handles|)
    && (b.lastValidFloor.Some? ==> b.lastValidFloor.value < platformCount)
    && (b.activeCollider.Some? <==> b.lastValidFloor.Some?)
    && (b.activeCollider.Some? ==> Some(b.handles[b.activeCollider.value].floor) == b.lastValidFloor)
    && (forall i :: 0 <= i < |b.handles| ==> b.handles[i].floor < platformCount)
  }

  /** `activeCollider && activeCollider.active`. */
  predicate HasActiveCollider(b: Binding)
  {
    b.activeCollider.Some? && b.activeCollider.value < |b.handles| && b.handles[b.activeCollider.value].active
  }

  /** A collider that was switched off without being destroyed. */
  predicate Dormant(b: Binding)
  {
    b.activeCollider.Some? && b.activeCollider.value < |b.handles|
    && b.handles[b.activeCollider.value].live && !b.handles[b.activeCollider.value].active
  }

  /** Destroy the current collider (if any), then bind `floor`. */
  function Rebind(b: Binding, floor: nat): Binding
  {
    var hs := if b.activeCollider.Some? && b.activeCollider.value < |b.handles|
              then Destroy(b.handles, b.activeCollider.value) else b.handles;
    Binding(Add(hs, floor), Some(|hs|), Some(floor))
  }

  /** Bind `floor` without destroying the current collider (the crouching branch without an active collider). */
  function Bind(b: Binding, floor: nat): Binding
  {
    Binding(Add(b.handles, floor), Some(|b.handles|), Some(floor))
  }

  /** One tick of `update()`, as a function of the state, the platforms, the player's x and feet, and the posture. */
  function Step(b: Binding, ps: seq<Platform>, x: int, feet: int, crouching: bool): Binding
    requires WellFormed(b, |ps|)
  {
    var closest := Nearest(ps, x, feet);
    if crouching then
      if HasActiveCollider(b) then
        var f := b.lastValidFloor.value;
        if ps[f].active && ps[f].hasBody then
          var currentDistance := ps[f].top - feet;
          if -CROUCH_KEEP_ABOVE <= currentDistance < MAX_GAP then b
          else if closest.Some? then Rebind(b, closest.value)
          else b
        else b
      else if closest.Some? then Bind(b, closest.value)
      else b
    else
      var shouldUpdateCollider :=
        b.activeCollider.None? || !HasActiveCollider(b) || (closest.Some? && b.lastValidFloor != closest);
      if shouldUpdateCollider && closest.Some? then Rebind(b, closest.value)
      else b
  }

  /** A tick keeps the state well formed. */
  lemma StepWellFormed(b: Binding, ps: seq<Platform>, x: int, feet: int, crouching: bool)
    requires WellFormed(b, |ps|)
    ensures WellFormed(Step(b, ps, x, feet, crouching), |ps|)
  {
  }

  /** A tick with no candidate leaves the collider and `lastValidFloor` as they were, in both postures. */
  lemma NoCandidateNoChange(b: Binding, ps: seq<Platform>, x: int, feet: int, crouching: bool)
    requires WellFormed(b, |ps|)
    requires forall j :: 0 <= j < |ps| ==> !IsCandidate(ps[j], x, feet)
    ensures Step(b, ps, x, feet, crouching) == b
  {
  }

  /**
   * Standing: the selector rebinds exactly when there is a candidate and there is no
   * collider, or it is inactive, or the candidate is not `lastValidFloor`; a rebind
   * destroys the old handle first and leaves `lastValidFloor` on the candidate.
   */
  lemma StandingRebind(b: Binding, ps: seq<Platform>, x: int, feet: int)
    requires WellFormed(b, |ps|)
    ensures var r := Step(b, ps, x, feet, false);
            var closest := Nearest(ps, x, feet);
            && (r != b <==> closest.Some? && (!HasActiveCollider(b) || b.lastValidFloor != closest))
            && (r != b ==> r == Rebind(b, closest.value) && r.lastValidFloor == closest && HasActiveCollider(r))
  {
    var r := Step(b, ps, x, feet, false);
    if r != b {
      assert |r.handles| == |b.handles| + 1;
    }
  }

  /** Standing still settles at once: a second tick with the same inputs changes nothing. */
  lemma StandingSettles(b: Binding, ps: seq<Platform>, x: int, feet: int)
    requires WellFormed(b, |ps|)
    ensures var once := Step(b, ps, x, feet, false);
            WellFormed(once, |ps|) && Step(once, ps, x, feet, false) == once
  {
    StepWellFormed(b, ps, x, feet, false);
  }

  /**
   * Crouching with an active collider on a live floor: the binding is kept while the
   * floor's surface lies within [-40, 180) of the feet, whatever the candidate is;
   * outside that window it moves to the candidate (destroying the old handle) if there is one.
   */
  lemma CrouchSticky(b: Binding, ps: seq<Platform>, x: int, feet: int)
    requires WellFormed(b, |ps|)
    requires HasActiveCollider(b)
    requires ps[b.lastValidFloor.value].active && ps[b.lastValidFloor.value].hasBody
    ensures var d := ps[b.lastValidFloor.value].top - feet;
            var closest := Nearest(ps, x, feet);
            var r := Step(b, ps, x, feet, true);
            && (-CROUCH_KEEP_ABOVE <= d < MAX_GAP ==> r == b)
            && (!(-CROUCH_KEEP_ABOVE <= d < MAX_GAP) && closest.Some? ==> r == Rebind(b, closest.value))
            && (!(-CROUCH_KEEP_ABOVE <= d < MAX_GAP) && closest.None? ==> r == b)
  {
  }

  /** Crouching with an active collider whose floor is inactive or has no body: nothing changes. */
  lemma CrouchOnLostFloor(b: Binding, ps: seq<Platform>, x: int, feet: int)
    requires WellFormed(b, |ps|)
    requires HasActiveCollider(b)
    requires !ps[b.lastValidFloor.value].active || !ps[b.lastValidFloor.value].hasBody
    ensures Step(b, ps, x, feet, true) == b
  {
  }

  /**
   * The single-binding invariant survives every tick, provided the current handle is
   * not dormant (live but inactive): the one case in which the crouching branch
   * creates a handle without destroying a live one.
   */
  lemma {:induction false} StepKeepsSingleBinding(b: Binding, ps: seq<Platform>, x: int, feet: int, crouching: bool)
    requires WellFormed(b, |ps|)
    requires OnlyBound(b.handles, b.activeCollider)
    requires !Dormant(b)
    ensures var r := Step(b, ps, x, feet, crouching);
            OnlyBound(r.handles, r.activeCollider) && LiveCount(r.handles) <= 1
  {
    var r := Step(b, ps, x, feet, crouching);
    if r == b {
      OnlyBoundAtMostOneLive(b.handles, b.activeCollider);
    } else if crouching && !HasActiveCollider(b) {
      BindKeepsSingleBinding(b, Nearest(ps, x, feet).value);
    } else {
      RebindKeepsSingleBinding(b, Nearest(ps, x, feet).value);
    }
  }

  /** Destroying the bound handle before adding the new one leaves only the new one live. */
  lemma RebindKeepsSingleBinding(b: Binding, floor: nat)
    requires OnlyBound(b.handles, b.activeCollider)
    ensures var r := Rebind(b, floor);
            OnlyBound(r.handles, r.activeCollider) && LiveCount(r.handles) <= 1
  {
    var hs := if b.activeCollider.Some? && b.activeCollider.value < |b.handles|
              then Destroy(b.handles, b.activeCollider.value) else b.handles;
    assert forall i :: 0 <= i < |hs| ==> !hs[i].live;
    var r := Rebind(b, floor);
    OnlyBoundAtMostOneLive(r.handles, r.activeCollider);
  }

  /** Binding without a destroy keeps a single live handle when the current one is not live. */
  lemma BindKeepsSingleBinding(b: Binding, floor: nat)
    requires OnlyBound(b.handles, b.activeCollider)
    requires !Dormant(b) && !HasActiveCollider(b)
    ensures var r := Bind(b, floor);
            OnlyBound(r.handles, r.activeCollider) && LiveCount(r.handles) <= 1
  {
    assert forall i :: 0 <= i < |b.handles| ==> !b.handles[i].live;
    var r := Bind(b, floor);
    OnlyBoundAtMostOneLive(r.handles, r.activeCollider);
  }

  /** No handle is live but switched off: the selector itself never clears `active` without destroying. */
  ghost predicate LiveAreActive(hs: seq<Collider>)
  {
    forall i :: 0 <= i < |hs| && hs[i].live ==> hs[i].active
  }

  /** Every handle the selector keeps alive stays active, so its collider is never dormant. */
  lemma StepKeepsLiveActive(b: Binding, ps: seq<Platform>, x: int, feet: int, crouching: bool)
    requires WellFormed(b, |ps|) && LiveAreActive(b.handles)
    ensures LiveAreActive(Step(b, ps, x, feet, crouching).handles)
    ensures !Dormant(b)
  {
  }

  /**
   * The crouching branch leaks a handle when the current one is dormant: two
   * colliders are then live at once.
   */
  lemma {:induction false} CrouchBindLeaksDormant(b: Binding, ps: seq<Platform>, x: int, feet: int)
    requires WellFormed(b, |ps|)
    requires OnlyBound(b.handles, b.activeCollider)
    requires Dormant(b)
    requires Nearest(ps, x, feet).Some?
    ensures LiveCount(Step(b, ps, x, feet, true).handles) == 2
  {
    OnlyBoundAtMostOneLive(b.handles, b.activeCollider);
    LiveCountAdd(b.handles, Nearest(ps, x, feet).value);
  }

  /**
   * `PlatformPhysics`: the selector object. Its fields are the two the source
   * reassigns, plus the collider handles it has created (the arcade world's view of
   * them). The platform array it holds keeps its length, but some steps move and a
   * floor can lose its body, so each tick reads the platforms as they are then.
   */
  class PlatformPhysics {
    /** The length of the platform array given at construction. */
    const floorCount: nat
    var handles: seq<Collider>
    var activeCollider: Option<nat>
    var lastValidFloor: Option<nat>

    function State(): Binding
      reads this
    {
      Binding(handles, activeCollider, lastValidFloor)
    }

    /** Well formed, at most one collider live (the current one), and every live collider active. */
    ghost predicate Valid()
      reads this
    {
      WellFormed(State(), floorCount) && SingleBinding() && LiveAreActive(handles)
    }

    /** At most one collider is live, and it is `activeCollider`. */
    ghost predicate SingleBinding()
      reads this
    {
      OnlyBound(handles, activeCollider)
    }

    constructor (platforms: seq<Platform>)
      ensures Valid()
      ensures floorCount == |platforms| && State() == Unbound
    {
      floorCount := |platforms|;
      handles := [];
      activeCollider := None;
      lastValidFloor := None;
    }

    /**
     * One tick, given the platforms as they are on this tick, the player's x, the y
     * of its bottom centre and its posture.
     */
    method Update(platforms: seq<Platform>, playerX: int, playerBottom: int, isCrouching: bool)
      requires Valid() && |platforms| == floorCount
      modifies this
      ensures Valid() && LiveCount(handles) <= 1
      ensures State() == Step(old(State()), platforms, playerX, playerBottom, isCrouching)
    {
      ghost var b := State();
      var closestFloor := ClosestFloor(platforms, playerX, playerBottom);
      if isCrouching {
        if activeCollider.Some? && handles[activeCollider.value].active {
          var currentFloor := lastValidFloor.value;
          if platforms[currentFloor].active && platforms[currentFloor].hasBody {
            var surfaceY := platforms[currentFloor].top;
            var currentDistance := surfaceY - playerBottom;
            if currentDistance >= -CROUCH_KEEP_ABOVE && currentDistance < MAX_GAP {
              // the collider is kept
            } else if closestFloor.Some? {
              RebindTo(closestFloor.value);
            }
          }
        } else if closestFloor.Some? {
          BindTo(closestFloor.value);
        }
      } else {
        var shouldUpdateCollider :=
          activeCollider.None? || !handles[activeCollider.value].active
          || (closestFloor.Some? && lastValidFloor != closestFloor);
        if shouldUpdateCollider && closestFloor.Some? {
          RebindTo(closestFloor.value);
        }
      }
      StepWellFormed(b, platforms, playerX, playerBottom, isCrouching);
      StepKeepsLiveActive(b, platforms, playerX, playerBottom, isCrouching);
      StepKeepsSingleBinding(b, platforms, playerX, playerBottom, isCrouching);
    }

    /** Destroy the current collider, if any, and bind `floor`. */
    method RebindTo(floor: nat)
      modifies this`handles, this`activeCollider, this`lastValidFloor
      ensures State() == Rebind(old(State()), floor)
    {
      if activeCollider.Some? && activeCollider.value < |handles| {
        handles := Destroy(handles, activeCollider.value);
      }
      handles, activeCollider := Add(handles, floor), Some(|handles|);
      lastValidFloor := Some(floor);
    }

    /** Bind `floor` and leave the current collider alone. */
    method BindTo(floor: nat)
      modifies this`handles, this`activeCollider, this`lastValidFloor
      ensures State() == Bind(old(State()), floor)
    {
      handles, activeCollider := Add(handles, floor), Some(|handles|);
      lastValidFloor := Some(floor);
    }
  }
}
