/**
 * Arcade-physics collider handles, seen from the code that installs them: every
 * handle ever created by one owner, in creation order, each with the floor it
 * binds and its `live` (not yet destroyed) and `active` flags. Phaser's
 * `Collider.destroy` removes the handle from the world and clears `active`.
 */
module Colliders {
  import opened Common

  datatype Collider = Collider(floor: nat, live: bool, active: bool)

  /** `physics.add.collider(player, floor)`: a new live, active handle at the end. */
  function Add(hs: seq<Collider>, floor: nat): (r: seq<Collider>)
    ensures |r| == |hs| + 1 && r[..|hs|] == hs
    ensures r[|hs|] == Collider(floor, true, true)
  {
    hs + [Collider(floor, true, true)]
  }

  /** `collider.destroy()`: only handle `i` changes, and it is neither live nor active. */
  function Destroy(hs: seq<Collider>, i: nat): (r: seq<Collider>)
    requires i < |hs|
    ensures |r| == |hs| && !r[i].live && !r[i].active && r[i].floor == hs[i].floor
    ensures forall j :: 0 <= j < |hs| && j != i ==> r[j] == hs[j]
  {
    hs[i := hs[i].(live := false, active := false)]
  }

  /** Number of handles not yet destroyed. */
  function LiveCount(hs: seq<Collider>): nat
  {
    if hs == [] then 0
    else LiveCount(hs[..|hs| - 1]) + (if hs[|hs| - 1].live then 1 else 0)
  }

  /** The single-binding invariant: no handle is live except (possibly) the current one. */
  ghost predicate OnlyBound(hs: seq<Collider>, current: Option<nat>)
  {
    forall i :: 0 <= i < |hs| && hs[i].live ==> current == Some(i)
  }

  /** The single-binding invariant bounds the number of live handles by one. */
  lemma {:induction false} OnlyBoundAtMostOneLive(hs: seq<Collider>, current: Option<nat>)
    requires OnlyBound(hs, current)
    ensures LiveCount(hs) <= 1
    ensures LiveCount(hs) == 1 <==> current.Some? && current.value < |hs| && hs[current.value].live
  {
    if hs != [] {
      var init := hs[..|hs| - 1];
      if current.Some? && current.value < |init| {
        OnlyBoundAtMostOneLive(init, current);
      } else {
        OnlyBoundAtMostOneLive(init, None);
      }
    }
  }

  /** Creating a handle adds one live handle. */
  lemma {:induction false} LiveCountAdd(hs: seq<Collider>, floor: nat)
    ensures LiveCount(Add(hs, floor)) == LiveCount(hs) + 1
  {
    assert Add(hs, floor)[..|hs|] == hs;
  }

  /** Destroying a handle removes it from the live ones (if it was live). */
  lemma {:induction false} LiveCountDestroy(hs: seq<Collider>, i: nat)
    requires i < |hs|
    ensures LiveCount(Destroy(hs, i)) == LiveCount(hs) - (if hs[i].live then 1 else 0)
    decreases |hs|
  {
    var r := Destroy(hs, i);
    if i < |hs| - 1 {
      assert r[..|hs| - 1] == Destroy(hs[..|hs| - 1], i);
      LiveCountDestroy(hs[..|hs| - 1], i);
    } else {
      assert r[..|hs| - 1] == hs[..|hs| - 1];
    }
  }
}
