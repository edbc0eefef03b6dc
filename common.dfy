/** Small helpers shared by every component of the model. */
module Common {

  /** A reference that may be null (`null`/`undefined` in the game). */
  datatype Option<T> = None | Some(value: T)

  /** `Math.abs` on integer pixels. */
  function Abs(n: int): (r: nat)
    ensures r == n || r == -n
  {
    if n < 0 then -n else n
  }

  /** `Math.sign(v || 1)`: the sign of a velocity, a zero velocity counting as positive. */
  function SignOr1(v: int): (s: int)
    ensures s == 1 || s == -1
    ensures s == 1 <==> v >= 0
  {
    if v < 0 then -1 else 1
  }

  /**
   * `Phaser.Math.Distance.Between(x1, y1, x2, y2) < r`, compared on squares so that
   * no square root is needed (exact for integer pixel positions).
   */
  predicate Closer(x1: int, y1: int, x2: int, y2: int, r: nat)
  {
    (x1 - x2) * (x1 - x2) + (y1 - y2) * (y1 - y2) < r * r
  }
}
