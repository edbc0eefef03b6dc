/**
 * The life manager (`LifeManager`): a life count, one hit per invulnerability
 * window, and game over when the count reaches zero or below. The one-second
 * timer that ends the window is the event `OnInvulnerabilityExpired`.
 */
module Lives {
  import opened Avatar

  const DEFAULT_LIVES: int := 3

  /** The manager's state; `gameOvers` counts the runs of `gameOver()`, each of which schedules a restart. */
  datatype LifeState = LifeState(lives: int, invulnerable: bool, gameOvers: nat)

  /** Whether `takeDamage(amount)` applies and leaves no lives. */
  predicate EndsGame(s: LifeState, amount: int)
  {
    !s.invulnerable && s.lives - amount <= 0
  }

  /** `takeDamage(amount)`. */
  function Hit(s: LifeState, amount: int): LifeState
  {
    if s.invulnerable then s
    else
      var lives := s.lives - amount;
      LifeState(lives, true, if lives <= 0 then s.gameOvers + 1 else s.gameOvers)
  }

  /** The player's velocity after `takeDamage`: `gameOver()` stops the player. */
  function VelocityAfterHit(s: LifeState, amount: int, m: Motion): Motion
  {
    if EndsGame(s, amount) then Motion(0, 0) else m
  }

  /** The expiry callback of an applied hit. */
  function Expire(s: LifeState): LifeState
  {
    s.(invulnerable := false)
  }

  /** What can happen to the manager: a hit, or the end of an invulnerability window. */
  datatype LifeEvent = Damage(amount: int) | Expiry

  function Apply(s: LifeState, e: LifeEvent): LifeState
  {
    match e
    case Damage(amount) => Hit(s, amount)
    case Expiry => Expire(s)
  }

  /** The state after a sequence of events, first event first. */
  function Run(s: LifeState, evs: seq<LifeEvent>): LifeState
    decreases |evs|
  {
    if evs == [] then s else Run(Apply(s, evs[0]), evs[1..])
  }

  predicate AllHits(evs: seq<LifeEvent>)
  {
    forall i :: 0 <= i < |evs| ==> evs[i].Damage?
  }

  /** While invulnerable, any number of hits changes nothing. */
  lemma {:induction false} InvulnerableAbsorbsHits(s: LifeState, evs: seq<LifeEvent>)
    requires s.invulnerable && AllHits(evs)
    ensures Run(s, evs) == s
    decreases |evs|
  {
    if evs != [] {
      InvulnerableAbsorbsHits(Apply(s, evs[0]), evs[1..]);
    }
  }

  /**
   * Within one invulnerability window only the first hit counts: a run of hits with
   * no expiry between them costs exactly the first hit's amount (nothing if the
   * window was already open) and leaves the player invulnerable.
   */
  lemma {:induction false} OneHitPerWindow(s: LifeState, evs: seq<LifeEvent>)
    requires AllHits(evs) && evs != []
    ensures Run(s, evs).lives == s.lives - (if s.invulnerable then 0 else evs[0].amount)
    ensures Run(s, evs).invulnerable
    ensures Run(s, evs).gameOvers == s.gameOvers + (if EndsGame(s, evs[0].amount) then 1 else 0)
  {
    InvulnerableAbsorbsHits(Apply(s, evs[0]), evs[1..]);
  }

  /** The case the game relies on: any number of one-life hits before the expiry cost one life. */
  lemma OneLifePerWindow(s: LifeState, n: nat)
    requires !s.invulnerable && n > 0
    ensures Run(s, seq(n, _ => Damage(1))).lives == s.lives - 1
  {
    OneHitPerWindow(s, seq(n, _ => Damage(1)));
  }

  /** After the expiry event the next hit applies again, in full. */
  lemma ExpiryReopensWindow(s: LifeState, amount: int)
    ensures Hit(Expire(s), amount).lives == s.lives - amount
    ensures Hit(Expire(s), amount).invulnerable
  {
  }

  /**
   * Game over is entered exactly when a hit applies and leaves zero lives or fewer;
   * the count is not clamped at zero.
   */
  lemma GameOverExactlyWhenOutOfLives(s: LifeState, amount: int)
    ensures Hit(s, amount).gameOvers == s.gameOvers + 1 <==> !s.invulnerable && Hit(s, amount).lives <= 0
    ensures Hit(s, amount).gameOvers == s.gameOvers || Hit(s, amount).gameOvers == s.gameOvers + 1
    ensures !s.invulnerable ==> Hit(s, amount).lives == s.lives - amount
  {
  }

  /** Three lives; hazard hits at 0 ms, 500 ms (inside the window) and, after the expiry at 1000 ms, at 1200 ms. */
  lemma HazardScenario()
    ensures Run(LifeState(3, false, 0), [Damage(1), Damage(1), Expiry, Damage(1)]) == LifeState(1, true, 0)
    ensures Hit(LifeState(1, false, 0), 3) == LifeState(-2, true, 1)
  {
  }

  class LifeManager {
    const player: Player
    var lives: int
    var invulnerable: bool
    var gameOvers: nat

    function State(): LifeState
      reads this`lives, this`invulnerable, this`gameOvers
    {
      LifeState(lives, invulnerable, gameOvers)
    }

    constructor (player: Player, initialLives: int := DEFAULT_LIVES)
      ensures this.player == player
      ensures State() == LifeState(initialLives, false, 0)
    {
      this.player := player;
      lives := initialLives;
      invulnerable := false;
      gameOvers := 0;
    }

    /** `takeDamage(amount)`; the window's end is `OnInvulnerabilityExpired`. */
    method TakeDamage(amount: int := 1)
      modifies this`lives, this`invulnerable, this`gameOvers, player`vx, player`vy
      ensures State() == Hit(old(State()), amount)
      ensures player.Velocity() == VelocityAfterHit(old(State()), amount, old(player.Velocity()))
    {
      if invulnerable {
        return;
      }
      lives := lives - amount;
      invulnerable := true;
      if lives <= 0 {
        GameOver();
      }
    }

    /** The callback scheduled 1000 ms after an applied hit. */
    method OnInvulnerabilityExpired()
      modifies this`invulnerable
      ensures State() == Expire(old(State()))
    {
      invulnerable := false;
    }

    /** `gameOver()`: stops the player and schedules a restart after 2000 ms. */
    method GameOver()
      modifies this`gameOvers, player`vx, player`vy
      ensures player.Velocity() == Motion(0, 0)
      ensures gameOvers == old(gameOvers) + 1
    {
      player.vx, player.vy := 0, 0;
      gameOvers := gameOvers + 1;
    }
  }
}
