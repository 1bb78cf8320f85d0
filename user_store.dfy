/** The player store: the user aggregate kept in memory and the actions that
    update it. Each action is a pure transition on the `User` value, and the
    class `Store` holds the fields and applies the transitions in place, in
    the order the actions read and write the state. The clock reading is the
    parameter `now`. */
module UserStore {

  import opened Types
  import LevelSystem
  import EnergySystem

  /** The consistency the actions keep: the level is the one the XP gives,
      the energy lies within its cap, and no more games are won than played. */
  predicate ValidUser(u: User)
    ensures ValidUser(u) ==> u.level >= 1 && LevelSystem.CumulativeXp(u.level - 1) <= u.xp < LevelSystem.CumulativeXp(u.level)
  {
    u.level == LevelSystem.LevelFromXp(u.xp) && u.xp >= 0 &&
    0 <= u.energy <= u.maxEnergy &&
    0 <= u.gamesWon <= u.gamesPlayed
  }

  /** `INITIAL_USER`, anchored at the clock reading `now`. */
  function InitialUser(now: int): (u: User)
    ensures ValidUser(u)
    ensures u.coins == 1000 && u.energy == u.maxEnergy == 5 && u.xp == 0 && u.lastEnergyUpdate == now
  {
    LevelSystem.LevelFromXpZero();
    User("", 1000, 5, 5, 0, 1, now, 0, 0, 0)
  }

  /** `updateEnergy` (and `initUser`, which does the same): regenerate, and
      only when the energy value changes store it and move the anchor to now. */
  function Regenerated(u: User, now: int): (v: User)
    ensures v == u.(energy := v.energy, lastEnergyUpdate := v.lastEnergyUpdate)
    ensures v.energy == EnergySystem.CalculateEnergyRegeneration(u.energy, u.maxEnergy, u.lastEnergyUpdate, now)
    ensures v.energy != u.energy ==> v.lastEnergyUpdate == now
    ensures v.energy == u.energy ==> v == u
    ensures ValidUser(u) && u.lastEnergyUpdate <= now ==> ValidUser(v) && u.energy <= v.energy
  {
    var newEnergy := EnergySystem.CalculateEnergyRegeneration(u.energy, u.maxEnergy, u.lastEnergyUpdate, now);
    if newEnergy != u.energy then u.(energy := newEnergy, lastEnergyUpdate := now) else u
  }

  /** Two updates at the same clock reading are one. */
  lemma RegeneratedIsIdempotent(u: User, now: int)
    ensures Regenerated(Regenerated(u, now), now) == Regenerated(u, now)
  {
    var v := Regenerated(u, now);
    if v != u {
      EnergySystem.RegenerationWithinPeriodIsIdentity(v.energy, v.maxEnergy, v.lastEnergyUpdate, now);
    }
  }

  /** Moving the anchor to the update time discards the part of a period
      already waited: from energy 3 of 5, an update 45 minutes in credits one
      unit, and 15 minutes later (two whole periods after the original
      anchor) the energy is still 4. */
  lemma RegenerationRestartsThePeriod(t: int)
    ensures var u := User("", 0, 3, 5, 0, 1, t, 0, 0, 0);
            var v := Regenerated(u, t + 45 * 60000);
            v.energy == 4 && Regenerated(v, t + 60 * 60000).energy == 4 &&
            Regenerated(u, t + 60 * 60000).energy == 5
  {
  }

  /** `consumeEnergy`: the state is read before `updateEnergy` runs, and the
      decrement is applied to that earlier snapshot, so energy credited by the
      update is overwritten; with a snapshot of 0 the call fails (and keeps
      the update). The boolean is the returned success. */
  function ConsumedEnergy(u: User, now: int): (res: (User, bool))
    ensures res.1 <==> u.energy > 0
    ensures res.1 ==> res.0 == u.(energy := u.energy - 1, lastEnergyUpdate := now)
    ensures !res.1 ==> res.0 == Regenerated(u, now)
    ensures ValidUser(u) && u.lastEnergyUpdate <= now ==> ValidUser(res.0)
  {
    var state := u;
    var refreshed := Regenerated(u, now);
    if state.energy > 0 then (refreshed.(energy := state.energy - 1, lastEnergyUpdate := now), true)
    else (refreshed, false)
  }

  /** When the state is already up to date (as right after `hasEnergy` at the
      same clock reading), consuming takes exactly one unit off the current energy. */
  lemma ConsumeAfterRefreshLosesNothing(u: User, now: int)
    requires Regenerated(u, now) == u
    ensures var (v, ok) := ConsumedEnergy(u, now);
            ok <==> u.energy > 0
    ensures var (v, ok) := ConsumedEnergy(u, now);
            ok ==> v.energy == Regenerated(u, now).energy - 1
  {
  }

  /** The stale snapshot at work: energy 2 of 5 an hour after the anchor would
      be refreshed to 4, but consuming leaves 1; energy 0 an hour on is
      refreshed to 2, yet the call fails. */
  lemma StaleSnapshotExamples(t: int)
    ensures Regenerated(User("", 0, 2, 5, 0, 1, t, 0, 0, 0), t + 60 * 60000).energy == 4
    ensures ConsumedEnergy(User("", 0, 2, 5, 0, 1, t, 0, 0, 0), t + 60 * 60000).0.energy == 1
    ensures ConsumedEnergy(User("", 0, 0, 5, 0, 1, t, 0, 0, 0), t + 60 * 60000) ==
            (User("", 0, 2, 5, 0, 1, t + 60 * 60000, 0, 0, 0), false)
  {
  }

  /** `updateCoins`: add the amount, clamped below at 0. */
  function CoinsUpdated(u: User, amount: int): (v: User)
    ensures v == u.(coins := v.coins)
    ensures v.coins >= 0
    ensures u.coins + amount >= 0 ==> v.coins == u.coins + amount
    ensures u.coins + amount < 0 ==> v.coins == 0
  {
    u.(coins := if 0 < u.coins + amount then u.coins + amount else 0)
  }

  /** `addEnergy` (and `addEnergyFromAd` with amount 1): add, capped at the
      maximum, and move the anchor to now. */
  function EnergyAdded(u: User, amount: int, now: int): (v: User)
    ensures v == u.(energy := v.energy, lastEnergyUpdate := now)
    ensures v.energy <= u.maxEnergy
    ensures v.energy == u.energy + amount || v.energy == u.maxEnergy
    ensures v.energy <= u.energy + amount
    ensures ValidUser(u) && amount >= 0 ==> ValidUser(v) && u.energy <= v.energy
  {
    u.(energy := if u.maxEnergy < u.energy + amount then u.maxEnergy else u.energy + amount,
       lastEnergyUpdate := now)
  }

  /** `addCoinsFromAd`: 50 coins, no other change. */
  function AdCoinsAdded(u: User): (v: User)
    ensures v == u.(coins := u.coins + 50)
    ensures ValidUser(u) ==> ValidUser(v)
  {
    u.(coins := u.coins + 50)
  }

  /** The level-up bonus: 100 coins per level of the new level, when the level rises. */
  function LevelUpBonus(oldLevel: int, newLevel: int): int
  {
    if newLevel > oldLevel then 100 * newLevel else 0
  }

  /** `processGameResult`: one atomic update of the economy and the counters.
      The coins are not clamped; energy and its anchor are untouched. */
  function GameResultApplied(u: User, result: GameResult, betAmount: int): (v: User)
    ensures v.xp == u.xp + result.xpGained && v.level == LevelSystem.LevelFromXp(v.xp)
    ensures v.coins == u.coins - betAmount + result.winAmount + LevelUpBonus(u.level, v.level)
    ensures v.gamesPlayed == u.gamesPlayed + 1
    ensures v.gamesWon == u.gamesWon + (if result.won then 1 else 0)
    ensures v.totalWinnings == u.totalWinnings + result.winAmount
    ensures v.id == u.id && v.energy == u.energy && v.maxEnergy == u.maxEnergy &&
            v.lastEnergyUpdate == u.lastEnergyUpdate
    ensures ValidUser(u) && result.xpGained >= 0 ==> ValidUser(v)
  {
    var newXp := u.xp + result.xpGained;
    var newLevel := LevelSystem.LevelFromXp(newXp);
    var levelUpBonus := LevelUpBonus(u.level, newLevel);
    u.(coins := u.coins - betAmount + result.winAmount + levelUpBonus,
       xp := newXp,
       level := newLevel,
       gamesPlayed := u.gamesPlayed + 1,
       gamesWon := u.gamesWon + (if result.won then 1 else 0),
       totalWinnings := u.totalWinnings + result.winAmount)
  }

  /** A result levels the player up exactly when the new XP reaches the
      cumulative requirement of the current level. */
  lemma LevelUpIff(u: User, result: GameResult, betAmount: int)
    requires ValidUser(u) && result.xpGained >= 0
    ensures GameResultApplied(u, result, betAmount).level > u.level <==>
            u.xp + result.xpGained >= LevelSystem.CumulativeXp(u.level)
  {
    var newXp := u.xp + result.xpGained;
    assert GameResultApplied(u, result, betAmount).level == LevelSystem.LevelFromXp(newXp);
    LevelSystem.LevelAtLeast(newXp, u.level + 1);
  }

  /** A bet the player can afford (`canAffordBet`) and a non-negative payout
      keep the coins non-negative, although the update itself does not clamp. */
  lemma AffordableBetKeepsCoins(u: User, result: GameResult, betAmount: int)
    requires u.coins >= betAmount && result.winAmount >= 0
    requires u.level >= 1 && result.xpGained >= 0
    ensures GameResultApplied(u, result, betAmount).coins >= 0
  {
  }

  /** Without the affordability check the coins can go below zero: 10 coins,
      a lost bet of 50. */
  lemma UnaffordableBetOverdraws()
    ensures var u := User("", 10, 5, 5, 0, 1, 0, 0, 0, 0);
            GameResultApplied(u, GameResult(false, "red", "black", 0, 10), 50).coins == -40
  {
    LevelSystem.LevelFromXpUnique(10, 1);
  }

  /** 1000 coins and 95 XP at level 1, then a won bet of 50 paying 100 with
      15 XP: 110 XP reach level 2, which pays a bonus of 200, so 1250 coins. */
  lemma ProcessGameResultExample()
    ensures var u := User("", 1000, 5, 5, 95, 1, 0, 0, 0, 0);
            var v := GameResultApplied(u, GameResult(true, "red", "red", 100, 15), 50);
            v.xp == 110 && v.level == 2 && v.coins == 1250 && v.gamesWon == 1 && v.totalWinnings == 100
  {
    LevelSystem.ProgressionExamples();
    LevelSystem.LevelFromXpUnique(110, 2);
  }

  /** The store object: the fields of the user aggregate, updated in place. */
  class Store {
    var id: string
    var coins: int
    var energy: int
    var maxEnergy: int
    var xp: int
    var level: int
    var lastEnergyUpdate: int
    var gamesPlayed: int
    var gamesWon: int
    var totalWinnings: int

    /** `get()`: the current state as a value. */
    function Get(): User
      reads this
    {
      User(id, coins, energy, maxEnergy, xp, level, lastEnergyUpdate, gamesPlayed, gamesWon, totalWinnings)
    }

    ghost predicate Valid()
      reads this
    {
      ValidUser(Get())
    }

    /** The store created from `INITIAL_USER` at clock reading `now`. */
    constructor (now: int)
      ensures Get() == InitialUser(now) && Valid()
    {
      var u := InitialUser(now);
      id, coins, energy, maxEnergy, xp := u.id, u.coins, u.energy, u.maxEnergy, u.xp;
      level, lastEnergyUpdate, gamesPlayed, gamesWon, totalWinnings :=
        u.level, u.lastEnergyUpdate, u.gamesPlayed, u.gamesWon, u.totalWinnings;
    }

    /** `initUser`: the same regeneration step as `updateEnergy`, run when the app starts. */
    method InitUser(now: int)
      modifies this
      ensures Get() == Regenerated(old(Get()), now)
      ensures old(Valid()) && old(lastEnergyUpdate) <= now ==> Valid()
    {
      UpdateEnergy(now);
    }

    method UpdateCoins(amount: int)
      modifies this
      ensures Get() == CoinsUpdated(old(Get()), amount)
      ensures old(Valid()) ==> Valid()
    {
      coins := if 0 < coins + amount then coins + amount else 0;
    }

    method UpdateEnergy(now: int)
      modifies this
      ensures Get() == Regenerated(old(Get()), now)
      ensures old(Valid()) && old(lastEnergyUpdate) <= now ==> Valid()
    {
      var newEnergy := EnergySystem.CalculateEnergyRegeneration(energy, maxEnergy, lastEnergyUpdate, now);
      if newEnergy != energy {
        energy, lastEnergyUpdate := newEnergy, now;
      }
    }

    /** Reads the state, runs `updateEnergy`, then writes the decrement of
        what it read. */
    method ConsumeEnergy(now: int) returns (ok: bool)
      modifies this
      ensures (Get(), ok) == ConsumedEnergy(old(Get()), now)
      ensures old(Valid()) && old(lastEnergyUpdate) <= now ==> Valid()
    {
      var state := Get();
      UpdateEnergy(now);
      if state.energy > 0 {
        energy, lastEnergyUpdate := state.energy - 1, now;
        ok := true;
      } else {
        ok := false;
      }
    }

    method AddEnergy(amount: int, now: int)
      modifies this
      ensures Get() == EnergyAdded(old(Get()), amount, now)
      ensures old(Valid()) && amount >= 0 ==> Valid()
    {
      energy := if maxEnergy < energy + amount then maxEnergy else energy + amount;
      lastEnergyUpdate := now;
    }

    method ProcessGameResult(result: GameResult, betAmount: int)
      modifies this
      ensures Get() == GameResultApplied(old(Get()), result, betAmount)
      ensures old(Valid()) && result.xpGained >= 0 ==> Valid()
    {
      ghost var v := GameResultApplied(Get(), result, betAmount);
      var newXp := xp + result.xpGained;
      var newLevel := LevelSystem.GetLevelFromXp(newXp);
      var leveledUp := newLevel > level;
      var levelUpBonus := if leveledUp then 100 * newLevel else 0;
      coins := coins - betAmount + result.winAmount + levelUpBonus;
      xp := newXp;
      level := newLevel;
      gamesPlayed := gamesPlayed + 1;
      gamesWon := gamesWon + (if result.won then 1 else 0);
      totalWinnings := totalWinnings + result.winAmount;
      assert Get() == User(v.id, v.coins, v.energy, v.maxEnergy, v.xp, v.level,
                           v.lastEnergyUpdate, v.gamesPlayed, v.gamesWon, v.totalWinnings);
    }

    /** `canAffordBet`: the coins cover the amount. */
    method CanAffordBet(amount: int) returns (b: bool)
      ensures b <==> coins >= amount
    {
      b := coins >= amount;
    }

    /** `hasEnergy`: update the energy, then report whether any is left. */
    method HasEnergy(now: int) returns (b: bool)
      modifies this
      ensures Get() == Regenerated(old(Get()), now)
      ensures b <==> energy > 0
      ensures old(Valid()) && old(lastEnergyUpdate) <= now ==> Valid()
    {
      UpdateEnergy(now);
      b := energy > 0;
    }

    method AddCoinsFromAd()
      modifies this
      ensures Get() == AdCoinsAdded(old(Get()))
      ensures old(Valid()) ==> Valid()
    {
      coins := coins + 50;
    }

    method AddEnergyFromAd(now: int)
      modifies this
      ensures Get() == EnergyAdded(old(Get()), 1, now)
      ensures old(Valid()) ==> Valid()
    {
      energy := if maxEnergy < energy + 1 then maxEnergy else energy + 1;
      lastEnergyUpdate := now;
    }
  }
}
