/** One round as the game screens run it against the player store: with a
    prediction selected, check `hasEnergy` and `canAffordBet`, then
    `consumeEnergy`, and only when that succeeds resolve the game and apply
    the result with `processGameResult`. The screens' timers and animations
    are not part of this. */
module Round {

  import opened Types
  import Rng
  import GameLogic
  import UserStore

  /** The prediction picked on one of the three screens. */
  datatype Prediction = CardPick(color: CardColor) | DicePick(range: DiceRange) | NumberPick(number: int)

  /** The resolver the screen of the prediction calls. */
  function Resolve(prediction: Prediction, betAmount: int, word: Rng.Uint32): (r: GameResult)
    ensures r.won <==> r.prediction == r.actual
    ensures r.xpGained == (if r.won then 15 else 10)
    ensures !r.won ==> r.winAmount == 0
  {
    match prediction
    case CardPick(color) => GameLogic.PlayCardGame(color, betAmount, word)
    case DicePick(range) => GameLogic.PlayDiceGame(range, betAmount, word)
    case NumberPick(number) => GameLogic.PlayNumberGame(number, betAmount, word)
  }

  /** The round on the state value, in the order the screen calls the store:
      the new state and the result, if the round was played. */
  function RoundApplied(u: User, selection: Option<Prediction>, betAmount: int, now: int, word: Rng.Uint32)
    : (res: (User, Option<GameResult>))
    ensures selection.None? ==> res == (u, None)
    ensures var r := UserStore.Regenerated(u, now);
      res.1.Some? <==> selection.Some? && r.energy > 0 && r.coins >= betAmount
    ensures selection.Some? && res.1.None? ==> res.0 == UserStore.Regenerated(u, now)
    ensures res.1.Some? ==>
      var r := UserStore.Regenerated(u, now);
      res.1.value == Resolve(selection.value, betAmount, word) &&
      res.0 == UserStore.GameResultApplied(r.(energy := r.energy - 1, lastEnergyUpdate := now), res.1.value, betAmount)
    ensures UserStore.ValidUser(u) && u.lastEnergyUpdate <= now && betAmount >= 0 ==>
      UserStore.ValidUser(res.0) && (u.coins >= 0 ==> res.0.coins >= 0)
  {
    if selection.None? then (u, None)
    else
      var refreshed := UserStore.Regenerated(u, now);
      if !(refreshed.energy > 0) || !(refreshed.coins >= betAmount) then (refreshed, None)
      else
        var (consumed, ok) := UserStore.ConsumedEnergy(refreshed, now);
        UserStore.RegeneratedIsIdempotent(u, now);
        if !ok then (consumed, None)
        else
          var result := Resolve(selection.value, betAmount, word);
          PlayedResultBounds(selection.value, betAmount, word);
          (UserStore.GameResultApplied(consumed, result, betAmount), Some(result))
  }

  /** A played result earns at least the base XP and, on a non-negative bet,
      a non-negative payout. */
  lemma PlayedResultBounds(prediction: Prediction, betAmount: int, word: Rng.Uint32)
    ensures Resolve(prediction, betAmount, word).xpGained >= 10
    ensures betAmount >= 0 ==> Resolve(prediction, betAmount, word).winAmount >= 0
  {
    match prediction
    case CardPick(color) =>
    case DicePick(range) =>
    case NumberPick(number) =>
  }

  /** The screen's `handlePlay` against the store. */
  method PlayRound(store: UserStore.Store, selection: Option<Prediction>, betAmount: int, now: int, word: Rng.Uint32)
    returns (result: Option<GameResult>)
    modifies store
    ensures (store.Get(), result) == RoundApplied(old(store.Get()), selection, betAmount, now, word)
  {
    if selection.None? {
      result := None;
    } else {
      var hasEnergy := store.HasEnergy(now);
      var canAfford := false;
      if hasEnergy {
        canAfford := store.CanAffordBet(betAmount);
      }
      if !hasEnergy || !canAfford {
        result := None;
      } else {
        var ok := store.ConsumeEnergy(now);
        if !ok {
          result := None;
        } else {
          var gameResult := Resolve(selection.value, betAmount, word);
          store.ProcessGameResult(gameResult, betAmount);
          result := Some(gameResult);
        }
      }
    }
  }
}
