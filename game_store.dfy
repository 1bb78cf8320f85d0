/** The game-selection store: the fixed catalogue of the three games, the
    selected game and bet, and two UI flags, with plain setters and a
    catalogue lookup. */
module GameStore {

  import opened Types
  import LevelSystem
  import GameLogic
  import Rng

  /** The catalogue, in display order. */
  const GameConfigs: seq<GameConfig> := [
    GameConfig(Card, "Card Color", 2, 10, 1, "\U{1F3B4}", "Predict Red or Black"),
    GameConfig(Dice, "Dice Game", 3, 20, 3, "\U{1F3B2}", "Predict Low/Middle/High"),
    GameConfig(Number, "Number Range", 10, 50, 5, "\U{1F522}", "Guess number 1-10")
  ]

  /** `Array.prototype.find` on the catalogue: the first entry with the given id, if any. */
  function FindConfig(configs: seq<GameConfig>, game: GameType): (r: Option<GameConfig>)
    ensures r.None? <==> forall i :: 0 <= i < |configs| ==> configs[i].id != game
    ensures r.Some? ==> r.value in configs && r.value.id == game
  {
    if configs == [] then None
    else if configs[0].id == game then Some(configs[0])
    else FindConfig(configs[1..], game)
  }

  /** The entry found is the first with the id: every entry before it has another id. */
  lemma {:induction false} FindConfigIsFirst(configs: seq<GameConfig>, game: GameType, i: nat)
    requires i < |configs| && configs[i].id == game
    requires forall j :: 0 <= j < i ==> configs[j].id != game
    ensures FindConfig(configs, game) == Some(configs[i])
  {
    if i > 0 {
      assert configs[0].id != game;
      FindConfigIsFirst(configs[1..], game, i - 1);
    }
  }

  /** The catalogue entry of a game: an entry of the catalogue with that game's id. */
  function ConfigOf(game: GameType): (c: GameConfig)
    ensures c in GameConfigs && c.id == game
  {
    match game
    case Card => GameConfigs[0]
    case Dice => GameConfigs[1]
    case Number => GameConfigs[2]
  }

  /** Every game has exactly one catalogue entry, so the lookup always
      succeeds, and finds the entry of that game. */
  lemma CatalogueCoversEveryGame(game: GameType)
    ensures FindConfig(GameConfigs, game) == Some(ConfigOf(game))
    ensures forall i, j :: 0 <= i < j < |GameConfigs| ==> GameConfigs[i].id != GameConfigs[j].id
  {
    match game
    case Card => FindConfigIsFirst(GameConfigs, game, 0);
    case Dice => FindConfigIsFirst(GameConfigs, game, 1);
    case Number => FindConfigIsFirst(GameConfigs, game, 2);
  }

  /** Levels unlock the games at fixed XP: the card game from the start, the
      dice game at 250 XP (level 3) and the number game at 812 XP (level 5). */
  lemma UnlockThresholds(xp: int)
    requires xp >= 0
    ensures LevelSystem.IsGameUnlocked(ConfigOf(Card).unlockLevel, LevelSystem.LevelFromXp(xp))
    ensures LevelSystem.IsGameUnlocked(ConfigOf(Dice).unlockLevel, LevelSystem.LevelFromXp(xp)) <==> xp >= 250
    ensures LevelSystem.IsGameUnlocked(ConfigOf(Number).unlockLevel, LevelSystem.LevelFromXp(xp)) <==> xp >= 812
  {
    LevelSystem.LevelAtLeast(xp, 3);
    LevelSystem.LevelAtLeast(xp, 5);
    LevelSystem.ProgressionExamples();
    assert LevelSystem.XpForLevel(4) == 337;
    assert LevelSystem.CumulativeXp(4) == 812;
  }

  /** A player with no XP (level 1) can play the card game and nothing else. */
  lemma NewPlayerUnlocks(game: GameType)
    ensures LevelSystem.IsGameUnlocked(ConfigOf(game).unlockLevel, LevelSystem.LevelFromXp(0)) <==> game == Card
  {
    LevelSystem.LevelFromXpZero();
  }

  /** No round pays more than the catalogue multiplier times a non-negative bet. */
  lemma PayoutWithinAdvertisedMultiplier(betAmount: int, word: Rng.Uint32,
                                         card: CardColor, dice: DiceRange, number: int)
    requires betAmount >= 0
    ensures GameLogic.PlayCardGame(card, betAmount, word).winAmount <= ConfigOf(Card).multiplier * betAmount
    ensures GameLogic.PlayDiceGame(dice, betAmount, word).winAmount <= ConfigOf(Dice).multiplier * betAmount
    ensures GameLogic.PlayNumberGame(number, betAmount, word).winAmount <= ConfigOf(Number).multiplier * betAmount
  {
    GameLogic.PayoutBounds(betAmount, word, card, dice, number);
  }

  /** The store: which game is open, the bet, and the display flags. */
  class Store {
    var currentGame: Option<GameType>
    var betAmount: int
    var isPlaying: bool
    var showResult: bool
    const gameConfigs: seq<GameConfig>

    /** The initial state: no game, bet 10, not playing, no result shown. */
    constructor ()
      ensures currentGame == None && betAmount == 10 && !isPlaying && !showResult
      ensures gameConfigs == GameConfigs
    {
      currentGame := None;
      betAmount := 10;
      isPlaying := false;
      showResult := false;
      gameConfigs := GameConfigs;
    }

    method SetCurrentGame(game: Option<GameType>)
      modifies this`currentGame
      ensures currentGame == game
    {
      currentGame := game;
    }

    method SetBetAmount(amount: int)
      modifies this`betAmount
      ensures betAmount == amount
    {
      betAmount := amount;
    }

    method SetIsPlaying(playing: bool)
      modifies this`isPlaying
      ensures isPlaying == playing
    {
      isPlaying := playing;
    }

    method SetShowResult(show: bool)
      modifies this`showResult
      ensures showResult == show
    {
      showResult := show;
    }

    /** `getGameConfig`: the first catalogue entry with the id. */
    function GetGameConfig(game: GameType): (r: Option<GameConfig>)
      ensures r.None? <==> forall i :: 0 <= i < |gameConfigs| ==> gameConfigs[i].id != game
      ensures r.Some? ==> r.value in gameConfigs && r.value.id == game
    {
      FindConfig(gameConfigs, game)
    }
  }
}
