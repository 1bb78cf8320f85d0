/** The data model shared by the engine: the user aggregate, the result of
    one round, the catalogue entry and the finite outcome types. */
module Types {

  datatype Option<T> = None | Some(value: T)

  /** The three game variants of the catalogue. */
  datatype GameType = Card | Dice | Number

  datatype CardColor = Red | Black

  datatype DiceRange = Low | Middle | High

  /** The text of a card colour, as the string literal type spells it. */
  function CardColorName(c: CardColor): string
  {
    match c
    case Red => "red"
    case Black => "black"
  }

  /** The text of a dice range, as the string literal type spells it. */
  function DiceRangeName(r: DiceRange): string
  {
    match r
    case Low => "low"
    case Middle => "middle"
    case High => "high"
  }

  /** The player's economy and lifetime statistics. Timestamps are
      milliseconds, as `Date.now()` gives them. */
  datatype User = User(
    id: string,
    coins: int,
    energy: int,
    maxEnergy: int,
    xp: int,
    level: int,
    lastEnergyUpdate: int,
    gamesPlayed: int,
    gamesWon: int,
    totalWinnings: int)

  /** The outcome of one round, with the prediction and the drawn outcome as display text. */
  datatype GameResult = GameResult(
    won: bool,
    prediction: string,
    actual: string,
    winAmount: int,
    xpGained: int)

  /** One entry of the game catalogue. */
  datatype GameConfig = GameConfig(
    id: GameType,
    name: string,
    multiplier: int,
    minBet: int,
    unlockLevel: int,
    icon: string,
    description: string)
}
