/** The three round resolvers. Each draws its outcome from the random word,
    compares it with the prediction, and reports the win amount and the XP
    earned. The resolution itself (given the drawn outcome) is separated from
    the draw so that payouts can be summed over every outcome. */
module GameLogic {

  import opened Types
  import opened JsBuiltins
  import opened Rng
  import LevelSystem

  /** XP for one round: the base amount, plus the bonus on a win. */
  function RoundXp(won: bool): int
  {
    LevelSystem.XpPerGame + (if won then LevelSystem.XpWinBonus else 0)
  }

  /** The payout multiplier of a dice prediction. */
  function DiceMultiplier(prediction: DiceRange): (m: int)
    ensures m == 2 <==> prediction == Middle
    ensures m == 3 <==> prediction != Middle
  {
    match prediction
    case Low => 3
    case Middle => 2
    case High => 3
  }

  /** The text of one dice side of a result: the range and the face drawn. */
  function DiceText(range: DiceRange, diceValue: int): string
  {
    DiceRangeName(range) + " (dice: " + IntToString(diceValue) + ")"
  }

  /** A card round once the colour is drawn. */
  function CardRound(prediction: CardColor, betAmount: int, actual: CardColor): (r: GameResult)
    ensures r.won <==> prediction == actual
    ensures r.won <==> r.prediction == r.actual
    ensures r.prediction == CardColorName(prediction) && r.actual == CardColorName(actual)
    ensures r.winAmount == (if r.won then betAmount * 2 else 0)
    ensures r.xpGained == (if r.won then 15 else 10)
  {
    var won := prediction == actual;
    GameResult(won, CardColorName(prediction), CardColorName(actual),
               if won then betAmount * 2 else 0, RoundXp(won))
  }

  /** A dice round once the face is drawn: the face's range must match. */
  function DiceRound(prediction: DiceRange, betAmount: int, diceValue: int): (r: GameResult)
    ensures r.won <==> GetDiceRange(diceValue) == prediction
    ensures r.won <==> r.prediction == r.actual
    ensures r.prediction == DiceText(prediction, diceValue)
    ensures r.actual == DiceText(GetDiceRange(diceValue), diceValue)
    ensures r.winAmount == (if r.won then betAmount * DiceMultiplier(prediction) else 0)
    ensures r.xpGained == (if r.won then 15 else 10)
  {
    var actual := GetDiceRange(diceValue);
    var won := prediction == actual;
    DiceTextDistinguishesRanges(prediction, actual, diceValue, diceValue);
    GameResult(won, DiceText(prediction, diceValue), DiceText(actual, diceValue),
               if won then betAmount * DiceMultiplier(prediction) else 0, RoundXp(won))
  }

  /** A number round once the number is drawn. */
  function NumberRound(prediction: int, betAmount: int, actual: int): (r: GameResult)
    ensures r.won <==> prediction == actual
    ensures r.won <==> r.prediction == r.actual
    ensures r.prediction == IntToString(prediction) && r.actual == IntToString(actual)
    ensures r.winAmount == (if r.won then betAmount * 10 else 0)
    ensures r.xpGained == (if r.won then 15 else 10)
  {
    var won := prediction == actual;
    IntToStringInjective(prediction, actual);
    GameResult(won, IntToString(prediction), IntToString(actual),
               if won then betAmount * 10 else 0, RoundXp(won))
  }

  /** `playCardGame`: the colour drawn from the word decides the round. */
  function PlayCardGame(prediction: CardColor, betAmount: int, word: Uint32): (r: GameResult)
    ensures r.won <==> (prediction == Red <==> word < 0x8000_0000)
    ensures r.prediction == CardColorName(prediction) && r.actual == CardColorName(GetRandomCardColor(word))
    ensures r.won <==> r.prediction == r.actual
    ensures r.winAmount == (if r.won then betAmount * 2 else 0)
    ensures r.xpGained == (if r.won then 15 else 10)
  {
    CardRound(prediction, betAmount, GetRandomCardColor(word))
  }

  /** `playDiceGame`: the face drawn from the word decides the round; both
      texts carry the face. */
  function PlayDiceGame(prediction: DiceRange, betAmount: int, word: Uint32): (r: GameResult)
    ensures var face := GetRandomDiceValue(word);
      1 <= face <= 6 &&
      (r.won <==> GetDiceRange(face) == prediction) &&
      r.prediction == DiceText(prediction, face) &&
      r.actual == DiceText(GetDiceRange(face), face)
    ensures r.won <==> r.prediction == r.actual
    ensures r.winAmount == (if r.won then betAmount * DiceMultiplier(prediction) else 0)
    ensures r.xpGained == (if r.won then 15 else 10)
  {
    DiceRound(prediction, betAmount, GetRandomDiceValue(word))
  }

  /** `playNumberGame`: a number from 1 to 10 is drawn from the word. */
  function PlayNumberGame(prediction: int, betAmount: int, word: Uint32): (r: GameResult)
    ensures var actual := GetRandomNumber(1, 10, word);
      1 <= actual <= 10 && (r.won <==> prediction == actual) && r.actual == IntToString(actual)
    ensures r.prediction == IntToString(prediction)
    ensures r.won <==> r.prediction == r.actual
    ensures r.winAmount == (if r.won then betAmount * 10 else 0)
    ensures r.xpGained == (if r.won then 15 else 10)
  {
    NumberRound(prediction, betAmount, GetRandomNumber(1, 10, word))
  }

  /** The dice texts of different ranges differ (already in their first
      character), whatever faces they carry. */
  lemma DiceTextDistinguishesRanges(a: DiceRange, b: DiceRange, faceA: int, faceB: int)
    ensures a != b ==> DiceText(a, faceA) != DiceText(b, faceB)
  {
    assert DiceText(a, faceA)[0] == DiceRangeName(a)[0];
    assert DiceText(b, faceB)[0] == DiceRangeName(b)[0];
  }

  /** The dice text names the face: two texts that agree were drawn with the same face. */
  lemma DiceTextDeterminesFace(a: DiceRange, b: DiceRange, faceA: int, faceB: int)
    requires DiceText(a, faceA) == DiceText(b, faceB)
    ensures a == b && faceA == faceB
  {
    DiceTextDistinguishesRanges(a, b, faceA, faceB);
    var prefix := DiceRangeName(a) + " (dice: ";
    var sa, sb := IntToString(faceA), IntToString(faceB);
    assert DiceText(a, faceA) == prefix + (sa + ")");
    assert DiceText(b, faceB) == prefix + (sb + ")");
    assert sa + ")" == (prefix + (sa + ")"))[|prefix|..];
    assert sb + ")" == (prefix + (sb + ")"))[|prefix|..];
    assert sa == (sa + ")")[..|sa + ")"| - 1];
    assert sb == (sb + ")")[..|sb + ")"| - 1];
    IntToStringInjective(faceA, faceB);
  }

  /** The win amounts of the dice faces from 1 to `faces`, added up. */
  function DicePayoutTotal(prediction: DiceRange, betAmount: int, faces: nat): int
  {
    if faces == 0 then 0
    else DicePayoutTotal(prediction, betAmount, faces - 1) + DiceRound(prediction, betAmount, faces).winAmount
  }

  /** Over the six faces, a low or high prediction pays 3 * bet on two faces and
      a middle one 2 * bet on two faces: the middle bet returns two thirds of
      the stake on average, the others the whole stake. */
  lemma DicePayoutOverAllFaces(prediction: DiceRange, betAmount: int)
    ensures DicePayoutTotal(prediction, betAmount, 6) ==
            (if prediction == Middle then 4 * betAmount else 6 * betAmount)
  {
    var p, b := prediction, betAmount;
    assert DicePayoutTotal(p, b, 1) == DiceRound(p, b, 1).winAmount;
    assert DicePayoutTotal(p, b, 2) == DicePayoutTotal(p, b, 1) + DiceRound(p, b, 2).winAmount;
    assert DicePayoutTotal(p, b, 3) == DicePayoutTotal(p, b, 2) + DiceRound(p, b, 3).winAmount;
    assert DicePayoutTotal(p, b, 4) == DicePayoutTotal(p, b, 3) + DiceRound(p, b, 4).winAmount;
    assert DicePayoutTotal(p, b, 5) == DicePayoutTotal(p, b, 4) + DiceRound(p, b, 5).winAmount;
    assert DicePayoutTotal(p, b, 6) == DicePayoutTotal(p, b, 5) + DiceRound(p, b, 6).winAmount;
  }

  /** The win amounts of the card colours, added up. */
  function CardPayoutTotal(prediction: CardColor, betAmount: int): int
  {
    CardRound(prediction, betAmount, Red).winAmount + CardRound(prediction, betAmount, Black).winAmount
  }

  /** Over the two colours, a card prediction pays 2 * bet once: the stake back on average. */
  lemma CardPayoutOverAllColors(prediction: CardColor, betAmount: int)
    ensures CardPayoutTotal(prediction, betAmount) == 2 * betAmount
  {
  }

  /** The win amounts of the numbers from 1 to `count`, added up. */
  function NumberPayoutTotal(prediction: int, betAmount: int, count: nat): int
  {
    if count == 0 then 0
    else NumberPayoutTotal(prediction, betAmount, count - 1) + NumberRound(prediction, betAmount, count).winAmount
  }

  /** Over the numbers 1 to `count`, a prediction among them is paid 10 * bet
      exactly once, and any other prediction never. */
  lemma {:induction false} NumberPayoutCount(prediction: int, betAmount: int, count: nat)
    ensures NumberPayoutTotal(prediction, betAmount, count) ==
            (if 1 <= prediction <= count then 10 * betAmount else 0)
  {
    if count > 0 {
      NumberPayoutCount(prediction, betAmount, count - 1);
    }
  }

  /** Over the ten numbers, a prediction from 1 to 10 returns the stake on
      average; a prediction outside that range can never win. */
  lemma NumberPayoutOverAllNumbers(prediction: int, betAmount: int, word: Uint32)
    ensures NumberPayoutTotal(prediction, betAmount, 10) ==
            (if 1 <= prediction <= 10 then 10 * betAmount else 0)
    ensures (prediction < 1 || prediction > 10) ==> !PlayNumberGame(prediction, betAmount, word).won
  {
    NumberPayoutCount(prediction, betAmount, 10);
  }

  /** A round never pays more than the prediction's multiplier times the bet,
      pays nothing on a loss, and pays a non-negative amount on a non-negative bet. */
  lemma PayoutBounds(betAmount: int, word: Uint32, card: CardColor, dice: DiceRange, number: int)
    requires betAmount >= 0
    ensures var r := PlayCardGame(card, betAmount, word); 0 <= r.winAmount <= 2 * betAmount
    ensures var r := PlayDiceGame(dice, betAmount, word); 0 <= r.winAmount <= DiceMultiplier(dice) * betAmount
    ensures var r := PlayNumberGame(number, betAmount, word); 0 <= r.winAmount <= 10 * betAmount
  {
  }

  /** Worked rounds: red on a low word with bet 100 pays 200 and 15 XP; a
      middle dice prediction of 60 on face 3 pays 120; number 7 with bet 50 pays 500. */
  lemma RoundExamples()
    ensures PlayCardGame(Red, 100, 0).winAmount == 200 && PlayCardGame(Red, 100, 0).xpGained == 15
    ensures PlayCardGame(Black, 100, 0).winAmount == 0 && PlayCardGame(Black, 100, 0).xpGained == 10
    ensures DiceRound(Middle, 60, 3).winAmount == 120 && DiceRound(Low, 60, 1).winAmount == 180
    ensures DiceRound(Low, 60, 1).actual == "low (dice: 1)"
    ensures NumberRound(7, 50, 7).winAmount == 500 && NumberRound(7, 50, 7).actual == "7"
  {
    NatToStringOneDigit(1, 10);
    NatToStringOneDigit(7, 10);
  }
}
