# Prediction Master engine, modelled in Dafny

This project models the engine of a Telegram mini-app casino, "Prediction Master". In it a player bets coins on a card colour, a dice range or a number. Each round costs one unit of energy. Energy regenerates with time. Playing earns XP, and XP raises the player's level, which unlocks the dearer games.

The model covers these parts of the engine:

- **Progression** (`LevelSystem`):
  - the XP curve `floor(100 * 1.5^(level-1))`;
  - the XP-to-level loop;
  - the progress within a level;
  - the unlock test.
- **Energy** (`EnergySystem`):
  - one unit per 30 minutes up to the cap;
  - the countdown to the next unit;
  - its `m:ss` display.
- **Outcomes** (`Rng`, `GameLogic`):
  - the mapping from a 32-bit random word to an integer in a range, a card colour or a die face;
  - the low/middle/high buckets;
  - the hex seed;
  - the three round resolvers.
- **Stores** (`UserStore`, `GameStore`):
  - the player aggregate as a class whose methods update its fields in place;
  - the game catalogue with its lookup, and the selection state with its setters.
- **A round** (`Round`): the order in which a game screen calls the player store.

The JavaScript built-ins the engine relies on are modelled in `JsBuiltins`:

- the remainder `%`, which takes the sign of the dividend;
- `toString(radix)` on integers;
- `padStart`.

`Arithmetic` holds division lemmas. `Types` holds the records and enumerations.

## Modelling choices

- **Time.** `Date.now()` is the parameter `now`.
- **Randomness.**
  - The word `crypto.getRandomValues` writes into a one-element `Uint32Array` is the parameter `word`.
  - The sixteen bytes it writes for a seed are the parameter `bytes`.
  - `getSecureRandom` is `word / 2^32`, exactly.
  - `getRandomInt(min, max)` is therefore `min + (word * (max - min + 1)) div 2^32`.
  - "Red" is `word < 2^31`.
- **`Math.pow` in `getXPForLevel`** is modelled in integers.
  - For levels from 1 it is `(100 * 3^k) div 2^k` with `k = level - 1`.
  - For lower levels it is `(100 * 2^k) div 3^k` with `k = 1 - level`.
  - `LevelSystem.XpForLevelIsFloor` proves this equals the floor of `100 * 1.5^(level-1)` computed over the reals.
- **Resolvers.** Each resolver is separated into the round once the outcome is drawn (`CardRound`, `DiceRound`, `NumberRound`) and the draw itself (`PlayCardGame` and the others). This lets payouts be summed over every outcome.
- **Player store.**
  - Each action of the store is a pure transition on the `User` value: `Regenerated`, `ConsumedEnergy`, `GameResultApplied` and the others.
  - The class `UserStore.Store` holds the same fields. Each method updates them in place and states its new state `Get()` as that transition of the old one.
  - `consumeEnergy` is modelled as written. It reads the state, runs `updateEnergy`, then writes the decrement of what it read. So energy credited by that update is overwritten, and the call fails when the earlier reading was 0 (`StaleSnapshotExamples`).
  - `processGameResult` is modelled as written: it does not clamp coins. Only `updateCoins` clamps. `UnaffordableBetOverdraws` shows coins going below zero without the affordability check, and `AffordableBetKeepsCoins` shows they cannot with it.
- **Clock order.**
  - When the clock reads earlier than the energy anchor, regeneration credits a negative number of units and can drive energy below zero, as the code would.
  - The store methods therefore promise to keep `Valid()` (level matches XP, energy within `0..maxEnergy`, wins at most games played) only when `now` is not before the anchor. They do not require it of their callers.
- **One clock reading per round.** `Round.PlayRound` uses a single `now` for its `hasEnergy` and `consumeEnergy` calls, which are made in one synchronous handler.

## Model

| member | source | states |
|---|---|---|
| LevelSystem.XpForLevel | src/utils/levelSystem.ts:10-12 | the requirement is a natural number, at least 100 from level 1 on |
| LevelSystem.XpForLevelIsFloor | src/utils/levelSystem.ts:10-12 | the integer formula equals the floor of 100 * 1.5^(level-1) over the reals, at every level |
| LevelSystem.XpForLevelGrowth | src/utils/levelSystem.ts:10-12 | from level 1 on, each level requires at least 50 XP more than the one before |
| LevelSystem.XpForLevelIncreasing | src/utils/levelSystem.ts:10-12 | the per-level requirement is strictly increasing from level 1 |
| LevelSystem.CumulativeXpIncreasing | src/utils/levelSystem.ts:18-21 | the running total the loops add up is strictly increasing, so every loop iteration makes progress |
| LevelSystem.LevelSearch | src/utils/levelSystem.ts:18-21 | the loop run from any reachable state stops at the first level whose cumulative requirement exceeds xp |
| LevelSystem.LevelFromXp | src/utils/levelSystem.ts:14-24 | the level is at least 1, xp is below the cumulative requirement of the level, and above a level 1 xp is at least that of the level below |
| LevelSystem.GetLevelFromXp | src/utils/levelSystem.ts:14-24 | the while loop returns LevelFromXp(xp): a level of at least 1 with CumulativeXp(level-1) <= xp < CumulativeXp(level) for xp >= 0 |
| LevelSystem.LevelFromXpUnique | src/utils/levelSystem.ts:14-24 | any level whose bracket holds xp is the level the loop computes |
| LevelSystem.LevelFromXpZero | src/utils/levelSystem.ts:14-24 | 0 XP is level 1 |
| LevelSystem.LevelFromXpMonotone | src/utils/levelSystem.ts:14-24 | more XP never gives a lower level |
| LevelSystem.LevelAtLeast | src/utils/levelSystem.ts:14-24 | for xp >= 0, the level reaches n exactly when xp reaches the total requirement of levels 1..n-1 |
| LevelSystem.GetXpProgress | src/utils/levelSystem.ts:26-33 | current is xp minus the requirements of the levels below, required is the level's own, and 0 <= current < required when the level is the one xp gives |
| LevelSystem.IsGameUnlocked | src/utils/levelSystem.ts:43-45 | a game with unlock level 1 or lower is open to every player of level 1 or more |
| LevelSystem.UnlockedIffXpReaches | src/utils/levelSystem.ts:43-45 | for xp >= 0, a game with unlock level n is open exactly when xp reaches the total requirement of levels 1..n-1 |
| LevelSystem.UnlockIsPermanent | src/utils/levelSystem.ts:43-45 | a game unlocked at some XP stays unlocked at any higher XP |
| LevelSystem.ProgressionExamples | src/utils/levelSystem.ts:10-24 | the curve gives 100, 150 and 225 for levels 1 to 3, and 0 XP is level 1 |
| LevelSystem.NewPlayerProgress | src/utils/levelSystem.ts:26-33 | the progress loop run for a fresh player (0 XP, level 1) gives 0 of 100 |
| EnergySystem.CalculateEnergyRegeneration | src/utils/energySystem.ts:7-21 | at or above the cap the energy is unchanged; below it the result is at most the cap and is the energy plus the number of whole 30-minute periods elapsed, or the cap |
| EnergySystem.RegenerationBounds | src/utils/energySystem.ts:16-20 | below the cap and with the clock not behind the anchor, the result lies between the energy and the cap |
| EnergySystem.RegenerationWithinPeriodIsIdentity | src/utils/energySystem.ts:17-20 | less than one period after the anchor (zero included) nothing is credited |
| EnergySystem.GetTimeUntilNextEnergy | src/utils/energySystem.ts:23-29 | with the clock not behind the anchor the countdown lies in (0, 30 min] and ends at the next period boundary; behind it, in [30 min, 60 min) |
| EnergySystem.NextUnitArrivesWhenCountdownEnds | src/utils/energySystem.ts:17-26 | waiting less than the countdown credits nothing more, and waiting exactly the countdown credits one more unit up to the cap |
| EnergySystem.EnergyExamples | src/utils/energySystem.ts:5-26 | energy 2 of 5 is 3 after 30 minutes and 5 after 95, and 10 minutes into a period 1,200,000 ms remain |
| EnergySystem.FormatTime | src/utils/energySystem.ts:31-36 | for ms >= 0 the text is the minutes, a colon and exactly two decimal digits of a seconds value below 60 |
| EnergySystem.FormatTimeReadsBack | src/utils/energySystem.ts:31-36 | the text has a colon before two digits, and minutes * 60 plus the seconds field read back is ms div 1000 |
| JsBuiltins.Remainder | src/utils/energySystem.ts:26 | `%` with a positive divisor: Dafny's remainder for a non-negative dividend, its negation on the absolute value for a negative one |
| JsBuiltins.NatToStringDigits | src/utils/energySystem.ts:35 | `toString(radix)` writes at least one digit of the radix, no leading zero except for 0, and reads back as the number |
| JsBuiltins.IntToString | src/utils/energySystem.ts:35 | an integer's text is non-empty and reads back as the integer |
| JsBuiltins.IntToStringInjective | src/utils/gameLogic.ts:52-53 | two integers have the same text exactly when they are equal |
| JsBuiltins.PadStartShape | src/utils/energySystem.ts:35 | `padStart` keeps the text as its suffix, fills the front with the filler and reaches the target length |
| JsBuiltins.TwoDecimalDigits | src/utils/energySystem.ts:35 | a number below 100 padded to two characters is its two decimal digits |
| JsBuiltins.TwoHexDigits | src/utils/rng.ts:39 | a byte in hex padded to two characters is its two hex digits |
| Rng.SecureRandom | src/utils/rng.ts:6-10 | the word over 2^32 lies in [0, 1) |
| Rng.GetRandomInt | src/utils/rng.ts:12-15 | the result is min + (word * (max - min + 1)) div 2^32, and lies in [min, max] when min <= max |
| Rng.GetRandomCardColor | src/utils/rng.ts:17-19 | red exactly when the word is below 2^31 |
| Rng.GetRandomDiceValue | src/utils/rng.ts:21-23 | a face from 1 to 6 |
| Rng.GetDiceRange | src/utils/rng.ts:25-29 | low exactly for values up to 2, middle exactly for 3 and 4, high exactly above 4 |
| Rng.EachRangeCoversTwoFaces | src/utils/rng.ts:25-29 | each bucket covers exactly two of the six faces |
| Rng.GetRandomNumber | src/utils/rng.ts:31-33 | the same value as getRandomInt, so within [min, max] |
| Rng.ByteToHex | src/utils/rng.ts:39 | a byte's text is its high and its low hex digit |
| Rng.HexJoin | src/utils/rng.ts:39 | the joined text has two characters per byte |
| Rng.HexJoinAt | src/utils/rng.ts:39 | characters 2i and 2i+1 of the joined text are the hex digits of byte i |
| Rng.HexJoinDigits | src/utils/rng.ts:39 | every character of the joined text is a lower-case hex digit |
| Rng.HexJoinRoundTrip | src/utils/rng.ts:39 | decoding the joined text two characters at a time gives the bytes back |
| Rng.GenerateSeed | src/utils/rng.ts:36-40 | 32 lower-case hex digits, byte i at characters 2i and 2i+1, decoding back to the 16 bytes |
| GameLogic.DiceMultiplier | src/utils/gameLogic.ts:26-30 | a middle prediction pays twice the bet, a low or high one three times |
| GameLogic.CardRound | src/utils/gameLogic.ts:5-18 | won exactly when the colours agree and exactly when the two texts agree; pays 2 * bet on a win and 0 otherwise; 15 XP on a win and 10 otherwise |
| GameLogic.DiceRound | src/utils/gameLogic.ts:20-42 | won exactly when the face's range is the prediction and exactly when the texts agree; both texts carry the face; pays the prediction's multiplier times the bet on a win; 15 or 10 XP |
| GameLogic.NumberRound | src/utils/gameLogic.ts:44-57 | won exactly when the numbers agree and exactly when their texts agree; pays 10 * bet on a win; 15 or 10 XP |
| GameLogic.PlayCardGame | src/utils/gameLogic.ts:5-18 | the round is won exactly when red was predicted iff the word is below 2^31; the texts are the predicted colour's name and the drawn colour's name; payout and XP as for the drawn colour |
| GameLogic.PlayDiceGame | src/utils/gameLogic.ts:20-42 | the face drawn lies in 1..6, decides the round and appears in both texts; payout and XP as for that face |
| GameLogic.PlayNumberGame | src/utils/gameLogic.ts:44-57 | the number drawn lies in 1..10 and decides the round; the texts are the two numbers; payout and XP as for that number |
| GameLogic.DiceTextDistinguishesRanges | src/utils/gameLogic.ts:36-38 | the texts of different ranges differ whatever faces they carry |
| GameLogic.DiceTextDeterminesFace | src/utils/gameLogic.ts:36-38 | equal dice texts have the same range and the same face |
| GameLogic.DicePayoutOverAllFaces | src/utils/gameLogic.ts:26-32 | over the six faces a middle prediction pays 4 * bet in total and a low or high one 6 * bet |
| GameLogic.CardPayoutOverAllColors | src/utils/gameLogic.ts:6-8 | over the two colours a prediction pays 2 * bet in total |
| GameLogic.NumberPayoutCount | src/utils/gameLogic.ts:45-47 | over the numbers 1..n a prediction among them is paid 10 * bet once, any other never |
| GameLogic.NumberPayoutOverAllNumbers | src/utils/gameLogic.ts:45-47 | over 1..10 a prediction in range is paid 10 * bet in total, and a prediction outside 1..10 never wins |
| GameLogic.PayoutBounds | src/utils/gameLogic.ts:5-57 | on a non-negative bet every payout is non-negative and at most the multiplier times the bet |
| GameLogic.RoundExamples | src/utils/gameLogic.ts:5-57 | red with bet 100 on a low word pays 200 and 15 XP; low 60 pays 180 and middle 60 pays 120; number 7 with bet 50 pays 500 |
| GameStore.GameConfigs | src/store/gameStore.ts:17-45 | the catalogue: card (multiplier 2, minimum bet 10, unlock level 1), dice (3, 20, 3) and number (10, 50, 5), in that order, with their names, icons and descriptions |
| GameStore.ConfigOf | src/store/gameStore.ts:17-45 | the entry chosen for a game belongs to the catalogue and carries that game's id |
| GameStore.FindConfig | src/store/gameStore.ts:62-64 | `find` returns nothing exactly when no entry has the id, and otherwise an entry of the list with that id |
| GameStore.FindConfigIsFirst | src/store/gameStore.ts:62-64 | the entry found is the first one with the id |
| GameStore.CatalogueCoversEveryGame | src/store/gameStore.ts:17-45 | the catalogue ids are distinct and the lookup finds the entry of every game |
| GameStore.UnlockThresholds | src/store/gameStore.ts:17-45 | the card game is open from the start, the dice game exactly from 250 XP and the number game exactly from 812 XP |
| GameStore.NewPlayerUnlocks | src/store/gameStore.ts:17-26 | with no XP only the card game is unlocked |
| GameStore.PayoutWithinAdvertisedMultiplier | src/store/gameStore.ts:17-45 | no round pays more than the catalogue multiplier times a non-negative bet |
| GameStore.Store.constructor | src/store/gameStore.ts:47-52 | no game selected, bet 10, not playing, no result shown, the catalogue as configured |
| GameStore.Store.SetCurrentGame | src/store/gameStore.ts:54 | sets the selected game and changes no other field |
| GameStore.Store.SetBetAmount | src/store/gameStore.ts:56 | sets the bet and changes no other field |
| GameStore.Store.SetIsPlaying | src/store/gameStore.ts:58 | sets the playing flag and changes no other field |
| GameStore.Store.SetShowResult | src/store/gameStore.ts:60 | sets the result flag and changes no other field |
| GameStore.Store.GetGameConfig | src/store/gameStore.ts:62-64 | nothing exactly when no catalogue entry has the id, otherwise a catalogue entry with that id |
| UserStore.ValidUser | src/store/userStore.ts:99-117 | a consistent player has a level of at least 1 whose cumulative bracket holds their XP |
| UserStore.InitialUser | src/store/userStore.ts:20-31 | 1000 coins, 5 of 5 energy, 0 XP, anchored at now, and consistent |
| UserStore.Regenerated | src/store/userStore.ts:62-76 | only energy and anchor change; the energy is the regenerated value; the anchor moves to now exactly when the energy changes; otherwise nothing changes; consistency is kept and energy never drops when the clock is not behind |
| UserStore.RegeneratedIsIdempotent | src/store/userStore.ts:62-76 | two updates at the same clock reading are one |
| UserStore.RegenerationRestartsThePeriod | src/store/userStore.ts:70-74 | moving the anchor discards the part of a period already waited: 3 of 5 updated after 45 minutes is 4, and still 4 at 60 minutes, where one update would have given 5 |
| UserStore.ConsumedEnergy | src/store/userStore.ts:78-90 | succeeds exactly when the energy read before the update is positive, then writes that reading minus 1 and moves the anchor; otherwise it leaves the update's state; consistency is kept |
| UserStore.ConsumeAfterRefreshLosesNothing | src/store/userStore.ts:78-90 | on an up-to-date state the call takes exactly one unit off the current energy |
| UserStore.StaleSnapshotExamples | src/store/userStore.ts:79-89 | 2 of 5 an hour on refreshes to 4 yet consuming leaves 1; 0 an hour on refreshes to 2 and the call fails |
| UserStore.CoinsUpdated | src/store/userStore.ts:56-60 | only the coins change, to coins + amount when that is non-negative and to 0 otherwise |
| UserStore.EnergyAdded | src/store/userStore.ts:92-97 | only energy and anchor change; the energy is the smaller of energy + amount and the cap; for amount >= 0 it does not drop and consistency is kept |
| UserStore.AdCoinsAdded | src/store/userStore.ts:128-132 | exactly 50 coins more and nothing else, keeping consistency |
| UserStore.GameResultApplied | src/store/userStore.ts:99-117 | xp grows by the XP gained and the level is the one the new XP gives; coins change by win - bet plus 100 * new level on a level-up, unclamped; counters advance; energy, cap, anchor and id are untouched; consistency is kept |
| UserStore.LevelUpIff | src/store/userStore.ts:101-106 | the level rises exactly when the new XP reaches the cumulative requirement of the current level |
| UserStore.AffordableBetKeepsCoins | src/store/userStore.ts:99-121 | a bet within the coins and a non-negative payout keep the coins non-negative |
| UserStore.UnaffordableBetOverdraws | src/store/userStore.ts:109 | 10 coins and a lost bet of 50 leave -40 coins |
| UserStore.ProcessGameResultExample | src/store/userStore.ts:99-117 | 1000 coins, 95 XP, a won bet of 50 paying 100 with 15 XP give 110 XP, level 2 and 1250 coins |
| UserStore.Store.constructor | src/store/userStore.ts:20-36 | the fields hold the initial user and are consistent |
| UserStore.Store.InitUser | src/store/userStore.ts:38-54 | the new state is the regeneration of the old one; consistency is kept when the clock is not behind |
| UserStore.Store.UpdateCoins | src/store/userStore.ts:56-60 | the new state is the clamped coin update of the old one |
| UserStore.Store.UpdateEnergy | src/store/userStore.ts:62-76 | the new state is the regeneration of the old one; consistency is kept when the clock is not behind |
| UserStore.Store.ConsumeEnergy | src/store/userStore.ts:78-90 | new state and result are ConsumedEnergy of the old state: the decrement of the reading taken before the update |
| UserStore.Store.AddEnergy | src/store/userStore.ts:92-97 | the new state is the capped addition; consistency is kept for amount >= 0 |
| UserStore.Store.ProcessGameResult | src/store/userStore.ts:99-117 | the new state is GameResultApplied of the old one; consistency is kept for non-negative XP |
| UserStore.Store.CanAffordBet | src/store/userStore.ts:119-121 | true exactly when the coins cover the amount |
| UserStore.Store.HasEnergy | src/store/userStore.ts:123-126 | the state is regenerated, and the answer is whether the regenerated energy is positive |
| UserStore.Store.AddCoinsFromAd | src/store/userStore.ts:128-132 | 50 coins more, nothing else |
| UserStore.Store.AddEnergyFromAd | src/store/userStore.ts:134-139 | one unit more up to the cap and the anchor at now; consistency is kept |
| Round.Resolve | src/components/game/CardGame.tsx:70 | the resolver of the chosen screen: won exactly when the two texts agree, 15 or 10 XP, nothing paid on a loss |
| Round.RoundApplied | src/components/game/CardGame.tsx:56-75 | with no selection nothing changes; otherwise the round is played exactly when the regenerated state has energy and covers the bet; an unplayed round leaves the regenerated state; a played one leaves the result of the chosen resolver applied by processGameResult to the regenerated state less one unit of energy, anchored at now; consistency and non-negative coins are kept for a non-negative bet |
| Round.PlayedResultBounds | src/utils/gameLogic.ts:5-57 | every round earns at least 10 XP and, on a non-negative bet, a non-negative payout |
| Round.PlayRound | src/components/game/CardGame.tsx:56-75 | the store's new state and the result are RoundApplied of the old state |

## Left out

- Persistence: the `persist` middleware and its local-storage copy of the player store are I/O. The store is an in-memory object.
- The clock and the entropy source. `Date.now()` is the parameter `now`. `crypto.getRandomValues` is the parameters `word` and `bytes`.
- LevelSystem.GetXpProgress: the floating-point `percentage` field is not modelled; only `current` and `required` are.
- LevelSystem.XpForLevel: `Math.pow` and `Math.floor` on doubles are modelled as exact arithmetic. This agrees with the doubles while the power is computed exactly, which holds for realistic levels (up to about 30).
- Rng.GetRandomInt: `u * span` is modelled as an exact product. Doubles round it only when `word * span` exceeds 2^53, that is for spans above 2^21. The engine's spans are 6 and 10.
- Numbers are unbounded integers. Double-precision limits on coins, XP and timestamps are not modelled.
- The React screens, their timers and animations, the confetti and the dice "rolling" display. Only the call order of one round into the player store is modelled (`Round.PlayRound`).
- The selected game and bet of a screen are parameters of `Round.PlayRound`.
- Round.PlayRound: the separate clock readings taken by `hasEnergy` and `consumeEnergy` are modelled as a single reading.
- The comment next to the dice multipliers that gives the middle range a 3/6 chance. `getDiceRange` gives it two faces of six (`Rng.EachRangeCoversTwoFaces`), and the multipliers are kept as written.
- The catalogue's `minBet` is only displayed. No round checks it, so the model does not either.
- The host integration (Telegram web app), the translations, the affiliate banner and the styling configuration.
