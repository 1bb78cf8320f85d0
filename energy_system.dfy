/** The energy economy: one unit of energy per 30 minutes up to the cap, the
    time until the next unit, and its `m:ss` display. The clock reading is
    the parameter `now` (milliseconds, like `Date.now()`). */
module EnergySystem {

  import opened JsBuiltins

  /** `ENERGY_REGEN_TIME`: 30 minutes in milliseconds. */
  const EnergyRegenTime: int := 30 * 60 * 1000

  /** `calculateEnergyRegeneration`: at or above the cap the energy is
      returned as it is; below it, one unit is credited per whole period
      since `lastUpdate` and the result is capped at `maxEnergy`. The
      credited amount is the number of whole periods (negative when the
      clock reads earlier than `lastUpdate`). */
  function CalculateEnergyRegeneration(currentEnergy: int, maxEnergy: int, lastUpdate: int, now: int): (r: int)
    ensures currentEnergy >= maxEnergy ==> r == currentEnergy
    ensures currentEnergy < maxEnergy ==> r <= maxEnergy
    ensures currentEnergy < maxEnergy && r < maxEnergy ==>
      (r - currentEnergy) * EnergyRegenTime <= now - lastUpdate < (r - currentEnergy + 1) * EnergyRegenTime
    ensures currentEnergy < maxEnergy && r == maxEnergy ==>
      (maxEnergy - currentEnergy) * EnergyRegenTime <= now - lastUpdate
  {
    if currentEnergy >= maxEnergy then currentEnergy
    else
      var timePassed := now - lastUpdate;
      var energyToAdd := timePassed / EnergyRegenTime;
      if currentEnergy + energyToAdd < maxEnergy then currentEnergy + energyToAdd else maxEnergy
  }

  /** With the clock not behind `lastUpdate`, regeneration never lowers the
      energy and never raises it past the cap. */
  lemma RegenerationBounds(currentEnergy: int, maxEnergy: int, lastUpdate: int, now: int)
    requires currentEnergy < maxEnergy && lastUpdate <= now
    ensures currentEnergy <= CalculateEnergyRegeneration(currentEnergy, maxEnergy, lastUpdate, now) <= maxEnergy
  {
  }

  /** Within one period of the anchor (including no time at all) regeneration
      credits nothing: repeated polling is idempotent. */
  lemma RegenerationWithinPeriodIsIdentity(currentEnergy: int, maxEnergy: int, lastUpdate: int, now: int)
    requires 0 <= now - lastUpdate < EnergyRegenTime
    ensures CalculateEnergyRegeneration(currentEnergy, maxEnergy, lastUpdate, now) == currentEnergy
  {
  }

  /** `getTimeUntilNextEnergy`: the time left in the current period. With the
      clock not behind the anchor it lies in (0, period] and ends exactly at
      the next multiple of the period after the anchor. */
  function GetTimeUntilNextEnergy(lastUpdate: int, now: int): (r: int)
    ensures lastUpdate <= now ==> 0 < r <= EnergyRegenTime
    ensures lastUpdate <= now ==> now - lastUpdate + r == ((now - lastUpdate) / EnergyRegenTime + 1) * EnergyRegenTime
    ensures now < lastUpdate ==> EnergyRegenTime <= r < 2 * EnergyRegenTime
  {
    var timePassed := now - lastUpdate;
    EnergyRegenTime - Remainder(timePassed, EnergyRegenTime)
  }

  /** The countdown is right: until it runs out nothing is credited, and
      when it runs out exactly one more unit is (up to the cap). */
  lemma NextUnitArrivesWhenCountdownEnds(currentEnergy: int, maxEnergy: int, lastUpdate: int, now: int, wait: int)
    requires currentEnergy < maxEnergy && lastUpdate <= now
    requires 0 <= wait <= GetTimeUntilNextEnergy(lastUpdate, now)
    ensures var before := CalculateEnergyRegeneration(currentEnergy, maxEnergy, lastUpdate, now);
            var after := CalculateEnergyRegeneration(currentEnergy, maxEnergy, lastUpdate, now + wait);
            if wait < GetTimeUntilNextEnergy(lastUpdate, now) then after == before
            else after == if before < maxEnergy then before + 1 else maxEnergy
  {
    var p := (now - lastUpdate) / EnergyRegenTime;
    var t := GetTimeUntilNextEnergy(lastUpdate, now);
    assert p * EnergyRegenTime <= now - lastUpdate;
    if wait < t {
      assert (now + wait - lastUpdate) / EnergyRegenTime == p;
    } else {
      assert (now + wait - lastUpdate) / EnergyRegenTime == p + 1;
    }
  }

  /** The documented examples: energy 2 of 5 is 3 after 30 minutes and 5
      (capped) after 95; 10 minutes into a period, 20 minutes remain. */
  lemma EnergyExamples(t: int)
    ensures CalculateEnergyRegeneration(2, 5, t, t + 30 * 60000) == 3
    ensures CalculateEnergyRegeneration(2, 5, t, t + 95 * 60000) == 5
    ensures GetTimeUntilNextEnergy(t, t + 10 * 60000) == 1200000
  {
  }

  /** `formatTime`: whole minutes, a colon, and the seconds within the
      minute padded to two characters. For non-negative input the seconds
      field is always two decimal digits below 60. */
  function FormatTime(milliseconds: int): (s: string)
    ensures milliseconds >= 0 ==>
      var seconds := (milliseconds % 60000) / 1000;
      seconds < 60 &&
      s == NatToString(milliseconds / 60000, 10) + ":" + [DigitChar(seconds / 10), DigitChar(seconds % 10)]
  {
    var minutes := milliseconds / 60000;
    var seconds := Remainder(milliseconds, 60000) / 1000;
    var text := IntToString(minutes) + ":" + PadStart(IntToString(seconds), 2, '0');
    if milliseconds >= 0 then TwoDecimalDigits(seconds); text else text
  }

  /** The display reads back as the time in whole seconds: minutes * 60 plus
      the two-digit seconds field is milliseconds div 1000. */
  lemma FormatTimeReadsBack(milliseconds: int)
    requires milliseconds >= 0
    ensures var s := FormatTime(milliseconds);
            |s| >= 4 && s[|s| - 3] == ':' &&
            IsDigitChar(s[|s| - 2], 10) && IsDigitChar(s[|s| - 1], 10) &&
            ParseNat(s[|s| - 2..], 10) < 60 &&
            ParseNat(s[..|s| - 3], 10) * 60 + ParseNat(s[|s| - 2..], 10) == milliseconds / 1000
  {
    var s := FormatTime(milliseconds);
    var minutes, seconds := milliseconds / 60000, (milliseconds % 60000) / 1000;
    var m := NatToString(minutes, 10);
    NatToStringDigits(minutes, 10);
    var tail := [DigitChar(seconds / 10), DigitChar(seconds % 10)];
    assert s == m + ":" + tail;
    assert s[..|s| - 3] == m;
    assert s[|s| - 2..] == tail;
    TwoDigitValue(seconds);
    WholeSeconds(milliseconds);
  }

  /** Two decimal digits read back as the number they write. */
  lemma TwoDigitValue(n: nat)
    requires n < 100
    ensures ParseNat([DigitChar(n / 10), DigitChar(n % 10)], 10) == n
  {
    var d1, d2 := DigitChar(n / 10), DigitChar(n % 10);
    ParseNatAppend([d1], d2, 10);
    ParseNatAppend([], d1, 10);
    assert [] + [d1] == [d1];
    assert [d1] + [d2] == [d1, d2];
  }

  /** Whole minutes times 60 plus the seconds left over is the whole seconds. */
  lemma WholeSeconds(milliseconds: nat)
    ensures milliseconds / 1000 == (milliseconds / 60000) * 60 + (milliseconds % 60000) / 1000
  {
    var q, r := milliseconds / 60000, milliseconds % 60000;
    assert milliseconds == q * 60000 + r;
    assert r / 1000 < 60;
    var t := r / 1000;
    assert r == t * 1000 + r % 1000;
    assert milliseconds == (q * 60 + t) * 1000 + r % 1000;
  }
}
