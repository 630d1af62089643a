/**
 Emission arithmetic: the conversions between per-second, per-epoch and per-month amounts, and what
 they promise to the planners that set a rate and send the tokens meant to pay for it.
 */
module Emission {
  /** Seven days. */
  const EPOCH_SECONDS: nat := 7 * 24 * 3600
  /** Thirty days. */
  const MONTH_SECONDS: nat := 30 * 24 * 3600

  /** `BigNumber.div`: quotient truncated toward zero. */
  function TruncDiv(x: int, y: nat): int
    requires y > 0
  {
    if x >= 0 then x / y else -((-x) / y)
  }

  /** Rounding is toward zero, on either side of it. */
  lemma TruncDivBounds(x: int, y: nat)
    requires y > 0
    ensures var q := TruncDiv(x, y);
            if x >= 0 then q * y <= x < q * y + y else q * y - y < x <= q * y
  {
    if x >= 0 {
      DivBounds(x, y);
    } else {
      DivBounds(-x, y);
    }
  }

  function TokenPerSecToTokenPerEpoch(reward: int): int {
    reward * EPOCH_SECONDS
  }

  function TokenPerEpochToTokenPerSec(reward: int): int {
    TruncDiv(reward, EPOCH_SECONDS)
  }

  function TokenPerMonthToTokenPerSec(reward: int): int {
    TruncDiv(reward, MONTH_SECONDS)
  }

  /** The amount `topUpVoterForNEpoch` sends for a month's worth of `perMonth` base units. */
  function VoterTopUp(perMonth: nat, epochs: int): int {
    TruncDiv(perMonth * 7, 30) * epochs
  }

  lemma DivBounds(x: nat, y: nat)
    requires y > 0
    ensures x / y * y <= x < x / y * y + y
  {
  }

  /** `balance.div(rate).gte(t)` is exactly "the balance pays for t seconds". */
  lemma DivAtLeast(balance: nat, rate: nat, t: nat)
    requires rate > 0
    ensures balance / rate >= t <==> balance >= t * rate
  {
    DivBounds(balance, rate);
    var q := balance / rate;
    if q >= t {
      MulMono(t, q, rate);
    } else {
      MulMono(q + 1, t, rate);
    }
  }

  lemma MulMono(a: int, b: int, c: nat)
    requires a <= b
    ensures a * c <= b * c
  {
  }

  /**
   Going to a per-second rate and back never yields more than the epoch amount asked for, loses less
   than one unit per second, and the other way round nothing is lost.
   */
  lemma EpochRoundTrip(amount: nat, rate: int)
    ensures var back := TokenPerSecToTokenPerEpoch(TokenPerEpochToTokenPerSec(amount));
            back <= amount < back + 604800
    ensures TokenPerEpochToTokenPerSec(TokenPerSecToTokenPerEpoch(rate)) == rate
  {
    if rate >= 0 {
      assert rate * EPOCH_SECONDS / EPOCH_SECONDS == rate;
    } else {
      assert -rate * EPOCH_SECONDS / EPOCH_SECONDS == -rate;
    }
  }

  /**
   `topUpVoterForNEpoch` always funds the rate that `setWomMonthlyEmissionRate` writes for the same
   monthly figure, and overshoots it by less than one unit per second of the period. Several epochs take as much
   as that many times one, which is seven thirtieths of the month, rounded down.
   */
  lemma VoterTopUpFundsMonthlyRate(perMonth: nat, epochs: nat)
    requires epochs >= 1
    ensures var rate := TokenPerMonthToTokenPerSec(perMonth);
            var period := epochs * 604800;
            period * rate <= VoterTopUp(perMonth, epochs) < period * rate + period
    ensures VoterTopUp(perMonth, epochs) == epochs * VoterTopUp(perMonth, 1)
    ensures 30 * VoterTopUp(perMonth, 1) <= 7 * perMonth < 30 * VoterTopUp(perMonth, 1) + 30
  {
    var rate := TokenPerMonthToTokenPerSec(perMonth);
    var perEpoch := TruncDiv(perMonth * 7, 30);
    assert rate * EPOCH_SECONDS <= perEpoch < rate * EPOCH_SECONDS + EPOCH_SECONDS by {
      assert rate * MONTH_SECONDS <= perMonth < (rate + 1) * MONTH_SECONDS;
      assert MONTH_SECONDS * 7 == 30 * EPOCH_SECONDS;
    }
    calc {
      epochs * EPOCH_SECONDS * rate;
      rate * EPOCH_SECONDS * epochs;
    }
    MulMono(rate * EPOCH_SECONDS, perEpoch, epochs);
    MulMono(perEpoch, rate * EPOCH_SECONDS + EPOCH_SECONDS - 1, epochs);
    assert (rate * EPOCH_SECONDS + EPOCH_SECONDS - 1) * epochs
        == rate * EPOCH_SECONDS * epochs + EPOCH_SECONDS * epochs - epochs;
  }
}
