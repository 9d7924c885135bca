/**
 * The ledger's reward period: a YYYYMM integer that `rewardTopUsers`
 * advances by +1, or by +89 from a December, and the range of period IDs the
 * reward token accepts.
 */
module Periods {
  import opened LedgerTypes

  /** The last period the reward token mints for: December 2026. */
  const LastRewardPeriod: nat := 202612

  /** A YYYYMM integer whose month part is 01..12. */
  predicate IsPeriod(m: nat) {
    1 <= m % 100 <= 12
  }

  /** The period `rewardTopUsers` moves to. */
  function NextMonth(m: nat): nat {
    if m % 100 == 12 then m + 89 else m + 1
  }

  /** Months elapsed since January of year 0: the calendar meaning of a period. */
  function Ordinal(m: nat): nat
    requires IsPeriod(m)
  {
    (m / 100) * 12 + (m % 100 - 1)
  }

  /** The period of a month ordinal. */
  function PeriodOf(n: nat): nat {
    (n / 12) * 100 + n % 12 + 1
  }

  lemma PeriodOfRoundTrip(n: nat)
    ensures IsPeriod(PeriodOf(n)) && Ordinal(PeriodOf(n)) == n
  {
    var m := PeriodOf(n);
    assert m / 100 == n / 12 && m % 100 == n % 12 + 1;
  }

  lemma OrdinalRoundTrip(m: nat)
    requires IsPeriod(m)
    ensures PeriodOf(Ordinal(m)) == m
  {
    var n := Ordinal(m);
    assert n / 12 == m / 100 && n % 12 == m % 100 - 1;
  }

  /** +89 from December and +1 otherwise is exactly "the next calendar month". */
  lemma NextMonthIsSuccessor(m: nat)
    requires IsPeriod(m)
    ensures IsPeriod(NextMonth(m)) && Ordinal(NextMonth(m)) == Ordinal(m) + 1
  {
    var y, mm := m / 100, m % 100;
    assert m == 100 * y + mm;
    if mm == 12 {
      assert NextMonth(m) == 100 * (y + 1) + 1;
      assert NextMonth(m) / 100 == y + 1 && NextMonth(m) % 100 == 1;
    } else {
      assert NextMonth(m) / 100 == y && NextMonth(m) % 100 == mm + 1;
    }
  }

  /** Periods are ordered as their calendar months are. */
  lemma OrdinalMonotone(m: nat, n: nat)
    requires IsPeriod(m) && IsPeriod(n)
    ensures m <= n <==> Ordinal(m) <= Ordinal(n)
  {
    var ym, mm := m / 100, m % 100;
    var yn, mn := n / 100, n % 100;
    assert m == 100 * ym + mm && n == 100 * yn + mn;
    if ym < yn {
      assert 12 * ym + 11 < 12 * yn;
    } else if yn < ym {
      assert 12 * yn + 11 < 12 * ym;
    }
  }

  /** The IDs the reward token mints: a period from December 2023 to December 2026. */
  predicate ValidSFTID(id: nat) {
    FirstPeriod <= id <= LastRewardPeriod && IsPeriod(id)
  }

  /** The ledger's period after k reward cycles. */
  function PeriodAfter(k: nat): nat {
    if k == 0 then FirstPeriod else NextMonth(PeriodAfter(k - 1))
  }

  lemma {:induction false} PeriodAfterOrdinal(k: nat)
    ensures IsPeriod(PeriodAfter(k)) && Ordinal(PeriodAfter(k)) == Ordinal(FirstPeriod) + k
  {
    if k > 0 {
      PeriodAfterOrdinal(k - 1);
      NextMonthIsSuccessor(PeriodAfter(k - 1));
    }
  }

  /** Every period the ledger reaches is a valid token ID for the first 37 cycles and never after. */
  lemma RewardablePeriods(k: nat)
    ensures ValidSFTID(PeriodAfter(k)) <==> k <= 36
  {
    PeriodAfterOrdinal(k);
    var m := PeriodAfter(k);
    OrdinalMonotone(FirstPeriod, m);
    OrdinalMonotone(m, LastRewardPeriod);
    assert Ordinal(LastRewardPeriod) == Ordinal(FirstPeriod) + 36;
  }

  /**
   * An illustration of the ID range on the token IDs the reward token's
   * tests accept and reject; RewardablePeriods states the range for all
   * reward cycles.
   */
  lemma SFTIDExamples()
    ensures ValidSFTID(202312) && ValidSFTID(202401)
    ensures !ValidSFTID(202311) && !ValidSFTID(202313) && !ValidSFTID(202400) && !ValidSFTID(202701)
    ensures NextMonth(202312) == 202401 && NextMonth(202401) == 202402
  {
  }
}
