/** The emission schedule: what the blocks may issue. */
module ChainEmission {
  import opened Arithmetic
  import opened ChainConsensus
  import opened Asert

  /** The subsidy of the blocks of an era. */
  function EraSubsidy(era: nat): nat {
    if era >= 64 then 0 else Over(INITIAL_SUBSIDY, Pow2(era))
  }

  lemma HalfOf(n: nat, p: nat)
    requires p > 0
    ensures n / (2 * p) == n / p / 2
  {
    DivDiv(n, p, 2);
  }

  lemma SevenDoublings()
    ensures Pow2(7) == 128
  {
  }

  lemma LateEra()
    ensures EraSubsidy(63) == 0
  {
    hide Pow2;
    Pow2Grows(28, 63);
    Pow2Sum(14, 14);
    Pow2Sum(7, 7);
    SevenDoublings();
    QuotientIs(INITIAL_SUBSIDY, Pow2(63), 0);
  }

  /** Every era pays half of the one before, rounded down. */
  lemma EraHalves(era: nat)
    ensures EraSubsidy(era + 1) == EraSubsidy(era) / 2
  {
    if era == 63 {
      LateEra();
    } else if era < 63 {
      HalfOf(INITIAL_SUBSIDY, Pow2(era));
    }
  }

  /** The schedule: constant through the first era, halved from each era to the next. */
  lemma SubsidyHalves(height: nat)
    requires height > 0
    ensures height <= HALVING_INTERVAL ==> Subsidy(height) == INITIAL_SUBSIDY
    ensures Subsidy(height + HALVING_INTERVAL) == Subsidy(height) / 2
  {
    EraHalves((height - 1) / HALVING_INTERVAL);
    assert (height + HALVING_INTERVAL - 1) / HALVING_INTERVAL == (height - 1) / HALVING_INTERVAL + 1;
  }

  /** What the first `n` blocks may issue. */
  ghost function Issuance(n: nat): nat {
    if n == 0 then 0 else Issuance(n - 1) + Subsidy(n)
  }

  ghost function EraSum(era: nat): nat {
    if era == 0 then 0 else EraSum(era - 1) + HALVING_INTERVAL * EraSubsidy(era - 1)
  }

  lemma InEra(era: nat, k: nat)
    requires 0 < k <= HALVING_INTERVAL
    ensures Subsidy(era * HALVING_INTERVAL + k) == EraSubsidy(era)
  {
    assert (era * HALVING_INTERVAL + k - 1) / HALVING_INTERVAL == era;
  }

  lemma {:induction false} IssuanceInEra(era: nat, k: nat)
    requires k <= HALVING_INTERVAL
    ensures Issuance(era * HALVING_INTERVAL + k) == EraSum(era) + k * EraSubsidy(era)
    decreases era, k
  {
    hide Subsidy, EraSubsidy;
    if k > 0 {
      IssuanceInEra(era, k - 1);
      InEra(era, k);
      assert k * EraSubsidy(era) == (k - 1) * EraSubsidy(era) + EraSubsidy(era);
    } else if era > 0 {
      IssuanceInEra(era - 1, HALVING_INTERVAL);
      assert (era - 1) * HALVING_INTERVAL + HALVING_INTERVAL == era * HALVING_INTERVAL;
    }
  }

  lemma NextEra(era: nat, amount: nat, sum: nat)
    requires EraSubsidy(era) == amount && EraSum(era) == sum
    ensures EraSubsidy(era + 1) == amount / 2 && EraSum(era + 1) == sum + HALVING_INTERVAL * amount
  {
    EraHalves(era);
  }

  lemma FirstEra()
    ensures EraSubsidy(0) == INITIAL_SUBSIDY && EraSum(0) == 0
  {
  }

  lemma HalfTheEras()
    ensures EraSubsidy(14) == 14_495 && EraSum(14) == 94_994_200_800_000
  {
    hide EraSubsidy, EraSum;
    FirstEra();
    NextEra(0, 237_500_000, 0);
    NextEra(1, 118_750_000, 47_500_000_000_000);
    NextEra(2, 59_375_000, 71_250_000_000_000);
    NextEra(3, 29_687_500, 83_125_000_000_000);
    NextEra(4, 14_843_750, 89_062_500_000_000);
    NextEra(5, 7_421_875, 92_031_250_000_000);
    NextEra(6, 3_710_937, 93_515_625_000_000);
    NextEra(7, 1_855_468, 94_257_812_400_000);
    NextEra(8, 927_734, 94_628_906_000_000);
    NextEra(9, 463_867, 94_814_452_800_000);
    NextEra(10, 231_933, 94_907_226_200_000);
    NextEra(11, 115_966, 94_953_612_800_000);
    NextEra(12, 57_983, 94_976_806_000_000);
    NextEra(13, 28_991, 94_988_402_600_000);
  }

  /** The twenty-eighth era is the last to pay. */
  lemma AllTheEras()
    ensures EraSubsidy(27) == 1 && EraSubsidy(28) == 0 && EraSum(28) == 94_999_997_000_000
  {
    hide EraSubsidy, EraSum;
    HalfTheEras();
    NextEra(14, 14_495, 94_994_200_800_000);
    NextEra(15, 7_247, 94_997_099_800_000);
    NextEra(16, 3_623, 94_998_549_200_000);
    NextEra(17, 1_811, 94_999_273_800_000);
    NextEra(18, 905, 94_999_636_000_000);
    NextEra(19, 452, 94_999_817_000_000);
    NextEra(20, 226, 94_999_907_400_000);
    NextEra(21, 113, 94_999_952_600_000);
    NextEra(22, 56, 94_999_975_200_000);
    NextEra(23, 28, 94_999_986_400_000);
    NextEra(24, 14, 94_999_992_000_000);
    NextEra(25, 7, 94_999_994_800_000);
    NextEra(26, 3, 94_999_996_200_000);
    NextEra(27, 1, 94_999_996_800_000);
  }

  lemma {:induction false} NothingLeft(era: nat)
    requires era >= 28
    ensures EraSubsidy(era) == 0 && EraSum(era) == 94_999_997_000_000
  {
    hide EraSubsidy, EraSum;
    if era == 28 {
      AllTheEras();
    } else {
      NothingLeft(era - 1);
      NextEra(era - 1, 0, 94_999_997_000_000);
    }
  }

  lemma {:induction false} IssuanceGrows(m: nat, n: nat)
    requires m <= n
    ensures Issuance(m) <= Issuance(n)
  {
    if m < n {
      IssuanceGrows(m, n - 1);
    }
  }

  /** The schedule issues 94,999,997,000,000 units, and all of them only after 28 eras. */
  lemma ScheduleIsExact(n: nat)
    ensures Issuance(n) <= 94_999_997_000_000
    ensures Issuance(n) == 94_999_997_000_000 <==> n >= 28 * HALVING_INTERVAL
  {
    hide EraSubsidy, EraSum, Subsidy;
    AllTheEras();
    IssuanceInEra(27, HALVING_INTERVAL);
    IssuanceInEra(27, HALVING_INTERVAL - 1);
    IssuanceInEra(28, 0);
    if n < 28 * HALVING_INTERVAL {
      IssuanceGrows(n, 27 * HALVING_INTERVAL + (HALVING_INTERVAL - 1));
    } else {
      var era := n / HALVING_INTERVAL;
      NothingLeft(era);
      IssuanceInEra(era, n % HALVING_INTERVAL);
      assert n == era * HALVING_INTERVAL + n % HALVING_INTERVAL;
    }
  }
}
