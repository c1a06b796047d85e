/** The quota pool and governor (`backend/quota/ledger.py`, `backend/quota/governor.py`). Dates are day numbers. */
module Quota {

  datatype QuotaConfig = QuotaConfig(monthlyBudget: int, servingReserveFraction: real, trancheCount: int) {
    /** What construction accepts. */
    predicate Valid() {
      0.0 <= servingReserveFraction < 1.0 && monthlyBudget > 0 && trancheCount > 0
    }

    function IndexingBudget(): int { (monthlyBudget as real * (1.0 - servingReserveFraction)).Floor }

    function ServingReserve(): int { monthlyBudget - IndexingBudget() }

    function WeeklyTranche(): int
      requires Valid()
    {
      IndexingBudget() / trancheCount
    }

    function WeekIndex(periodStart: int, today: int): int {
      var days := today - periodStart;
      if days < 0 then 0 else if days / 7 < trancheCount - 1 then days / 7 else trancheCount - 1
    }

    /** Indexing tokens unlocked so far: one tranche for every week up to and including this one. */
    function Allowance(periodStart: int, today: int): int
      requires Valid()
    {
      WeeklyTranche() * (WeekIndex(periodStart, today) + 1)
    }

    function Available(periodStart: int, spent: int, today: int): int
      requires Valid()
    {
      if Allowance(periodStart, today) - spent < 0 then 0 else Allowance(periodStart, today) - spent
    }
  }

  /** The two budgets share the month; neither is negative. */
  lemma BudgetsSplitMonth(c: QuotaConfig)
    requires c.Valid()
    ensures 0 <= c.IndexingBudget() <= c.monthlyBudget
    ensures c.IndexingBudget() + c.ServingReserve() == c.monthlyBudget
  {
    ShareIsWithin(c.monthlyBudget as real, 1.0 - c.servingReserveFraction);
  }

  lemma ProductIsNonNegative(a: real, b: real)
    requires a >= 0.0 && b >= 0.0
    ensures a * b >= 0.0
  {}

  lemma ShareIsWithin(whole: real, part: real)
    requires whole >= 0.0 && 0.0 <= part <= 1.0
    ensures 0.0 <= whole * part <= whole
  {
    ProductIsNonNegative(whole, part);
    ProductIsNonNegative(whole, 1.0 - part);
    assert whole * (1.0 - part) == whole - whole * part;
  }

  /** The indexing budget is the share of the month that is not reserved, rounded down, and so are its tranches. */
  lemma BudgetIsUnreservedShare(c: QuotaConfig)
    requires c.Valid()
    ensures var share := c.monthlyBudget as real - c.monthlyBudget as real * c.servingReserveFraction;
            c.IndexingBudget() as real <= share < c.IndexingBudget() as real + 1.0
    ensures c.WeeklyTranche() * c.trancheCount <= c.IndexingBudget() < (c.WeeklyTranche() + 1) * c.trancheCount
  {
    var month, kept := c.monthlyBudget as real, c.servingReserveFraction;
    assert month * (1.0 - kept) == month - month * kept;
    DivisionBounds(c.IndexingBudget(), c.trancheCount);
  }

  lemma DivisionBounds(x: int, n: int)
    requires n > 0
    ensures x / n * n <= x < (x / n + 1) * n
  {
    assert x == x / n * n + x % n;
  }

  /** On any day of the k-th week, counted from 0, k + 1 tranches are unlocked; one before the period begins, and all
      of them after its last week. */
  lemma TranchesUnlockByWeek(c: QuotaConfig, periodStart: int, k: int, day: int)
    requires c.Valid() && 0 <= day < 7
    ensures var today := periodStart + 7 * k + day;
            c.Allowance(periodStart, today)
            == c.WeeklyTranche() * (if k < 0 then 1 else if k < c.trancheCount then k + 1 else c.trancheCount)
  {
    if k >= 0 {
      assert (7 * k + day) / 7 == k;
    }
  }

  /** What is available and what is spent are together what is unlocked; once overspent, nothing is available. */
  lemma AvailableIsUnspent(c: QuotaConfig, periodStart: int, spent: int, today: int)
    requires c.Valid()
    ensures spent <= c.Allowance(periodStart, today) ==>
              c.Available(periodStart, spent, today) + spent == c.Allowance(periodStart, today)
    ensures spent >= c.Allowance(periodStart, today) ==> c.Available(periodStart, spent, today) == 0
  {}

  /** Unlocked tranches only grow with time and never exceed the indexing budget. */
  lemma AllowanceGrowsWithinBudget(c: QuotaConfig, periodStart: int, today: int, later: int)
    requires c.Valid() && today <= later
    ensures 0 <= c.Allowance(periodStart, today) <= c.Allowance(periodStart, later) <= c.IndexingBudget()
  {
    BudgetsSplitMonth(c);
    var tranche, a, b := c.WeeklyTranche(), c.WeekIndex(periodStart, today) + 1, c.WeekIndex(periodStart, later) + 1;
    assert 1 <= a <= b <= c.trancheCount;
    TimesMonotone(tranche, 0, a);
    TimesMonotone(tranche, a, b);
    TimesMonotone(tranche, b, c.trancheCount);
    QuotientTimes(c.IndexingBudget(), c.trancheCount);
  }

  lemma TimesMonotone(t: int, a: int, b: int)
    requires t >= 0 && a <= b
    ensures t * a <= t * b
  {}

  lemma QuotientTimes(x: int, n: int)
    requires x >= 0 && n > 0
    ensures 0 <= x / n && (x / n) * n <= x
  {}

  datatype BudgetDecision = BudgetDecision(proceed: bool, available: int)

  class QuotaPool {
    const config: QuotaConfig
    var periodStart: int
    var spentIndexing: int
    var spentServing: int

    constructor (config: QuotaConfig, periodStart: int)
      requires config.Valid()
      ensures this.config == config && this.periodStart == periodStart && spentIndexing == spentServing == 0
    {
      this.config, this.periodStart := config, periodStart;
      spentIndexing, spentServing := 0, 0;
    }

    /** Record one call's usage against the counter of its kind, and no other. */
    method Record(tokens: nat, indexing: bool)
      modifies this`spentIndexing, this`spentServing
      ensures spentIndexing == old(spentIndexing) + if indexing then tokens else 0
      ensures spentServing == old(spentServing) + if indexing then 0 else tokens
    {
      if indexing {
        spentIndexing := spentIndexing + tokens;
      } else {
        spentServing := spentServing + tokens;
      }
    }

    /** Approved exactly when the cost is no more than what the weeks begun have unlocked and left unspent. */
    function RequestIndexingBudget(cost: int, today: int): BudgetDecision
      requires config.Valid()
      reads this
    {
      var available := config.Available(periodStart, spentIndexing, today);
      BudgetDecision(cost <= available, available)
    }
  }
}
