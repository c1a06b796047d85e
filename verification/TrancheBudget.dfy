/** Indexing spend never runs ahead of the unlocked tranches, in any run of the crash machine. */
module TrancheBudget {
  import opened Quota
  import opened Driver
  import opened CrashMachine
  import Pyramid

  /** No call costs more than its estimate plus `slack`, and resumptions do not go back in time. */
  ghost predicate Disciplined(c: Config, m: Machine, a: Action, slack: nat)
    requires WellPlaced(c, m)
  {
    match a
    case Go(reply) => m.phase.Calling? && reply.Answer? ==>
      reply.tokens <= c.settings.Estimate(CurrentFiles(c, m)[m.phase.k]) + slack
    case Resume(today) => today >= m.today
    case Crash => true
  }

  ghost predicate RunDisciplined(c: Config, m: Machine, actions: seq<Action>, slack: nat)
    requires c.settings.quota.Valid() && WellPlaced(c, m)
    decreases |actions|
  {
    actions == [] || (Disciplined(c, m, actions[0], slack) && (StepWellPlaced(c, m, actions[0]);
                      RunDisciplined(c, Step(c, m, actions[0]), actions[1..], slack)))
  }

  function Unlocked(c: Config, today: int): int
    requires c.settings.quota.Valid()
  {
    c.settings.quota.Allowance(c.settings.periodStart, today)
  }

  /** Spend is within the unlocked tranches up to the slack of one call; a call is only ever made
      when its estimate fits what is unlocked. */
  ghost predicate NotBorrowed(c: Config, m: Machine, slack: nat)
    requires c.settings.quota.Valid() && WellPlaced(c, m)
  {
    && m.world.spent <= Unlocked(c, m.today) + slack
    && (m.phase.Calling? ==> m.world.spent + c.settings.Estimate(CurrentFiles(c, m)[m.phase.k]) <= Unlocked(c, m.today))
  }

  lemma AdvanceNeverBorrows(c: Config, m: Machine, reply: Reply, slack: nat)
    requires c.settings.quota.Valid() && WellPlaced(c, m)
    requires NotBorrowed(c, m, slack) && Disciplined(c, m, Go(reply), slack)
    requires WellPlaced(c, Advanced(c, m, reply))
    ensures NotBorrowed(c, Advanced(c, m, reply), slack)
  {
    if m.phase.Working? && m.phase.k < |CurrentFiles(c, m)| {
      assert c.settings.Estimate(CurrentFiles(c, m)[m.phase.k]) > 0;
    }
  }

  lemma StepNeverBorrows(c: Config, m: Machine, a: Action, slack: nat)
    requires c.settings.quota.Valid() && WellPlaced(c, m)
    requires NotBorrowed(c, m, slack) && Disciplined(c, m, a, slack)
    ensures WellPlaced(c, Step(c, m, a)) && NotBorrowed(c, Step(c, m, a), slack)
  {
    StepWellPlaced(c, m, a);
    match a
    case Go(reply) => AdvanceNeverBorrows(c, m, reply, slack);
    case Crash =>
    case Resume(today) =>
      if m.today <= today {
        AllowanceGrowsWithinBudget(c.settings.quota, c.settings.periodStart, m.today, today);
      }
  }

  /** Tranches are never borrowed: over every run with any crashes, holds and resumptions, indexing
      spend exceeds the tranches unlocked so far by at most one call's overrun; so it exceeds the
      month's indexing budget, and eats into the serving reserve, by no more than that. */
  lemma {:induction false} TranchesAreNeverBorrowed(c: Config, m: Machine, actions: seq<Action>, slack: nat)
    requires c.settings.quota.Valid() && WellPlaced(c, m)
    requires NotBorrowed(c, m, slack) && RunDisciplined(c, m, actions, slack)
    ensures var n := Execute(c, m, actions);
            && NotBorrowed(c, n, slack)
            && n.world.spent <= c.settings.quota.IndexingBudget() + slack
            && c.settings.quota.monthlyBudget - n.world.spent >= c.settings.quota.ServingReserve() - slack
    decreases |actions|
  {
    if actions == [] {
      AllowanceGrowsWithinBudget(c.settings.quota, c.settings.periodStart, m.today, m.today);
    } else {
      StepNeverBorrows(c, m, actions[0], slack);
      TranchesAreNeverBorrowed(c, Step(c, m, actions[0]), actions[1..], slack);
    }
  }

  /** A unit asks for something, and its call overruns its cost by at most `slack`. */
  ghost predicate UnitWithin(g: Gateway, u: Pyramid.Unit, slack: nat) {
    u.cost > 0 && forall n :: g(u.prompt, n).Answer? ==> g(u.prompt, n).tokens <= u.cost + slack
  }

  /** The module and service tiers keep the same bound, each unit being asked for before it is called. */
  lemma {:induction false} HigherTiersNeverBorrow(t: Pyramid.TierSettings, g: Gateway, w: World,
                                                  units: seq<Pyramid.Unit>,
                                                  version: string, today: int, held: bool, slack: nat)
    requires t.base.quota.Valid() && w.spent <= t.base.quota.Allowance(t.base.periodStart, today) + slack
    requires forall i :: 0 <= i < |units| ==> UnitWithin(g, units[i], slack)
    ensures Pyramid.TreatedUnits(t, g, w, units, version, today, held).world.spent
         <= t.base.quota.Allowance(t.base.periodStart, today) + slack
    decreases |units|
  {
    if units != [] {
      var pass := Pyramid.TreatedUnit(t, g, w, units[0], version, today, held);
      assert UnitWithin(g, units[0], slack);
      if !pass.fault {
        HigherTiersNeverBorrow(t, g, pass.world, units[1..], version, today, pass.held, slack);
      }
    }
  }
}
