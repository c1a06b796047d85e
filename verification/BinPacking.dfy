/** First-fit-decreasing packing of services into weekly tranches (`backend/quota/governor.py`, `bin_pack`). */
module BinPacking {
  import opened Ordering

  datatype Item = Item(name: string, cost: int)

  /** Costlier first, then by name. */
  predicate Before(a: Item, b: Item) {
    if a.cost == b.cost then StringLeq(a.name, b.name) else a.cost > b.cost
  }

  lemma BeforeIsTotal()
    ensures TotalOrder(Before)
  {
    forall a: Item, b: Item
      ensures Before(a, b) || Before(b, a)
      ensures Before(a, b) && Before(b, a) ==> a == b
    {
      StringLeqTotal(a.name, b.name);
    }
    forall a: Item, b: Item, c: Item | Before(a, b) && Before(b, c) ensures Before(a, c) {
      if a.cost == b.cost == c.cost {
        StringLeqTransitive(a.name, b.name, c.name);
      }
    }
  }

  type Week = seq<Item>

  function Load(week: Week): int { if week == [] then 0 else Load(week[..|week| - 1]) + week[|week| - 1].cost }

  function Names(items: seq<Item>): seq<string> { seq(|items|, i requires 0 <= i < |items| => items[i].name) }

  datatype Packing = Packing(weeks: seq<Week>, left: seq<Item>)

  /** The first week from w on with room for the cost, or the number of weeks. */
  function FirstFit(weeks: seq<Week>, capacity: int, cost: int, w: nat): (r: nat)
    requires w <= |weeks|
    ensures w <= r <= |weeks|
    ensures r < |weeks| ==> capacity - Load(weeks[r]) >= cost
    ensures forall v :: w <= v < r ==> capacity - Load(weeks[v]) < cost
    decreases |weeks| - w
  {
    if w == |weeks| || capacity - Load(weeks[w]) >= cost then w else FirstFit(weeks, capacity, cost, w + 1)
  }

  function Place(p: Packing, capacity: int, item: Item): Packing {
    var w := FirstFit(p.weeks, capacity, item.cost, 0);
    if w < |p.weeks| then p.(weeks := p.weeks[w := p.weeks[w] + [item]]) else p.(left := p.left + [item])
  }

  function PackAll(items: seq<Item>, capacity: int, count: nat): Packing {
    if items == [] then Packing(seq(count, _ => []), [])
    else Place(PackAll(items[..|items| - 1], capacity, count), capacity, items[|items| - 1])
  }

  function Schedule(weeks: seq<Week>): seq<seq<string>> {
    seq(|weeks|, w requires 0 <= w < |weeks| => Names(weeks[w]))
  }

  /** The remaining capacity of each week. */
  ghost predicate Tracks(bins: seq<int>, weeks: seq<Week>, capacity: int) {
    |bins| == |weeks| && forall w :: 0 <= w < |bins| ==> bins[w] == capacity - Load(weeks[w])
  }

  /** Take the cost from the first week with room; the number of weeks if none has. */
  method Take(bins: array<int>, cost: int, capacity: int, ghost weeks: seq<Week>) returns (week: nat)
    requires Tracks(bins[..], weeks, capacity)
    modifies bins
    ensures week == FirstFit(weeks, capacity, cost, 0)
    ensures bins[..] == if week < |weeks| then old(bins[..])[week := old(bins[..])[week] - cost] else old(bins[..])
  {
    week := 0;
    while week < bins.Length && bins[week] < cost
      invariant 0 <= week <= bins.Length
      invariant forall v :: 0 <= v < week ==> bins[..][v] < cost
    {
      week := week + 1;
    }
    if week < bins.Length {
      bins[week] := bins[week] - cost;
    }
  }

  method PlaceItem(bins: array<int>, item: Item, capacity: int, schedule: seq<seq<string>>, unscheduled: seq<string>,
                   ghost p: Packing)
    returns (schedule': seq<seq<string>>, unscheduled': seq<string>)
    requires Tracks(bins[..], p.weeks, capacity) && schedule == Schedule(p.weeks) && unscheduled == Names(p.left)
    modifies bins
    ensures var q := Place(p, capacity, item);
            Tracks(bins[..], q.weeks, capacity) && schedule' == Schedule(q.weeks) && unscheduled' == Names(q.left)
  {
    PlacedNames(p, capacity, item);
    PlacedTracks(p, bins[..], capacity, item);
    var week := Take(bins, item.cost, capacity, p.weeks);
    if week < |schedule| {
      schedule', unscheduled' := schedule[week := schedule[week] + [item.name]], unscheduled;
    } else {
      schedule', unscheduled' := schedule, unscheduled + [item.name];
    }
  }

  lemma PackNext(items: seq<Item>, i: nat, capacity: int, count: nat)
    requires i < |items|
    ensures PackAll(items[..i + 1], capacity, count) == Place(PackAll(items[..i], capacity, count), capacity, items[i])
  {
    assert items[..i + 1][..i] == items[..i];
  }

  method BinPack(services: seq<Item>, capacity: int, count: int)
    returns (schedule: seq<seq<string>>, unscheduled: seq<string>)
    ensures var p := PackAll(Sort(services, Before), capacity, if count < 0 then 0 else count);
            schedule == Schedule(p.weeks) && unscheduled == Names(p.left)
  {
    var n := if count < 0 then 0 else count;
    var bins := new int[n](_ => capacity);
    schedule, unscheduled := seq(n, _ => []), [];
    var items := Sort(services, Before);
    ghost var p := PackAll([], capacity, n);
    for i := 0 to |items|
      invariant p == PackAll(items[..i], capacity, n) && Tracks(bins[..], p.weeks, capacity)
      invariant schedule == Schedule(p.weeks) && unscheduled == Names(p.left)
    {
      PackNext(items, i, capacity, n);
      schedule, unscheduled := PlaceItem(bins, items[i], capacity, schedule, unscheduled, p);
      p := Place(p, capacity, items[i]);
    }
    assert items[..|items|] == items;
  }

  lemma PlacedTracks(p: Packing, bins: seq<int>, capacity: int, item: Item)
    requires Tracks(bins, p.weeks, capacity)
    ensures var w := FirstFit(p.weeks, capacity, item.cost, 0);
            Tracks(if w < |p.weeks| then bins[w := bins[w] - item.cost]
                else bins, Place(p, capacity, item).weeks, capacity)
  {
    var w := FirstFit(p.weeks, capacity, item.cost, 0);
    if w < |p.weeks| {
      OneMore(p.weeks[w], item);
    }
  }

  lemma PlacedNames(p: Packing, capacity: int, item: Item)
    ensures var w := FirstFit(p.weeks, capacity, item.cost, 0);
            var q := Place(p, capacity, item);
            var schedule := Schedule(p.weeks);
            && |schedule| == |p.weeks|
            && Schedule(q.weeks) == (if w < |p.weeks| then schedule[w := schedule[w] + [item.name]] else schedule)
            && Names(q.left) == (if w < |p.weeks| then Names(p.left) else Names(p.left) + [item.name])
  {
    var w := FirstFit(p.weeks, capacity, item.cost, 0);
    if w < |p.weeks| {
      OneMore(p.weeks[w], item);
    } else {
      OneMore(p.left, item);
    }
  }

  lemma OneMore(week: Week, item: Item)
    ensures Load(week + [item]) == Load(week) + item.cost
    ensures Names(week + [item]) == Names(week) + [item.name]
  {
    assert (week + [item])[..|week|] == week;
  }

  // ----- What the packing guarantees -----

  ghost function AllIn(weeks: seq<Week>): multiset<Item> {
    if weeks == [] then multiset{} else AllIn(weeks[..|weeks| - 1]) + multiset(weeks[|weeks| - 1])
  }

  lemma {:induction false} AddTo(weeks: seq<Week>, w: nat, item: Item)
    requires w < |weeks|
    ensures AllIn(weeks[w := weeks[w] + [item]]) == AllIn(weeks) + multiset{item}
  {
    var more, rest, last := weeks[w := weeks[w] + [item]], weeks[..|weeks| - 1], weeks[|weeks| - 1];
    if w < |weeks| - 1 {
      assert more[..|weeks| - 1] == rest[w := rest[w] + [item]];
      AddTo(rest, w, item);
      assert AllIn(more) == AllIn(rest) + multiset{item} + multiset(last);
    } else {
      assert more[..|weeks| - 1] == rest;
      assert AllIn(more) == AllIn(rest) + multiset(last + [item]);
      assert multiset(last + [item]) == multiset(last) + multiset{item};
    }
  }

  function TotalLoad(weeks: seq<Week>): int {
    if weeks == [] then 0 else TotalLoad(weeks[..|weeks| - 1]) + Load(weeks[|weeks| - 1])
  }

  lemma {:induction false} NothingYet(count: nat)
    ensures AllIn(seq(count, _ => [])) == multiset{}
  {
    if count > 0 {
      assert seq<Week>(count, _ => [])[..count - 1] == seq(count - 1, _ => []);
      NothingYet(count - 1);
    }
  }

  lemma PlaceConserves(p: Packing, capacity: int, item: Item)
    ensures var q := Place(p, capacity, item);
            && |q.weeks| == |p.weeks|
            && AllIn(q.weeks) + multiset(q.left) == AllIn(p.weeks) + multiset(p.left) + multiset{item}
  {
    var w := FirstFit(p.weeks, capacity, item.cost, 0);
    if w < |p.weeks| {
      AddTo(p.weeks, w, item);
    } else {
      assert multiset(p.left + [item]) == multiset(p.left) + multiset{item};
    }
  }

  /** Every service is scheduled or left over, exactly as often as it was given. */
  lemma {:induction false} EachServiceOnce(items: seq<Item>, capacity: int, count: nat)
    ensures var p := PackAll(items, capacity, count);
            |p.weeks| == count && AllIn(p.weeks) + multiset(p.left) == multiset(items)
  {
    if items == [] {
      NothingYet(count);
    } else {
      var rest, item := items[..|items| - 1], items[|items| - 1];
      EachServiceOnce(rest, capacity, count);
      assert items == rest + [item];
      assert multiset(items) == multiset(rest) + multiset{item};
      PlaceConserves(PackAll(rest, capacity, count), capacity, item);
    }
  }

  /** No used week exceeds its capacity, whatever the costs. */
  lemma {:induction false} CapacityIsKept(items: seq<Item>, capacity: int, count: nat)
    ensures forall week <- PackAll(items, capacity, count).weeks :: week != [] ==> Load(week) <= capacity
  {
    if items != [] {
      CapacityIsKept(items[..|items| - 1], capacity, count);
      var p := PackAll(items[..|items| - 1], capacity, count);
      var item := items[|items| - 1];
      var w := FirstFit(p.weeks, capacity, item.cost, 0);
      if w < |p.weeks| {
        OneMore(p.weeks[w], item);
      }
    }
  }

  ghost predicate NonNegative(items: seq<Item>) { forall i :: 0 <= i < |items| ==> items[i].cost >= 0 }

  /** What first fit establishes for non-negative costs. */
  ghost predicate Tight(p: Packing, capacity: int) {
    && (forall w :: 0 <= w < |p.weeks| ==> Load(p.weeks[w]) >= 0)
    // A service left over exceeds what remains of every week.
    && (forall i, w :: 0 <= i < |p.left| && 0 <= w < |p.weeks| ==> p.left[i].cost > capacity - Load(p.weeks[w]))
    // Used weeks come first.
    && (forall v, w :: 0 <= v < w < |p.weeks| && p.weeks[w] != [] ==> p.weeks[v] != [])
    // Any two used weeks could not have shared one.
    && (forall v, w :: 0 <= v < w < |p.weeks| && p.weeks[w] != [] ==> Load(p.weeks[v]) + Load(p.weeks[w]) > capacity)
  }

  lemma PlaceKeepsTight(p: Packing, capacity: int, item: Item)
    requires Tight(p, capacity) && item.cost >= 0
    ensures Tight(Place(p, capacity, item), capacity)
  {
    var w := FirstFit(p.weeks, capacity, item.cost, 0);
    if w < |p.weeks| {
      OneMore(p.weeks[w], item);
    }
  }

  lemma {:induction false} PackingIsTight(items: seq<Item>, capacity: int, count: nat)
    requires NonNegative(items)
    ensures Tight(PackAll(items, capacity, count), capacity)
  {
    if items != [] {
      PackingIsTight(items[..|items| - 1], capacity, count);
      PlaceKeepsTight(PackAll(items[..|items| - 1], capacity, count), capacity, items[|items| - 1]);
    }
  }

  function UsedWeeks(weeks: seq<Week>): nat {
    if weeks == [] then 0
    else if weeks[|weeks| - 1] == [] then UsedWeeks(weeks[..|weeks| - 1])
    else |weeks|
  }

  lemma {:induction false} UsedWeeksCarry(weeks: seq<Week>, left: seq<Item>, capacity: int)
    requires Tight(Packing(weeks, left), capacity)
    ensures UsedWeeks(weeks) >= 2 ==> TotalLoad(weeks) > UsedWeeks(weeks) / 2 * capacity
    ensures TotalLoad(weeks) >= 0
  {
    if weeks != [] {
      var rest := weeks[..|weeks| - 1];
      UsedWeeksCarry(rest, left, capacity);
      if weeks[|weeks| - 1] != [] && |weeks| >= 2 {
        PairsCarry(weeks, left, capacity);
      }
    }
  }

  lemma {:induction false} PairsCarry(weeks: seq<Week>, left: seq<Item>, capacity: int)
    requires Tight(Packing(weeks, left), capacity) && |weeks| >= 2 && weeks[|weeks| - 1] != []
    ensures TotalLoad(weeks) > |weeks| / 2 * capacity
  {
    var n := |weeks|;
    if n >= 4 {
      var pairless := weeks[..n - 2];
      LastTwo(weeks);
      PairsCarry(pairless, left, capacity);
      HalfSteps(n, capacity);
    } else if n == 3 {
      LastTwo(weeks);
      LastTwo(weeks[..2]);
      assert weeks[..1][..0] == [];
    } else {
      LastTwo(weeks);
    }
  }

  lemma LastTwo(weeks: seq<Week>)
    requires |weeks| >= 2
    ensures TotalLoad(weeks) == TotalLoad(weeks[..|weeks| - 2]) + Load(weeks[|weeks| - 2]) + Load(weeks[|weeks| - 1])
  {
    assert weeks[..|weeks| - 1][..|weeks| - 2] == weeks[..|weeks| - 2];
  }

  lemma HalfSteps(n: nat, capacity: int)
    requires n >= 2
    ensures n / 2 * capacity == (n - 2) / 2 * capacity + capacity
  {
    assert n / 2 == (n - 2) / 2 + 1;
  }

  /** Costs never rise along the list; services of one cost stand in order of name. */
  ghost predicate Descends(items: seq<Item>) {
    forall i, j :: 0 <= i < j < |items| ==> CostsMore(items[i], items[j])
  }

  predicate CostsMore(a: Item, b: Item) { a.cost > b.cost || (a.cost == b.cost && StringLeq(a.name, b.name)) }

  lemma DescendsFurther(items: seq<Item>, item: Item)
    requires Descends(items) && forall i :: 0 <= i < |items| ==> CostsMore(items[i], item)
    ensures Descends(items + [item])
  {}

  lemma SortedDescends(items: seq<Item>)
    requires SortedBy(items, Before)
    ensures Descends(items)
  {
    forall i, j | 0 <= i < j < |items| ensures CostsMore(items[i], items[j]) {
      assert Before(items[i], items[j]);
    }
  }

  /** In every week, and among those left over, services stand in decreasing order of cost. */
  lemma {:induction false} WeeksAreDecreasing(items: seq<Item>, capacity: int, count: nat)
    requires Descends(items)
    ensures var p := PackAll(items, capacity, count);
            && Descends(p.left) && AllFrom(p.left, items)
            && (forall w :: 0 <= w < |p.weeks| ==> Descends(p.weeks[w]) && AllFrom(p.weeks[w], items))
  {
    if items != [] {
      var rest, item := items[..|items| - 1], items[|items| - 1];
      WeeksAreDecreasing(rest, capacity, count);
      var p := PackAll(rest, capacity, count);
      var w := FirstFit(p.weeks, capacity, item.cost, 0);
      NextDescends(items, if w < |p.weeks| then p.weeks[w] else p.left);
      forall v | 0 <= v < |p.weeks| ensures AllFrom(p.weeks[v], items) {
        FromMore(p.weeks[v], items);
      }
      FromMore(p.left, items);
    }
  }

  ghost predicate AllFrom(week: Week, items: seq<Item>) {
    forall i :: 0 <= i < |week| ==> week[i] in items
  }

  lemma FromMore(week: Week, items: seq<Item>)
    requires items != [] && AllFrom(week, items[..|items| - 1])
    ensures AllFrom(week, items)
  {
    assert items == items[..|items| - 1] + [items[|items| - 1]];
  }

  /** The last of a descending list goes on any list of those before it. */
  lemma NextDescends(items: seq<Item>, week: Week)
    requires items != [] && Descends(items) && Descends(week) && AllFrom(week, items[..|items| - 1])
    ensures Descends(week + [items[|items| - 1]]) && AllFrom(week + [items[|items| - 1]], items)
  {
    var item := items[|items| - 1];
    forall i | 0 <= i < |week| ensures CostsMore(week[i], item) {
      var j :| 0 <= j < |items| - 1 && items[..|items| - 1][j] == week[i];
      assert CostsMore(items[j], item);
    }
    DescendsFurther(week, item);
    FromMore(week, items);
  }

  /** Beside services at least as costly, which stand first in the week, this one finds no room. */
  ghost predicate NoRoomBeside(week: Week, item: Item, capacity: int, n: nat) {
    && n <= |week| && (forall i :: 0 <= i < n ==> week[i].cost >= item.cost)
    && Load(week[..n]) + item.cost > capacity
  }

  ghost predicate FitsNowhere(week: Week, item: Item, capacity: int) {
    exists n: nat :: NoRoomBeside(week, item, capacity, n)
  }

  /** A service left over fits no week beside the services at least as costly as itself. */
  lemma {:induction false} LeftDidNotFit(items: seq<Item>, capacity: int, count: nat, l: nat, w: nat)
    requires Descends(items)
    requires l < |PackAll(items, capacity, count).left| && w < |PackAll(items, capacity, count).weeks|
    ensures FitsNowhere(PackAll(items, capacity, count).weeks[w], PackAll(items, capacity, count).left[l], capacity)
  {
    var rest, item := items[..|items| - 1], items[|items| - 1];
    var before, after := PackAll(rest, capacity, count), PackAll(items, capacity, count);
    if l < |before.left| {
      LeftDidNotFit(rest, capacity, count, l, w);
      StillFitsNowhere(before.weeks[w], after.weeks[w], before.left[l], capacity);
    } else {
      WeeksAreDecreasing(rest, capacity, count);
      FullWeekHasNoRoom(items, before.weeks[w], capacity);
    }
  }

  /** A week that only grows at its end stays without room. */
  lemma StillFitsNowhere(week: Week, more: Week, item: Item, capacity: int)
    requires FitsNowhere(week, item, capacity) && week <= more
    ensures FitsNowhere(more, item, capacity)
  {
    var n: nat :| NoRoomBeside(week, item, capacity, n);
    assert more[..n] == week[..n];
    assert NoRoomBeside(more, item, capacity, n);
  }

  /** A week of earlier services that the last one exceeds has no room beside any of them. */
  lemma FullWeekHasNoRoom(items: seq<Item>, week: Week, capacity: int)
    requires items != [] && Descends(items) && AllFrom(week, items[..|items| - 1])
    requires Load(week) + items[|items| - 1].cost > capacity
    ensures FitsNowhere(week, items[|items| - 1], capacity)
  {
    var item := items[|items| - 1];
    forall i | 0 <= i < |week| ensures week[i].cost >= item.cost {
      var j :| 0 <= j < |items| - 1 && items[..|items| - 1][j] == week[i];
      assert CostsMore(items[j], item);
    }
    assert week[..|week|] == week;
    assert NoRoomBeside(week, item, capacity, |week|);
  }

  /** What the order of packing gives: the list, every week and the leftovers descend, and what is left over fits
      nowhere beside what is at least as costly. */
  ghost predicate Decreasing(items: seq<Item>, p: Packing, capacity: int) {
    && Descends(items) && Descends(p.left) && (forall w :: 0 <= w < |p.weeks| ==> Descends(p.weeks[w]))
    && (forall l, w :: 0 <= l < |p.left| && 0 <= w < |p.weeks| ==> FitsNowhere(p.weeks[w], p.left[l], capacity))
  }

  lemma PackingIsDecreasing(services: seq<Item>, capacity: int, count: nat)
    ensures Decreasing(Sort(services, Before), PackAll(Sort(services, Before), capacity, count), capacity)
  {
    var items := Sort(services, Before);
    BeforeIsTotal();
    SortSorts(services, Before);
    SortedDescends(items);
    WeeksAreDecreasing(items, capacity, count);
    var p := PackAll(items, capacity, count);
    forall l, w | 0 <= l < |p.left| && 0 <= w < |p.weeks|
      ensures FitsNowhere(p.weeks[w], p.left[l], capacity)
    {
      LeftDidNotFit(items, capacity, count, l, w);
    }
  }

  /** The guarantees of a whole packing. */
  lemma PackingBound(services: seq<Item>, capacity: int, count: nat)
    requires NonNegative(services)
    ensures var p := PackAll(Sort(services, Before), capacity, count);
            && |p.weeks| == count && AllIn(p.weeks) + multiset(p.left) == multiset(services)
            && (forall week <- p.weeks :: week != [] ==> Load(week) <= capacity)
            && Tight(p, capacity)
            && (UsedWeeks(p.weeks) >= 2 ==> TotalLoad(p.weeks) > UsedWeeks(p.weeks) / 2 * capacity)
            && Decreasing(Sort(services, Before), p, capacity)
  {
    var items := Sort(services, Before);
    BeforeIsTotal();
    SortSorts(services, Before);
    SameMembers(items, services);
    forall i | 0 <= i < |items| ensures items[i].cost >= 0 {
      assert items[i] in services;
    }
    EachServiceOnce(items, capacity, count);
    CapacityIsKept(items, capacity, count);
    PackingIsTight(items, capacity, count);
    var p := PackAll(items, capacity, count);
    UsedWeeksCarry(p.weeks, p.left, capacity);
    PackingIsDecreasing(services, capacity, count);
  }
}
