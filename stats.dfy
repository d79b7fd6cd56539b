/** The three counters on the stats cards: total, expiring soon and expired. */
module Stats {
  import opened Items
  import opened Freshness
  import opened ArrayOps
  import opened Query
  import opened Strings

  /** The numbers on the three stats cards. */
  datatype Cards = Cards(totalItems: nat, expiringSoon: nat, expired: nat)

  /** The filter callback `item => getStatus(item.expiry) === status`. */
  function HasStatus(status: Status, now: int): (p: Item -> bool)
    ensures status == Expired ==> forall item :: p(item) <==> item.expiry.Day? && item.expiry.day < Today(now)
    ensures status == ExpiringSoon ==>
              forall item :: p(item) <==> item.expiry.Day? && Today(now) <= item.expiry.day <= Today(now) + 3
    ensures status == Fresh ==>
              forall item :: p(item) <==> item.expiry.InvalidDate? || item.expiry.day > Today(now) + 3
  {
    (item: Item) => GetStatus(item.expiry, now) == status
  }

  /** Counting each status by its own `filter` never counts more items than there are. */
  lemma {:induction false} StatusCountsDisjoint(items: seq<Item>, now: int)
    ensures |Keep(items, HasStatus(ExpiringSoon, now))| + |Keep(items, HasStatus(Expired, now))| <= |items|
  {
    if items != [] {
      StatusCountsDisjoint(items[1..], now);
    }
  }

  /** The stats cards, computed afresh from the inventory. */
  function ComputeStats(items: seq<Item>, now: int): (r: Cards)
    ensures r.totalItems == |items|
    ensures r.expiringSoon + r.expired <= r.totalItems
  {
    StatusCountsDisjoint(items, now);
    Cards(|items|, |Keep(items, HasStatus(ExpiringSoon, now))|, |Keep(items, HasStatus(Expired, now))|)
  }

  /** Each counter is the number of inventory positions holding an item of that status. */
  lemma {:induction false} StatsCountStatuses(items: seq<Item>, now: int)
    ensures ComputeStats(items, now).expiringSoon == |Positions(items, HasStatus(ExpiringSoon, now))|
    ensures ComputeStats(items, now).expired == |Positions(items, HasStatus(Expired, now))|
  {
    KeepCountsPositions(items, HasStatus(ExpiringSoon, now));
    KeepCountsPositions(items, HasStatus(Expired, now));
  }

  /** The items that are neither expiring soon nor expired are exactly the fresh ones. */
  lemma {:induction false} StatsPartition(items: seq<Item>, now: int)
    ensures ComputeStats(items, now).expiringSoon + ComputeStats(items, now).expired
            + |Keep(items, HasStatus(Fresh, now))| == |items|
  {
    if items != [] {
      StatsPartition(items[1..], now);
    }
  }

  /** With the checkbox set the table never shows more rows than the Expiring Soon card counts. */
  lemma {:induction false} FilteredAtMostExpiringSoon(items: seq<Item>, c: Criteria, now: int)
    requires c.expiringSoonOnly
    ensures |FilteredItems(items, c, now)| <= ComputeStats(items, now).expiringSoon
  {
    KeepMonotone(items, x => Matches(x, c, now), HasStatus(ExpiringSoon, now));
  }

  /** One for an item of the given status, zero otherwise. */
  function Unit(item: Item, status: Status, now: int): nat
  {
    if GetStatus(item.expiry, now) == status then 1 else 0
  }

  /** Adding an item raises the total by one and the matching status counter by one. */
  lemma {:induction false} StatsAfterAppend(items: seq<Item>, item: Item, now: int)
    ensures ComputeStats(items + [item], now)
         == Cards(|items| + 1,
                  ComputeStats(items, now).expiringSoon + Unit(item, ExpiringSoon, now),
                  ComputeStats(items, now).expired + Unit(item, Expired, now))
  {
    KeepConcat(items, [item], HasStatus(ExpiringSoon, now));
    KeepConcat(items, [item], HasStatus(Expired, now));
  }

  /** Deleting the item at a valid position lowers the total by one and its status counter by one. */
  lemma {:induction false} StatsAfterDelete(items: seq<Item>, index: int, now: int)
    requires 0 <= index < |items|
    ensures var after := ComputeStats(RemovePosition(items, index), now);
            after.totalItems + 1 == |items|
            && after.expiringSoon + Unit(items[index], ExpiringSoon, now) == ComputeStats(items, now).expiringSoon
            && after.expired + Unit(items[index], Expired, now) == ComputeStats(items, now).expired
  {
    RemovePositionSpec(items, index);
    KeepAfterRemovePosition(items, index, HasStatus(ExpiringSoon, now));
    KeepAfterRemovePosition(items, index, HasStatus(Expired, now));
  }

  /** Noon UTC on 2025-06-10, day 20249 after 1970-01-01. */
  const ExampleNow: int := 20249 * MsPerDay + MsPerDay / 2

  /** Milk expiring 2025-06-11, Bread expired 2025-06-05, Apples expiring 2025-06-30. */
  const Milk: Item := Item("Milk", Dairy, 2, Day(20250))
  const Bread: Item := Item("Bread", Other, 1, Day(20244))
  const Apples: Item := Item("Apples", Fruits, 6, Day(20269))

  /** The worked example: Milk is Expiring Soon, Bread Expired, Apples Fresh. */
  lemma WorkedExampleStatuses()
    ensures GetStatus(Milk.expiry, ExampleNow) == ExpiringSoon
    ensures GetStatus(Bread.expiry, ExampleNow) == Expired
    ensures GetStatus(Apples.expiry, ExampleNow) == Fresh
  {
    DiffDaysIsCalendarDifference(20250, ExampleNow);
    DiffDaysIsCalendarDifference(20244, ExampleNow);
    DiffDaysIsCalendarDifference(20269, ExampleNow);
  }

  /** The worked example's cards: three items, one expiring soon, one expired. */
  lemma WorkedExampleStats()
    ensures ComputeStats([Milk, Bread, Apples], ExampleNow) == Cards(3, 1, 1)
  {
    WorkedExampleStatuses();
    var soon, gone := HasStatus(ExpiringSoon, ExampleNow), HasStatus(Expired, ExampleNow);
    assert soon(Milk) && !soon(Bread) && !soon(Apples);
    assert !gone(Milk) && gone(Bread) && !gone(Apples);
    var items := [Milk, Bread, Apples];
    assert items[1..] == [Bread, Apples] && items[1..][1..] == [Apples] && [Apples][1..] == [];
    assert |Keep([Apples], soon)| == 0 && |Keep([Bread, Apples], soon)| == 0;
    assert |Keep(items, soon)| == 1;
    assert |Keep([Apples], gone)| == 0 && |Keep([Bread, Apples], gone)| == 1;
    assert |Keep(items, gone)| == 1;
  }

  /** The worked example with "Show Expiring Soon" set shows only Milk. */
  lemma WorkedExampleFilter()
    ensures FilteredItems([Milk, Bread, Apples], Criteria("", All, true), ExampleNow) == [Milk]
  {
    WorkedExampleStatuses();
    var c := Criteria("", All, true);
    IncludesEmpty(ToLower(Milk.name));
    var m := x => Matches(x, c, ExampleNow);
    assert m(Milk) && !m(Bread) && !m(Apples);
    var items := [Milk, Bread, Apples];
    assert items[1..] == [Bread, Apples] && items[1..][1..] == [Apples] && [Apples][1..] == [];
    assert Keep([Apples], m) == [] && Keep([Bread, Apples], m) == [];
  }
}
