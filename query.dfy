/**
 * The combined filter behind the inventory table (`filteredItems`): a search
 * text, a category selector and the "Show Expiring Soon" checkbox.
 */
module Query {
  import opened Items
  import opened Strings
  import opened Freshness
  import opened ArrayOps

  /** The state of the filter bar. */
  datatype Criteria = Criteria(search: string, category: CategoryFilter, expiringSoonOnly: bool)

  /** The criteria the page starts with: no search text, all categories, checkbox clear. */
  const NoCriteria: Criteria := Criteria("", All, false)

  /** Case-insensitive substring test of the search text against the item's name. */
  predicate MatchesSearch(item: Item, search: string)
    ensures MatchesSearch(item, search) <==> ContainsText(ToLower(item.name), ToLower(search))
  {
    Includes(ToLower(item.name), ToLower(search))
  }

  /** `All` admits every item; otherwise the categories must be equal. */
  predicate MatchesCategory(item: Item, filter: CategoryFilter)
    ensures MatchesCategory(item, filter) <==> filter == All || filter == Only(item.category)
  {
    match filter
    case All => true
    case Only(c) => item.category == c
  }

  /** With the checkbox set only Expiring Soon items pass; otherwise every item does. */
  predicate MatchesExpiry(item: Item, expiringSoonOnly: bool, now: int)
    ensures MatchesExpiry(item, expiringSoonOnly, now)
            <==> !expiringSoonOnly || (item.expiry.Day? && Today(now) <= item.expiry.day <= Today(now) + 3)
  {
    !expiringSoonOnly || GetStatus(item.expiry, now) == ExpiringSoon
  }

  /** The filter callback: all three tests must pass, in terms of the name's text, the category and the calendar. */
  predicate Matches(item: Item, c: Criteria, now: int)
    ensures Matches(item, c, now)
            <==> ContainsText(ToLower(item.name), ToLower(c.search))
                 && (c.category == All || c.category == Only(item.category))
                 && (!c.expiringSoonOnly || (item.expiry.Day? && Today(now) <= item.expiry.day <= Today(now) + 3))
  {
    MatchesSearch(item, c.search) && MatchesCategory(item, c.category) && MatchesExpiry(item, c.expiringSoonOnly, now)
  }

  /** `filteredItems`: the items that pass, in inventory order. */
  function FilteredItems(items: seq<Item>, c: Criteria, now: int): (r: seq<Item>)
    ensures |r| <= |items|
    ensures forall x :: x in r ==> x in items && Matches(x, c, now)
  {
    Keep(items, x => Matches(x, c, now))
  }

  /**
   * The result is an order-preserving subsequence of the inventory, and an item
   * value appears in it, as often as in the inventory, exactly when it passes all three tests.
   */
  lemma {:induction false} FilteredItemsSpec(items: seq<Item>, c: Criteria, now: int, x: Item)
    ensures IsSubsequence(FilteredItems(items, c, now), items)
    ensures multiset(FilteredItems(items, c, now))[x] == if Matches(x, c, now) then multiset(items)[x] else 0
    ensures x in FilteredItems(items, c, now) <==> x in items && Matches(x, c, now)
  {
    KeepIsSubsequence(items, x => Matches(x, c, now));
    KeepMultiplicity(items, x => Matches(x, c, now), x);
  }

  /** The initial criteria show the whole inventory unchanged. */
  lemma {:induction false} FilterNeutral(items: seq<Item>, now: int)
    ensures FilteredItems(items, NoCriteria, now) == items
  {
    forall i | 0 <= i < |items| ensures Matches(items[i], NoCriteria, now) {
      IncludesEmpty(ToLower(items[i].name));
    }
    KeepAll(items, x => Matches(x, NoCriteria, now));
  }

  /** The combined filter equals the three single-test filters applied one after another. */
  lemma {:induction false} FilterConjunction(items: seq<Item>, c: Criteria, now: int)
    ensures FilteredItems(items, c, now)
         == Keep(Keep(Keep(items, x => MatchesSearch(x, c.search)),
                           x => MatchesCategory(x, c.category)),
                 x => MatchesExpiry(x, c.expiringSoonOnly, now))
  {
    var s: Item -> bool := x => MatchesSearch(x, c.search);
    var k: Item -> bool := x => MatchesCategory(x, c.category);
    var e: Item -> bool := x => MatchesExpiry(x, c.expiringSoonOnly, now);
    var sk: Item -> bool := x => s(x) && k(x);
    KeepKeep(items, s, k, sk);
    KeepKeep(items, sk, e, x => Matches(x, c, now));
  }

  /** The search ignores letter case, in the search text and in the name alike. */
  lemma {:induction false} SearchIgnoresCase(item: Item, search: string)
    ensures MatchesSearch(item, search) == MatchesSearch(item, ToLower(search))
    ensures MatchesSearch(item, search) == MatchesSearch(item.(name := ToLower(item.name)), search)
  {
    ToLowerIdempotent(search);
    ToLowerIdempotent(item.name);
  }

  /** With the checkbox set, every item shown is Expiring Soon. */
  lemma {:induction false} ExpiringSoonOnlyShowsExpiringSoon(items: seq<Item>, c: Criteria, now: int)
    requires c.expiringSoonOnly
    ensures forall x :: x in FilteredItems(items, c, now) ==> GetStatus(x.expiry, now) == ExpiringSoon
  {
  }
}
