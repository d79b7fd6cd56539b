# KeepItFresh inventory engine, modelled in Dafny

KeepItFresh is a dashboard that tracks perishable household items and flags the ones close to or past their expiry date. All of its decision logic sits in the `DashboardPage` component (`client/src/app/dashboard/page.tsx`). This project models that logic and proves what it guarantees:

- **Item record** (`Items`): name, category (one of Fruits, Vegetables, Meat, Dairy, Other), quantity and expiry date. An expiry is a UTC day number, or `InvalidDate` for text that does not parse as a date. The form's own reset value `""` is such text.
- **Freshness classifier** (`Freshness`): `getStatus`. The clock reading is passed in as `now`, in milliseconds since the epoch. `diffDays` is the rounded-up day difference, which the model computes with exact integer arithmetic (`CeilDiv`). A lemma shows this equals the plain difference of UTC calendar days. Below 0 is Expired, 0 to 3 is Expiring Soon, and anything else is Fresh. An invalid date gives NaN, which fails both comparisons, so such an item is Fresh.
- **Inventory store** (`Store.Dashboard`): a class holding the page state `items`, `form`, `editingIndex` and `isOpen`, with one method per handler: `Submit`, `Edit`, `Delete`, `Change` (`handleChange`), `Open` (the "Add Item" button) and `Cancel`. Items are identified by their current position, as in the code.
- **Query engine** (`Query`): `filteredItems`. It combines a case-insensitive substring search on the name, a category selector where `All` matches anything, and the "Show Expiring Soon" checkbox.
- **Stats** (`Stats`): the three cards, which show the total, the Expiring Soon count and the Expired count.
- **JavaScript building blocks** (`ArrayOps`, `Strings`): `Array.prototype.filter` (`Keep`), filtering by position (`RemovePosition`), copy-then-assign at an index (`WriteAt`), `toLowerCase` (`ToLower`) and `includes` (`Includes`).

The model follows what the code does, including where a stricter design would behave differently:

- The code does no validation. Names may be empty and quantities may be zero or negative. The only checks are the HTML `required` and `min` attributes of the form, which the handlers do not enforce.
- Items are addressed by position, not by a generated identity.
- Deleting an out-of-range position silently changes nothing.
- Cancel closes the form but keeps `editingIndex`. So after Edit, Cancel and "Add Item", a save overwrites the item that was being edited instead of appending. `Store.CancelledEditStaysPending` proves this on a two-item inventory.

The table's Edit and Delete buttons pass a position in `filteredItems`, but the handlers use it as a position in `items` (lines 214, 235 and 243). When a filter is active the two differ. The handlers are modelled as written, on `items` positions. `Query.FilteredItems` proves that the filtered list is never longer than the inventory, so a button's index is always a valid `items` position. That is why `Edit` may require `index < |items|`.

## Model

| member | source | states |
|---|---|---|
| `ArrayOps.Keep` | client/src/app/dashboard/page.tsx:91-106 | `filter` returns no more elements than it was given, and every element it returns comes from the input and satisfies the predicate |
| `ArrayOps.KeepIsSubsequence` | client/src/app/dashboard/page.tsx:91-106 | `filter` is stable: its result is an order-preserving subsequence of the input |
| `ArrayOps.KeepMultiplicity` | client/src/app/dashboard/page.tsx:91-106 | `filter` keeps every occurrence of a passing value and no occurrence of a failing one |
| `ArrayOps.KeepAll` | client/src/app/dashboard/page.tsx:91-106 | when every element passes, `filter` returns its input unchanged |
| `ArrayOps.KeepConcat` | client/src/app/dashboard/page.tsx:91-106 | filtering a concatenation is concatenating the filtered parts |
| `ArrayOps.KeepKeep` | client/src/app/dashboard/page.tsx:91-106 | filtering by one predicate and then another is filtering once by their conjunction |
| `ArrayOps.KeepMonotone` | client/src/app/dashboard/page.tsx:91-115 | a stronger predicate keeps a subsequence, so no more elements, of what a weaker one keeps |
| `ArrayOps.KeepCountsPositions` | client/src/app/dashboard/page.tsx:109-115 | the length of a filter equals the number of positions whose element passes |
| `ArrayOps.RemovePosition` | client/src/app/dashboard/page.tsx:73 | filtering out one position drops one element when the position is in range and none otherwise, and adds nothing new |
| `ArrayOps.RemovePositionSpec` | client/src/app/dashboard/page.tsx:72-75 | filtering out position `i` gives `s[..i] + s[i+1..]` when `i` is in range, and `s` itself otherwise |
| `ArrayOps.KeepAfterRemovePosition` | client/src/app/dashboard/page.tsx:72-75 | deleting a position in range lowers each filter's length by one exactly when the deleted element passed that filter |
| `ArrayOps.WriteAt` | client/src/app/dashboard/page.tsx:54-55 | copy-then-assign at an in-range index keeps the length and changes only that position; at the length it appends |
| `Strings.LowerChar` | client/src/app/dashboard/page.tsx:92-94 | lowering a character never yields an upper-case ASCII letter, maps `A`..`Z` onto `a`..`z` in order and leaves every other character alone |
| `Strings.ToLower` | client/src/app/dashboard/page.tsx:92-94 | `toLowerCase` keeps the length of the string and lowers every character |
| `Strings.ToLowerIdempotent` | client/src/app/dashboard/page.tsx:92-94 | lowering twice is the same as lowering once |
| `Strings.OccursShift` | client/src/app/dashboard/page.tsx:92-94 | occurrences in a string with its first character dropped are the occurrences after position 0, shifted by one |
| `Strings.Includes` | client/src/app/dashboard/page.tsx:92-94 | `includes` is true exactly when the needle occurs at some position of the string |
| `Strings.IncludesEmpty` | client/src/app/dashboard/page.tsx:92-94 | the empty search text occurs in every name |
| `Freshness.CeilDiv` | client/src/app/dashboard/page.tsx:81-83 | `Math.ceil(a / b)` is the least integer `q` with `a <= q * b` |
| `Freshness.DiffDays` | client/src/app/dashboard/page.tsx:81-83 | `diffDays` is the least whole number of days that is not less than the milliseconds from now to the expiry's UTC midnight |
| `Freshness.Today` | client/src/app/dashboard/page.tsx:79 | today is the UTC day that contains the instant `now` |
| `Freshness.Classify` | client/src/app/dashboard/page.tsx:85-87 | a negative day difference is Expired, 0 to 3 is Expiring Soon and anything above 3 is Fresh, each if and only if |
| `Freshness.DiffDaysIsCalendarDifference` | client/src/app/dashboard/page.tsx:79-83 | rounding up makes `diffDays` the expiry day minus today's UTC day, whatever the time of day |
| `Freshness.GetStatus` | client/src/app/dashboard/page.tsx:78-88 | an unparsable date is Fresh. A dated item is Expired exactly when its day is before today, Expiring Soon exactly when it is today to three days on, and Fresh exactly when it is later than that |
| `Freshness.StatusBoundaries` | client/src/app/dashboard/page.tsx:81-87 | yesterday is Expired, today and today plus 3 are Expiring Soon, and today plus 4 is Fresh |
| `Freshness.StatusChangesAtMidnight` | client/src/app/dashboard/page.tsx:79-87 | an item due on day `d` is Expiring Soon one millisecond before the following UTC midnight and Expired at that midnight |
| `Query.MatchesSearch` | client/src/app/dashboard/page.tsx:92-94 | the search test passes exactly when the lowered search text occurs in the lowered name |
| `Query.MatchesCategory` | client/src/app/dashboard/page.tsx:96-97 | the category test passes exactly when the selector is `All` or names the item's category |
| `Query.MatchesExpiry` | client/src/app/dashboard/page.tsx:99-103 | the expiry test passes exactly when the checkbox is clear or the item is dated today to three days on |
| `Query.Matches` | client/src/app/dashboard/page.tsx:92-105 | an item passes the table's filter exactly when the search text occurs in its name, its category is selected and, with the checkbox set, it is dated today to three days on |
| `Query.FilteredItems` | client/src/app/dashboard/page.tsx:91-106 | the table shows at most as many rows as there are items, and every row is an inventory item that passes all three tests |
| `Query.FilteredItemsSpec` | client/src/app/dashboard/page.tsx:91-106 | the shown rows keep inventory order, and an item is shown, with its full multiplicity, exactly when the search, category and expiry tests all hold |
| `Query.FilterNeutral` | client/src/app/dashboard/page.tsx:39-41 | with empty search text, `All` and the checkbox clear, the table shows the inventory unchanged |
| `Query.FilterConjunction` | client/src/app/dashboard/page.tsx:91-106 | the combined filter equals the search, category and expiry filters applied one after another |
| `Query.SearchIgnoresCase` | client/src/app/dashboard/page.tsx:92-94 | changing the letter case of the search text or of the name does not change the search result |
| `Query.ExpiringSoonOnlyShowsExpiringSoon` | client/src/app/dashboard/page.tsx:99-103 | with the checkbox set, every row shown is Expiring Soon |
| `Stats.HasStatus` | client/src/app/dashboard/page.tsx:110-115 | the card callbacks select the items dated before today (Expired), those dated today to three days on (Expiring Soon), and the rest (Fresh, undated items included) |
| `Stats.StatusCountsDisjoint` | client/src/app/dashboard/page.tsx:110-115 | an item never counts as both Expiring Soon and Expired, so the two counts together never exceed the item count |
| `Stats.ComputeStats` | client/src/app/dashboard/page.tsx:109-115 | the total is the number of items, and Expiring Soon plus Expired never exceeds it |
| `Stats.StatsCountStatuses` | client/src/app/dashboard/page.tsx:110-115 | each status card counts exactly the inventory positions whose item has that status (`ArrayOps.Positions` of the card's callback) |
| `Stats.StatsPartition` | client/src/app/dashboard/page.tsx:109-115 | Expiring Soon, Expired and Fresh items together make up the total |
| `Stats.FilteredAtMostExpiringSoon` | client/src/app/dashboard/page.tsx:99-112 | with the checkbox set, the table never shows more rows than the Expiring Soon card counts |
| `Stats.StatsAfterAppend` | client/src/app/dashboard/page.tsx:60 | adding an item raises the total by one and the card of its status by one |
| `Stats.StatsAfterDelete` | client/src/app/dashboard/page.tsx:72-75 | deleting the item at a valid position lowers the total by one and the card of its status by one |
| `Stats.WorkedExampleStatuses` | client/src/app/dashboard/page.tsx:78-88 | on 2025-06-10, milk dated 2025-06-11 is Expiring Soon, bread dated 2025-06-05 is Expired and apples dated 2025-06-30 are Fresh |
| `Stats.WorkedExampleStats` | client/src/app/dashboard/page.tsx:109-115 | those three items give the cards 3, 1 and 1 |
| `Stats.WorkedExampleFilter` | client/src/app/dashboard/page.tsx:91-106 | with those three items and only the checkbox set, the table shows just the milk |
| `Store.Dashboard.constructor` | client/src/app/dashboard/page.tsx:26-36 | the page starts with no items, the form closed and reset, and nothing being edited |
| `Store.Dashboard.Open` | client/src/app/dashboard/page.tsx:140 | "Add Item" opens the form and changes nothing else, leaving a pending edit pending |
| `Store.Dashboard.Cancel` | client/src/app/dashboard/page.tsx:319 | "Cancel" closes the form and keeps the form contents and the edit index |
| `Store.Dashboard.Change` | client/src/app/dashboard/page.tsx:43-48 | a change event replaces exactly the named form field and leaves everything else as it was |
| `Store.Dashboard.Submit` | client/src/app/dashboard/page.tsx:50-64 | with no edit pending the form is appended and earlier items are unchanged. With an edit at an in-range position `i`, position `i` is overwritten and the length and all other positions are unchanged; with an edit at the length, the form is appended. Either way the edit ends, and afterwards the form is reset and closed |
| `Store.Dashboard.Edit` | client/src/app/dashboard/page.tsx:66-70 | editing loads the item at that position into the form, records the position, opens the form and leaves the inventory as it was |
| `Store.Dashboard.Delete` | client/src/app/dashboard/page.tsx:72-75 | deleting an in-range position closes the gap and keeps the order of the rest. An out-of-range position changes nothing, and no other state changes |
| `Store.EditThenSubmitKeepsItems` | client/src/app/dashboard/page.tsx:50-70 | opening an item for edit and saving it untouched leaves the inventory exactly as it was |
| `Store.CancelledEditStaysPending` | client/src/app/dashboard/page.tsx:50-70 | after Edit(0), Cancel and "Add Item" on `[a, b]`, saving `c` gives `[c, b]`: the cancelled edit is still pending |
| `Store.AddAddDelete` | client/src/app/dashboard/page.tsx:58-75 | two submits on a fresh page append in order, and deleting position 0 leaves the second item |

## Left out

- Rendering: the sidebar, stats cards, table, modal markup, icons and UI components (lines 117-336). These are presentation only.
- The filter-bar handlers that set the search text, the category and the checkbox (lines 174, 179 and 193). The filter state is passed to `Query.FilteredItems` as a `Criteria` value.
- Reading the clock and parsing dates: `new Date()` and `new Date(expiry)` (lines 79-80). The instant is a parameter `now`. A parsed date is a UTC day number or `InvalidDate`. The floating-point division is modelled as exact integer ceiling division, which agrees with it for millisecond timestamps.
- The clock is read once per `getStatus` call in the code (line 79), and one render calls it separately for the table filter, both cards and each row (lines 101, 111, 114 and 215). The model gives every status in one render the same instant `now`. `Freshness.StatusChangesAtMidnight` shows that the status of one item changes at UTC midnight, so the lemmas below hold only for a render that does not cross midnight.
- Stats.StatusCountsDisjoint: holds for one instant `now`; a render that crosses UTC midnight between the two card filters (lines 110-115) can count one item on both cards.
- Stats.ComputeStats: its bound Expiring Soon plus Expired at most the total holds for one instant `now`, not for a render whose card filters straddle UTC midnight.
- Stats.StatsPartition: holds for one instant `now`, not across a UTC midnight inside one render.
- Stats.FilteredAtMostExpiringSoon: compares the table (line 101) with the Expiring Soon card (line 111) at one instant `now`; across a UTC midnight inside one render the two can disagree.
- Unicode case mapping: `toLowerCase` is modelled for the ASCII letters `A`..`Z` only.
- `Number(value)` coercion in `handleChange` (line 47): a quantity is an integer. Fractional and NaN values are not modelled.
- React's batching of state updates: each handler's updates are treated as immediate assignments that all read the state from before the event.
- Store.Dashboard.Submit: requires a pending edit index to be at most the inventory length. A stale index can grow too large: Cancel keeps it and Delete shifts positions, so Edit, Cancel and two Deletes can leave it past the end. The write at line 55 would then create a sparse JavaScript array with holes, which a sequence cannot represent. An index equal to the length, where the write appends, is modelled.
- Store.Dashboard.Edit: requires the index to be a valid position. The only callers are the table's buttons, whose index is below the length of `filteredItems` and so below the inventory length. An out-of-range index would load `undefined` into the form.
- client/src/app/page.tsx (a static landing page) and client/src/app/Auth/page.tsx (a sign-in form that only logs to the console) are not part of this model.
