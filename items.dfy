/**
 * The record the dashboard tracks for each perishable item
 * (client/src/app/dashboard/page.tsx, the `Item` type and the form defaults).
 */
module Items {

  /** The five categories the item form offers. */
  datatype Category = Fruits | Vegetables | Meat | Dairy | Other

  /** The category selector of the filter bar: `All` or one of the five categories. */
  datatype CategoryFilter = All | Only(category: Category)

  /**
   * An expiry date as the classifier sees it. `Day(n)` is the date `n` days after
   * 1970-01-01, read as UTC midnight (how a `YYYY-MM-DD` string is parsed);
   * `InvalidDate` is any text that does not parse as a date, the empty string of a
   * fresh form included.
   */
  datatype Expiry = InvalidDate | Day(day: int)

  /** One tracked item. No field is validated: quantity may be zero or negative, the name empty. */
  datatype Item = Item(name: string, category: Category, quantity: int, expiry: Expiry)

  /** The value the form starts with and is reset to after every submit. */
  const EmptyForm: Item := Item("", Fruits, 1, InvalidDate)
}
