/** Static reference data: the currency symbol table and the category
    metadata table. Both are constants that nothing mutates. */
module Catalog {

  datatype Option<T> = None | Some(value: T)

  /** Display metadata of one expense/income category. */
  datatype CategoryInfo = CategoryInfo(name: string, color: string, icon: string)

  /** The currency shown when nothing has been chosen. */
  const DefaultCurrency: string := "USD"

  /** Currency code to display symbol. */
  const Currencies: map<string, string> := map[
    "USD" := "$",
    "EUR" := "\U{20AC}",
    "GBP" := "\U{00A3}",
    "INR" := "\U{20B9}",
    "JPY" := "\U{00A5}",
    "CNY" := "\U{00A5}",
    "AUD" := "A$",
    "CAD" := "C$"
  ]

  /** Category key to display name, chart colour and icon. */
  const Categories: map<string, CategoryInfo> := map[
    "food" := CategoryInfo("Food & Dining", "#FF6384", "\U{1F354}"),
    "transport" := CategoryInfo("Transportation", "#36A2EB", "\U{1F697}"),
    "shopping" := CategoryInfo("Shopping", "#FFCE56", "\U{1F6CD}\U{FE0F}"),
    "entertainment" := CategoryInfo("Entertainment", "#4BC0C0", "\U{1F3AC}"),
    "bills" := CategoryInfo("Bills & Utilities", "#9966FF", "\U{1F4C4}"),
    "health" := CategoryInfo("Healthcare", "#FF9F40", "\U{2695}\U{FE0F}"),
    "salary" := CategoryInfo("Salary", "#4CAF50", "\U{1F4BC}"),
    "other" := CategoryInfo("Other", "#95A5A6", "\U{1F4E6}")
  ]

  /** `CURRENCIES[code]`: the symbol, or nothing (JavaScript's `undefined`) for an unknown code. */
  function Symbol(code: string): (r: Option<string>)
    ensures r.Some? <==> code in Currencies.Keys
    ensures r.Some? ==> r.value in Currencies.Values && |r.value| > 0
  {
    if code in Currencies then Some(Currencies[code]) else None
  }

  /** `CATEGORIES[key]`: the metadata, or nothing for a key outside the table. */
  function Category(key: string): (r: Option<CategoryInfo>)
    ensures r.Some? <==> key in Categories.Keys
    ensures r.Some? ==> r.value.name != "" && r.value.color != ""
  {
    if key in Categories then Some(Categories[key]) else None
  }

  /** The default currency has a symbol, and two codes share one, so the
      symbol alone does not identify the currency. */
  lemma CatalogFacts()
    ensures Symbol(DefaultCurrency) == Some("$")
    ensures Symbol("JPY") == Symbol("CNY") && Symbol("JPY").Some?
    ensures Symbol("XYZ") == None
    ensures forall a, b :: a in Categories && b in Categories && a != b ==> Categories[a].color != Categories[b].color
  {
  }
}
