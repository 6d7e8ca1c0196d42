/** The filter state of the listing page and its updaters, each a function from the previous state to the next. */
module FiltersHook {
  import opened Lists

  datatype Filters = Filters(countries: seq<string>, brands: seq<string>, category: string, query: string)

  /** The state the hook starts from and `clearFilters` returns to. */
  const INITIAL: Filters := Filters([], [], "all", "")

  /** `toggleCountry`: the code is removed when selected and appended otherwise; nothing else changes. */
  function ToggleCountry(prev: Filters, code: string): (next: Filters)
    ensures code in next.countries <==> code !in prev.countries
    ensures forall c :: c != code ==> (c in next.countries <==> c in prev.countries)
    ensures code !in prev.countries ==> next.countries == prev.countries + [code]
    ensures next.brands == prev.brands && next.category == prev.category && next.query == prev.query
  {
    ToggleFlips(prev.countries, code);
    prev.(countries := Toggle(prev.countries, code))
  }

  /** `toggleBrand`: the same update on the brand list. */
  function ToggleBrand(prev: Filters, brand: string): (next: Filters)
    ensures brand in next.brands <==> brand !in prev.brands
    ensures forall b :: b != brand ==> (b in next.brands <==> b in prev.brands)
    ensures brand !in prev.brands ==> next.brands == prev.brands + [brand]
    ensures next.countries == prev.countries && next.category == prev.category && next.query == prev.query
  {
    ToggleFlips(prev.brands, brand);
    prev.(brands := Toggle(prev.brands, brand))
  }

  /** `setCategory`: only the category changes. */
  function SetCategory(prev: Filters, category: string): (next: Filters)
    ensures next.category == category
    ensures next.countries == prev.countries && next.brands == prev.brands && next.query == prev.query
  {
    prev.(category := category)
  }

  /** `setQuery`: only the query changes. */
  function SetQuery(prev: Filters, query: string): (next: Filters)
    ensures next.query == query
    ensures next.countries == prev.countries && next.brands == prev.brands && next.category == prev.category
  {
    prev.(query := query)
  }

  /** `clearFilters`: whatever came before, the initial state. */
  function ClearFilters(prev: Filters): (next: Filters)
    ensures next.countries == [] && next.brands == [] && next.category == "all" && next.query == ""
  {
    INITIAL
  }

  /** Selecting an unselected country and deselecting it again gives back exactly the previous state. */
  lemma ToggleCountryTwice(prev: Filters, code: string)
    requires code !in prev.countries
    ensures ToggleCountry(ToggleCountry(prev, code), code) == prev
  {
    ToggleTwiceRestores(prev.countries, code);
  }

  /** The same for brands. */
  lemma ToggleBrandTwice(prev: Filters, brand: string)
    requires brand !in prev.brands
    ensures ToggleBrand(ToggleBrand(prev, brand), brand) == prev
  {
    ToggleTwiceRestores(prev.brands, brand);
  }

  /** The other selected codes keep their order, and a list without repeats stays without repeats. */
  lemma ToggleCountryKeepsOrder(prev: Filters, code: string)
    ensures Remove(ToggleCountry(prev, code).countries, code) == Remove(prev.countries, code)
    ensures NoDup(prev.countries) ==> NoDup(ToggleCountry(prev, code).countries)
  {
    ToggleKeepsOthers(prev.countries, code);
    if NoDup(prev.countries) {
      ToggleKeepsNoDup(prev.countries, code);
    }
  }

  /** The same for brands. */
  lemma ToggleBrandKeepsOrder(prev: Filters, brand: string)
    ensures Remove(ToggleBrand(prev, brand).brands, brand) == Remove(prev.brands, brand)
    ensures NoDup(prev.brands) ==> NoDup(ToggleBrand(prev, brand).brands)
  {
    ToggleKeepsOthers(prev.brands, brand);
    if NoDup(prev.brands) {
      ToggleKeepsNoDup(prev.brands, brand);
    }
  }
}
