/**
 * The desktop client's state: the products and categories last fetched from
 * the server, and the handlers that compute over them without widgets.
 */
module App {
  import opened Wrappers
  import opened Sequences
  import opened Text
  import opened Catalog
  import opened Charts

  class ProductApp {
    var products: seq<Product>
    var categories: seq<Category>

    /** The client after loading `products` and `categories` from the server. */
    constructor (products: seq<Product>, categories: seq<Category>)
      ensures this.products == products && this.categories == categories
    {
      this.products := products;
      this.categories := categories;
    }

    /**
     * The search tab: apply the active stages one after the other. A price
     * bound that does not parse aborts the search (`None`).
     */
    method SearchProducts(form: SearchForm) returns (result: Option<seq<Product>>)
      ensures result.None? <==> form.minPrice.Malformed? || form.maxPrice.Malformed?
      ensures result.Some? ==> SubsequenceOf(result.value, products)
      ensures result.Some? ==>
                forall i :: 0 <= i < |result.value| ==>
                  result.value[i] in products && Matches(form, categories, result.value[i])
      ensures result.Some? ==>
                forall i :: 0 <= i < |products| && Matches(form, categories, products[i]) ==>
                  products[i] in result.value && multiset(result.value)[products[i]] == multiset(products)[products[i]]
    {
      if form.minPrice.Malformed? || form.maxPrice.Malformed? {
        return None;
      }
      var filtered := FilterStages(products, categories, form);
      result := Some(filtered);
    }

    /**
     * The quantity chart's data: the quantity dictionary's items sorted by
     * value, largest first.
     */
    method QuantityByCategory() returns (bars: seq<(string, int)>)
      ensures bars == QuantityChart(products, categories)
      ensures Total(bars) == TotalQuantity(products)
    {
      var keys, sums := SumQuantities(products, categories);
      var items := seq(|keys|, j requires 0 <= j < |keys| => (keys[j], sums[keys[j]]));
      QuantityItems(items, products, categories);
      bars := Sort(items, MoreUnits);
    }

    /**
     * The average-price chart's data: the price dictionary's lists replaced
     * by their means, and the items sorted by value, largest first.
     */
    method AveragePriceByCategory() returns (bars: seq<(string, real)>)
      ensures bars == AverageChart(products, categories)
    {
      var keys, prices := CollectPrices(products, categories);
      var items := seq(|keys|, j requires 0 <= j < |keys| => (keys[j], Mean(prices[keys[j]])));
      AverageItems(items, products, categories);
      bars := Sort(items, HigherAverage);
    }

    /**
     * The product list: the products sorted by name, each shown with the
     * name of its category.
     */
    method ProductList() returns (rows: seq<(Product, string)>)
      ensures |rows| == |products|
      ensures forall i :: 0 <= i < |rows| ==> rows[i].0 == Sort(products, NameBefore)[i]
      ensures forall i :: 0 <= i < |rows| ==> rows[i].1 == CategoryName(rows[i].0, categories)
    {
      var sorted, cats := Sort(products, NameBefore), categories;
      rows := [];
      var i := 0;
      while i < |sorted|
        invariant 0 <= i <= |sorted|
        invariant |rows| == i
        invariant forall k :: 0 <= k < i ==> rows[k] == (sorted[k], CategoryName(sorted[k], cats))
      {
        rows := rows + [(sorted[i], CategoryName(sorted[i], cats))];
        i := i + 1;
      }
    }

    /**
     * After the server confirmed the deletion (status 200), drop every
     * cached product with that id; any other status leaves the cache alone.
     */
    method DeleteProduct(id: int, status: int)
      modifies this
      ensures categories == old(categories)
      ensures status != 200 ==> products == old(products)
      ensures status == 200 ==> SubsequenceOf(products, old(products))
      ensures status == 200 ==> forall i :: 0 <= i < |products| ==> products[i].id != id && products[i] in old(products)
      ensures status == 200 ==>
                forall i :: 0 <= i < |old(products)| && old(products)[i].id != id ==>
                  old(products)[i] in products && multiset(products)[old(products)[i]] == multiset(old(products))[old(products)[i]]
    {
      if status == 200 {
        products := Filter(products, (p: Product) => p.id != id);
      }
    }

    /**
     * The new-category form: a rejected name sends nothing and changes
     * nothing; an accepted one is posted, and the record the server answers
     * with (if it answered 201) is appended to the cached categories.
     */
    method SaveCategory(raw: string, created: Option<Category>) returns (outcome: Result<string, CategoryError>)
      modifies this
      ensures outcome == ValidateCategoryName(raw, old(categories))
      ensures products == old(products)
      ensures outcome.Failure? || created.None? ==> categories == old(categories)
      ensures outcome.Success? && created.Some? ==> categories == old(categories) + [created.value]
    {
      outcome := ValidateCategoryName(raw, categories);
      if outcome.Success? && created.Some? {
        categories := categories + [created.value];
      }
    }
  }

  /**
   * The loop of the quantity chart: a dictionary from group label to summed
   * quantity, filled in one pass over the products; `keys` is its
   * insertion order.
   */
  method SumQuantities(ps: seq<Product>, cats: seq<Category>) returns (keys: seq<string>, sums: map<string, int>)
    ensures keys == Labels(ps, cats)
    ensures forall k :: k in sums <==> k in keys
    ensures forall k :: k in sums ==> sums[k] == QuantityOf(ps, cats, k)
  {
    keys, sums := [], map[];
    var i := 0;
    while i < |ps|
      invariant 0 <= i <= |ps|
      invariant (keys, sums) == QuantityDict(ps[..i], cats)
    {
      var p := ps[i];
      var group := CategoryName(p, cats);
      if group !in sums {
        keys := keys + [group];
        sums := sums[group := 0];
      }
      sums := sums[group := sums[group] + p.quantity];
      assert ps[..i + 1][..i] == ps[..i];
      i := i + 1;
    }
    assert ps[..i] == ps;
    QuantityDictMeaning(ps, cats);
  }

  /**
   * The loop of the average-price chart: a dictionary from group label to
   * the list of its prices, filled in one pass; no list is empty.
   */
  method CollectPrices(ps: seq<Product>, cats: seq<Category>) returns (keys: seq<string>, prices: map<string, seq<real>>)
    ensures keys == Labels(ps, cats)
    ensures forall k :: k in prices <==> k in keys
    ensures forall k :: k in prices ==> prices[k] == PricesOf(ps, cats, k) && prices[k] != []
  {
    keys, prices := [], map[];
    var i := 0;
    while i < |ps|
      invariant 0 <= i <= |ps|
      invariant (keys, prices) == PriceDict(ps[..i], cats)
    {
      var p := ps[i];
      var group := CategoryName(p, cats);
      if group !in prices {
        keys := keys + [group];
        prices := prices[group := []];
      }
      prices := prices[group := prices[group] + [p.price]];
      assert ps[..i + 1][..i] == ps[..i];
      i := i + 1;
    }
    assert ps[..i] == ps;
    PriceDictMeaning(ps, cats);
  }

  /** The stages of the search, once both price bounds have parsed. */
  method FilterStages(products: seq<Product>, cats: seq<Category>, form: SearchForm) returns (filtered: seq<Product>)
    ensures SubsequenceOf(filtered, products)
    ensures forall i :: 0 <= i < |filtered| ==> filtered[i] in products && Matches(form, cats, filtered[i])
    ensures forall i :: 0 <= i < |products| && Matches(form, cats, products[i]) ==>
              products[i] in filtered && multiset(filtered)[products[i]] == multiset(products)[products[i]]
  {
    var all := (p: Product) => true;
    var byName := (p: Product) => NameMatches(form, p);
    var byCategory := (p: Product) => byName(p) && CategoryMatches(form, cats, p);
    var byMin := (p: Product) => byCategory(p) && (form.minPrice.Parsed? ==> p.price >= form.minPrice.value);
    var byAll := (p: Product) => Matches(form, cats, p);
    SelectedByAll(products, all);
    filtered := NameStage(products, products, form, all, byName);
    filtered := CategoryStage(filtered, products, form, cats, byName, byCategory);
    filtered := MinPriceStage(filtered, products, form, byCategory, byMin);
    filtered := MaxPriceStage(filtered, products, form, byMin, byAll);
    SelectedMatching(filtered, products, form, cats, byAll);
  }

  /** Keep the products whose lower-cased name contains the lower-cased query. */
  method NameStage(filtered: seq<Product>, ghost products: seq<Product>, form: SearchForm,
                   ghost before: Product -> bool, ghost after: Product -> bool) returns (r: seq<Product>)
    requires SelectedBy(filtered, products, before)
    requires forall p :: after(p) <==> before(p) && NameMatches(form, p)
    ensures SelectedBy(r, products, after)
  {
    var q := NameQuery(form);
    var keep := (p: Product) => q.Some? && Contains(Lower(p.name), q.value);
    Narrow(filtered, products, before, q.Some? && q.value != [], keep, after);
    r := filtered;
    if q.Some? && q.value != [] {
      r := Filter(filtered, keep);
    }
  }

  /**
   * Keep the products of the chosen category: its id is that of the first
   * category with that name, and an unknown name or an id of 0 keeps all.
   */
  method CategoryStage(filtered: seq<Product>, ghost products: seq<Product>, form: SearchForm, cats: seq<Category>,
                       ghost before: Product -> bool, ghost after: Product -> bool) returns (r: seq<Product>)
    requires SelectedBy(filtered, products, before)
    requires forall p :: after(p) <==> before(p) && CategoryMatches(form, cats, p)
    ensures SelectedBy(r, products, after)
  {
    var selected := if form.category != Some(ALL_CATEGORIES) then form.category else None;
    var id := if selected.Some? && selected.value != [] then CategoryIdByName(cats, selected.value) else None;
    var keep := (p: Product) => p.categoryId == id;
    Narrow(filtered, products, before, id.Some? && id.value != 0, keep, after);
    r := filtered;
    if id.Some? && id.value != 0 {
      r := Filter(filtered, keep);
    }
  }

  /** Keep the products priced at or above a parsed lower bound. */
  method MinPriceStage(filtered: seq<Product>, ghost products: seq<Product>, form: SearchForm,
                       ghost before: Product -> bool, ghost after: Product -> bool) returns (r: seq<Product>)
    requires SelectedBy(filtered, products, before)
    requires forall p :: after(p) <==> before(p) && (form.minPrice.Parsed? ==> p.price >= form.minPrice.value)
    ensures SelectedBy(r, products, after)
  {
    var keep := (p: Product) => form.minPrice.Parsed? && p.price >= form.minPrice.value;
    Narrow(filtered, products, before, form.minPrice.Parsed?, keep, after);
    r := filtered;
    if form.minPrice.Parsed? {
      r := Filter(filtered, keep);
    }
  }

  /** Keep the products priced at or below a parsed upper bound. */
  method MaxPriceStage(filtered: seq<Product>, ghost products: seq<Product>, form: SearchForm,
                       ghost before: Product -> bool, ghost after: Product -> bool) returns (r: seq<Product>)
    requires SelectedBy(filtered, products, before)
    requires forall p :: after(p) <==> before(p) && (form.maxPrice.Parsed? ==> p.price <= form.maxPrice.value)
    ensures SelectedBy(r, products, after)
  {
    var keep := (p: Product) => form.maxPrice.Parsed? && p.price <= form.maxPrice.value;
    Narrow(filtered, products, before, form.maxPrice.Parsed?, keep, after);
    r := filtered;
    if form.maxPrice.Parsed? {
      r := Filter(filtered, keep);
    }
  }

  /** A selection by `select` is the search result when `select` is the search's test. */
  lemma SelectedMatching(r: seq<Product>, s: seq<Product>, form: SearchForm, cats: seq<Category>, select: Product -> bool)
    requires SelectedBy(r, s, select)
    requires forall p :: select(p) <==> Matches(form, cats, p)
    ensures SubsequenceOf(r, s)
    ensures forall i :: 0 <= i < |r| ==> r[i] in s && Matches(form, cats, r[i])
    ensures forall i :: 0 <= i < |s| && Matches(form, cats, s[i]) ==>
              s[i] in r && multiset(r)[s[i]] == multiset(s)[s[i]]
  {
  }
}
