/**
 * The client's cached entities and the pure logic it applies to them: the
 * category lookups by id and by name, the checks made before a category or
 * a product is sent to the server, and the predicates of the search form.
 */
module Catalog {
  import opened Wrappers
  import opened Text
  import opened Sequences

  /** A product as the client caches it; `categoryId` is `None` when missing or null. */
  datatype Product = Product(id: int, name: string, price: real, quantity: int, categoryId: Option<int>)

  datatype Category = Category(id: int, name: string)

  /** The label of a product whose category cannot be resolved. */
  const NO_CATEGORY: string := "Sem categoria"
  /** The search form's choice that means "any category". */
  const ALL_CATEGORIES: string := "Todas"
  /** The product form's dropdown entry that means "nothing chosen". */
  const PLACEHOLDER: string := "Selecione uma categoria"

  /** `next((c for c in cats if c['id'] == cid), None)` as a position; a missing id matches nothing. */
  function CategoryWithId(cats: seq<Category>, cid: Option<int>): (r: Option<nat>)
    ensures r.Some? ==> r.value < |cats| && cid == Some(cats[r.value].id)
                        && forall j :: 0 <= j < r.value ==> cid != Some(cats[j].id)
    ensures r.None? <==> forall j :: 0 <= j < |cats| ==> cid != Some(cats[j].id)
  {
    if cats == [] then None
    else if cid == Some(cats[0].id) then Some(0)
    else
      match CategoryWithId(cats[1..], cid)
      case None => None
      case Some(k) => Some(k + 1)
  }

  /** The name of the first category whose id is the product's `categoryId`, else `Sem categoria`. */
  function CategoryName(p: Product, cats: seq<Category>): string
  {
    match CategoryWithId(cats, p.categoryId)
    case None => NO_CATEGORY
    case Some(i) => cats[i].name
  }

  /**
   * A product is shown under the name of the first category carrying its
   * `categoryId`; with no such category (or no `categoryId`) it is shown
   * under `Sem categoria`.
   */
  lemma CategoryNameResolves(p: Product, cats: seq<Category>)
    ensures (forall i :: 0 <= i < |cats| ==> p.categoryId != Some(cats[i].id)) ==> CategoryName(p, cats) == NO_CATEGORY
    ensures forall i :: 0 <= i < |cats| && p.categoryId == Some(cats[i].id)
                        && (forall j :: 0 <= j < i ==> p.categoryId != Some(cats[j].id))
                        ==> CategoryName(p, cats) == cats[i].name
  {
  }

  /** `next((c['id'] for c in cats if c['name'] == name), None)`: exact, case-sensitive match. */
  function CategoryIdByName(cats: seq<Category>, name: string): (r: Option<int>)
    ensures r.None? <==> forall i :: 0 <= i < |cats| ==> cats[i].name != name
    ensures forall i :: 0 <= i < |cats| && cats[i].name == name
                        && (forall j :: 0 <= j < i ==> cats[j].name != name)
                        ==> r == Some(cats[i].id)
  {
    if cats == [] then None
    else if cats[0].name == name then Some(cats[0].id)
    else CategoryIdByName(cats[1..], name)
  }

  /** A numeric text field as `float(...)` or `int(...)` reads it: empty, a number, or a `ValueError`. */
  datatype Field<T> = Blank | Parsed(value: T) | Malformed

  datatype CategoryError = CategoryNameRequired | CategoryExists

  /** `name.lower() == other.lower()` */
  predicate SameIgnoringCase(name: string, other: string)
  {
    Lower(name) == Lower(other)
  }

  /**
   * The checks `save_category` makes before posting: the stripped name must
   * be non-empty and must not equal an existing name up to letter case.
   */
  function ValidateCategoryName(raw: string, cats: seq<Category>): (r: Result<string, CategoryError>)
    ensures r == Failure(CategoryNameRequired) <==> forall k :: 0 <= k < |raw| ==> IsSpace(raw[k])
    ensures r == Failure(CategoryExists) <==>
              Strip(raw) != [] && exists i :: 0 <= i < |cats| && SameIgnoringCase(cats[i].name, Strip(raw))
    ensures r.Success? ==> r.value == Strip(raw) && r.value != []
    ensures r.Success? ==> forall i :: 0 <= i < |cats| ==> cats[i].name != r.value
  {
    var name := Strip(raw);
    if name == [] then Failure(CategoryNameRequired)
    else if exists i :: 0 <= i < |cats| && SameIgnoringCase(cats[i].name, name) then Failure(CategoryExists)
    else Success(name)
  }

  datatype ProductError = ProductNameRequired | NotANumber | CategoryRequired

  /** The product `save_product` sends, before the clock reading `createdAt` is added. */
  datatype Draft = Draft(name: string, price: real, quantity: int, categoryId: Option<int>)

  /**
   * The checks `save_product` makes, in order: a non-blank name, numeric
   * price and quantity (an empty field reads as zero), a chosen category;
   * the category is then resolved by exact name.
   */
  function PrepareProduct(rawName: string, price: Field<real>, quantity: Field<int>,
                          selected: Option<string>, cats: seq<Category>): (r: Result<Draft, ProductError>)
    ensures r == Failure(ProductNameRequired) <==> forall k :: 0 <= k < |rawName| ==> IsSpace(rawName[k])
    ensures r == Failure(NotANumber) <==> Strip(rawName) != [] && (price.Malformed? || quantity.Malformed?)
    ensures r == Failure(CategoryRequired) <==>
              && Strip(rawName) != [] && !price.Malformed? && !quantity.Malformed?
              && (selected.None? || selected.value == [] || selected.value == PLACEHOLDER)
    ensures r.Success? ==>
              && r.value.name == Strip(rawName) && r.value.name != []
              && r.value.price == (if price.Parsed? then price.value else 0.0)
              && r.value.quantity == (if quantity.Parsed? then quantity.value else 0)
              && selected.Some? && selected.value != [] && selected.value != PLACEHOLDER
              && r.value.categoryId == CategoryIdByName(cats, selected.value)
  {
    var name := Strip(rawName);
    if name == [] then Failure(ProductNameRequired)
    else if price.Malformed? || quantity.Malformed? then Failure(NotANumber)
    else if selected.None? || selected.value == [] || selected.value == PLACEHOLDER then Failure(CategoryRequired)
    else
      var id := CategoryIdByName(cats, selected.value);
      FirstNameMatch(cats, selected.value);
      Success(Draft(name,
                    if price.Parsed? then price.value else 0.0,
                    if quantity.Parsed? then quantity.value else 0,
                    id))
  }

  /** A name that some category has is the name of a first such category. */
  lemma {:induction false} FirstNameMatch(cats: seq<Category>, name: string)
    ensures CategoryIdByName(cats, name).Some? ==>
              exists i :: 0 <= i < |cats| && cats[i].name == name && CategoryIdByName(cats, name) == Some(cats[i].id)
  {
    if cats != [] && cats[0].name != name {
      FirstNameMatch(cats[1..], name);
      if CategoryIdByName(cats, name).Some? {
        var i :| 0 <= i < |cats| - 1 && cats[1..][i].name == name
                 && CategoryIdByName(cats[1..], name) == Some(cats[1..][i].id);
        assert cats[i + 1].name == name;
      }
    }
  }

  /** The product list's order, `sorted(products, key=lambda x: x['name'])`: by name. */
  predicate NameBefore(a: Product, b: Product)
  {
    LexLess(a.name, b.name)
  }

  lemma NameOrder()
    ensures StrictOrder(NameBefore)
  {
    forall a: Product
      ensures !NameBefore(a, a)
    {
      LexLessIrreflexive(a.name);
    }
    forall a: Product, b: Product, c: Product | NameBefore(a, b) && NameBefore(b, c)
      ensures NameBefore(a, c)
    {
      LexLessTransitive(a.name, b.name, c.name);
    }
  }

  /**
   * The product list's order, `sorted(products, key=name)`: names never
   * decrease, and the listed products are exactly the cached ones.
   */
  lemma SortedByName(ps: seq<Product>)
    ensures |Sort(ps, NameBefore)| == |ps|
    ensures multiset(Sort(ps, NameBefore)) == multiset(ps)
    ensures forall i, j :: 0 <= i < j < |ps| ==> !LexLess(Sort(ps, NameBefore)[j].name, Sort(ps, NameBefore)[i].name)
    ensures forall i, j :: 0 <= i < j < |ps| && Sort(ps, NameBefore)[i].name != Sort(ps, NameBefore)[j].name ==>
              LexLess(Sort(ps, NameBefore)[i].name, Sort(ps, NameBefore)[j].name)
  {
    NameOrder();
    SortSorted(ps, NameBefore);
    var sorted := Sort(ps, NameBefore);
    forall i, j | 0 <= i < j < |ps| && sorted[i].name != sorted[j].name
      ensures LexLess(sorted[i].name, sorted[j].name)
    {
      LexLessTotal(sorted[i].name, sorted[j].name);
    }
  }


  /** The search tab's inputs: name text, category choice and the two price bounds. */
  datatype SearchForm = SearchForm(name: Option<string>, category: Option<string>,
                                   minPrice: Field<real>, maxPrice: Field<real>)

  /** `value.lower() if value else None`. */
  function NameQuery(form: SearchForm): Option<string>
  {
    if form.name.None? || form.name.value == [] then None else Some(Lower(form.name.value))
  }

  /**
   * The category id the search restricts to, if any: none for `Todas`, for
   * an empty choice, for a name no category has, and for a resolved id of 0
   * (falsy in Python).
   */
  function CategoryQuery(form: SearchForm, cats: seq<Category>): (r: Option<int>)
    ensures form.category.None? || form.category == Some(ALL_CATEGORIES) ==> r.None?
    ensures form.category.Some? && CategoryIdByName(cats, form.category.value).None? ==> r.None?
    ensures form.category == Some([]) ==> r.None?
    ensures r.Some? ==> r.value != 0 && form.category.Some? && form.category.value != ALL_CATEGORIES
                        && r == CategoryIdByName(cats, form.category.value)
    ensures form.category.Some? && form.category.value != ALL_CATEGORIES && form.category.value != []
            && CategoryIdByName(cats, form.category.value).Some? && CategoryIdByName(cats, form.category.value).value != 0
            ==> r == CategoryIdByName(cats, form.category.value)
  {
    var selected := if form.category != Some(ALL_CATEGORIES) then form.category else None;
    if selected.None? || selected.value == [] then None
    else
      var id := CategoryIdByName(cats, selected.value);
      if id.None? || id.value == 0 then None else id
  }

  /** The name stage: the lower-cased query occurs in the lower-cased name; no query, no constraint. */
  predicate NameMatches(form: SearchForm, p: Product)
  {
    var q := NameQuery(form);
    q.None? || q.value == [] || Contains(Lower(p.name), q.value)
  }

  /** The category stage. */
  predicate CategoryMatches(form: SearchForm, cats: seq<Category>, p: Product)
  {
    var c := CategoryQuery(form, cats);
    c.None? || p.categoryId == c
  }

  /** The two price stages; both bounds are inclusive and a blank bound imposes nothing. */
  predicate PriceMatches(form: SearchForm, p: Product)
  {
    && (form.minPrice.Parsed? ==> p.price >= form.minPrice.value)
    && (form.maxPrice.Parsed? ==> p.price <= form.maxPrice.value)
  }

  /** A product passes every active stage of the search. */
  predicate Matches(form: SearchForm, cats: seq<Category>, p: Product)
  {
    NameMatches(form, p) && CategoryMatches(form, cats, p) && PriceMatches(form, p)
  }

  /** The name stage ignores letter case on both sides. */
  lemma NameMatchIgnoresCase(form: SearchForm, p: Product)
    requires form.name.Some? && form.name.value != []
    ensures NameMatches(form, p) <==> Contains(Lower(p.name), Lower(form.name.value))
  {
  }

  /** A name that contains the query literally is found, whatever the letter case. */
  lemma NameMatchFindsLiteral(form: SearchForm, p: Product)
    requires form.name.Some? && Contains(p.name, form.name.value)
    ensures NameMatches(form, p)
  {
    if form.name.value != [] {
      ContainsLower(p.name, form.name.value);
    }
  }
}
