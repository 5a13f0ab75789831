/**
 * The inventory store of the REST server: two lists of JSON records,
 * products and categories, held in memory and written out wholesale to a
 * snapshot file after every change. One method per route handler.
 */
module InventoryStore {
  import opened Wrappers
  import opened Sequences

  /** A JSON scalar as the server keeps it. */
  datatype Value = Null | Bool(b: bool) | Int(i: int) | Num(r: real) | Str(s: string)

  /** A product or a category: a JSON object from field name to value. */
  type Record = map<string, Value>

  const ID: string := "id"
  const CREATED_AT: string := "createdAt"

  /** The Python exceptions a handler can raise before it changes anything. */
  datatype Exception = ValueError | TypeError

  /** A handler's answer: a status code and a JSON body, or an uncaught exception. */
  datatype Reply = Reply(status: int, body: Record) | Raised(exception: Exception)

  const NOT_FOUND: Record := map["error" := Str("Product not found")]
  const DELETED: Record := map["message" := Str("Product deleted")]

  /** `r['id'] == id` for a path identifier `id`. */
  predicate HasId(r: Record, id: int)
  {
    ID in r && r[ID] == Int(id)
  }

  predicate HasIntId(r: Record)
  {
    ID in r && r[ID].Int?
  }

  predicate AllIntIds(s: seq<Record>)
  {
    forall i :: 0 <= i < |s| ==> HasIntId(s[i])
  }

  ghost predicate AllHaveIds(s: seq<Record>)
  {
    forall i :: 0 <= i < |s| ==> ID in s[i]
  }

  /** No two records of `s` carry the same `id` value. */
  ghost predicate UniqueIds(s: seq<Record>)
  {
    AllHaveIds(s) && forall i, j :: 0 <= i < j < |s| ==> s[i][ID] != s[j][ID]
  }

  /** `next((p for p in s if p['id'] == id), None)`, as a position. */
  function FirstWithId(s: seq<Record>, id: int): (r: Option<nat>)
    ensures r.Some? ==> r.value < |s| && HasId(s[r.value], id)
                        && forall j :: 0 <= j < r.value ==> !HasId(s[j], id)
    ensures r.None? <==> forall j :: 0 <= j < |s| ==> !HasId(s[j], id)
  {
    if s == [] then None
    else if HasId(s[0], id) then Some(0)
    else
      match FirstWithId(s[1..], id)
      case None => None
      case Some(k) => Some(k + 1)
  }

  /** `max(r['id'] for r in s)`. */
  function MaxId(s: seq<Record>): (m: int)
    requires s != [] && AllIntIds(s)
    ensures forall i :: 0 <= i < |s| ==> s[i][ID].i <= m
    ensures exists i :: 0 <= i < |s| && s[i][ID].i == m
  {
    if |s| == 1 then s[0][ID].i
    else
      var rest := MaxId(s[1..]);
      if s[0][ID].i >= rest then s[0][ID].i else rest
  }

  /**
   * The identifier `create_product` computes: the largest id plus one. There
   * is no fallback for an empty list: `max` of nothing raises `ValueError`.
   * An `id` that an update replaced by a non-integer makes it raise as well.
   */
  function NextProductId(s: seq<Record>): (r: Result<int, Exception>)
    ensures s == [] ==> r == Failure(ValueError)
    ensures r.Success? <==> s != [] && AllIntIds(s)
    ensures r.Success? ==> r.value == MaxId(s) + 1
  {
    if s == [] then Failure(ValueError)
    else if !AllIntIds(s) then Failure(TypeError)
    else Success(MaxId(s) + 1)
  }

  /** The identifier `create_category` computes: 1 for an empty list, else the largest id plus one. */
  function NextCategoryId(s: seq<Record>): (r: int)
    requires AllIntIds(s)
    ensures forall i :: 0 <= i < |s| ==> s[i][ID].i < r
    ensures s == [] ==> r == 1
    ensures s != [] ==> exists i :: 0 <= i < |s| && s[i][ID].i == r - 1
  {
    if s == [] then 1 else MaxId(s) + 1
  }

  /** `record.update(body)`: the keys of `body` are overwritten or added, all other keys kept. */
  function Merge(record: Record, body: Record): (m: Record)
    ensures m.Keys == record.Keys + body.Keys
    ensures forall k :: k in body ==> m[k] == body[k]
    ensures forall k :: k in record && k !in body ==> m[k] == record[k]
  {
    record + body
  }

  /** `[p for p in s if p['id'] != id]`. */
  function WithoutId(s: seq<Record>, id: int): (r: seq<Record>)
    ensures forall i :: 0 <= i < |r| ==> !HasId(r[i], id)
    ensures forall i :: 0 <= i < |s| && !HasId(s[i], id) ==> s[i] in r && multiset(r)[s[i]] == multiset(s)[s[i]]
    ensures SubsequenceOf(r, s)
    ensures FirstWithId(s, id).None? ==> r == s
  {
    var keep := (p: Record) => !HasId(p, id);
    if FirstWithId(s, id).None? then
      FilterKeepsAll(s, keep);
      Filter(s, keep)
    else
      Filter(s, keep)
  }

  /** A record whose id exceeds every id of a list with unique ids can be appended keeping them unique. */
  lemma AppendFreshKeepsUnique(s: seq<Record>, record: Record, id: int)
    requires UniqueIds(s) && AllIntIds(s)
    requires forall i :: 0 <= i < |s| ==> s[i][ID].i < id
    requires HasId(record, id)
    ensures UniqueIds(s + [record])
  {
  }

  /** Posting twice in a row yields consecutive category ids, whatever the bodies. */
  lemma {:induction false} ConsecutiveCategoryIds(s: seq<Record>, body: Record)
    requires AllIntIds(s)
    ensures AllIntIds(s + [body[ID := Int(NextCategoryId(s))]])
    ensures NextCategoryId(s + [body[ID := Int(NextCategoryId(s))]]) == NextCategoryId(s) + 1
  {
    var n := NextCategoryId(s);
    var t: seq<Record> := s + [body[ID := Int(n)]];
    assert t[|s|][ID].i == n;
    var m := MaxId(t);
  }

  /** An update whose body has no `id` key keeps product ids unique. */
  lemma UpdateKeepsUnique(s: seq<Record>, i: nat, body: Record)
    requires UniqueIds(s) && i < |s| && ID !in body
    ensures UniqueIds(s[i := Merge(s[i], body)])
  {
  }

  function SeedProducts(t1: string, t2: string, t3: string): seq<Record>
  {
    [ map[ID := Int(1), "name" := Str("Notebook Dell"), "price" := Num(4500.0),
          "quantity" := Int(10), "categoryId" := Int(1), CREATED_AT := Str(t1)],
      map[ID := Int(2), "name" := Str("iPhone 13"), "price" := Num(6000.0),
          "quantity" := Int(15), "categoryId" := Int(2), CREATED_AT := Str(t2)],
      map[ID := Int(3), "name" := Str("Monitor LG"), "price" := Num(1200.0),
          "quantity" := Int(8), "categoryId" := Int(3), CREATED_AT := Str(t3)] ]
  }

  const SEED_CATEGORIES: seq<Record> :=
    [ map[ID := Int(1), "name" := Str("Notebooks")],
      map[ID := Int(2), "name" := Str("Celulares")],
      map[ID := Int(3), "name" := Str("Monitores")] ]

  /**
   * The server's `data` dictionary. `savedProducts` and `savedCategories`
   * are the contents of the snapshot file as last written.
   */
  class Store {
    var products: seq<Record>
    var categories: seq<Record>
    var savedProducts: seq<Record>
    var savedCategories: seq<Record>

    /** Every product has an `id`; every category has an integer `id`. */
    ghost predicate Valid()
      reads this
    {
      AllHaveIds(products) && AllIntIds(categories)
    }

    /** The snapshot file holds the current state. */
    ghost predicate Persisted()
      reads this
    {
      savedProducts == products && savedCategories == categories
    }

    /** The seeded data, written to the snapshot at start-up; `t1`..`t3` are the clock readings. */
    constructor (t1: string, t2: string, t3: string)
      ensures Valid() && Persisted()
      ensures products == SeedProducts(t1, t2, t3) && categories == SEED_CATEGORIES
      ensures UniqueIds(products) && UniqueIds(categories)
    {
      products := SeedProducts(t1, t2, t3);
      categories := SEED_CATEGORIES;
      savedProducts := products;
      savedCategories := categories;
    }

    /** GET /products. */
    method GetProducts() returns (list: seq<Record>)
      ensures list == products
    {
      list := products;
    }

    /** GET /products/{id}: the first product with that id, else 404. */
    method GetProduct(id: int) returns (reply: Reply)
      ensures reply.Reply?
      ensures reply.status == 200 <==> exists i :: 0 <= i < |products| && HasId(products[i], id)
      ensures reply.status == 200 ==>
                exists i :: 0 <= i < |products| && reply.body == products[i] && HasId(products[i], id)
                            && forall j :: 0 <= j < i ==> !HasId(products[j], id)
      ensures reply.status != 200 ==> reply == Reply(404, NOT_FOUND)
    {
      var found := FirstWithId(products, id);
      if found.Some? {
        reply := Reply(200, products[found.value]);
      } else {
        reply := Reply(404, NOT_FOUND);
      }
    }

    /** POST /products: give the body the next id and the clock reading `now`, then append it. */
    method CreateProduct(body: Record, now: string) returns (reply: Reply)
      requires Valid()
      modifies this
      ensures Valid() && categories == old(categories)
      ensures old(products) == [] ==> reply == Raised(ValueError)
      ensures reply.Raised? <==> !(old(products) != [] && AllIntIds(old(products)))
      ensures reply.Raised? ==>
                products == old(products) && savedProducts == old(savedProducts)
                && savedCategories == old(savedCategories)
      ensures old(products) != [] && AllIntIds(old(products)) ==>
                && reply == Reply(201, body[ID := Int(MaxId(old(products)) + 1)][CREATED_AT := Str(now)])
                && products == old(products) + [reply.body]
                && Persisted()
      ensures old(UniqueIds(products)) ==> UniqueIds(products)
    {
      var next := NextProductId(products);
      if next.Failure? {
        reply := Raised(next.error);
        return;
      }
      var created := body[ID := Int(next.value)][CREATED_AT := Str(now)];
      ghost var before := products;
      products := products + [created];
      if UniqueIds(before) {
        AppendFreshKeepsUnique(before, created, next.value);
      }
      savedProducts, savedCategories := products, categories;
      reply := Reply(201, created);
    }

    /** PUT /products/{id}: merge the body into the first product with that id, else 404. */
    method UpdateProduct(id: int, body: Record) returns (reply: Reply)
      requires Valid()
      modifies this
      ensures Valid() && categories == old(categories)
      ensures FirstWithId(old(products), id).None? ==>
                && reply == Reply(404, NOT_FOUND)
                && products == old(products)
                && savedProducts == old(savedProducts) && savedCategories == old(savedCategories)
      ensures FirstWithId(old(products), id).Some? ==>
                var i := FirstWithId(old(products), id).value;
                && products == old(products)[i := Merge(old(products)[i], body)]
                && reply == Reply(200, products[i])
                && Persisted()
      ensures ID !in body && old(UniqueIds(products)) ==> UniqueIds(products)
    {
      var found := FirstWithId(products, id);
      if found.None? {
        reply := Reply(404, NOT_FOUND);
        return;
      }
      var i := found.value;
      if ID !in body && UniqueIds(products) {
        UpdateKeepsUnique(products, i, body);
      }
      products := products[i := Merge(products[i], body)];
      savedProducts, savedCategories := products, categories;
      reply := Reply(200, products[i]);
    }

    /** DELETE /products/{id}: drop every product with that id; always 200. */
    method DeleteProduct(id: int) returns (reply: Reply)
      requires Valid()
      modifies this
      ensures Valid() && categories == old(categories) && Persisted()
      ensures products == WithoutId(old(products), id)
      ensures forall i :: 0 <= i < |products| ==> !HasId(products[i], id)
      ensures SubsequenceOf(products, old(products))
      ensures FirstWithId(old(products), id).None? ==> products == old(products)
      ensures reply == Reply(200, DELETED)
      ensures old(UniqueIds(products)) ==> UniqueIds(products)
    {
      ghost var before := products;
      products := WithoutId(products, id);
      if UniqueIds(before) {
        SubsequenceKeepsUnique(products, before);
      }
      savedProducts, savedCategories := products, categories;
      reply := Reply(200, DELETED);
    }

    /** GET /categories. */
    method GetCategories() returns (list: seq<Record>)
      ensures list == categories
    {
      list := categories;
    }

    /** POST /categories: give the body the next id and append it; names are not checked. */
    method CreateCategory(body: Record) returns (reply: Reply)
      requires Valid()
      modifies this
      ensures Valid() && products == old(products) && Persisted()
      ensures reply == Reply(201, body[ID := Int(NextCategoryId(old(categories)))])
      ensures categories == old(categories) + [reply.body]
      ensures old(UniqueIds(categories)) ==> UniqueIds(categories)
    {
      var created := body[ID := Int(NextCategoryId(categories))];
      ghost var before := categories;
      categories := categories + [created];
      if UniqueIds(before) {
        AppendFreshKeepsUnique(before, created, NextCategoryId(before));
      }
      savedProducts, savedCategories := products, categories;
      reply := Reply(201, created);
    }
  }

  /** A subsequence of a list with unique ids has unique ids. */
  lemma {:induction false} SubsequenceKeepsUnique(a: seq<Record>, b: seq<Record>)
    requires SubsequenceOf(a, b) && UniqueIds(b)
    ensures UniqueIds(a)
    decreases |b|
  {
    if a != [] {
      if a[0] == b[0] && SubsequenceOf(a[1..], b[1..]) {
        SubsequenceKeepsUnique(a[1..], b[1..]);
        SubsequenceElements(a[1..], b[1..]);
      } else {
        SubsequenceKeepsUnique(a, b[1..]);
      }
    }
  }

  /** Every element of a subsequence is an element of the sequence. */
  lemma {:induction false} SubsequenceElements<T>(a: seq<T>, b: seq<T>)
    requires SubsequenceOf(a, b)
    ensures forall i :: 0 <= i < |a| ==> a[i] in b
    decreases |b|
  {
    if a != [] {
      if a[0] == b[0] && SubsequenceOf(a[1..], b[1..]) {
        SubsequenceElements(a[1..], b[1..]);
      } else {
        SubsequenceElements(a, b[1..]);
      }
    }
  }

  /**
   * POST /categories twice with the same body: both are accepted, with
   * consecutive ids and otherwise equal records.
   */
  method PostCategoryTwice(store: Store, body: Record) returns (first: Reply, second: Reply)
    requires store.Valid()
    modifies store
    ensures store.Valid()
    ensures first.Reply? && second.Reply? && first.status == 201 && second.status == 201
    ensures ID in first.body && first.body[ID].Int?
    ensures second.body == first.body[ID := Int(first.body[ID].i + 1)]
    ensures first.body[ID] == Int(NextCategoryId(old(store.categories)))
    ensures store.categories == old(store.categories) + [first.body, second.body]
    ensures store.products == old(store.products) && store.Persisted()
  {
    ghost var before := store.categories;
    first := store.CreateCategory(body);
    ConsecutiveCategoryIds(before, body);
    second := store.CreateCategory(body);
  }
}
