/**
 * The aggregations behind the two per-category bar charts: products are
 * grouped by the name of their category (`Sem categoria` when it cannot be
 * resolved), quantities are summed and prices averaged per group, and the
 * bars are sorted by value, largest first.
 */
module Charts {
  import opened Wrappers
  import opened Sequences
  import opened Catalog

  /**
   * The group labels in order of first appearance: the keys of the
   * dictionary the chart loops build, in insertion order.
   */
  function Labels(ps: seq<Product>, cats: seq<Category>): seq<string>
  {
    if ps == [] then []
    else
      var g := Labels(ps[..|ps| - 1], cats);
      var n := CategoryName(ps[|ps| - 1], cats);
      if n in g then g else g + [n]
  }

  /** No label is listed twice. */
  lemma {:induction false} LabelsDistinct(ps: seq<Product>, cats: seq<Category>)
    ensures forall i, j :: 0 <= i < j < |Labels(ps, cats)| ==> Labels(ps, cats)[i] != Labels(ps, cats)[j]
  {
    if ps != [] {
      var g := Labels(ps[..|ps| - 1], cats);
      var n := CategoryName(ps[|ps| - 1], cats);
      LabelsDistinct(ps[..|ps| - 1], cats);
      if n !in g {
        var labels := g + [n];
        forall i, j | 0 <= i < j < |labels|
          ensures labels[i] != labels[j]
        {
          assert labels[i] == g[i];
          if j < |g| {
            assert labels[j] == g[j];
            assert g[i] != g[j];
          } else {
            assert labels[j] == n;
            assert g[i] in g;
          }
        }
        assert Labels(ps, cats) == labels;
      }
    }
  }

  /** Every product's group is among the labels. */
  lemma {:induction false} LabelsCover(ps: seq<Product>, cats: seq<Category>)
    ensures forall k :: 0 <= k < |ps| ==> CategoryName(ps[k], cats) in Labels(ps, cats)
  {
    if ps != [] {
      var init := ps[..|ps| - 1];
      LabelsCover(init, cats);
      assert forall k :: 0 <= k < |init| ==> init[k] == ps[k];
    }
  }

  /** Every label is the group of some product. */
  lemma {:induction false} LabelsFromProducts(ps: seq<Product>, cats: seq<Category>)
    ensures forall l :: l in Labels(ps, cats) ==> exists k :: 0 <= k < |ps| && CategoryName(ps[k], cats) == l
  {
    if ps != [] {
      var init := ps[..|ps| - 1];
      LabelsFromProducts(init, cats);
      forall l | l in Labels(ps, cats)
        ensures exists k :: 0 <= k < |ps| && CategoryName(ps[k], cats) == l
      {
        if l in Labels(init, cats) {
          var k :| 0 <= k < |init| && CategoryName(init[k], cats) == l;
          assert init[k] == ps[k];
        } else {
          assert CategoryName(ps[|ps| - 1], cats) == l;
        }
      }
    }
  }

  /** The three facts about the labels together. */
  lemma LabelsFacts(ps: seq<Product>, cats: seq<Category>)
    ensures var labels := Labels(ps, cats);
            && (forall i, j :: 0 <= i < j < |labels| ==> labels[i] != labels[j])
            && (forall k :: 0 <= k < |ps| ==> CategoryName(ps[k], cats) in labels)
            && (forall l :: l in labels ==> exists k :: 0 <= k < |ps| && CategoryName(ps[k], cats) == l)
  {
    LabelsDistinct(ps, cats);
    LabelsCover(ps, cats);
    LabelsFromProducts(ps, cats);
  }

  /** The summed quantity of the products labelled `group`. */
  function QuantityOf(ps: seq<Product>, cats: seq<Category>, group: string): int
  {
    if ps == [] then 0
    else
      var p := ps[|ps| - 1];
      QuantityOf(ps[..|ps| - 1], cats, group) + (if CategoryName(p, cats) == group then p.quantity else 0)
  }

  function TotalQuantity(ps: seq<Product>): int
  {
    if ps == [] then 0 else TotalQuantity(ps[..|ps| - 1]) + ps[|ps| - 1].quantity
  }

  /** The prices of the products labelled `group`, in list order. */
  function PricesOf(ps: seq<Product>, cats: seq<Category>, group: string): seq<real>
  {
    if ps == [] then []
    else
      var p := ps[|ps| - 1];
      PricesOf(ps[..|ps| - 1], cats, group) + (if CategoryName(p, cats) == group then [p.price] else [])
  }

  function Sum(xs: seq<real>): real
  {
    if xs == [] then 0.0 else Sum(xs[..|xs| - 1]) + xs[|xs| - 1]
  }

  /** `sum(v) / len(v)`, in exact arithmetic. */
  function Mean(xs: seq<real>): (m: real)
    requires xs != []
    ensures m * (|xs| as real) == Sum(xs)
  {
    Sum(xs) / (|xs| as real)
  }

  function Label<V>(bar: (string, V)): string
  {
    bar.0
  }

  /** The quantity dictionary's items: one bar per group. */
  function QuantityTable(labels: seq<string>, ps: seq<Product>, cats: seq<Category>): seq<(string, int)>
  {
    seq(|labels|, i requires 0 <= i < |labels| => (labels[i], QuantityOf(ps, cats, labels[i])))
  }

  /** The average dictionary's items: one bar per group, each over a non-empty group. */
  function AverageTable(labels: seq<string>, ps: seq<Product>, cats: seq<Category>): seq<(string, real)>
    requires forall l :: l in labels ==> PricesOf(ps, cats, l) != []
  {
    seq(|labels|, i requires 0 <= i < |labels| => (labels[i], Mean(PricesOf(ps, cats, labels[i]))))
  }

  /** The sum of the bars' values. */
  function Total(bars: seq<(string, int)>): int
  {
    if bars == [] then 0 else bars[0].1 + Total(bars[1..])
  }

  /** The sort order of both charts (`key=lambda x: x[1], reverse=True`): a larger value goes first. */
  predicate MoreUnits(a: (string, int), b: (string, int))
  {
    a.1 > b.1
  }

  predicate HigherAverage(a: (string, real), b: (string, real))
  {
    a.1 > b.1
  }

  /** One more product adds its label to the list only if it is new. */
  lemma LabelsSnoc(ps: seq<Product>, p: Product, cats: seq<Category>)
    ensures var g := Labels(ps, cats);
            var n := CategoryName(p, cats);
            Labels(ps + [p], cats) == if n in g then g else g + [n]
  {
    assert (ps + [p])[..|ps|] == ps;
  }

  /** One more product adds its quantity to its own group only. */
  lemma QuantityOfSnoc(ps: seq<Product>, p: Product, cats: seq<Category>, group: string)
    ensures QuantityOf(ps + [p], cats, group) == QuantityOf(ps, cats, group) + (if CategoryName(p, cats) == group then p.quantity else 0)
  {
    assert (ps + [p])[..|ps|] == ps;
  }

  /** One more product appends its price to its own group only. */
  lemma PricesOfSnoc(ps: seq<Product>, p: Product, cats: seq<Category>, group: string)
    ensures PricesOf(ps + [p], cats, group) == PricesOf(ps, cats, group) + (if CategoryName(p, cats) == group then [p.price] else [])
  {
    assert (ps + [p])[..|ps|] == ps;
  }

  lemma {:induction false} QuantityOfUnlabelled(ps: seq<Product>, cats: seq<Category>, group: string)
    requires forall k :: 0 <= k < |ps| ==> CategoryName(ps[k], cats) != group
    ensures QuantityOf(ps, cats, group) == 0
  {
    if ps != [] {
      QuantityOfUnlabelled(ps[..|ps| - 1], cats, group);
    }
  }

  lemma {:induction false} PricesOfUnlabelled(ps: seq<Product>, cats: seq<Category>, group: string)
    requires forall k :: 0 <= k < |ps| ==> CategoryName(ps[k], cats) != group
    ensures PricesOf(ps, cats, group) == []
  {
    if ps != [] {
      PricesOfUnlabelled(ps[..|ps| - 1], cats, group);
    }
  }

  lemma {:induction false} TotalAppend(a: seq<(string, int)>, b: seq<(string, int)>)
    ensures Total(a + b) == Total(a) + Total(b)
  {
    if a == [] {
      assert a + b == b;
    } else {
      assert (a + b)[1..] == a[1..] + b;
      TotalAppend(a[1..], b);
    }
  }

  /** Adding a product to the list adds its quantity to exactly the bar of its group. */
  lemma {:induction false} QuantityTableStep(labels: seq<string>, ps: seq<Product>, p: Product, cats: seq<Category>)
    requires forall i, j :: 0 <= i < j < |labels| ==> labels[i] != labels[j]
    ensures Total(QuantityTable(labels, ps + [p], cats))
            == Total(QuantityTable(labels, ps, cats)) + (if CategoryName(p, cats) in labels then p.quantity else 0)
  {
    var ps' := ps + [p];
    assert ps'[..|ps'| - 1] == ps;
    if labels != [] {
      assert QuantityTable(labels, ps', cats)[1..] == QuantityTable(labels[1..], ps', cats);
      assert QuantityTable(labels, ps, cats)[1..] == QuantityTable(labels[1..], ps, cats);
      QuantityTableStep(labels[1..], ps, p, cats);
      assert CategoryName(p, cats) in labels <==> CategoryName(p, cats) == labels[0] || CategoryName(p, cats) in labels[1..];
    }
  }

  /** The bars together account for every product's quantity exactly once. */
  lemma {:induction false} QuantityTableTotal(ps: seq<Product>, cats: seq<Category>)
    ensures Total(QuantityTable(Labels(ps, cats), ps, cats)) == TotalQuantity(ps)
  {
    if ps != [] {
      var init, p := ps[..|ps| - 1], ps[|ps| - 1];
      assert ps == init + [p];
      var g := Labels(init, cats);
      var n := CategoryName(p, cats);
      LabelsDistinct(init, cats);
      LabelsCover(init, cats);
      QuantityTableTotal(init, cats);
      QuantityTableStep(g, init, p, cats);
      if n !in g {
        assert QuantityTable(g + [n], ps, cats) == QuantityTable(g, ps, cats) + [(n, QuantityOf(ps, cats, n))];
        TotalAppend(QuantityTable(g, ps, cats), [(n, QuantityOf(ps, cats, n))]);
        QuantityOfUnlabelled(init, cats, n);
      }
    }
  }

  lemma {:induction false} TotalInsert(x: (string, int), s: seq<(string, int)>)
    ensures Total(Insert(x, s, MoreUnits)) == x.1 + Total(s)
  {
    if s != [] && !MoreUnits(x, s[0]) {
      TotalInsert(x, s[1..]);
    }
  }

  lemma {:induction false} TotalSort(s: seq<(string, int)>)
    ensures Total(Sort(s, MoreUnits)) == Total(s)
  {
    if s != [] {
      var init, last := s[..|s| - 1], s[|s| - 1];
      var sorted := Sort(init, MoreUnits);
      assert Sort(s, MoreUnits) == Insert(last, sorted, MoreUnits);
      TotalSort(init);
      TotalInsert(last, sorted);
      TotalSnoc(s);
    }
  }

  lemma {:induction false} TotalSnoc(s: seq<(string, int)>)
    requires s != []
    ensures Total(s) == Total(s[..|s| - 1]) + s[|s| - 1].1
  {
    if |s| > 1 {
      assert s[1..][..|s| - 2] == s[..|s| - 1][1..];
      TotalSnoc(s[1..]);
    }
  }

  /** Every group names at least one product, so no group's price list is empty. */
  lemma {:induction false} PricesNonEmpty(ps: seq<Product>, cats: seq<Category>, k: nat)
    requires k < |ps|
    ensures PricesOf(ps, cats, CategoryName(ps[k], cats)) != []
  {
    if k < |ps| - 1 {
      PricesNonEmpty(ps[..|ps| - 1], cats, k);
    }
  }

  lemma LabelsHavePrices(ps: seq<Product>, cats: seq<Category>)
    ensures forall l :: l in Labels(ps, cats) ==> PricesOf(ps, cats, l) != []
  {
    LabelsFromProducts(ps, cats);
    forall l | l in Labels(ps, cats)
      ensures PricesOf(ps, cats, l) != []
    {
      var k :| 0 <= k < |ps| && CategoryName(ps[k], cats) == l;
      PricesNonEmpty(ps, cats, k);
    }
  }

  lemma StrictOrders()
    ensures StrictOrder(MoreUnits) && StrictOrder(HigherAverage)
  {
  }

  /** The quantity table has one bar per label, carrying that group's summed quantity. */
  lemma QuantityTableFacts(ps: seq<Product>, cats: seq<Category>)
    ensures var table := QuantityTable(Labels(ps, cats), ps, cats);
            && DistinctBy(table, Label)
            && (forall i :: 0 <= i < |table| ==> table[i].1 == QuantityOf(ps, cats, table[i].0))
            && (forall k :: 0 <= k < |ps| ==> exists i :: 0 <= i < |table| && table[i].0 == CategoryName(ps[k], cats))
  {
    var labels := Labels(ps, cats);
    LabelsFacts(ps, cats);
    var table := QuantityTable(labels, ps, cats);
    forall k | 0 <= k < |ps|
      ensures exists i :: 0 <= i < |table| && table[i].0 == CategoryName(ps[k], cats)
    {
      var i :| 0 <= i < |labels| && labels[i] == CategoryName(ps[k], cats);
      assert table[i].0 == labels[i];
    }
  }

  /** The average table has one bar per label, carrying the mean price of that non-empty group. */
  lemma AverageTableFacts(ps: seq<Product>, cats: seq<Category>)
    ensures forall l :: l in Labels(ps, cats) ==> PricesOf(ps, cats, l) != []
    ensures var table := AverageTable(Labels(ps, cats), ps, cats);
            && DistinctBy(table, Label)
            && (forall i :: 0 <= i < |table| ==>
                  var prices := PricesOf(ps, cats, table[i].0);
                  prices != [] && table[i].1 == Mean(prices))
            && (forall k :: 0 <= k < |ps| ==> exists i :: 0 <= i < |table| && table[i].0 == CategoryName(ps[k], cats))
  {
    var labels := Labels(ps, cats);
    LabelsFacts(ps, cats);
    LabelsHavePrices(ps, cats);
    var table := AverageTable(labels, ps, cats);
    forall k | 0 <= k < |ps|
      ensures exists i :: 0 <= i < |table| && table[i].0 == CategoryName(ps[k], cats)
    {
      var i :| 0 <= i < |labels| && labels[i] == CategoryName(ps[k], cats);
      assert table[i].0 == labels[i];
    }
  }

  /**
   * The bars of the quantity chart: one per label, each the summed quantity
   * of its group, ordered by value with the largest first; together they
   * add up to the total quantity.
   */
  function QuantityChart(ps: seq<Product>, cats: seq<Category>): (bars: seq<(string, int)>)
    ensures forall i, j :: 0 <= i < j < |bars| ==> bars[i].1 >= bars[j].1
    ensures multiset(bars) == multiset(QuantityTable(Labels(ps, cats), ps, cats))
    ensures forall i, j :: 0 <= i < j < |bars| ==> bars[i].0 != bars[j].0
    ensures forall i :: 0 <= i < |bars| ==> bars[i].1 == QuantityOf(ps, cats, bars[i].0)
    ensures forall k :: 0 <= k < |ps| ==> exists i :: 0 <= i < |bars| && bars[i].0 == CategoryName(ps[k], cats)
    ensures Total(bars) == TotalQuantity(ps)
  {
    var table := QuantityTable(Labels(ps, cats), ps, cats);
    StrictOrders();
    SortSorted(table, MoreUnits);
    QuantityTableFacts(ps, cats);
    SortDistinct(table, MoreUnits, Label);
    SortSameElements(table, MoreUnits);
    TotalSort(table);
    QuantityTableTotal(ps, cats);
    Sort(table, MoreUnits)
  }

  /**
   * The bars of the average-price chart: one per label, each the mean price
   * of a non-empty group, ordered by value with the largest first.
   */
  function AverageChart(ps: seq<Product>, cats: seq<Category>): (bars: seq<(string, real)>)
    ensures forall i, j :: 0 <= i < j < |bars| ==> bars[i].1 >= bars[j].1
    ensures forall i, j :: 0 <= i < j < |bars| ==> bars[i].0 != bars[j].0
    ensures forall i :: 0 <= i < |bars| ==>
              var prices := PricesOf(ps, cats, bars[i].0);
              prices != [] && bars[i].1 == Mean(prices)
    ensures forall k :: 0 <= k < |ps| ==> exists i :: 0 <= i < |bars| && bars[i].0 == CategoryName(ps[k], cats)
    ensures forall i :: 0 <= i < |bars| ==> bars[i].0 in Labels(ps, cats)
  {
    AverageTableFacts(ps, cats);
    var table := AverageTable(Labels(ps, cats), ps, cats);
    StrictOrders();
    SortSorted(table, HigherAverage);
    SortDistinct(table, HigherAverage, Label);
    SortSameElements(table, HigherAverage);
    Sort(table, HigherAverage)
  }

  /** Any list holding the quantity dictionary's items, in label order, sorts into the quantity chart. */
  lemma QuantityItems(items: seq<(string, int)>, ps: seq<Product>, cats: seq<Category>)
    requires var labels := Labels(ps, cats);
             |items| == |labels| &&
             forall j :: 0 <= j < |items| ==> items[j] == (labels[j], QuantityOf(ps, cats, labels[j]))
    ensures Sort(items, MoreUnits) == QuantityChart(ps, cats)
  {
    assert items == QuantityTable(Labels(ps, cats), ps, cats);
  }

  /** Any list holding the average dictionary's items, in label order, sorts into the average chart. */
  lemma AverageItems(items: seq<(string, real)>, ps: seq<Product>, cats: seq<Category>)
    requires var labels := Labels(ps, cats);
             |items| == |labels| &&
             forall j :: 0 <= j < |items| ==>
               PricesOf(ps, cats, labels[j]) != [] && items[j] == (labels[j], Mean(PricesOf(ps, cats, labels[j])))
    ensures Sort(items, HigherAverage) == AverageChart(ps, cats)
  {
    AverageTableFacts(ps, cats);
    assert items == AverageTable(Labels(ps, cats), ps, cats);
  }

  /** With two groups, the one with more units comes first. */
  lemma TwoGroupQuantityChart(ps: seq<Product>, cats: seq<Category>, a: string, b: string, qa: int, qb: int)
    requires Labels(ps, cats) == [a, b]
    requires QuantityOf(ps, cats, a) == qa && QuantityOf(ps, cats, b) == qb
    requires qa >= qb
    ensures QuantityChart(ps, cats) == [(a, qa), (b, qb)]
  {
    QuantityItems([(a, qa), (b, qb)], ps, cats);
    SortTwo((a, qa), (b, qb), MoreUnits);
  }

  /** With two groups, the one with the higher mean price comes first. */
  lemma TwoGroupAverageChart(ps: seq<Product>, cats: seq<Category>, a: string, b: string, ma: real, mb: real)
    requires Labels(ps, cats) == [a, b]
    requires PricesOf(ps, cats, a) != [] && Mean(PricesOf(ps, cats, a)) == ma
    requires PricesOf(ps, cats, b) != [] && Mean(PricesOf(ps, cats, b)) == mb
    requires ma >= mb
    ensures AverageChart(ps, cats) == [(a, ma), (b, mb)]
  {
    AverageItems([(a, ma), (b, mb)], ps, cats);
    SortTwo((a, ma), (b, mb), HigherAverage);
  }

  /**
   * The quantity dictionary after one pass over `ps`: its keys in insertion
   * order, and for each key the running sum, started at 0 when the key is new.
   */
  function QuantityDict(ps: seq<Product>, cats: seq<Category>): (seq<string>, map<string, int>)
  {
    if ps == [] then ([], map[])
    else
      var d := QuantityDict(ps[..|ps| - 1], cats);
      var p := ps[|ps| - 1];
      var group := CategoryName(p, cats);
      var base := if group in d.1 then d.1 else d.1[group := 0];
      (if group in d.1 then d.0 else d.0 + [group], base[group := base[group] + p.quantity])
  }

  /** The quantity dictionary has one key per label, holding that group's summed quantity. */
  lemma {:induction false} QuantityDictMeaning(ps: seq<Product>, cats: seq<Category>)
    ensures QuantityDict(ps, cats).0 == Labels(ps, cats)
    ensures forall k :: k in QuantityDict(ps, cats).1 <==> k in QuantityDict(ps, cats).0
    ensures forall k :: k in QuantityDict(ps, cats).1 ==> QuantityDict(ps, cats).1[k] == QuantityOf(ps, cats, k)
  {
    if ps != [] {
      var init, p := ps[..|ps| - 1], ps[|ps| - 1];
      assert ps == init + [p];
      QuantityDictMeaning(init, cats);
      var sums := QuantityDict(init, cats).1;
      var group := CategoryName(p, cats);
      LabelsSnoc(init, p, cats);
      if group !in sums {
        LabelsCover(init, cats);
        QuantityOfUnlabelled(init, cats, group);
      }
      forall k | k in QuantityDict(ps, cats).1
        ensures QuantityDict(ps, cats).1[k] == QuantityOf(ps, cats, k)
      {
        QuantityOfSnoc(init, p, cats, k);
      }
    }
  }

  /**
   * The price dictionary after one pass over `ps`: its keys in insertion
   * order, and for each key the prices of its group, started empty.
   */
  function PriceDict(ps: seq<Product>, cats: seq<Category>): (seq<string>, map<string, seq<real>>)
  {
    if ps == [] then ([], map[])
    else
      var d := PriceDict(ps[..|ps| - 1], cats);
      var p := ps[|ps| - 1];
      var group := CategoryName(p, cats);
      var base := if group in d.1 then d.1 else d.1[group := []];
      (if group in d.1 then d.0 else d.0 + [group], base[group := base[group] + [p.price]])
  }

  /** The price dictionary has one key per label, holding that group's non-empty price list. */
  lemma {:induction false} PriceDictMeaning(ps: seq<Product>, cats: seq<Category>)
    ensures PriceDict(ps, cats).0 == Labels(ps, cats)
    ensures forall k :: k in PriceDict(ps, cats).1 <==> k in PriceDict(ps, cats).0
    ensures forall k :: k in PriceDict(ps, cats).1 ==>
              PriceDict(ps, cats).1[k] == PricesOf(ps, cats, k) && PriceDict(ps, cats).1[k] != []
  {
    if ps != [] {
      var init, p := ps[..|ps| - 1], ps[|ps| - 1];
      assert ps == init + [p];
      PriceDictMeaning(init, cats);
      var prices := PriceDict(init, cats).1;
      var group := CategoryName(p, cats);
      LabelsSnoc(init, p, cats);
      if group !in prices {
        LabelsCover(init, cats);
        PricesOfUnlabelled(init, cats, group);
      }
      forall k | k in PriceDict(ps, cats).1
        ensures PriceDict(ps, cats).1[k] == PricesOf(ps, cats, k)
      {
        PricesOfSnoc(init, p, cats, k);
      }
    }
  }

  /** Two categories and three products: two of category A, one of category B. */
  const EXAMPLE_CATEGORIES: seq<Category> := [Category(1, "A"), Category(2, "B")]
  const EXAMPLE_PRODUCTS: seq<Product> :=
    [Product(1, "p", 10.0, 2, Some(1)), Product(2, "q", 20.0, 3, Some(1)), Product(3, "r", 5.0, 1, Some(2))]

  /** The example's groups: A holds 2 + 3 units priced 10 and 20, B holds 1 unit priced 5. */
  lemma ExampleGroups()
    ensures Labels(EXAMPLE_PRODUCTS, EXAMPLE_CATEGORIES) == ["A", "B"]
    ensures QuantityOf(EXAMPLE_PRODUCTS, EXAMPLE_CATEGORIES, "A") == 5
    ensures QuantityOf(EXAMPLE_PRODUCTS, EXAMPLE_CATEGORIES, "B") == 1
    ensures PricesOf(EXAMPLE_PRODUCTS, EXAMPLE_CATEGORIES, "A") == [10.0, 20.0]
    ensures PricesOf(EXAMPLE_PRODUCTS, EXAMPLE_CATEGORIES, "B") == [5.0]
  {
    var ps, cats := EXAMPLE_PRODUCTS, EXAMPLE_CATEGORIES;
    assert CategoryName(ps[0], cats) == "A";
    assert CategoryName(ps[1], cats) == "A";
    assert CategoryName(ps[2], cats) == "B";
    assert ps[..2][..1] == ps[..1] && ps[..1][..0] == [];
    assert Labels(ps[..1], cats) == ["A"];
    assert Labels(ps[..2], cats) == ["A"];
    assert QuantityOf(ps[..1], cats, "A") == 2 && QuantityOf(ps[..1], cats, "B") == 0;
    assert QuantityOf(ps[..2], cats, "A") == 5 && QuantityOf(ps[..2], cats, "B") == 0;
    assert PricesOf(ps[..1], cats, "A") == [10.0] && PricesOf(ps[..1], cats, "B") == [];
    assert PricesOf(ps[..2], cats, "A") == [10.0, 20.0] && PricesOf(ps[..2], cats, "B") == [];
  }

  /** In the example, the quantity chart shows A with 5 units above B with 1. */
  lemma QuantityChartExample(ps: seq<Product>, cats: seq<Category>)
    requires ps == EXAMPLE_PRODUCTS && cats == EXAMPLE_CATEGORIES
    ensures QuantityChart(ps, cats) == [("A", 5), ("B", 1)]
  {
    ExampleGroups();
    TwoGroupQuantityChart(ps, cats, "A", "B", 5, 1);
  }

  /** The example's mean prices: 15 for A and 5 for B. */
  lemma ExampleMeans()
    ensures Labels(EXAMPLE_PRODUCTS, EXAMPLE_CATEGORIES) == ["A", "B"]
    ensures PricesOf(EXAMPLE_PRODUCTS, EXAMPLE_CATEGORIES, "A") != []
    ensures PricesOf(EXAMPLE_PRODUCTS, EXAMPLE_CATEGORIES, "B") != []
    ensures Mean(PricesOf(EXAMPLE_PRODUCTS, EXAMPLE_CATEGORIES, "A")) == 15.0
    ensures Mean(PricesOf(EXAMPLE_PRODUCTS, EXAMPLE_CATEGORIES, "B")) == 5.0
  {
    ExampleGroups();
    var a, b := [10.0, 20.0], [5.0];
    assert a[..1] == [10.0] && a[..1][..0] == [] && b[..0] == [];
    assert Sum(a[..1]) == 10.0;
    assert Sum(a) == 30.0;
    assert Sum(b) == 5.0;
  }

  /** In the example, the average chart shows A at 15 above B at 5. */
  lemma AverageChartExample(ps: seq<Product>, cats: seq<Category>)
    requires ps == EXAMPLE_PRODUCTS && cats == EXAMPLE_CATEGORIES
    ensures AverageChart(ps, cats) == [("A", 15.0), ("B", 5.0)]
  {
    ExampleMeans();
    TwoGroupAverageChart(ps, cats, "A", "B", 15.0, 5.0);
  }
}
