/**
  Properties of the store that relate several calls or hold across every
  operation: id freshness, the stock decrement of a sale, removal and
  update under unique ids, and the correctness of the two aggregations.
 */
module StoreProps {

  import opened Seqs
  import opened Sorting
  import opened Model
  import opened Grouping
  import opened FakeDb

  // ---------------------------------------------------------------- ids

  /** Every create hands out the counter plus one, which is above every id already in
      that collection, and keeps the store valid. */
  lemma CreateUserFresh(db: Store, data: UserData)
    requires Valid(db)
    ensures forall i :: 0 <= i < |db.users| ==> db.users[i].id < CreateUser(db, data).result.id
    ensures Valid(CreateUser(db, data).db)
  {
  }

  lemma CreateProductFresh(db: Store, data: ProductData)
    requires Valid(db)
    ensures forall i :: 0 <= i < |db.products| ==> db.products[i].id < CreateProduct(db, data).result.id
    ensures Valid(CreateProduct(db, data).db)
  {
  }

  lemma CreateSaleFresh(db: Store, data: SaleData, now: int)
    requires Valid(db)
    ensures forall i :: 0 <= i < |db.sales| ==> db.sales[i].id < CreateSale(db, data, now).result.id
    ensures Valid(CreateSale(db, data, now).db)
  {
    var st := UpdateStock(db, data.productId, data.quantity, now);
    assert forall i :: 0 <= i < |st.db.products| ==> st.db.products[i].id == db.products[i].id;
  }

  /** Two creates in a row hand out strictly increasing ids. */
  lemma SuccessiveProductIdsIncrease(db: Store, a: ProductData, b: ProductData)
    ensures CreateProduct(db, a).result.id < CreateProduct(CreateProduct(db, a).db, b).result.id
  {
  }

  function IdOf(p: Product): int { p.id }

  lemma UpdateKeepsValid(db: Store, id: int, data: ProductData)
    requires Valid(db)
    ensures Valid(UpdateProduct(db, id, data).db)
  {
  }

  lemma UpdateStockKeepsValid(db: Store, id: int, amount: int, now: int)
    requires Valid(db)
    ensures Valid(UpdateStock(db, id, amount, now).db)
  {
  }

  /** Removal keeps the survivors in order, so ids stay strictly increasing. */
  lemma RemoveKeepsValid(db: Store, id: int)
    requires Valid(db)
    ensures Valid(RemoveProduct(db, id).db)
  {
    var f := (p: Product) => p.id != id;
    assert forall i, j :: 0 <= i < j < |db.products| ==> IdOf(db.products[i]) < IdOf(db.products[j]);
    FilterKeepsIncreasing(db.products, f, IdOf);
    var kept := RemoveProduct(db, id).db.products;
    assert kept == Filter(db.products, f);
    forall i | 0 <= i < |kept| ensures kept[i].id <= db.lastIds.product {
      assert kept[i] in db.products;
    }
  }

  // ---------------------------------------------------------------- update and remove

  /** With unique ids, a successful update replaces exactly the product with that id. */
  lemma UpdateReplacesOnlyThatId(db: Store, id: int, data: ProductData)
    requires Valid(db)
    ensures var r := UpdateProduct(db, id, data);
            r.result.Some? ==>
              forall j :: 0 <= j < |db.products| ==>
                r.db.products[j] == (if db.products[j].id == id then data.WithId(id) else db.products[j])
  {
  }

  lemma {:induction false} FilterDropsOne(ps: seq<Product>, id: int)
    requires forall i, j :: 0 <= i < j < |ps| ==> ps[i].id < ps[j].id
    requires exists j :: 0 <= j < |ps| && ps[j].id == id
    ensures |Filter(ps, (p: Product) => p.id != id)| == |ps| - 1
    decreases |ps|
  {
    var f := (p: Product) => p.id != id;
    if ps[0].id == id {
      assert forall i :: 0 <= i < |ps[1..]| ==> f(ps[1..][i]);
      FilterAll(ps[1..], f);
    } else {
      FilterDropsOne(ps[1..], id);
    }
  }

  /** With unique ids a successful removal shrinks the list by exactly one, and removing the
      same id again reports false. */
  lemma RemoveOnce(db: Store, id: int)
    requires Valid(db)
    ensures var r := RemoveProduct(db, id);
            && (r.result ==> |r.db.products| == |db.products| - 1)
            && (!r.result ==> r.db == db)
            && !RemoveProduct(r.db, id).result
  {
    var r := RemoveProduct(db, id);
    if r.result {
      FilterDropsOne(db.products, id);
    } else {
      var f := (p: Product) => p.id != id;
      FilterAll(db.products, f);
    }
  }

  // ---------------------------------------------------------------- sales and stock

  function ClampedStock(quantity: int, amount: int): int
  {
    if quantity - amount > 0 then quantity - amount else 0
  }

  /** Two lists with the same length whose elements carry `id` at the same positions
      have the same first position for `id`. */
  lemma ProductIndexSamePattern(a: seq<Product>, b: seq<Product>, id: int)
    requires |a| == |b|
    requires forall j :: 0 <= j < |a| ==> (a[j].id == id <==> b[j].id == id)
    ensures ProductIndex(a, id) == ProductIndex(b, id)
  {
  }

  /** Overwriting the first product with some id by a record with the same id: lookups of
      that id find the new record, lookups of any other id are unchanged. */
  lemma FindAfterReplace(ps: seq<Product>, x: Product)
    requires ProductIndex(ps, x.id).Some?
    ensures var ps' := ps[ProductIndex(ps, x.id).value := x];
            && FindProduct(ps', x.id) == Some(x)
            && forall other :: other != x.id ==> FindProduct(ps', other) == FindProduct(ps, other)
  {
    var i := ProductIndex(ps, x.id).value;
    var ps' := ps[i := x];
    ProductIndexSamePattern(ps, ps', x.id);
    forall other | other != x.id
      ensures FindProduct(ps', other) == FindProduct(ps, other)
    {
      ProductIndexSamePattern(ps, ps', other);
    }
  }

  /** A sale of `k` units of a known product leaves it at max(0, q - k), refreshed at `now`;
      every other product looks the same as before. */
  lemma SaleDecrementsStock(db: Store, data: SaleData, now: int)
    requires FindProduct(db.products, data.productId).Some?
    ensures var p := FindProduct(db.products, data.productId).value;
            var after := CreateSale(db, data, now).db.products;
            && FindProduct(after, data.productId)
               == Some(p.(quantity := ClampedStock(p.quantity, data.quantity), updatedAt := now))
            && FindProduct(after, data.productId).value.quantity >= 0
            && forall other :: other != data.productId ==>
                 FindProduct(after, other) == FindProduct(db.products, other)
  {
    var st := UpdateStock(db, data.productId, data.quantity, now);
    FindAfterReplace(db.products, st.result.value);
  }

  /** A sale of an unknown product is still recorded; the products are untouched. */
  lemma SaleOfUnknownProduct(db: Store, data: SaleData, now: int)
    requires FindProduct(db.products, data.productId).None?
    ensures CreateSale(db, data, now).db.products == db.products
    ensures |CreateSale(db, data, now).db.sales| == |db.sales| + 1
  {
  }

  // ---------------------------------------------------------------- aggregations

  /** The product ids an aggregate lists. */
  ghost function SummaryIds(bp: seq<ProductSummary>): set<int>
  {
    set e | e in bp :: e.productId
  }

  /** The product ids some sale refers to. */
  ghost function SoldIds(sales: seq<Sale>): set<int>
  {
    set s | s in sales :: s.productId
  }

  /** The per-product aggregate lists each product id once, in first-seen order. */
  lemma ByProductKeys(sales: seq<Sale>)
    ensures |ByProduct(sales)| == |Keys(sales, ProductOf)|
    ensures forall i :: 0 <= i < |ByProduct(sales)| ==> ByProduct(sales)[i].productId == Keys(sales, ProductOf)[i]
    ensures forall i, j :: 0 <= i < j < |ByProduct(sales)| ==>
              ByProduct(sales)[i].productId != ByProduct(sales)[j].productId
  {
    GroupByKeys(sales, ProductOf);
    KeysDistinct(sales, ProductOf);
  }

  /** A sold product's id is listed. */
  lemma SoldIdListed(sales: seq<Sale>, j: nat)
    requires j < |sales|
    ensures sales[j].productId in SummaryIds(ByProduct(sales))
  {
    var pid := sales[j].productId;
    var ks := Keys(sales, ProductOf);
    var bp := ByProduct(sales);
    MatchingSpec(sales, ProductOf, pid);
    assert sales[j] in Matching(sales, ProductOf, pid);
    KeyListed(sales, ProductOf, pid);
    var i :| 0 <= i < |ks| && ks[i] == pid;
    ByProductKeys(sales);
    assert bp[i].productId == pid && bp[i] in bp;
  }

  /** A listed id belongs to some sale. */
  lemma ListedIdSold(sales: seq<Sale>, i: nat)
    requires i < |ByProduct(sales)|
    ensures ByProduct(sales)[i].productId in SoldIds(sales)
  {
    var pid := ByProduct(sales)[i].productId;
    ByProductKeys(sales);
    assert Keys(sales, ProductOf)[i] == pid;
    KeyListed(sales, ProductOf, pid);
    MatchingSpec(sales, ProductOf, pid);
    var m := Matching(sales, ProductOf, pid);
    assert m[0] in sales && m[0].productId == pid;
  }

  /** The aggregate lists exactly the product ids that occur in the sales. */
  lemma ByProductIds(sales: seq<Sale>)
    ensures SummaryIds(ByProduct(sales)) == SoldIds(sales)
  {
    var bp := ByProduct(sales);
    forall pid | pid in SoldIds(sales) ensures pid in SummaryIds(bp) {
      var s :| s in sales && s.productId == pid;
      var j :| 0 <= j < |sales| && sales[j] == s;
      SoldIdListed(sales, j);
    }
    forall pid | pid in SummaryIds(bp) ensures pid in SoldIds(sales) {
      var e :| e in bp && e.productId == pid;
      var i :| 0 <= i < |bp| && bp[i] == e;
      ListedIdSold(sales, i);
    }
  }

  /** Each entry holds the sums over its product's sales and the name from the first of them. */
  lemma ByProductEntries(sales: seq<Sale>)
    ensures var bp := ByProduct(sales);
            forall i :: 0 <= i < |bp| ==>
              var m := Matching(sales, ProductOf, bp[i].productId);
              && |m| > 0
              && bp[i].productName == m[0].productName
              && bp[i].totalSold == SumBy(m, Units)
              && bp[i].totalRevenue == SumBy(m, Revenue)
  {
    var gs := GroupBy(sales, ProductOf);
    GroupByEntries(sales, ProductOf);
    forall i | 0 <= i < |gs|
      ensures EntryCorrect(sales, ProductOf, gs[i])
    {
    }
  }

  /** The entries' revenues add up to the revenue of all the sales. */
  lemma ByProductTotal(sales: seq<Sale>)
    ensures SumBy(ByProduct(sales), SummaryRevenue) == TotalRevenue(sales)
  {
    GroupByTotals(sales, ProductOf);
    SummariesRevenue(GroupBy(sales, ProductOf));
  }

  /** `getSummary` counts and sums exactly the sales dated at or after the window start
      (no upper bound), and its breakdown's revenues add up to its total. */
  lemma SummaryTotals(db: Store, start: int)
    ensures var r := GetSummary(db, start);
            var w := InWindow(db.sales, start);
            && (forall i :: 0 <= i < |w| ==> w[i] in db.sales && w[i].date >= start)
            && (forall i :: 0 <= i < |db.sales| && db.sales[i].date >= start ==> db.sales[i] in w)
            && r.totalSales == |w|
            && r.totalRevenue == TotalRevenue(w)
            && SumBy(r.productSummary, SummaryRevenue) == r.totalRevenue
  {
    ByProductTotal(InWindow(db.sales, start));
  }

  /** `getSummary`'s breakdown: one entry per product sold in the window, none twice, each
      with the sums over that product's sales in the window, together adding up to the
      summary's revenue. */
  lemma SummaryBreakdown(db: Store, start: int)
    ensures var r := GetSummary(db, start);
            var w := InWindow(db.sales, start);
            && (forall i, j :: 0 <= i < j < |r.productSummary| ==>
                  r.productSummary[i].productId != r.productSummary[j].productId)
            && SummaryIds(r.productSummary) == SoldIds(w)
            && (forall i :: 0 <= i < |r.productSummary| ==>
                  var m := Matching(w, ProductOf, r.productSummary[i].productId);
                  && r.productSummary[i].totalSold == SumBy(m, Units)
                  && r.productSummary[i].totalRevenue == SumBy(m, Revenue))
            && SumBy(r.productSummary, SummaryRevenue) == r.totalRevenue
  {
    var w := InWindow(db.sales, start);
    ByProductKeys(w);
    ByProductIds(w);
    ByProductEntries(w);
    ByProductTotal(w);
  }

  /** A later window start never counts more sales. */
  lemma SummaryWindowMonotone(db: Store, early: int, late: int)
    requires early <= late
    ensures GetSummary(db, late).totalSales <= GetSummary(db, early).totalSales
  {
    FilterMonotone(db.sales, (s: Sale) => s.date >= late, (s: Sale) => s.date >= early);
  }

  /** `getTopProducts(limit)`: at most `limit` per-product aggregates of all sales, highest
      revenue first. */
  lemma TopProductsOrder(db: Store, limit: int)
    ensures var all := ByProduct(db.sales);
            var r := GetTopProducts(db, limit);
            && (limit >= 0 ==> |r| == if limit < |all| then limit else |all|)
            && (forall i :: 0 <= i < |r| ==> r[i] in all)
            && (forall i, j :: 0 <= i < j < |r| ==> r[i].totalRevenue >= r[j].totalRevenue)
  {
    var all := ByProduct(db.sales);
    var ranked := RankedProducts(db);
    var r := GetTopProducts(db, limit);
    SortByElements(all, HighestRevenueFirst);
    assert forall i :: 0 <= i < |r| ==> r[i] == ranked[i];
  }

  /** A sequence without repeated elements holds each value at most once. */
  lemma {:induction false} DistinctCountAtMostOne<T>(s: seq<T>, x: T)
    requires forall i, j :: 0 <= i < j < |s| ==> s[i] != s[j]
    ensures multiset(s)[x] <= 1
    decreases |s|
  {
    if |s| > 0 {
      assert s == [s[0]] + s[1..];
      DistinctCountAtMostOne(s[1..], x);
      if s[0] == x {
        assert x !in s[1..] by {
          forall k | 0 <= k < |s[1..]| ensures s[1..][k] != x {
            assert s[1..][k] == s[k + 1];
          }
        }
      }
    }
  }

  /** A value held at two positions is counted at least twice. */
  lemma TwiceCountsTwice<T>(s: seq<T>, i: nat, j: nat)
    requires i < j < |s| && s[i] == s[j]
    ensures multiset(s)[s[i]] >= 2
  {
    assert s == s[..j] + [s[j]] + s[j + 1..];
    assert s[..j][i] == s[i];
    assert multiset(s[..j])[s[i]] >= 1;
  }

  /** Rearranging summaries with distinct product ids keeps the ids distinct. */
  lemma PermutedIdsDistinct(all: seq<ProductSummary>, ranked: seq<ProductSummary>)
    requires multiset(ranked) == multiset(all)
    requires forall a, b :: 0 <= a < b < |all| ==> all[a].productId != all[b].productId
    ensures forall i, j :: 0 <= i < j < |ranked| ==> ranked[i].productId != ranked[j].productId
  {
    forall i, j | 0 <= i < j < |ranked| ensures ranked[i].productId != ranked[j].productId {
      if ranked[i] == ranked[j] {
        TwiceCountsTwice(ranked, i, j);
        DistinctCountAtMostOne(all, ranked[i]);
        assert false;
      } else {
        assert ranked[i] in multiset(all) && ranked[j] in multiset(all);
        var a :| 0 <= a < |all| && all[a] == ranked[i];
        var b :| 0 <= b < |all| && all[b] == ranked[j];
        assert a != b;
      }
    }
  }

  /** `getTopProducts(limit)` lists each product at most once: the entries come from the
      keys of a `Map`, and sorting and slicing do not repeat any. */
  lemma TopProductsDistinct(db: Store, limit: int)
    ensures var r := GetTopProducts(db, limit);
            forall i, j :: 0 <= i < j < |r| ==> r[i].productId != r[j].productId
  {
    var ranked := RankedProducts(db);
    var r := GetTopProducts(db, limit);
    ByProductKeys(db.sales);
    PermutedIdsDistinct(ByProduct(db.sales), ranked);
    assert forall i :: 0 <= i < |r| ==> r[i] == ranked[i];
  }

  /** In a sorted sequence, an element missing from the first `n` has a key no smaller than
      any of theirs. */
  lemma SortedPrefixBound<T>(r: seq<T>, key: T -> int, n: nat, a: T)
    requires SortedBy(r, key) && n <= |r|
    requires a in r && forall i :: 0 <= i < n ==> r[i] != a
    ensures forall i :: 0 <= i < n ==> key(r[i]) <= key(a)
  {
    var k :| 0 <= k < |r| && r[k] == a;
  }

  /** No product left out of the top list earned more than one kept in it. */
  lemma TopProductsAreTop(db: Store, limit: int)
    ensures var all := ByProduct(db.sales);
            var r := GetTopProducts(db, limit);
            forall a :: a in all && a !in r ==>
              forall i :: 0 <= i < |r| ==> a.totalRevenue <= r[i].totalRevenue
  {
    var all := ByProduct(db.sales);
    var ranked := RankedProducts(db);
    var r := GetTopProducts(db, limit);
    SortByElements(all, HighestRevenueFirst);
    assert forall i :: 0 <= i < |r| ==> r[i] == ranked[i];
    forall a | a in all && a !in r
      ensures forall i :: 0 <= i < |r| ==> a.totalRevenue <= r[i].totalRevenue
    {
      var j :| 0 <= j < |all| && all[j] == a;
      SortedPrefixBound(ranked, HighestRevenueFirst, |r|, a);
    }
  }

  /** Equal revenues keep first-seen order in the ranking (the sort is stable). */
  lemma TopProductsTiesStable(db: Store, v: int)
    ensures WithKey(RankedProducts(db), HighestRevenueFirst, v) ==
            WithKey(ByProduct(db.sales), HighestRevenueFirst, v)
  {
    SortByStable(ByProduct(db.sales), HighestRevenueFirst, v);
  }
}
