/**
  The products page: the search box and stock filter over the page's copy
  of the product list, the stock badge on each card, and the add/edit dialog
  whose form is filled from a product and saved back through the store.

  Lower-casing (`toLowerCase`) is locale machinery outside the model: it is
  the parameter `lower`, and the only thing assumed of it, where a lemma
  needs it, is that it maps the empty string to itself.
 */
module ProductsPage {

  import opened Seqs
  import opened Model
  import opened FakeDb

  // ---------------------------------------------------------------- search and filter

  predicate StartsWith(s: string, prefix: string)
  {
    |prefix| <= |s| && s[..|prefix|] == prefix
  }

  /** `String.prototype.includes` */
  predicate Contains(hay: string, needle: string)
    decreases |hay|
  {
    StartsWith(hay, needle) || (|hay| > 0 && Contains(hay[1..], needle))
  }

  /** `needle` occurs in `hay` starting at position `i`. */
  predicate OccursAt(hay: string, needle: string, i: int)
  {
    0 <= i <= |hay| - |needle| && hay[i..i + |needle|] == needle
  }

  /** `includes` holds exactly when the needle occurs at some position. */
  lemma {:induction false} ContainsSpec(hay: string, needle: string)
    ensures Contains(hay, needle) <==> exists i :: OccursAt(hay, needle, i)
    decreases |hay|
  {
    var n := |needle|;
    if StartsWith(hay, needle) {
      assert OccursAt(hay, needle, 0);
    }
    if |hay| > 0 {
      ContainsSpec(hay[1..], needle);
      if Contains(hay[1..], needle) {
        var i :| OccursAt(hay[1..], needle, i);
        var x, y := hay[1..][i..i + n], hay[i + 1..i + 1 + n];
        assert forall k :: 0 <= k < n ==> x[k] == y[k];
        assert x == y;
        assert OccursAt(hay, needle, i + 1);
      }
      if exists i :: OccursAt(hay, needle, i) {
        var i :| OccursAt(hay, needle, i);
        if i > 0 {
          var x, y := hay[1..][i - 1..i - 1 + n], hay[i..i + n];
          assert forall k :: 0 <= k < n ==> x[k] == y[k];
          assert x == y;
          assert OccursAt(hay[1..], needle, i - 1);
        }
      }
    } else {
      if exists i :: OccursAt(hay, needle, i) {
        var i :| OccursAt(hay, needle, i);
        assert i == 0;
      }
    }
  }

  /** Every string contains the empty string. */
  lemma ContainsEmpty(hay: string)
    ensures Contains(hay, "")
  {
  }

  datatype StockFilter = All | Low | InStock | OutOfStock

  /** The stock filter's test for one product. */
  predicate InCategory(p: Product, f: StockFilter)
  {
    match f
    case All => true
    case Low => p.quantity <= p.lowStockAlert && p.quantity > 0
    case OutOfStock => p.quantity <= 0
    case InStock => p.quantity > p.lowStockAlert
  }

  /** Name or description contains the search term, both lower-cased. */
  predicate MatchesSearch(p: Product, term: string, lower: string -> string)
  {
    Contains(lower(p.name), lower(term)) || Contains(lower(p.description), lower(term))
  }

  function Visible(term: string, f: StockFilter, lower: string -> string): Product -> bool
  {
    (p: Product) => MatchesSearch(p, term, lower) && InCategory(p, f)
  }

  /** `filteredProducts`: the products matching both the search term and the filter,
      in list order. */
  function FilteredProducts(ps: seq<Product>, term: string, f: StockFilter, lower: string -> string)
    : (r: seq<Product>)
    ensures forall i :: 0 <= i < |r| ==>
              r[i] in ps && MatchesSearch(r[i], term, lower) && InCategory(r[i], f)
    ensures forall i :: 0 <= i < |ps| && MatchesSearch(ps[i], term, lower) && InCategory(ps[i], f) ==>
              ps[i] in r
  {
    Filter(ps, Visible(term, f, lower))
  }

  /** Filtering keeps the list order. */
  lemma FilteredKeepsOrder(ps: seq<Product>, term: string, f: StockFilter, lower: string -> string)
    ensures IsSubsequence(FilteredProducts(ps, term, f, lower), ps)
  {
    FilterIsSubsequence(ps, Visible(term, f, lower));
  }

  /** With an empty search box and filter "all" the page shows every product. */
  lemma EmptySearchShowsAll(ps: seq<Product>, lower: string -> string)
    requires lower("") == ""
    ensures FilteredProducts(ps, "", All, lower) == ps
  {
    forall i | 0 <= i < |ps| ensures Visible("", All, lower)(ps[i]) {
      ContainsEmpty(lower(ps[i].name));
    }
    FilterAll(ps, Visible("", All, lower));
  }

  /** The page's "low stock only" list is the store's `getLowStock`. */
  lemma LowFilterIsLowStock(db: Store, lower: string -> string)
    requires lower("") == ""
    ensures FilteredProducts(db.products, "", Low, lower) == LowStock(db)
  {
    var ps := db.products;
    forall i | 0 <= i < |ps| ensures Visible("", Low, lower)(ps[i]) == IsLowStock(ps[i]) {
      ContainsEmpty(lower(ps[i].name));
    }
    FilterCongruent(ps, Visible("", Low, lower), IsLowStock);
  }

  /** Every product falls in one of the three stock categories; with a non-negative
      alert level in exactly one. */
  lemma CategoriesPartition(p: Product)
    ensures InCategory(p, Low) || InCategory(p, OutOfStock) || InCategory(p, InStock)
    ensures p.lowStockAlert >= 0 ==>
              && !(InCategory(p, Low) && InCategory(p, OutOfStock))
              && !(InCategory(p, Low) && InCategory(p, InStock))
              && !(InCategory(p, OutOfStock) && InCategory(p, InStock))
  {
  }

  /** A negative alert level lets an empty product be both "out of stock" and "in stock". */
  lemma NegativeAlertOverlap(p: Product)
    requires p.lowStockAlert < p.quantity <= 0
    ensures InCategory(p, OutOfStock) && InCategory(p, InStock)
  {
  }

  /** Without a search term, and with non-negative alert levels, the three category
      lists together are exactly as long as the whole list. */
  lemma CategoryCountsAddUp(ps: seq<Product>, lower: string -> string)
    requires lower("") == ""
    requires forall i :: 0 <= i < |ps| ==> ps[i].lowStockAlert >= 0
    ensures |FilteredProducts(ps, "", Low, lower)| + |FilteredProducts(ps, "", OutOfStock, lower)|
            + |FilteredProducts(ps, "", InStock, lower)| == |ps|
  {
    forall i | 0 <= i < |ps| ensures MatchesSearch(ps[i], "", lower) {
      ContainsEmpty(lower(ps[i].name));
    }
    FilterPartitionCount(ps, Visible("", Low, lower), Visible("", OutOfStock, lower), Visible("", InStock, lower));
  }

  // ---------------------------------------------------------------- badge

  datatype Badge = NoBadge | LowStockBadge | OutOfStockBadge

  /** The card's badge: none above the alert level, otherwise "out of stock" at or
      below zero and "low stock" above it. */
  function StockBadge(p: Product): (r: Badge)
    ensures r == LowStockBadge <==> InCategory(p, Low)
    ensures r == NoBadge <==> InCategory(p, InStock)
  {
    if p.quantity <= p.lowStockAlert then
      (if p.quantity <= 0 then OutOfStockBadge else LowStockBadge)
    else NoBadge
  }

  /** The badge agrees with the filters: "low stock" and "no badge" always, "out of stock"
      whenever the alert level is not negative. */
  lemma BadgeMatchesFilter(p: Product)
    ensures StockBadge(p) == LowStockBadge <==> InCategory(p, Low)
    ensures StockBadge(p) == NoBadge <==> InCategory(p, InStock)
    ensures StockBadge(p) == OutOfStockBadge ==> InCategory(p, OutOfStock)
    ensures p.lowStockAlert >= 0 ==> (StockBadge(p) == OutOfStockBadge <==> InCategory(p, OutOfStock))
  {
  }

  // ---------------------------------------------------------------- add / edit dialog

  datatype FormData = FormData(
    name: string,
    description: string,
    price: int,
    quantity: int,
    lowStockAlert: int,
    imageUrl: string)

  /** `resetForm`: the empty form of a new product. */
  const EmptyForm := FormData("", "", 0, 0, 5, "/placeholder.svg")

  /** `handleEditProduct`: the form filled from a product; an alert level of 0 (falsy)
      shows as 5. */
  function EditForm(p: Product): (f: FormData)
    ensures f.lowStockAlert == (if p.lowStockAlert == 0 then 5 else p.lowStockAlert)
    ensures f.lowStockAlert != 0
    ensures f.(lowStockAlert := p.lowStockAlert) ==
            FormData(p.name, p.description, p.price, p.quantity, p.lowStockAlert, p.imageUrl)
  {
    FormData(p.name, p.description, p.price, p.quantity,
             if p.lowStockAlert != 0 then p.lowStockAlert else 5, p.imageUrl)
  }

  function ToProductData(f: FormData, createdAt: int, updatedAt: int): ProductData
  {
    ProductData(f.name, f.description, f.price, f.quantity, f.lowStockAlert, f.imageUrl, createdAt, updatedAt)
  }

  /** `handleSaveProduct`: with a product being edited, update it under its id keeping
      its creation time; otherwise create a product. The clock is read once for the
      update time (`stamp`) and, for a new product only, a second time for the creation
      time (`created`). */
  function SaveProduct(db: Store, editing: Option<Product>, f: FormData, stamp: int, created: int)
    : (r: Store)
    ensures editing.None? ==>
              && r.products == db.products + [ToProductData(f, created, stamp).WithId(db.lastIds.product + 1)]
              && r.users == db.users && r.sales == db.sales
    ensures editing.Some? ==>
              r == UpdateProduct(db, editing.value.id, ToProductData(f, editing.value.createdAt, stamp)).db
  {
    match editing
    case Some(p) => UpdateProduct(db, p.id, ToProductData(f, p.createdAt, stamp)).db
    case None => CreateProduct(db, ToProductData(f, created, stamp)).db
  }

  /** Opening a stored product for editing and saving it unchanged stores it back with only
      its update time refreshed (and an alert level of 0 turned into 5). */
  lemma EditSaveRoundTrip(db: Store, p: Product, now: int, created: int)
    requires FindProduct(db.products, p.id) == Some(p)
    ensures var after := SaveProduct(db, Some(p), EditForm(p), now, created);
            && |after.products| == |db.products|
            && FindProduct(after.products, p.id) ==
               Some(p.(updatedAt := now, lowStockAlert := if p.lowStockAlert == 0 then 5 else p.lowStockAlert))
  {
    var i := ProductIndex(db.products, p.id).value;
    var after := SaveProduct(db, Some(p), EditForm(p), now, created);
    var q := ToProductData(EditForm(p), p.createdAt, now).WithId(p.id);
    assert after.products == db.products[i := q];
    assert ProductIndex(after.products, p.id) == Some(i) by {
      assert after.products[i].id == p.id;
      assert forall j :: 0 <= j < i ==> after.products[j] == db.products[j];
    }
  }

  /** Saving a new product appends it under a fresh id with the form's fields, its
      update time from the first clock reading and its creation time from the second. */
  lemma SaveNewAppends(db: Store, f: FormData, stamp: int, created: int)
    requires Valid(db)
    ensures var after := SaveProduct(db, None, f, stamp, created);
            var p := after.products[|after.products| - 1];
            && |after.products| == |db.products| + 1
            && p.name == f.name && p.price == f.price && p.quantity == f.quantity
            && p.lowStockAlert == f.lowStockAlert && p.createdAt == created && p.updatedAt == stamp
            && forall j :: 0 <= j < |db.products| ==> db.products[j].id < p.id
  {
  }
}
