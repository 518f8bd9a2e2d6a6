/**
  The in-memory inventory and sales store: three collections (users,
  products, sales) and three id counters, with CRUD, a stock decrement that
  clamps at zero and runs as a side effect of every sale, a low-stock query,
  a date-range query, and two per-product aggregations.

  The store is an immutable value; every mutating operation returns the new
  store together with the operation's own result.
 */
module FakeDb {

  import opened Seqs
  import opened Sorting
  import opened Model
  import opened Grouping

  /** `lastIds`: the most recently issued id per collection. */
  datatype LastIds = LastIds(user: int, product: int, sale: int)

  datatype Store = Store(
    users: seq<User>,
    products: seq<Product>,
    sales: seq<Sale>,
    lastIds: LastIds)

  /** A mutating operation's outcome: the store afterwards and the value returned. */
  datatype Step<T> = Step(db: Store, result: T)

  /** 2023-01-01T00:00:00.000Z, the creation time of every seeded record. */
  const SeedTime: int := 1672531200000

  /** Ids strictly increase along each collection and never exceed that collection's counter. */
  ghost predicate Valid(db: Store)
  {
    && (forall i, j :: 0 <= i < j < |db.users| ==> db.users[i].id < db.users[j].id)
    && (forall i :: 0 <= i < |db.users| ==> db.users[i].id <= db.lastIds.user)
    && (forall i, j :: 0 <= i < j < |db.products| ==> db.products[i].id < db.products[j].id)
    && (forall i :: 0 <= i < |db.products| ==> db.products[i].id <= db.lastIds.product)
    && (forall i, j :: 0 <= i < j < |db.sales| ==> db.sales[i].id < db.sales[j].id)
    && (forall i :: 0 <= i < |db.sales| ==> db.sales[i].id <= db.lastIds.sale)
  }

  function SeedProduct(id: int, name: string, description: string, price: int, quantity: int): Product
  {
    Product(id, name, description, price, quantity, 5, "https://via.placeholder.com/150", SeedTime, SeedTime)
  }

  /** The seeded store. The demo sales are dated a random number of days back in the
      source; here their dates are parameters. */
  function Seeded(date1: int, date2: int, date3: int, date4: int, date5: int): (db: Store)
    ensures db.lastIds == LastIds(2, 6, 5)
    ensures Valid(db)
    ensures |db.users| == 2 && |db.products| == 6 && |db.sales| == 5
  {
    Store(
      [ User(1, "مدير النظام", "admin@example.com", "password", Admin, SeedTime),
        User(2, "الكاشير", "cashier@example.com", "password", Cashier, SeedTime) ],
      [ SeedProduct(1, "لابتوب ديل XPS 13", "حاسب محمول خفيف وسريع مع شاشة 13 بوصة", 499999, 7),
        SeedProduct(2, "سماعات سوني WH-1000XM4", "سماعات لاسلكية بتقنية إلغاء الضوضاء", 89999, 15),
        SeedProduct(3, "آيفون 14 برو ماكس", "أحدث هواتف أبل مع كاميرا متطورة", 539999, 3),
        SeedProduct(4, "جالاكسي تاب S8", "تابلت سامسونج بشاشة 12 بوصة", 259999, 9),
        SeedProduct(5, "ساعة أبل الإصدار 8", "ساعة ذكية مع مستشعرات صحية", 169999, 0),
        SeedProduct(6, "إيكو دوت (الجيل الخامس)", "مكبر صوت ذكي من أمازون", 19999, 25) ],
      [ Sale(1, 1, "لابتوب ديل XPS 13", 1, 499999, 499999, date1),
        Sale(2, 2, "سماعات سوني WH-1000XM4", 2, 89999, 179998, date2),
        Sale(3, 3, "آيفون 14 برو ماكس", 1, 539999, 539999, date3),
        Sale(4, 4, "جالاكسي تاب S8", 1, 259999, 259999, date4),
        Sale(5, 2, "سماعات سوني WH-1000XM4", 3, 89999, 269997, date5) ],
      LastIds(2, 6, 5))
  }

  // ---------------------------------------------------------------- users

  /** `users.findByEmail`: the first user with that email, if any. */
  function FindUserByEmail(db: Store, email: string): (r: Option<User>)
    ensures r.Some? ==> r.value in db.users && r.value.email == email
    ensures r.None? <==> forall i :: 0 <= i < |db.users| ==> db.users[i].email != email
    ensures r.Some? ==>
              exists i :: (0 <= i < |db.users| && db.users[i] == r.value &&
                           forall j :: 0 <= j < i ==> db.users[j].email != email)
  {
    match IndexWhere(db.users, (u: User) => u.email == email)
    case Some(i) => Some(db.users[i])
    case None => None
  }

  /** `auth.login`: the first user whose email and password both match exactly. */
  function Login(db: Store, email: string, password: string): (r: Option<User>)
    ensures r.Some? ==> r.value in db.users && r.value.email == email && r.value.password == password
    ensures r.None? <==>
      forall i :: 0 <= i < |db.users| ==> !(db.users[i].email == email && db.users[i].password == password)
    ensures r.Some? ==>
              exists i :: (0 <= i < |db.users| && db.users[i] == r.value &&
                           forall j :: 0 <= j < i ==> !(db.users[j].email == email && db.users[j].password == password))
  {
    match IndexWhere(db.users, (u: User) => u.email == email && u.password == password)
    case Some(i) => Some(db.users[i])
    case None => None
  }

  /** `users.create` and `auth.register` (the same code): the next user id, appended,
      with no check that the email is unused. */
  function CreateUser(db: Store, data: UserData): (r: Step<User>)
    ensures r.result == data.WithId(db.lastIds.user + 1)
    ensures r.db.users == db.users + [r.result]
    ensures r.db.lastIds == db.lastIds.(user := db.lastIds.user + 1)
    ensures r.db.products == db.products && r.db.sales == db.sales
  {
    var id := db.lastIds.user + 1;
    var u := data.WithId(id);
    Step(db.(users := db.users + [u], lastIds := db.lastIds.(user := id)), u)
  }

  // ---------------------------------------------------------------- products

  /** `products.findAll`: a copy of the product list (values here, so trivially a snapshot). */
  function FindAllProducts(db: Store): seq<Product>
  {
    db.products
  }

  /** `findIndex((p) => p.id === id)` */
  function ProductIndex(ps: seq<Product>, id: int): (r: Option<nat>)
    ensures r.Some? ==> r.value < |ps| && ps[r.value].id == id
    ensures r.Some? ==> forall j :: 0 <= j < r.value ==> ps[j].id != id
    ensures r.None? <==> forall j :: 0 <= j < |ps| ==> ps[j].id != id
  {
    IndexWhere(ps, (p: Product) => p.id == id)
  }

  /** `products.findById`: the first product with that id, if any. */
  function FindProduct(ps: seq<Product>, id: int): (r: Option<Product>)
    ensures r.Some? ==> r.value in ps && r.value.id == id
    ensures r.Some? ==>
              exists i :: (0 <= i < |ps| && ps[i] == r.value && forall j :: 0 <= j < i ==> ps[j].id != id)
    ensures r.None? <==> forall j :: 0 <= j < |ps| ==> ps[j].id != id
  {
    match ProductIndex(ps, id)
    case Some(i) => Some(ps[i])
    case None => None
  }

  /** `products.create`: the next product id, appended. */
  function CreateProduct(db: Store, data: ProductData): (r: Step<Product>)
    ensures r.result == data.WithId(db.lastIds.product + 1)
    ensures r.db.products == db.products + [r.result]
    ensures r.db.lastIds == db.lastIds.(product := db.lastIds.product + 1)
    ensures r.db.users == db.users && r.db.sales == db.sales
  {
    var id := db.lastIds.product + 1;
    var p := data.WithId(id);
    Step(db.(products := db.products + [p], lastIds := db.lastIds.(product := id)), p)
  }

  /** `products.update`: replace the first product with that id by the given data under
      the same id; null and no change when there is none. */
  function UpdateProduct(db: Store, id: int, data: ProductData): (r: Step<Option<Product>>)
    ensures r.result.None? <==> forall j :: 0 <= j < |db.products| ==> db.products[j].id != id
    ensures r.result.None? ==> r.db == db
    ensures r.result.Some? ==>
      && r.result.value == data.WithId(id)
      && |r.db.products| == |db.products|
      && r.db == db.(products := r.db.products)
      && (forall j :: 0 <= j < |db.products| ==>
            r.db.products[j] == (if j == ProductIndex(db.products, id).value then r.result.value
                                 else db.products[j]))
  {
    match ProductIndex(db.products, id)
    case None => Step(db, None)
    case Some(i) =>
      var p := data.WithId(id);
      Step(db.(products := db.products[i := p]), Some(p))
  }

  /** `products.remove`: drop every product with that id; true iff one was there. */
  function RemoveProduct(db: Store, id: int): (r: Step<bool>)
    ensures r.result <==> exists j :: 0 <= j < |db.products| && db.products[j].id == id
    ensures forall j :: 0 <= j < |r.db.products| ==> r.db.products[j].id != id
    ensures forall j :: 0 <= j < |db.products| && db.products[j].id != id ==>
              db.products[j] in r.db.products
    ensures r.db == db.(products := r.db.products)
  {
    var kept := Filter(db.products, (p: Product) => p.id != id);
    Step(db.(products := kept), |kept| != |db.products|)
  }

  /** The survivors of a removal keep their relative order. */
  lemma RemoveKeepsOrder(db: Store, id: int)
    ensures IsSubsequence(RemoveProduct(db, id).db.products, db.products)
  {
    FilterIsSubsequence(db.products, (p: Product) => p.id != id);
  }

  /** `products.getLowStock`: the products with 0 < quantity <= lowStockAlert, in store order. */
  function LowStock(db: Store): (r: seq<Product>)
    ensures forall i :: 0 <= i < |r| ==> r[i] in db.products && 0 < r[i].quantity <= r[i].lowStockAlert
    ensures forall i :: 0 <= i < |db.products| && 0 < db.products[i].quantity <= db.products[i].lowStockAlert
              ==> db.products[i] in r
    ensures IsSubsequence(r, db.products)
  {
    FilterIsSubsequence(db.products, IsLowStock);
    Filter(db.products, IsLowStock)
  }

  /** `products.count` */
  function CountProducts(db: Store): int
  {
    |db.products|
  }

  /** `products.updateStock`: quantity := max(0, quantity - amount) and updatedAt := now on the
      first product with that id; null and no change when there is none. */
  function UpdateStock(db: Store, id: int, amount: int, now: int): (r: Step<Option<Product>>)
    ensures r.result.None? <==> forall j :: 0 <= j < |db.products| ==> db.products[j].id != id
    ensures r.result.None? ==> r.db == db
    ensures r.result.Some? ==>
      var i := ProductIndex(db.products, id).value;
      var old_ := db.products[i];
      && r.result.value.quantity == (if old_.quantity - amount > 0 then old_.quantity - amount else 0)
      && r.result.value.updatedAt == now
      && r.result.value.(quantity := old_.quantity, updatedAt := old_.updatedAt) == old_
      && r.db == db.(products := db.products[i := r.result.value])
  {
    match ProductIndex(db.products, id)
    case None => Step(db, None)
    case Some(i) =>
      var p := db.products[i];
      var q := if p.quantity - amount > 0 then p.quantity - amount else 0;
      var p' := p.(quantity := q, updatedAt := now);
      Step(db.(products := db.products[i := p']), Some(p'))
  }

  // ---------------------------------------------------------------- sales

  /** Sort key for "most recent first". */
  function NewestFirst(s: Sale): int { -s.date }

  /** `sales.findAll`: every sale, most recent first (equal dates keep store order). */
  function FindAllSales(db: Store): (r: seq<Sale>)
    ensures multiset(r) == multiset(db.sales)
    ensures forall i, j :: 0 <= i < j < |r| ==> r[i].date >= r[j].date
    ensures forall d :: WithKey(r, NewestFirst, d) == WithKey(db.sales, NewestFirst, d)
  {
    forall d ensures WithKey(SortBy(db.sales, NewestFirst), NewestFirst, d) == WithKey(db.sales, NewestFirst, d) {
      SortByStable(db.sales, NewestFirst, d);
    }
    SortBy(db.sales, NewestFirst)
  }

  /** `sales.create`: the next sale id, the product's stock decremented (clamped, never
      refused), and the sale appended. */
  function CreateSale(db: Store, data: SaleData, now: int): (r: Step<Sale>)
    ensures r.result == data.WithId(db.lastIds.sale + 1)
    ensures r.db.sales == db.sales + [r.result]
    ensures r.db.lastIds == db.lastIds.(sale := db.lastIds.sale + 1)
    ensures r.db.users == db.users
    ensures r.db.products == UpdateStock(db, data.productId, data.quantity, now).db.products
  {
    var id := db.lastIds.sale + 1;
    var sale := data.WithId(id);
    var afterStock := UpdateStock(db, data.productId, data.quantity, now).db;
    Step(afterStock.(sales := afterStock.sales + [sale], lastIds := afterStock.lastIds.(sale := id)), sale)
  }

  function InRange(sales: seq<Sale>, from: int, to: int): seq<Sale>
  {
    Filter(sales, (s: Sale) => from <= s.date <= to)
  }

  /** `sales.getByDateRange`: the sales with from <= date <= to, both ends included,
      most recent first. */
  function SalesByDateRange(db: Store, from: int, to: int): (r: seq<Sale>)
    ensures forall i :: 0 <= i < |r| ==> r[i] in db.sales && from <= r[i].date <= to
    ensures forall i :: 0 <= i < |db.sales| && from <= db.sales[i].date <= to ==> db.sales[i] in r
    ensures forall i, j :: 0 <= i < j < |r| ==> r[i].date >= r[j].date
    ensures multiset(r) == multiset(InRange(db.sales, from, to))
    ensures forall d :: WithKey(r, NewestFirst, d) == WithKey(InRange(db.sales, from, to), NewestFirst, d)
  {
    var inRange := InRange(db.sales, from, to);
    SortByElements(inRange, NewestFirst);
    forall d ensures WithKey(SortBy(inRange, NewestFirst), NewestFirst, d) == WithKey(inRange, NewestFirst, d) {
      SortByStable(inRange, NewestFirst, d);
    }
    SortBy(inRange, NewestFirst)
  }

  // ---------------------------------------------------------------- aggregations

  function ToSummary(g: Group<int>): ProductSummary
  {
    ProductSummary(g.key, g.first.productName, g.units, g.revenue)
  }

  /** `Array.from(productMap.entries()).map(...)` */
  function Summaries(gs: seq<Group<int>>): seq<ProductSummary>
  {
    MapSeq(gs, ToSummary)
  }

  function SummaryRevenue(e: ProductSummary): int { e.totalRevenue }

  /** The summaries carry the groups' revenues. */
  lemma SummariesRevenue(gs: seq<Group<int>>)
    ensures SumBy(Summaries(gs), SummaryRevenue) == SumBy(gs, GroupRevenue)
  {
    MapSum(gs, ToSummary, SummaryRevenue, GroupRevenue);
  }

  /** The per-product aggregate of a list of sales, in first-seen product order. */
  function ByProduct(sales: seq<Sale>): seq<ProductSummary>
  {
    Summaries(GroupBy(sales, ProductOf))
  }

  function InWindow(sales: seq<Sale>, start: int): seq<Sale>
  {
    Filter(sales, (s: Sale) => s.date >= start)
  }

  /** `sales.getSummary`, with the period's window start passed in: count, revenue and
      per-product aggregate of the sales dated at or after `start` (no upper bound). */
  function GetSummary(db: Store, start: int): (r: SalesSummary)
    ensures r.totalSales == |InWindow(db.sales, start)| <= |db.sales|
    ensures r.totalSales == |db.sales| <==> forall i :: 0 <= i < |db.sales| ==> db.sales[i].date >= start
    ensures SumBy(r.productSummary, SummaryRevenue) == r.totalRevenue
  {
    var inWindow := InWindow(db.sales, start);
    GroupByTotals(inWindow, ProductOf);
    SummariesRevenue(GroupBy(inWindow, ProductOf));
    SalesSummary(|inWindow|, TotalRevenue(inWindow), ByProduct(inWindow))
  }

  /** Sort key for "highest revenue first". */
  function HighestRevenueFirst(e: ProductSummary): int { -e.totalRevenue }

  /** The aggregate of all sales, sorted by revenue, highest first, ties in first-seen order. */
  function RankedProducts(db: Store): seq<ProductSummary>
  {
    SortBy(ByProduct(db.sales), HighestRevenueFirst)
  }

  /** `sales.getTopProducts(limit)`: the ranking cut with `slice(0, limit)`. */
  function GetTopProducts(db: Store, limit: int): (r: seq<ProductSummary>)
    ensures |r| <= |ByProduct(db.sales)|
    ensures limit >= 0 ==> |r| == if limit < |ByProduct(db.sales)| then limit else |ByProduct(db.sales)|
    ensures forall i, j :: 0 <= i < j < |r| ==> r[i].totalRevenue >= r[j].totalRevenue
  {
    SliceTo(RankedProducts(db), limit)
  }
}
