/**
  The cashier page: pick a product from the page's copy of the product list,
  choose a quantity, and check out, which records a sale in the store,
  resets the form and reloads the product list.

  The page keeps its own snapshot of the products (loaded when the page
  opens and after every sale); the store's `sales.create` decrements the
  store's stock, clamping at zero. The quantity guard at checkout is
  evaluated against the snapshot, so the clamp never fires while the
  snapshot agrees with the store (`CheckoutNeverClamps`).
 */
module Cashier {

  import opened Seqs
  import opened Model
  import opened FakeDb
  import StoreProps

  /** The page's state: its product snapshot, the chosen product id ("" is `None`),
      and the quantity field. */
  datatype CashierState = CashierState(products: seq<Product>, selected: Option<int>, quantity: int)

  /** The state of a freshly opened page, after the product list has loaded. */
  function Opened(db: Store): (st: CashierState)
    ensures st.products == db.products && st.selected.None? && st.quantity == 1
  {
    CashierState(FindAllProducts(db), None, 1)
  }

  /** `selectedProduct`: the snapshot's product with the chosen id, if any. */
  function SelectedProduct(st: CashierState): (r: Option<Product>)
    ensures st.selected.None? ==> r.None?
    ensures r.Some? ==> r.value in st.products && r.value.id == st.selected.value
    ensures st.selected.Some? ==>
              (r.None? <==> forall j :: 0 <= j < |st.products| ==> st.products[j].id != st.selected.value)
  {
    match st.selected
    case None => None
    case Some(id) => FindProduct(st.products, id)
  }

  /** `calculateTotal`: price times quantity for the chosen product, 0 without one. */
  function CalculateTotal(st: CashierState): (total: int)
    ensures SelectedProduct(st).None? ==> total == 0
    ensures SelectedProduct(st).Some? ==> total == SelectedProduct(st).value.price * st.quantity
  {
    match SelectedProduct(st)
    case None => 0
    case Some(p) => p.price * st.quantity
  }

  /** A quantity the page accepts for a product: at least one and no more than its stock. */
  predicate QuantityInStock(p: Product, q: int)
  {
    0 < q <= p.quantity
  }

  /** `handleQuantityChange`: take the new value only if a product is chosen and the
      value lies between 1 and its stock; otherwise ignore it. */
  function HandleQuantityChange(st: CashierState, value: int): (r: CashierState)
    ensures r.products == st.products && r.selected == st.selected
    ensures r.quantity == value || r.quantity == st.quantity
    ensures r.quantity != st.quantity ==>
              SelectedProduct(st).Some? && QuantityInStock(SelectedProduct(st).value, r.quantity)
  {
    match SelectedProduct(st)
    case Some(p) => if QuantityInStock(p, value) then st.(quantity := value) else st
    case None => st
  }

  /** The quantity field takes a new value exactly when a product is chosen and the value
      is in stock for it. */
  lemma QuantityChangeAccepted(st: CashierState, value: int)
    requires value != st.quantity
    ensures HandleQuantityChange(st, value).quantity == value <==>
            SelectedProduct(st).Some? && QuantityInStock(SelectedProduct(st).value, value)
  {
  }

  /** A product the drop-down offers: `disabled={product.quantity === 0}`. */
  predicate Selectable(p: Product)
  {
    p.quantity != 0
  }

  datatype Outcome =
    | NoProductSelected
    | InvalidQuantity(available: int)
    | Sold(sale: Sale)

  datatype CheckoutResult = CheckoutResult(db: Store, state: CashierState, outcome: Outcome)

  /** The sale the page hands to `sales.create` for a chosen product, dated `date`. */
  function SaleFor(st: CashierState, p: Product, date: int): (d: SaleData)
    ensures d.productId == p.id && d.quantity == st.quantity && d.unitPrice == p.price
    ensures d.date == date
  {
    SaleData(p.id, p.name, st.quantity, p.price, CalculateTotal(st), date)
  }

  /** `handleCheckout`: refuse without a product or with a quantity outside 1..stock
      (judged on the page's snapshot); otherwise record the sale, reset the form to
      no product and quantity 1, and reload the products from the store. The clock is
      read twice: `saleTime` dates the sale on the page, and `stockTime` is the later
      reading with which the store stamps the product's stock change. */
  function Checkout(db: Store, st: CashierState, saleTime: int, stockTime: int): (r: CheckoutResult)
    ensures r.outcome.NoProductSelected? <==> SelectedProduct(st).None?
    ensures r.outcome.InvalidQuantity? <==>
              SelectedProduct(st).Some? && !QuantityInStock(SelectedProduct(st).value, st.quantity)
    ensures r.outcome.InvalidQuantity? ==> r.outcome.available == SelectedProduct(st).value.quantity
    ensures !r.outcome.Sold? ==> r.db == db && r.state == st
    ensures r.outcome.Sold? ==>
              var p := SelectedProduct(st).value;
              && r.outcome.sale.productId == p.id
              && r.outcome.sale.productName == p.name
              && r.outcome.sale.quantity == st.quantity
              && r.outcome.sale.unitPrice == p.price
              && r.outcome.sale.totalPrice == p.price * st.quantity
              && r.outcome.sale.date == saleTime
              && r.db.sales == db.sales + [r.outcome.sale]
              && r.db.products == UpdateStock(db, p.id, st.quantity, stockTime).db.products
              && r.state == CashierState(r.db.products, None, 1)
  {
    match SelectedProduct(st)
    case None => CheckoutResult(db, st, NoProductSelected)
    case Some(p) =>
      if !QuantityInStock(p, st.quantity) then CheckoutResult(db, st, InvalidQuantity(p.quantity))
      else
        var step := CreateSale(db, SaleFor(st, p, saleTime), stockTime);
        CheckoutResult(step.db, Opened(step.db), Sold(step.result))
  }

  /** A recorded sale's total is its unit price times its quantity. */
  lemma CheckoutTotalConsistent(db: Store, st: CashierState, saleTime: int, stockTime: int)
    requires Checkout(db, st, saleTime, stockTime).outcome.Sold?
    ensures var s := Checkout(db, st, saleTime, stockTime).outcome.sale;
            s.totalPrice == s.unitPrice * s.quantity && s.quantity > 0
  {
  }

  /** After a sale the form is empty: nothing chosen and a total of 0. */
  lemma CheckoutResetsForm(db: Store, st: CashierState, saleTime: int, stockTime: int)
    requires Checkout(db, st, saleTime, stockTime).outcome.Sold?
    ensures CalculateTotal(Checkout(db, st, saleTime, stockTime).state) == 0
    ensures Checkout(db, st, saleTime, stockTime).state.products == Checkout(db, st, saleTime, stockTime).db.products
  {
  }

  /** While the page's copy of the chosen product matches the store's, a sale takes
      exactly the sold units off the store's stock (the store's clamp at 0 never fires)
      and leaves every other product as it was. */
  lemma CheckoutNeverClamps(db: Store, st: CashierState, saleTime: int, stockTime: int)
    requires Checkout(db, st, saleTime, stockTime).outcome.Sold?
    requires FindProduct(db.products, st.selected.value) == SelectedProduct(st)
    ensures var p := SelectedProduct(st).value;
            var after := Checkout(db, st, saleTime, stockTime).db.products;
            && FindProduct(after, p.id).Some?
            && FindProduct(after, p.id).value.quantity == p.quantity - st.quantity
            && FindProduct(after, p.id).value.quantity >= 0
            && FindProduct(after, p.id).value.updatedAt == stockTime
            && forall other :: other != p.id ==> FindProduct(after, other) == FindProduct(db.products, other)
  {
    var p := SelectedProduct(st).value;
    StoreProps.SaleDecrementsStock(db, SaleFor(st, p, saleTime), stockTime);
  }

  /** With a stale snapshot that still shows more stock than the store has, the sale goes
      through for the full quantity and the store's stock drops to 0. */
  lemma StaleSnapshotClampsToZero(db: Store, st: CashierState, saleTime: int, stockTime: int)
    requires SelectedProduct(st).Some? && QuantityInStock(SelectedProduct(st).value, st.quantity)
    requires FindProduct(db.products, st.selected.value).Some?
    requires FindProduct(db.products, st.selected.value).value.quantity < st.quantity
    ensures Checkout(db, st, saleTime, stockTime).outcome.Sold?
    ensures Checkout(db, st, saleTime, stockTime).outcome.sale.quantity == st.quantity
    ensures var after := FindProduct(Checkout(db, st, saleTime, stockTime).db.products, st.selected.value);
            after.Some? && after.value.quantity == 0
  {
    var p := SelectedProduct(st).value;
    StoreProps.SaleDecrementsStock(db, SaleFor(st, p, saleTime), stockTime);
  }

  /** A product the drop-down disables (no stock) can never be sold: any quantity the
      field can hold is refused. */
  lemma OutOfStockNeverSells(db: Store, st: CashierState, saleTime: int, stockTime: int)
    requires SelectedProduct(st).Some? && !Selectable(SelectedProduct(st).value)
    ensures Checkout(db, st, saleTime, stockTime).outcome.InvalidQuantity?
    ensures Checkout(db, st, saleTime, stockTime).db == db
  {
  }

  /** A freshly opened (or just reset) page sells one unit of any selectable product with
      stock as soon as it is chosen. */
  lemma FirstSaleAtOneUnit(db: Store, id: int, saleTime: int, stockTime: int)
    requires FindProduct(db.products, id).Some?
    requires FindProduct(db.products, id).value.quantity > 0
    ensures var st := Opened(db).(selected := Some(id));
            && Selectable(SelectedProduct(st).value)
            && Checkout(db, st, saleTime, stockTime).outcome.Sold?
            && Checkout(db, st, saleTime, stockTime).outcome.sale.quantity == 1
  {
  }
}
