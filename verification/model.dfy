/**
  The records of the point-of-sale application: users, products and sales,
  and the "everything but the id" shapes callers pass to the store's create
  and update operations.

  Money (price, unitPrice, totalPrice, revenue) is an integer number of
  cents; timestamps (createdAt, updatedAt, a sale's date) are integer
  milliseconds since the epoch.
 */
module Model {

  import opened Seqs

  datatype Role = Admin | Cashier

  datatype User = User(
    id: int,
    name: string,
    email: string,
    password: string,
    role: Role,
    createdAt: int)

  /** A user without its id, as handed to registration. */
  datatype UserData = UserData(
    name: string,
    email: string,
    password: string,
    role: Role,
    createdAt: int)
  {
    /** `{ ...userData, id }` */
    function WithId(id: int): (u: User)
      ensures u.id == id && u.email == email && u.password == password
    {
      User(id, name, email, password, role, createdAt)
    }
  }

  datatype Product = Product(
    id: int,
    name: string,
    description: string,
    price: int,
    quantity: int,
    lowStockAlert: int,
    imageUrl: string,
    createdAt: int,
    updatedAt: int)

  /** A product without its id, as handed to create and update. */
  datatype ProductData = ProductData(
    name: string,
    description: string,
    price: int,
    quantity: int,
    lowStockAlert: int,
    imageUrl: string,
    createdAt: int,
    updatedAt: int)
  {
    /** `{ ...productData, id }` */
    function WithId(id: int): (p: Product)
      ensures p.id == id && p.quantity == quantity && p.createdAt == createdAt
    {
      Product(id, name, description, price, quantity, lowStockAlert, imageUrl, createdAt, updatedAt)
    }
  }

  /** A recorded sale: the product's name and unit price are copied in, not joined. */
  datatype Sale = Sale(
    id: int,
    productId: int,
    productName: string,
    quantity: int,
    unitPrice: int,
    totalPrice: int,
    date: int)

  /** A sale without its id, as handed to `sales.create`. */
  datatype SaleData = SaleData(
    productId: int,
    productName: string,
    quantity: int,
    unitPrice: int,
    totalPrice: int,
    date: int)
  {
    /** `{ ...saleData, id }` */
    function WithId(id: int): (s: Sale)
      ensures s.id == id && s.productId == productId && s.quantity == quantity
    {
      Sale(id, productId, productName, quantity, unitPrice, totalPrice, date)
    }
  }

  /** One row of a per-product aggregate (`ProductSummary` and `TopProduct` have this shape). */
  datatype ProductSummary = ProductSummary(
    productId: int,
    productName: string,
    totalSold: int,
    totalRevenue: int)

  datatype SalesSummary = SalesSummary(
    totalSales: int,
    totalRevenue: int,
    productSummary: seq<ProductSummary>)

  function Revenue(s: Sale): int { s.totalPrice }
  function Units(s: Sale): int { s.quantity }
  function SaleDate(s: Sale): int { s.date }
  function ProductOf(s: Sale): int { s.productId }

  /** `sales.reduce((sum, sale) => sum + sale.totalPrice, 0)` */
  function TotalRevenue(sales: seq<Sale>): int { SumBy(sales, Revenue) }

  /** `quantity <= lowStockAlert && quantity > 0`: the one low-stock rule of the application. */
  predicate IsLowStock(p: Product)
  {
    0 < p.quantity <= p.lowStockAlert
  }
}
