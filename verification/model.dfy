/** The product record and the creation request of the inventory service. */
module Model {
  import opened Wrappers

  /** A `BigDecimal` price as its unscaled value and scale. The service never
      computes with prices; it only copies them from a request into a record. */
  datatype Decimal = Decimal(unscaled: int, scale: int)

  /** A product row. The identifier is absent until the store assigns one on
      the first save. */
  datatype Product = Product(id: Option<int>, name: string, price: Decimal, stock: int)

  /** The body of a create request: everything but the identifier. */
  datatype CreateProductRequest = CreateProductRequest(name: string, price: Decimal, stock: int)

  /** The record built from a request, before it is saved. */
  function FromRequest(req: CreateProductRequest): (p: Product)
    ensures p.id == None
    ensures p.name == req.name && p.price == req.price && p.stock == req.stock
  {
    Product(None, req.name, req.price, req.stock)
  }
}
