/**
 * The shapes exchanged with the product resource server (lib/api.ts) and the
 * requests the dashboard issues. The requests themselves are not modelled;
 * their outcomes are parameters of the dashboard's transitions.
 */
module Api {

  /** A product as the server stores it: `nama_produk`, `harga_satuan`, `quantity`. */
  datatype Product = Product(id: int, name: string, unitPrice: real, quantity: int)

  /** A product without its server-assigned id: the body of a create or update request. */
  datatype ProductInput = ProductInput(name: string, unitPrice: real, quantity: int)

  /** The request body that would re-send `p` unchanged. */
  function Fields(p: Product): ProductInput
  {
    ProductInput(p.name, p.unitPrice, p.quantity)
  }

  /** One call of `api.getProducts`, `createProduct`, `updateProduct` or `deleteProduct`. */
  datatype Request =
    | ListProducts
    | CreateProduct(input: ProductInput)
    | UpdateProduct(id: int, input: ProductInput)
    | DeleteProduct(id: int)
  {
    /** True of the requests that change the server's product collection. */
    predicate IsWrite()
    {
      !ListProducts?
    }
  }
}
