/** The `Product` record of the inventory API and the parts of its paged
    list response that the pages read. */
module ProductModel {

  /** One product row. `price` is a JavaScript number and is only displayed;
      `quantity` is summed as an integer on the dashboard. */
  datatype Product = Product(
    id: int,
    name: string,
    sku: string,
    quantity: int,
    price: real,
    createdAt: string,
    updatedAt: string)

  /** The fields of a `getProducts` response the pages use: the rows of the
      requested page (`data`) and the number of the last page (`last_page`). */
  datatype ProductPage = ProductPage(data: seq<Product>, lastPage: int)

  /** The arguments of one `getProducts(page, search)` call. */
  datatype ProductQuery = ProductQuery(page: int, search: string)
}
