/** The products and variants the server sends, as the purchase-order form, the inventory page and the product list read them. */
module Catalog {
  import opened Wrappers
  import Seqs
  import opened Helpers

  /** A variant as listed in a product: price in integer cents. */
  datatype CatalogVariant = CatalogVariant(id: string, sku: string, attributes: AttrValue, price: int, stock: int)

  datatype Product = Product(id: string, name: string, category: string, variants: seq<CatalogVariant>)

  /** `products.find(p => p._id === id)`: the first product with the id. */
  function FindProduct(products: seq<Product>, id: string): (r: Option<Product>)
    ensures r.None? <==> forall p :: p in products ==> p.id != id
    ensures r.Some? ==> r.value in products && r.value.id == id
    ensures r.Some? ==> exists i :: 0 <= i < |products| && products[i] == r.value && forall j :: 0 <= j < i ==> products[j].id != id
  {
    Seqs.Find(products, (p: Product) => p.id == id)
  }

  /** `product.variants.find(v => v._id === id)`: the first variant with the id. */
  function FindVariant(variants: seq<CatalogVariant>, id: string): (r: Option<CatalogVariant>)
    ensures r.None? <==> forall v :: v in variants ==> v.id != id
    ensures r.Some? ==> r.value in variants && r.value.id == id
    ensures r.Some? ==> exists i :: 0 <= i < |variants| && variants[i] == r.value && forall j :: 0 <= j < i ==> variants[j].id != id
  {
    Seqs.Find(variants, (v: CatalogVariant) => v.id == id)
  }
}
