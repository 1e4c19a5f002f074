/** The storefront's fixed product list and the lookup `addToCart` performs on it. */
module Catalog {
  import opened Options
  import opened Seqs

  /** One product: its numeric id, display name, category tag, price in whole
      dollars and image address. */
  datatype Product = Product(id: int, name: string, tag: string, price: nat, img: string)

  const Products: seq<Product> := [
    Product(1, "Aura Minimalist Pendant", "Pendant", 249,
      "https://images.unsplash.com/photo-1517991104123-1d56a6e81ed9?auto=format&fit=crop&q=80&w=600"),
    Product(2, "Orbital Glass Sconce", "Wall Sconce", 189,
      "https://images.unsplash.com/photo-1507473885765-e6ed057f782c?auto=format&fit=crop&q=80&w=600"),
    Product(3, "Nova Linear Chandelier", "Chandelier", 899,
      "https://images.unsplash.com/photo-1543167653-e8220942c733?auto=format&fit=crop&q=80&w=600"),
    Product(4, "Zen Marble Base Lamp", "Table Lamp", 159,
      "https://images.unsplash.com/photo-1550989460-0adf9ea622e2?auto=format&fit=crop&q=80&w=600"),
    Product(5, "Eclipse Arc Floor Lamp", "Floor Lamp", 329,
      "https://images.unsplash.com/photo-1524484485831-a92ffc0bc074?auto=format&fit=crop&q=80&w=600"),
    Product(6, "Lumina Directional Spot", "Spotlight", 129,
      "https://images.unsplash.com/photo-1542728929-79730594326f?auto=format&fit=crop&q=80&w=600")
  ]

  function HasProductId(id: int): Product -> bool {
    (p: Product) => p.id == id
  }

  /** `products.find(p => p.id === id)`, over the given catalog. */
  function FindProduct(catalog: seq<Product>, id: int): (r: Option<Product>)
    ensures r.Some? ==> r.value in catalog && r.value.id == id
    ensures r.None? <==> forall p :: p in catalog ==> p.id != id
  {
    match FindIndex(catalog, HasProductId(id))
    case None => None
    case Some(k) => Some(catalog[k])
  }

  /** The lookup returns the first product carrying the id, as `find` does,
      even in a catalog that repeats an id. */
  lemma FindProductFirst(catalog: seq<Product>, id: int, k: nat)
    requires k < |catalog| && catalog[k].id == id
    requires forall j :: 0 <= j < k ==> catalog[j].id != id
    ensures FindProduct(catalog, id) == Some(catalog[k])
  {
    assert HasProductId(id)(catalog[k]);
  }

  /** The catalog's ids are pairwise distinct, so at most one product matches an id. */
  lemma CatalogIdsUnique()
    ensures forall i, j :: 0 <= i < j < |Products| ==> Products[i].id != Products[j].id
  {
  }

  /** Exactly the ids 1 to 6 name a product, and each is found at its own position. */
  lemma FindProductDomain(id: int)
    ensures FindProduct(Products, id).Some? <==> 1 <= id <= 6
    ensures FindProduct(Products, id).Some? ==> FindProduct(Products, id).value == Products[id - 1]
  {
    assert forall i :: 0 <= i < |Products| ==> Products[i].id == i + 1;
  }

}
