/** The products table of the site with its two helpers: lookup by slug and
    selection by category. Each helper reads the table it is given; the
    site applies them to `staticProducts`. */
module Products {
  import opened Wrappers
  import opened Seqs

  /** A product line; descriptions, icons, features, prices, availability, warranty and images play no part in either helper. */
  datatype Product = Product(id: int, title: string, slug: string, category: string)

  /** The `staticProducts` table, in declaration order. */
  const staticProducts: seq<Product> := [
      Product(1, "Custom PC", "custom-pc", "custom-pc"),
      Product(2, "Laptops", "laptops", "laptop"),
      Product(3, "Monitors", "monitors", "monitor"),
      Product(4, "Printers", "printers", "printer"),
      Product(5, "CCTV", "cctv-systems", "cctv"),
      Product(6, "Hard Disk and SSD/NVMe", "storage-devices", "storage"),
      Product(7, "RAM", "ram-memory", "ram"),
      Product(8, "Networking Cable", "networking-cables", "networking"),
      Product(9, "All Peripherals", "computer-peripherals", "peripheral"),
      Product(10, "WiFi Routers", "wifi-routers", "router")
    ]

  /** The find predicate `product => product.slug === slug`. */
  function HasSlug(slug: string): Product -> bool
  {
    (product: Product) => product.slug == slug
  }

  /** The filter predicate `product => product.category === category`. */
  function InCategory(category: string): Product -> bool
  {
    (product: Product) => product.category == category
  }

  /** `getProductBySlug`: a product with that slug, `None` standing for `undefined`. */
  function GetProductBySlug(table: seq<Product>, slug: string): (r: Option<Product>)
    ensures r.Some? ==> r.value.slug == slug && r.value in table
    ensures r.None? <==> forall i :: 0 <= i < |table| ==> table[i].slug != slug
  {
    Find(table, HasSlug(slug))
  }

  /** The product found is the first one in table order with that slug. */
  lemma GetProductBySlugIsFirst(table: seq<Product>, slug: string, i: nat)
    requires i < |table| && table[i].slug == slug
    requires forall j :: 0 <= j < i ==> table[j].slug != slug
    ensures GetProductBySlug(table, slug) == Some(table[i])
  {
    var k := FindIndex(table, HasSlug(slug));
    assert HasSlug(slug)(table[i]);
    assert k.Some? && k.value <= i;
    assert !(k.value < i) by {
      assert HasSlug(slug)(table[k.value]);
    }
  }

  /** `getProductsByCategory`: the products of one category. */
  function GetProductsByCategory(table: seq<Product>, category: string): (r: seq<Product>)
    ensures forall i :: 0 <= i < |r| ==> r[i].category == category && r[i] in table
    ensures forall i :: 0 <= i < |table| && table[i].category == category ==> table[i] in r
  {
    Filter(table, InCategory(category))
  }

  /** The selection keeps table order and each entry's multiplicity. */
  lemma GetProductsByCategoryKeepsOrder(table: seq<Product>, category: string)
    ensures IsSubsequence(GetProductsByCategory(table, category), table)
    ensures forall x: Product :: x.category == category ==>
      multiset(GetProductsByCategory(table, category))[x] == multiset(table)[x]
  {
    FilterIsSubsequence(table, InCategory(category));
    forall x: Product | x.category == category
      ensures multiset(GetProductsByCategory(table, category))[x] == multiset(table)[x]
    {
      FilterMultiset(table, InCategory(category), x);
    }
  }

  /** A category no product carries gives an empty list. */
  lemma UnknownProductCategoryIsEmpty(table: seq<Product>, category: string)
    requires forall i :: 0 <= i < |table| ==> table[i].category != category
    ensures GetProductsByCategory(table, category) == []
  {
    FilterNone(table, InCategory(category));
  }
}
