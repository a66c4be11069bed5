/** The brand-partner table of the site and its four helpers: featured
    brands sorted by display order, one category sorted by display order,
    the distinct categories, and the brands grouped by category. Each
    helper reads the table it is given; the site applies them to `brands`. */
module Brands {
  import opened Seqs

  /** A brand partner; the logo and website URLs play no part in any helper. */
  datatype Brand = Brand(id: string, name: string, category: string, featured: bool, order: int)

  /** The `brands` table, in declaration order. */
  const brands: seq<Brand> := [
      Brand("dell", "Dell", "Laptops & Desktops", true, 1),
      Brand("hp", "HP", "Laptops & Computers", true, 2),
      Brand("lenovo", "Lenovo", "Laptops & Desktops", true, 3),
      Brand("asus", "ASUS", "Laptops & Motherboards", true, 4),
      Brand("acer", "Acer", "Laptops & Computers", true, 8),
      Brand("intel", "Intel", "Processors", true, 6),
      Brand("amd", "AMD", "Processors & Graphics", true, 7),
      Brand("nvidia", "NVIDIA", "Graphics Cards", true, 5),
      Brand("msi", "MSI", "Motherboards & Gaming", true, 9),
      Brand("gigabyte", "Gigabyte", "Motherboards & Graphics", true, 10),
      Brand("asrock", "ASRock", "Motherboards", true, 11),
      Brand("canon", "Canon", "Printers & Scanners", true, 12),
      Brand("epson", "Epson", "Printers & Scanners", true, 13),
      Brand("brother", "Brother", "Printers & Scanners", true, 14),
      Brand("samsung", "Samsung", "Monitors & Displays", true, 15),
      Brand("benq", "BenQ", "Monitors & Displays", true, 16),
      Brand("lg", "LG", "Monitors & Displays", true, 17),
      Brand("dahua", "Dahua", "CCTV & Surveillance", true, 18),
      Brand("cpplus", "CP Plus", "CCTV & Surveillance", true, 19),
      Brand("unv", "Uniview", "CCTV & Surveillance", true, 20),
      Brand("hifocus", "Hifocus", "CCTV & Surveillance", true, 21),
      Brand("hikvision", "Hikvision", "CCTV & Surveillance", true, 22),
      Brand("dlink", "D-Link", "Networking & WiFi", true, 23),
      Brand("tplink", "TP-Link", "Networking & WiFi", true, 24),
      Brand("cisco", "Cisco", "Networking", true, 25),
      Brand("netgear", "NETGEAR", "Networking & WiFi", true, 26),
      Brand("logitech", "Logitech", "Peripherals", true, 27),
      Brand("corsair", "Corsair", "Gaming Peripherals", true, 28),
      Brand("razer", "Razer", "Gaming Peripherals", true, 29),
      Brand("western-digital", "Western Digital", "Storage Solutions", true, 30),
      Brand("seagate", "Seagate", "Storage Solutions", true, 31),
      Brand("kingston", "Kingston", "Memory & Storage", true, 32),
      Brand("crucial", "Crucial", "Memory & Storage", true, 33),
      Brand("sandisk", "SanDisk", "Memory & Storage", true, 34)
    ]

  function IsFeatured(b: Brand): bool { b.featured }

  function Order(b: Brand): int { b.order }

  function Category(b: Brand): string { b.category }

  /** The filter predicate `brand => brand.category === category`. */
  function InCategory(category: string): Brand -> bool
  {
    KeyIs(Category, category)
  }

  /** `getFeaturedBrands`: the featured brands, sorted by `order`. */
  function GetFeaturedBrands(table: seq<Brand>): (r: seq<Brand>)
    ensures SortedBy(r, Order)
    ensures multiset(r) == multiset(Filter(table, IsFeatured))
  {
    SortBy(Filter(table, IsFeatured), Order)
  }

  /** A brand is listed as featured exactly when it is a featured table entry. */
  lemma FeaturedBrandsExactly(table: seq<Brand>, b: Brand)
    ensures b in GetFeaturedBrands(table) <==> b in table && b.featured
  {
    SortKeepsMembers(Filter(table, IsFeatured), Order, b);
    FilterMembers(table, IsFeatured, b);
  }

  /** The predicate holds of exactly the brands with that category. */
  lemma InCategoryMeans(category: string, b: Brand)
    ensures InCategory(category)(b) <==> b.category == category
  {
    assert KeyIs(Category, category)(b) == (Category(b) == category);
  }

  /** `getBrandsByCategory`: the brands of one category, sorted by `order`. */
  function GetBrandsByCategory(table: seq<Brand>, category: string): (r: seq<Brand>)
    ensures SortedBy(r, Order)
    ensures multiset(r) == multiset(Filter(table, InCategory(category)))
  {
    SortBy(Filter(table, InCategory(category)), Order)
  }

  /** A brand is listed for a category exactly when the table gives it that
      category. */
  lemma BrandsByCategoryExactly(table: seq<Brand>, category: string, b: Brand)
    ensures b in GetBrandsByCategory(table, category) <==> b in table && b.category == category
  {
    SortKeepsMembers(Filter(table, InCategory(category)), Order, b);
    FilterMembers(table, InCategory(category), b);
    InCategoryMeans(category, b);
  }

  /** A category no brand carries gives an empty list. */
  lemma UnknownCategoryIsEmpty(table: seq<Brand>, category: string)
    requires forall i :: 0 <= i < |table| ==> table[i].category != category
    ensures GetBrandsByCategory(table, category) == []
  {
    forall i | 0 <= i < |table|
      ensures !InCategory(category)(table[i])
    {
      InCategoryMeans(category, table[i]);
    }
    FilterNone(table, InCategory(category));
  }

  /** `getAllCategories`: `[...new Set(brands.map(brand => brand.category))]`. */
  function GetAllCategories(table: seq<Brand>): (r: seq<string>)
    ensures |r| <= |table|
  {
    Dedupe(Project(table, Category))
  }

  /** The categories are listed once each, exactly the categories of the
      table, in the order in which the table first uses them. */
  lemma AllCategoriesSpec(table: seq<Brand>)
    ensures NoDuplicates(GetAllCategories(table))
    ensures forall c :: c in GetAllCategories(table) <==> c in Project(table, Category)
    ensures forall c :: c in GetAllCategories(table) <==> exists i :: 0 <= i < |table| && table[i].category == c
    ensures forall i, j :: 0 <= i < j < |GetAllCategories(table)| ==>
      FirstIndex(Project(table, Category), GetAllCategories(table)[i]) <
      FirstIndex(Project(table, Category), GetAllCategories(table)[j])
  {
    var cs := Project(table, Category);
    DedupeNoDuplicates(cs);
    DedupeFirstOccurrence(cs);
    DedupeMembers(cs);
    forall c | c in GetAllCategories(table)
      ensures exists i :: 0 <= i < |table| && table[i].category == c
    {
      var i :| 0 <= i < |cs| && cs[i] == c;
      assert table[i].category == c;
    }
    forall c, i | 0 <= i < |table| && table[i].category == c
      ensures c in GetAllCategories(table)
    {
      assert cs[i] == c;
    }
  }

  /** `brandsByCategory`: the table reduced into a record from category to
      brands, whose keys keep insertion order. */
  function BrandsByCategory(table: seq<Brand>): (r: seq<Group<string, Brand>>)
    ensures |r| <= |table|
  {
    GroupBy(table, Category)
  }

  /** The record's keys are `getAllCategories()`; each array holds that
      category's brands in table order; together they hold the table. */
  lemma BrandsByCategorySpec(table: seq<Brand>)
    ensures Keys(BrandsByCategory(table)) == GetAllCategories(table)
    ensures forall i :: 0 <= i < |BrandsByCategory(table)| ==>
      BrandsByCategory(table)[i].items == Filter(table, InCategory(BrandsByCategory(table)[i].key))
    ensures Total(BrandsByCategory(table)) == |table|
  {
    GroupByKeys(table, Category);
    GroupByItems(table, Category);
    GroupByTotal(table, Category);
  }

  /** Sorting a group's array gives `getBrandsByCategory` for its key. */
  lemma GroupSortedIsCategory(table: seq<Brand>, i: nat)
    requires i < |BrandsByCategory(table)|
    ensures SortBy(BrandsByCategory(table)[i].items, Order) == GetBrandsByCategory(table, BrandsByCategory(table)[i].key)
  {
    BrandsByCategorySpec(table);
  }
}
