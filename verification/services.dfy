/** The services table of the site with its two helpers: lookup by slug and
    selection by category. Each helper reads the table it is given; the
    site applies them to `staticServices`. */
module Services {
  import opened Wrappers
  import opened Seqs

  /** A service; descriptions, icons, highlights, pricing and delivery time play no part in either helper. */
  datatype Service = Service(id: int, title: string, slug: string, category: string, order: int)

  /** The `staticServices` table, in declaration order. */
  const staticServices: seq<Service> := [
      Service(1, "Custom PC Build — Gaming & Office PCs", "custom-pc-build", "hardware", 1),
      Service(2, "Laptop/All-in-One PC Services", "laptop-services", "hardware", 2),
      Service(3, "Personal Server & NAS Solution for SME", "server-nas-solution", "networking", 3),
      Service(4, "Networking Service — Custom Solutions", "networking-solutions", "networking", 4),
      Service(5, "All Printer Retail Services / Toner Replacement", "printer-services", "hardware", 5),
      Service(6, "Online Desktop/Remote Support", "remote-support", "support", 6),
      Service(7, "AMC (Annual Maintenance Contract)", "annual-maintenance-contract", "support", 7),
      Service(8, "All Types CCTV Camera Fitting and Services", "cctv-installation", "security", 8),
      Service(9, "Virus Removal and Installation", "virus-removal-installation", "software", 9),
      Service(10, "Data Backup", "data-backup-services", "support", 10),
      Service(11, "Provide Consultation on PC, Laptops, and Peripherals", "it-consultation", "consultation", 11)
    ]

  /** The find predicate `service => service.slug === slug`. */
  function HasSlug(slug: string): Service -> bool
  {
    (service: Service) => service.slug == slug
  }

  /** The filter predicate `service => service.category === category`. */
  function InCategory(category: string): Service -> bool
  {
    (service: Service) => service.category == category
  }

  /** `getServiceBySlug`: a service with that slug, `None` standing for `undefined`. */
  function GetServiceBySlug(table: seq<Service>, slug: string): (r: Option<Service>)
    ensures r.Some? ==> r.value.slug == slug && r.value in table
    ensures r.None? <==> forall i :: 0 <= i < |table| ==> table[i].slug != slug
  {
    Find(table, HasSlug(slug))
  }

  /** The service found is the first one in table order with that slug. */
  lemma GetServiceBySlugIsFirst(table: seq<Service>, slug: string, i: nat)
    requires i < |table| && table[i].slug == slug
    requires forall j :: 0 <= j < i ==> table[j].slug != slug
    ensures GetServiceBySlug(table, slug) == Some(table[i])
  {
    var k := FindIndex(table, HasSlug(slug));
    assert HasSlug(slug)(table[i]);
    assert k.Some? && k.value <= i;
    assert !(k.value < i) by {
      assert HasSlug(slug)(table[k.value]);
    }
  }

  /** `getServicesByCategory`: the services of one category. */
  function GetServicesByCategory(table: seq<Service>, category: string): (r: seq<Service>)
    ensures forall i :: 0 <= i < |r| ==> r[i].category == category && r[i] in table
    ensures forall i :: 0 <= i < |table| && table[i].category == category ==> table[i] in r
  {
    Filter(table, InCategory(category))
  }

  /** The selection keeps table order and each entry's multiplicity. */
  lemma GetServicesByCategoryKeepsOrder(table: seq<Service>, category: string)
    ensures IsSubsequence(GetServicesByCategory(table, category), table)
    ensures forall x: Service :: x.category == category ==>
      multiset(GetServicesByCategory(table, category))[x] == multiset(table)[x]
  {
    FilterIsSubsequence(table, InCategory(category));
    forall x: Service | x.category == category
      ensures multiset(GetServicesByCategory(table, category))[x] == multiset(table)[x]
    {
      FilterMultiset(table, InCategory(category), x);
    }
  }

  /** A category no service carries gives an empty list. */
  lemma UnknownServiceCategoryIsEmpty(table: seq<Service>, category: string)
    requires forall i :: 0 <= i < |table| ==> table[i].category != category
    ensures GetServicesByCategory(table, category) == []
  {
    FilterNone(table, InCategory(category));
  }
}
