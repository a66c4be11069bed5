/** The testimonial table of the site and `getFeaturedTestimonials`, which
    shows the first few entries. The helper reads the table it is given; the
    site applies it to `staticTestimonials`. */
module Testimonials {
  import opened Wrappers

  /** A testimonial; role, quote, location and initials play no part in the
      helper. */
  datatype Testimonial = Testimonial(id: int, name: string, company: string, rating: int)

  /** The `staticTestimonials` table, in declaration order. */
  const staticTestimonials: seq<Testimonial> := [
      Testimonial(1, "Rajesh Kumar", "TechStart Solutions", 5),
      Testimonial(2, "Priya Sharma", "Creative Studio", 5),
      Testimonial(3, "Amit Patel", "Bright Future Pvt. Ltd.", 5),
      Testimonial(4, "Sneha Verma", "Verma & Associates", 5),
      Testimonial(5, "Vikram Singh", "Singh Electronics", 5),
      Testimonial(6, "Anita Desai", "Modern Public School", 5)
    ]

  /** The parameter default of `getFeaturedTestimonials`. */
  const DefaultCount := 3

  /** The end position `Array.prototype.slice` computes from an integer end
      argument: counted from the back when negative, clamped to the length. */
  function SliceEnd(length: nat, end: int): (k: nat)
    ensures k <= length
    ensures 0 <= end ==> k == if end < length then end else length
    ensures end < 0 ==> k == if length + end < 0 then 0 else length + end
  {
    if end < 0 then (if length + end < 0 then 0 else length + end)
    else if end < length then end
    else length
  }

  /** `getFeaturedTestimonials(count)`: `table.slice(0, count)`, with `None`
      for an omitted argument. */
  function GetFeaturedTestimonials(table: seq<Testimonial>, count: Option<int>): (r: seq<Testimonial>)
    ensures r <= table
    ensures 0 <= count.GetOr(DefaultCount) ==>
      |r| == if count.GetOr(DefaultCount) < |table| then count.GetOr(DefaultCount) else |table|
    ensures count.GetOr(DefaultCount) < 0 ==>
      |r| == if |table| + count.GetOr(DefaultCount) < 0 then 0 else |table| + count.GetOr(DefaultCount)
  {
    table[..SliceEnd(|table|, count.GetOr(DefaultCount))]
  }

  /** Omitting the count is asking for three. */
  lemma DefaultIsThree(table: seq<Testimonial>)
    ensures GetFeaturedTestimonials(table, None) == GetFeaturedTestimonials(table, Some(3))
  {
  }

  /** A count covering the table returns the whole table in order. */
  lemma LargeCountIsWholeTable(table: seq<Testimonial>, n: int)
    requires |table| <= n
    ensures GetFeaturedTestimonials(table, Some(n)) == table
  {
  }

  /** Asking for more never shows fewer: smaller counts give prefixes of
      larger ones. */
  lemma FeaturedMonotone(table: seq<Testimonial>, m: nat, n: nat)
    requires m <= n
    ensures GetFeaturedTestimonials(table, Some(m)) <= GetFeaturedTestimonials(table, Some(n))
  {
  }

  /** On the site's table the default shows the first three testimonials. */
  lemma SiteDefaultShowsFirstThree()
    ensures GetFeaturedTestimonials(staticTestimonials, None) == staticTestimonials[..3]
    ensures |GetFeaturedTestimonials(staticTestimonials, None)| == 3
  {
  }
}
