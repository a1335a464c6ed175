/**
 * The testimonial carousel: five client quotes, one shown at a time,
 * changed by the arrows, the dots and the autoplay timer (which calls
 * "next").
 */
module TestimonialCarousel {
  import opened Slides

  /** One quote's attribution; the quote's own text is not modelled. */
  datatype Testimonial = Testimonial(name: string, company: string, role: string)

  const Testimonials: seq<Testimonial> := [
    Testimonial("Rajesh Kumar", "TechVentures Pvt. Ltd.", "CEO"),
    Testimonial("Priya Sharma", "Greenfield Exports", "Director"),
    Testimonial("Amit Das", "Eastern Pharma Group", "CFO"),
    Testimonial("Sneha Patil", "InnoStart Technologies", "Co-Founder"),
    Testimonial("Vikram Ghosh", "Kolkata Realty Group", "Managing Partner")
  ]

  /** Five "next" steps, as five autoplay ticks make, come back to the same quote. */
  lemma FiveTicks(i: int)
    requires 0 <= i < |Testimonials|
    ensures |Testimonials| == 5 && NextTimes(i, |Testimonials|, 5) == i
  {
    FullCircle(i, |Testimonials|);
  }

  class Carousel {
    var index: int

    predicate Valid()
      reads this
    {
      0 <= index < |Testimonials|
    }

    constructor ()
      ensures Valid() && index == 0
    {
      index := 0;
    }

    /** The quote on screen. */
    function Shown(): (t: Testimonial)
      requires Valid()
      reads this
      ensures t in Testimonials
    {
      Testimonials[index]
    }

    /** The right arrow, and each autoplay tick: the next quote, the first after the last. */
    method Next()
      requires Valid()
      modifies this
      ensures Valid() && index == Slides.Next(old(index), 5)
    {
      index := (index + 1) % |Testimonials|;
    }

    /** The left arrow: the previous quote, the last before the first. */
    method Prev()
      requires Valid()
      modifies this
      ensures Valid() && index == Slides.Prev(old(index), 5)
    {
      index := (index - 1 + |Testimonials|) % |Testimonials|;
    }

    /** Dot `i` shows quote `i`. */
    method Dot(i: int)
      requires Valid() && 0 <= i < |Testimonials|
      modifies this
      ensures Valid() && index == i && Shown() == Testimonials[i]
    {
      index := i;
    }
  }

  /** Back right after forward shows the quote it started from. */
  method NextThenPrev(c: Carousel)
    requires c.Valid()
    modifies c
    ensures c.Valid() && c.index == old(c.index)
  {
    c.Next();
    c.Prev();
    PrevAfterNext(old(c.index), 5);
  }
}
