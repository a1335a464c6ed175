/**
 * The home page's hero banner: the current slide, and the direction the
 * slides animate in, changed by the arrows, the dots and the autoplay
 * timer (which calls "next").
 */
module HeroBanner {
  import opened Slides

  class Banner {
    /** How many slides the banner was given (four by default). */
    const count: nat
    var current: int
    /** 1 when the last move went forward, -1 when it went back. */
    var direction: int

    /** The current slide is one of the slides, and the direction is a step forward or back. */
    predicate Valid()
      reads this
    {
      count > 0 && 0 <= current < count && (direction == 1 || direction == -1)
    }

    /** The banner starts on the first slide, moving forward. */
    constructor (slides: nat)
      requires slides > 0
      ensures Valid() && count == slides && current == 0 && direction == 1
    {
      count := slides;
      current := 0;
      direction := 1;
    }

    /** The right arrow, and each autoplay tick. */
    method Next()
      requires Valid()
      modifies this
      ensures Valid() && direction == 1 && current == Slides.Next(old(current), count)
    {
      direction := 1;
      current := (current + 1) % count;
    }

    /** The left arrow. */
    method Prev()
      requires Valid()
      modifies this
      ensures Valid() && direction == -1 && current == Slides.Prev(old(current), count)
    {
      direction := -1;
      current := (current - 1 + count) % count;
    }

    /**
     * A dot: jump to slide `index`, animating forward only when it lies
     * after the current one; a jump to the current slide counts as going
     * back.
     */
    method GoTo(index: int)
      requires Valid() && 0 <= index < count
      modifies this
      ensures Valid() && current == index
      ensures direction == 1 <==> index > old(current)
    {
      direction := if index > current then 1 else -1;
      current := index;
    }
  }

  /** The left arrow right after the right arrow shows the slide it started from, animating back. */
  method NextThenPrev(b: Banner)
    requires b.Valid()
    modifies b
    ensures b.Valid() && b.current == old(b.current) && b.direction == -1
  {
    b.Next();
    b.Prev();
    PrevAfterNext(old(b.current), b.count);
  }
}
