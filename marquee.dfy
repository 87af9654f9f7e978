/** The two image strips of the "give" section: each shows slide 0, 1 or 2,
    advanced by its own timer tick or right arrow and moved back by its left
    arrow. */
module Marquee {

  import CarouselIndex

  const SlideCount: nat := 3

  /** Which strip: `slide1` (community initiatives) or `slide2` (mentorship). */
  datatype Strip = First | Second

  /** Timer tick and right arrow: `prev === 2 ? 0 : prev + 1`. */
  function Advance(p: nat): (r: nat)
    ensures p < SlideCount ==> r < SlideCount
    ensures p < SlideCount ==> r == (p + 1) % SlideCount
  {
    if p == 2 then 0 else p + 1
  }

  /** Left arrow: `prev === 0 ? 2 : prev - 1`. */
  function Retreat(p: nat): (r: nat)
    ensures p < SlideCount ==> r < SlideCount
    ensures p < SlideCount ==> r == (p + SlideCount - 1) % SlideCount
  {
    if p == 0 then 2 else p - 1
  }

  lemma RetreatAfterAdvance(p: nat)
    requires p < SlideCount
    ensures Retreat(Advance(p)) == p
  {
  }

  lemma AdvanceAfterRetreat(p: nat)
    requires p < SlideCount
    ensures Advance(Retreat(p)) == p
  {
  }

  /** Three ticks bring a strip back to where it was. */
  lemma ThreeTicks(p: nat)
    requires p < SlideCount
    ensures Advance(Advance(Advance(p))) == p
  {
  }

  /** The strips' comparison-based updaters are the carousel's modular ones
      for a list of three. */
  lemma SameAsCarouselWrap(p: nat)
    requires p < SlideCount
    ensures Advance(p) == CarouselIndex.Next(p, SlideCount)
    ensures Retreat(p) == CarouselIndex.Prev(p, SlideCount)
  {
  }
}
