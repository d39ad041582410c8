/** The background slideshow of src/pages/LandingPage.jsx: an index into
    three images, moved by the arrows, by the dots and by a timer. */
module LandingPage {
  import opened Js

  const Slides: seq<string> := [
    "https://images.unsplash.com/photo-1522202176988-66273c2fd55f?w=1920&h=1080&fit=crop",
    "https://images.unsplash.com/photo-1553877522-43269d4ea984?w=1920&h=1080&fit=crop",
    "https://images.unsplash.com/photo-1521737711867-e3b97375f902?w=1920&h=1080&fit=crop"]

  /** `(prev + 1) % slides.length` */
  function NextIndex(i: int): int {
    JsRem(i + 1, |Slides|)
  }

  /** `(prev - 1 + slides.length) % slides.length` */
  function PrevIndex(i: int): int {
    JsRem(i - 1 + |Slides|, |Slides|)
  }

  /** From any non-negative index, one step either way lands on a slide. */
  lemma StepsLandOnASlide(i: int)
    requires i >= 0
    ensures 0 <= NextIndex(i) < |Slides|
    ensures 0 <= PrevIndex(i) < |Slides|
  {
  }

  /** Back after forward, and forward after back, return to the slide. */
  lemma StepsAreInverse(i: int)
    requires 0 <= i < |Slides|
    ensures PrevIndex(NextIndex(i)) == i
    ensures NextIndex(PrevIndex(i)) == i
  {
  }

  /** The index after `k` forward steps. */
  function NextIter(i: int, k: nat): int {
    if k == 0 then i else NextIndex(NextIter(i, k - 1))
  }

  /** `k` forward steps from a slide advance it by `k` modulo the number of
      slides. */
  lemma {:induction false} NextIterIsAddition(i: int, k: nat)
    requires 0 <= i < |Slides|
    ensures NextIter(i, k) == (i + k) % |Slides|
  {
    if k > 0 {
      NextIterIsAddition(i, k - 1);
    }
  }

  /** As many forward steps as there are slides come back to the start. */
  lemma FullCycle(i: int)
    requires 0 <= i < |Slides|
    ensures NextIter(i, |Slides|) == i
  {
    NextIterIsAddition(i, |Slides|);
  }

  /** The page's `currentSlide` state. */
  class Slideshow {
    var currentSlide: int

    /** The index is one of the slides. */
    predicate Valid()
      reads this
    {
      0 <= currentSlide < |Slides|
    }

    /** The page starts on the first slide. */
    constructor ()
      ensures Valid() && currentSlide == 0
    {
      currentSlide := 0;
    }

    /** `nextSlide`, the right arrow. */
    method NextSlide()
      requires Valid()
      modifies this
      ensures Valid()
      ensures currentSlide == NextIndex(old(currentSlide))
    {
      currentSlide := (currentSlide + 1) % |Slides|;
    }

    /** `prevSlide`, the left arrow. */
    method PrevSlide()
      requires Valid()
      modifies this
      ensures Valid()
      ensures currentSlide == PrevIndex(old(currentSlide))
    {
      currentSlide := (currentSlide - 1 + |Slides|) % |Slides|;
    }

    /** One firing of the five-second timer: the same step as the right
      arrow. */
    method Tick()
      requires Valid()
      modifies this
      ensures Valid()
      ensures currentSlide == NextIndex(old(currentSlide))
    {
      NextSlide();
    }

    /** `goToSlide(index)`: the index is taken as given; the dots pass
      only indices of slides, and then the index stays valid. */
    method GoToSlide(index: int)
      modifies this
      ensures currentSlide == index
      ensures 0 <= index < |Slides| ==> Valid()
    {
      currentSlide := index;
    }
  }
}
