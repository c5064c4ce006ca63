/** The image slideshow (src/components/ImageSlideshow.tsx): eleven airport
    photographs shown one at a time; the arrows step forward and back with
    wrap-around, a dot jumps to its slide, and a timer advances the show. */
module ImageSlideshow {

  /** `slides.length`. */
  const SlideCount := 11

  /** The caption of each slide, in order (image paths and alt texts are only
      displayed). */
  function Captions(): (cs: seq<string>)
    ensures |cs| == SlideCount
  {
    ["Marina Bay, Singapore", "Singapore Changi Airport", "Singapore Airport",
     "Vancouver International Airport", "Beijing Daxing Airport",
     "Denver International Airport", "Pulkovo International Airport",
     "Mumbai International Airport", "Vietnam Airport", "Modern Airport Terminal",
     "World's Best Airports"]
  }

  /** `goToNext`: `(prev + 1) % slides.length`. The index is never negative,
      so the remainder of JavaScript and Dafny agree. */
  function NextSlide(i: nat): nat {
    (i + 1) % SlideCount
  }

  /** `goToPrevious`: `(prev - 1 + slides.length) % slides.length`. */
  function PreviousSlide(i: nat): nat
    requires i < SlideCount
  {
    (i - 1 + SlideCount) % SlideCount
  }

  /** Both steps stay among the slides and wrap around at the ends. */
  lemma StepRange(i: nat)
    requires i < SlideCount
    ensures NextSlide(i) < SlideCount && PreviousSlide(i) < SlideCount
    ensures NextSlide(i) == (if i == SlideCount - 1 then 0 else i + 1)
    ensures PreviousSlide(i) == (if i == 0 then SlideCount - 1 else i - 1)
  {
  }

  /** The arrows undo each other. */
  lemma StepInverse(i: nat)
    requires i < SlideCount
    ensures PreviousSlide(NextSlide(i)) == i
    ensures NextSlide(PreviousSlide(i)) == i
  {
    StepRange(i);
    StepRange(NextSlide(i));
    StepRange(PreviousSlide(i));
  }

  /** The slide after `n` presses of Next (or `n` timer ticks). */
  function Advance(i: nat, n: nat): nat {
    if n == 0 then i else NextSlide(Advance(i, n - 1))
  }

  /** `n` steps forward land `n` places further on, counted round the
      circle. */
  lemma {:induction false} AdvanceMod(i: nat, n: nat)
    requires i < SlideCount
    ensures Advance(i, n) == (i + n) % SlideCount
  {
    if n > 0 {
      AdvanceMod(i, n - 1);
      var j := (i + n - 1) % SlideCount;
      assert Advance(i, n) == (j + 1) % SlideCount;
      ModStep(i + n - 1);
    }
  }

  lemma ModStep(m: nat)
    ensures ((m % SlideCount) + 1) % SlideCount == (m + 1) % SlideCount
  {
  }

  /** Eleven steps forward come back to the starting slide. */
  lemma FullCycle(i: nat)
    requires i < SlideCount
    ensures Advance(i, SlideCount) == i
    ensures forall n :: 0 < n < SlideCount ==> Advance(i, n) != i
  {
    AdvanceMod(i, SlideCount);
    forall n | 0 < n < SlideCount ensures Advance(i, n) != i {
      NoEarlyReturn(i, n);
    }
  }

  lemma NoEarlyReturn(i: nat, n: nat)
    requires i < SlideCount && 0 < n < SlideCount
    ensures Advance(i, n) != i
  {
    AdvanceMod(i, n);
    if i + n < SlideCount {
      assert (i + n) % SlideCount == i + n;
    } else {
      assert (i + n) % SlideCount == i + n - SlideCount;
    }
  }

  /** The state of the `ImageSlideshow` component. */
  class Slideshow {
    var currentSlide: int

    /** `slides[currentSlide]` is defined. */
    predicate Valid()
      reads this
    {
      0 <= currentSlide < SlideCount
    }

    constructor ()
      ensures Valid() && currentSlide == 0
    {
      currentSlide := 0;
    }

    /** The caption under the picture. */
    function Caption(): (c: string)
      reads this
      requires Valid()
    {
      Captions()[currentSlide]
    }

    /** The right arrow. */
    method GoToNext()
      requires Valid()
      modifies this
      ensures Valid()
      ensures currentSlide == NextSlide(old(currentSlide))
    {
      StepRange(currentSlide);
      currentSlide := (currentSlide + 1) % SlideCount;
    }

    /** The left arrow. */
    method GoToPrevious()
      requires Valid()
      modifies this
      ensures Valid()
      ensures currentSlide == PreviousSlide(old(currentSlide))
    {
      StepRange(currentSlide);
      currentSlide := (currentSlide - 1 + SlideCount) % SlideCount;
    }

    /** One tick of the five-second timer: the same step as the right arrow. */
    method Tick()
      requires Valid()
      modifies this
      ensures Valid()
      ensures currentSlide == NextSlide(old(currentSlide))
    {
      StepRange(currentSlide);
      currentSlide := (currentSlide + 1) % SlideCount;
    }

    /** `goToSlide(index)`, from one of the eleven dots. */
    method GoToSlide(index: int)
      requires Valid() && 0 <= index < SlideCount
      modifies this
      ensures Valid()
      ensures currentSlide == index
    {
      currentSlide := index;
    }
  }
}
