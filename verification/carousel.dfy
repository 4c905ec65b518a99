/**
  The slide carousel as the page runs it: one object owning the slides'
  offsets, the indicator dots and the current slide index, changed in place by
  the dot builder, the renderers and the input handlers.
 */
module Slider {
  import opened CarouselSpec

  class Carousel {
    /** The number of slides on the page; fixed once the page has loaded. */
    const maxSlide: nat
    /** One horizontal offset (translateX, in percent) per slide element. */
    const slides: array<int>
    /** The buttons inside the dots container, in document order. */
    var dots: seq<Dot>
    /** The index of the slide in view (the page script names it `currentPercent`). */
    var current: int

    /** Between events, the index is in range and the page shows exactly that slide. */
    ghost predicate Valid()
      reads this, slides
    {
      && maxSlide >= 1
      && slides.Length == maxSlide
      && 0 <= current < maxSlide
      && Shows(maxSlide, current, slides[..], dots)
    }

    /** Page load: build the dots, mark dot 0, start at index 0 and render slide 0. */
    constructor (n: nat)
      requires n >= 1
      ensures Valid() && fresh(slides)
      ensures maxSlide == n && current == 0
      ensures dots == DotsFor(n, 0) && slides[..] == Offsets(n, 0)
    {
      maxSlide := n;
      slides := new int[n];
      dots := [];
      current := 0;
      new;
      CreateDots();
      DotsAreLabelledByPosition(n, 0);
      var found := IsActive(0);
      IndexOfLabelByPosition(Labels(NewDots(n)), 0);
      MarkedDotsShowSlide(n, 0, dots);
      current := 0;
      GoToSlide(0);
    }

    /** Appends one unmarked button per slide, labelled with the slide's position. */
    method CreateDots()
      modifies this`dots
      ensures dots == old(dots) + NewDots(maxSlide)
    {
      var i := 0;
      while i < maxSlide
        invariant 0 <= i <= maxSlide
        invariant dots == old(dots) + NewDots(i)
      {
        assert NewDots(i + 1) == NewDots(i) + [Dot(i, false)];
        dots := dots + [Dot(i, false)];
        i := i + 1;
      }
    }

    /** Clears the active mark from every dot, then marks the first dot labelled
        `slide`. `found` is false when no dot carries that label: the page then
        fails on the missing element, after the marks are already cleared. */
    method IsActive(slide: int) returns (found: bool)
      modifies this`dots
      ensures Labels(dots) == Labels(old(dots))
      ensures found <==> IndexOfLabel(Labels(old(dots)), slide).Some?
      ensures forall j | 0 <= j < |dots| ::
                dots[j].active <==> IndexOfLabel(Labels(old(dots)), slide) == Some(j)
    {
      var k := 0;
      while k < |dots|
        invariant 0 <= k <= |dots| == |old(dots)|
        invariant Labels(dots) == Labels(old(dots))
        invariant forall j | 0 <= j < k :: !dots[j].active
      {
        dots := dots[k := dots[k].(active := false)];
        assert Labels(dots)[k] == Labels(old(dots))[k];
        k := k + 1;
      }
      match IndexOfLabel(Labels(dots), slide)
      case None =>
        found := false;
      case Some(d) =>
        dots := dots[d := dots[d].(active := true)];
        assert Labels(dots)[d] == Labels(old(dots))[d];
        found := true;
    }

    /** Gives every slide the offset that puts slide `slide` in view. */
    method GoToSlide(slide: int)
      modifies slides
      ensures slides[..] == Offsets(slides.Length, slide)
    {
      for i := 0 to slides.Length
        invariant forall j | 0 <= j < i :: slides[j] == 100 * (j - slide)
      {
        slides[i] := 100 * (i - slide);
      }
    }

    /** Renders slide `s` and marks its dot, the tail that every navigation
        handler shares. */
    method Render(s: int)
      requires maxSlide >= 1 && slides.Length == maxSlide && 0 <= s < maxSlide
      requires |dots| == maxSlide && LabelledByPosition(Labels(dots))
      modifies this`dots, slides
      ensures slides[..] == Offsets(maxSlide, s) && dots == DotsFor(maxSlide, s)
    {
      GoToSlide(s);
      var found := IsActive(s);
      IndexOfLabelByPosition(Labels(old(dots)), s);
      MarkedDotsShowSlide(maxSlide, s, dots);
    }

    /** Steps forward, wrapping from the last slide to the first, and re-renders. */
    method NextSlide()
      requires Valid()
      modifies this, slides
      ensures Valid() && current == Next(old(current), maxSlide)
      ensures slides[..] == Offsets(maxSlide, current) && dots == DotsFor(maxSlide, current)
    {
      if current == maxSlide - 1 {
        current := 0;
      } else {
        current := current + 1;
      }
      DotsAreLabelledByPosition(maxSlide, old(current));
      Render(current);
    }

    /** Steps backward, wrapping from the first slide to the last, and re-renders. */
    method PrevSlide()
      requires Valid()
      modifies this, slides
      ensures Valid() && current == Prev(old(current), maxSlide)
      ensures slides[..] == Offsets(maxSlide, current) && dots == DotsFor(maxSlide, current)
    {
      if current == 0 {
        current := maxSlide - 1;
      } else {
        current := current - 1;
      }
      DotsAreLabelledByPosition(maxSlide, old(current));
      Render(current);
    }

    /** The document-wide key handler: ArrowLeft steps back, ArrowRight steps
        forward, any other key changes nothing. */
    method OnKeyDown(key: string)
      requires Valid()
      modifies this, slides
      ensures Valid() && current == Step(old(current), maxSlide, KeyDown(key))
      ensures key != "ArrowLeft" && key != "ArrowRight" ==>
                current == old(current) && dots == old(dots) && slides[..] == old(slides[..])
    {
      if key == "ArrowLeft" {
        PrevSlide();
      }
      if key == "ArrowRight" {
        NextSlide();
      }
    }

    /** The dots container's click handler: a click on a dot jumps to the slide
        that dot is labelled with; a click beside the dots changes nothing. */
    method OnDotsClick(target: Target)
      requires Valid() && Possible(DotsClick(target), maxSlide)
      modifies this, slides
      ensures Valid() && current == Step(old(current), maxSlide, DotsClick(target))
      ensures target.DotButton? ==> current == old(dots)[target.position].slide
      ensures target.Gap? ==>
                current == old(current) && dots == old(dots) && slides[..] == old(slides[..])
    {
      if target.DotButton? {
        DotsAreLabelledByPosition(maxSlide, current);
        var slide := dots[target.position].slide;
        GoToSlide(slide);
        current := slide;
        var found := IsActive(current);
        IndexOfLabelByPosition(Labels(old(dots)), current);
        MarkedDotsShowSlide(maxSlide, current, dots);
      }
    }

    /** Routes one input to its handler: the right and left buttons, a key press,
        or a click in the dots container. */
    method Handle(e: Event)
      requires Valid() && Possible(e, maxSlide)
      modifies this, slides
      ensures Valid() && current == Step(old(current), maxSlide, e)
    {
      match e
      case RightButton => NextSlide();
      case LeftButton => PrevSlide();
      case KeyDown(key) => OnKeyDown(key);
      case DotsClick(target) => OnDotsClick(target);
    }
  }

  /** A usage example, not part of the page's behaviour: a page with three
      slides, driven through the handlers using only their contracts. Forward
      three times wraps to the first slide, back once wraps to the last, and a
      click on the third dot shows slide 2 with slide 0 two widths to the left. */
  method ThreeSlideWalk()
  {
    var c := new Carousel(3);
    c.NextSlide();
    assert c.current == 1;
    c.NextSlide();
    assert c.current == 2;
    c.NextSlide();
    assert c.current == 0;
    c.PrevSlide();
    assert c.current == 2;
    c.Handle(DotsClick(Gap));
    assert c.current == 2;
    c.Handle(KeyDown("Escape"));
    assert c.current == 2;
    var d := new Carousel(3);
    d.OnDotsClick(DotButton(2));
    assert d.current == 2;
    assert d.slides[..][0] == -200 && d.slides[..][2] == 0;
    assert d.dots[2].active && !d.dots[0].active;
  }
}
