# Slide carousel of the Bankist landing page

This project models the slider of the landing page's front-end script
(`script.js`, lines 206-286) and proves its properties in Dafny.

The slider holds a fixed list of slides and a row of indicator dots, one per
slide. A single integer holds the index of the slide in view; the script calls
it `currentPercent`, and here it is `current`. Its bound is `maxSlide`, the
number of slides. The inputs are the right and left buttons, the ArrowRight and
ArrowLeft keys, and clicks inside the dots container. The buttons and arrow
keys step the index with wrap-around and then render. A dot click first moves
the slides to the clicked dot's label, then sets the index to that label, then
marks its dot. Either way, each slide ends at the horizontal offset
`100 * (position - index)` percent, and only the dot labelled with the index
stays marked active.

Two files:

- `carousel_spec.dfy`, module `CarouselSpec`: the behaviour on values. It holds
  `Next`/`Prev` and their iterates `NextN`/`PrevN`, the slide offsets
  (`Offsets`), the dots (`Dot`, `NewDots`, `DotsFor`, `Labels`), the
  `data-slide` lookup (`IndexOfLabel`), the picture the page shows (`Shows`),
  and the effect of one event (`Step`) and of a run of events (`Run`). The
  lemmas about them live here too.
- `carousel.dfy`, module `Slider`: class `Carousel`, which has the script's own
  state and changes it in place. `slides` is an array with one offset per
  slide element. `dots` is the sequence of buttons in the container, appended
  by `CreateDots`. `current` is the index. Its methods are the script's
  functions and handlers, each proved against the functions of
  `CarouselSpec`. `Valid()` is the invariant every handler keeps: the index is
  in range, the offsets are `Offsets(maxSlide, current)`, and the dots are
  `DotsFor(maxSlide, current)`. `ThreeSlideWalk` is a client that drives a
  three-slide carousel through the handlers. It checks the wrap-around in both
  directions and a dot click, using only the contracts.

Notes on the code as written:

- The selector at `script.js:232` has no closing `]`. CSS parsing closes an
  open block at the end of its input, so the lookup still finds the first
  button whose `data-slide` equals the argument. `IndexOfLabel` models that
  lookup.
- When no dot has that label, `querySelector` returns `null` and `isActive`
  throws. By then it has already cleared every mark. `IsActive` models this
  case by returning `found == false` with every dot unmarked. In every event
  handler (`script.js:256`, `269`, `284`) the call to `isActive` is the last
  statement, so the model's final state is the same as the script's state at
  the throw. The page-load call `isActive(0)` (`script.js:235`) cannot miss:
  the constructor requires at least one slide, and dot 0 then exists.
- The dot click handler does not range-check the label it reads. The model
  follows the code. It takes the clicked button's position
  (`Target.DotButton`), reads that button's label and jumps to it. Labels come
  only from dot creation, so they are always in range (`Possible`,
  `LabelledByPosition`).
- With no slides at all, `isActive(0)` would throw at page load. The
  constructor therefore requires at least one slide.

## Model

| member | source | states |
|---|---|---|
| CarouselSpec.Next | script.js:248-253 | for an in-range index, the next index is in range and equals index + 1 reduced modulo the slide count (the last slide wraps to 0) |
| CarouselSpec.Prev | script.js:261-266 | for an in-range index, the previous index is in range and equals index - 1 reduced modulo the slide count (slide 0 wraps to the last) |
| CarouselSpec.PrevUndoesNext | script.js:248-270 | a backward step right after a forward step restores the index |
| CarouselSpec.NextUndoesPrev | script.js:248-270 | a forward step right after a backward step restores the index |
| CarouselSpec.NextNAdvances | script.js:248-253 | any number k of forward steps keeps the index in range and lands on (index + k) mod N |
| CarouselSpec.PrevNRetreats | script.js:261-266 | any number k of backward steps keeps the index in range and lands on (index - k) mod N |
| CarouselSpec.NextCycleCloses | script.js:248-253 | N forward steps return every in-range index to itself |
| CarouselSpec.PrevCycleCloses | script.js:261-266 | N backward steps return every in-range index to itself |
| CarouselSpec.PrevNUndoesNextN | script.js:248-270 | k backward steps undo k forward steps |
| CarouselSpec.NextNUndoesPrevN | script.js:248-270 | k forward steps undo k backward steps |
| CarouselSpec.OffsetsPlaceSlide | script.js:239-244 | with slide s shown, a slide's offset is 0 exactly when it is slide s, negative exactly before s and positive exactly after s, and neighbours differ by exactly 100 |
| CarouselSpec.IndexOfLabel | script.js:231-233 | the lookup returns the first position carrying the wanted label, or nothing exactly when no position carries it |
| CarouselSpec.IndexOfLabelByPosition | script.js:216-233 | on dots labelled by position, the lookup finds label s at position s when s is in range, and finds nothing otherwise |
| CarouselSpec.MarkedDotsShowSlide | script.js:226-234 | dots labelled by position, with only the one at s marked, are exactly the dot row for slide s |
| CarouselSpec.ShownSlideAgrees | script.js:239-256 | when the page shows slide s, the index, the only slide at offset 0 and the only active dot (labelled s) all agree |
| CarouselSpec.Step | script.js:248-286 | every event (either button, any key, a click on a dot or beside the dots) leaves the index in range; keys other than the two arrows leave it unchanged |
| CarouselSpec.Run | script.js:248-286 | any sequence of possible events leaves the index in range |
| Slider.Carousel.constructor | script.js:206-246 | page load gives maxSlide dots labelled 0..maxSlide-1 in order with only dot 0 active, slide 0 at offset 0, every other slide at 100 times its position, and index 0 |
| Slider.Carousel.CreateDots | script.js:216-223 | appends exactly one unmarked dot per slide, labelled 0..maxSlide-1 in order, after the existing ones |
| Slider.Carousel.IsActive | script.js:226-234 | labels and the number of dots are unchanged; a dot is active exactly when it is the first dot labelled with the argument; `found` tells whether such a dot exists |
| Slider.Carousel.GoToSlide | script.js:239-244 | every slide i gets offset 100 * (i - slide); nothing but the offsets changes |
| Slider.Carousel.Render | script.js:255-256 | on dots labelled by position, the offsets and dots afterwards are exactly those of the given slide |
| Slider.Carousel.NextSlide | script.js:248-259 | the invariant is kept, the index becomes Next of the old index, and offsets and dots show the new index |
| Slider.Carousel.PrevSlide | script.js:261-272 | the invariant is kept, the index becomes Prev of the old index, and offsets and dots show the new index |
| Slider.Carousel.OnKeyDown | script.js:274-277 | ArrowLeft steps back and ArrowRight steps forward, keeping the invariant; any other key leaves index, dots and offsets unchanged |
| Slider.Carousel.OnDotsClick | script.js:279-286 | a click on a dot makes the index that dot's label and keeps the invariant; a click beside the dots changes nothing |
| Slider.Carousel.Handle | script.js:259-286 | each input keeps the invariant (index, zero-offset slide and active dot agree), and its index follows Step |

## Left out

- The rest of the script is not modelled. This covers the modal dialog and its
  Escape key, smooth scrolling, the tabbed panel, the hover fade, the sticky
  navigation, the section reveal, the lazy images, the logo attribute demo, the
  one-shot counter listener, and the unused random helpers. These are DOM class
  toggles, browser scrolling, IntersectionObserver callbacks or
  `Math.random`, with no behaviour of the slider's kind.
- The DOM itself is abstracted. A slide's `style.transform` string
  `translateX(...%)` is its integer offset. A button's `dots__dot--active`
  class is a boolean. Its `data-slide` attribute is an integer. The HTML text
  inserted by `insertAdjacentHTML` is a `Dot` value.
- In the click handler, the JavaScript string-to-number coercion of the label
  (implicit in `index - slide`, explicit in `Number(slide)`) is the identity
  on the integer labels that dot creation writes. The model uses integers
  throughout.
- The exception that `isActive` raises on a missing label is modelled as a
  result flag. The script's handler stops at that point, but in every event
  handler no statement follows the call. At page load the miss cannot occur
  in the model, because the constructor requires at least one slide. Were it
  to occur, the throw would stop the rest of the script, including listener
  registration, and the model does not represent that.
- The `console.log` of the slide count (line 238) is output only.
- Before the first `goToSlide(0)`, the slides' transforms are unset in the
  page. In the model they are unspecified until `GoToSlide(0)` writes them in
  the constructor.
- The page's HTML is not part of this model. The model assumes two things
  about it. First, the `.dots` container starts empty, which is why the
  constructor starts from no dots. Second, no other `.dots__dot` element
  exists in the document. That matters because `isActive` queries the whole
  document, not just the container.
- Event delivery (listener registration and the browser's event loop) becomes
  calls to the handler methods, one at a time.
