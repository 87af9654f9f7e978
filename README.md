# Landing page UI state, modelled in Dafny

This project models the logic of a single-page marketing site: the state that its
two React components keep, and how their event handlers change it. Markup,
styling and animation are not part of it.

- **Video carousel** (`src/VideoCarousel.jsx`). The carousel steps one `<video>`
  element through a fixed list of three sources. It keeps five pieces of state:
  the current index, whether it is playing, whether it is muted, the elapsed
  time and the duration. Its handlers are the arrows, play/pause, mute and the
  seek slider, plus the element's `timeupdate`, `loadedmetadata` and `ended`
  events. When the index changes, an effect (the *source swap*) resets the
  elapsed time, reloads the element and asks it to play. The browser later
  reports whether playback started.
- **Landing page** (`src/LandingPage.jsx`). The page keeps:
  - the mobile menu flag;
  - three flip cards, of which at most one is face-up;
  - two image strips, each showing slide 0, 1 or 2;
  - the scroll spy, which picks the highlighted navbar section;
  - the navbar link labels;
  - a set of media handlers guarded by a `videoRef` that the page never attaches.

Layout of the project:

| file | module | what it holds |
|---|---|---|
| `wrappers.dfy` | `Wrappers` | `Option` |
| `carousel_index.dfy` | `CarouselIndex` | next/previous index with wraparound over `n` sources |
| `time_format.dfy` | `TimeFormat` | `formatTime`: the `m:ss` clock text |
| `media.dfy` | `Media` | what the page sees of a `<video>` element |
| `video_carousel.dfy` | `VideoCarousel` | the carousel as a class, with client scenarios |
| `flip_cards.dfy` | `FlipCards` | the card toggle |
| `marquee.dfy` | `Marquee` | the slide counters |
| `scroll_spy.dfy` | `ScrollSpy` | the section pick and `activeSection` |
| `nav_bar.dfy` | `NavBar` | link labels and link highlighting |
| `landing_page.dfy` | `LandingPage` | the page as a class, with client scenarios |

Modelling choices:

- Component state is a Dafny `class`, and each handler is a method. Every
  method states its whole new state through `State()`, a snapshot of all the
  fields.
- The media element is a value of type `Media.Element`, held in an
  `Option` field: `None` means the ref is not attached. The element's
  `load()`, `play()` and `pause()` calls are recorded, oldest first, in its
  `sent` log. The browser reports progress by rewriting the element's
  `currentTime` and `duration`.
- The outcome of the source swap's play attempt is an input: the method
  `SettlePlay(accepted)`.
- Times are `real`. The clock text is proved correct for whole seconds
  (`FormatTime`). `FormatSeconds` is the source's computation on a
  non-negative real, and it is shown to equal the clock text of the whole
  seconds.
- React runs an effect only when its dependencies change. So `GoToNext` and
  `GoToPrev` run the source swap only when the index really changed. With
  three sources, it always does.
- The landing page has its own copy of `formatTime`
  (src/LandingPage.jsx:145-149). It is identical to the carousel's, so
  `TimeFormat` stands for both.

Behaviours of the carousel code worth noting, which the model follows:

- On an index change the code resets the elapsed time only. The duration
  keeps its old value until the next `loadedmetadata`; it does not become
  "unknown".
- A play result is applied whenever it arrives. A stale result from an
  earlier source can overwrite `isPlaying`, and nothing guards against it.
- `togglePlay` ignores the promise that `play()` returns. It sets `isPlaying`
  to its negation even if the browser refuses.
- The seek handler does not clamp. Only the slider's own range bounds the
  value, at `[0, duration || 100]`.

## Model

| member | source | states |
|---|---|---|
| `CarouselIndex.Next` | src/VideoCarousel.jsx:22-24 | for any `n >= 1` the result is in `[0, n)`; from an index in range it is the next index, or 0 after the last |
| `CarouselIndex.Prev` | src/VideoCarousel.jsx:26-28 | for any `n >= 1` the result is in `[0, n)`; from an index in range it is the previous index, or `n - 1` before the first |
| `CarouselIndex.SingleSource` | src/VideoCarousel.jsx:22-28 | with one source, next and previous both stay on index 0 |
| `CarouselIndex.PrevAfterNext` | src/VideoCarousel.jsx:22-28 | previous after next returns to the starting index |
| `CarouselIndex.NextAfterPrev` | src/VideoCarousel.jsx:22-28 | next after previous returns to the starting index |
| `CarouselIndex.NextTimes` | src/VideoCarousel.jsx:22-24 | any number of next presses from an index in range stays in range |
| `CarouselIndex.NextTimesIsModular` | src/VideoCarousel.jsx:22-24 | `k` next presses from `i` land on `(i + k) mod n` |
| `CarouselIndex.FullCycle` | src/VideoCarousel.jsx:22-24 | `n` next presses return to the start |
| `CarouselIndex.ThreeSourceWalk` | src/VideoCarousel.jsx:8-24 | with the three sources, next from 0 gives 1, then 2, then 0 |
| `TimeFormat.DecimalRoundTrip` | src/VideoCarousel.jsx:96 | the decimal text of a whole number reads back as that number |
| `TimeFormat.FormatTimeRoundTrip` | src/VideoCarousel.jsx:93-97 | the clock text is digits, `:`, two digits below 60, and minutes times 60 plus seconds gives back the input |
| `TimeFormat.FormatTimeSamples` | src/VideoCarousel.jsx:93-97 | 0, 65 and 600 seconds show as `0:00`, `1:05` and `10:00` |
| `TimeFormat.FormatTimeInjective` | src/VideoCarousel.jsx:93-97 | two different times never show the same text |
| `TimeFormat.FloorParts` | src/VideoCarousel.jsx:94-95 | for non-negative `t`, `floor(t / 60)` and `floor(t % 60)` are the quotient and remainder of `floor(t)` by 60 |
| `TimeFormat.FormatSecondsIsWholeSeconds` | src/VideoCarousel.jsx:93-97 | the source's computation on a non-negative real shows the clock text of its whole seconds |
| `VideoCarousel.Reloaded` | src/VideoCarousel.jsx:35-38 | the swap sends `load()` for the source at the new index, then `play()`, and sets `autoplay`; nothing else about the element changes |
| `VideoCarousel.SliderMax` | src/VideoCarousel.jsx:153 | the slider's upper end is the duration when it is non-zero and 100 when it is 0, so it is positive whenever the duration is not negative |
| `VideoCarousel.Carousel.constructor` | src/VideoCarousel.jsx:14-52 | mounting gives index 0, not playing, muted, time 0 and duration 0; the element gets the `muted` prop, and the swap effect runs once for index 0 |
| `VideoCarousel.Carousel.SwapSource` | src/VideoCarousel.jsx:31-52 | with an element, the elapsed time becomes 0 and the element is reloaded and asked to play; `isPlaying` and the index stay as they were; with no element nothing changes |
| `VideoCarousel.Carousel.SettlePlay` | src/VideoCarousel.jsx:42-49 | the play result sets `isPlaying` to true on success and false on refusal; nothing else changes, the index included |
| `VideoCarousel.Carousel.GoToNext` | src/VideoCarousel.jsx:22-24 | the index moves to `Next` and stays in range, the index changes, and the swap follows |
| `VideoCarousel.Carousel.GoToPrev` | src/VideoCarousel.jsx:26-28 | the index moves to `Prev` and stays in range, the index changes, and the swap follows |
| `VideoCarousel.Carousel.TogglePlay` | src/VideoCarousel.jsx:55-64 | with an element, it sends `pause()` when playing and `play()` otherwise, and negates `isPlaying`; with no element nothing changes |
| `VideoCarousel.Carousel.ToggleMute` | src/VideoCarousel.jsx:66-71 | with an element, it negates both the element's `muted` and `isMuted`; if the two agreed before, they agree after |
| `VideoCarousel.Carousel.HandleTimeUpdate` | src/VideoCarousel.jsx:73-77 | the elapsed time takes the element's position; nothing else changes |
| `VideoCarousel.Carousel.HandleLoadedMetadata` | src/VideoCarousel.jsx:79-83 | the duration takes the element's; nothing else changes |
| `VideoCarousel.Carousel.HandleSeek` | src/VideoCarousel.jsx:85-91 | the elapsed time becomes exactly `t` even with no element; with one, the element's position becomes `t` too |
| `VideoCarousel.Carousel.HandleEnded` | src/VideoCarousel.jsx:110 | `ended` sets `isPlaying` to false and changes nothing else, the index included |
| `VideoCarousel.MountRefused` | src/VideoCarousel.jsx:14-52 | when the mount's autoplay is refused, the carousel is at index 0, paused, at time 0 |
| `VideoCarousel.WalkForward` | src/VideoCarousel.jsx:22-52 | three next presses after mounting show indices 1, 2, 0, and each leaves the displayed time at 0 even after a seek |
| `VideoCarousel.TogglePlayTwice` | src/VideoCarousel.jsx:55-64 | two play/pause presses restore `isPlaying`, and send play and pause in the order the state dictates |
| `VideoCarousel.ToggleMuteTwice` | src/VideoCarousel.jsx:66-71 | two mute presses restore the whole state, both mute flags included |
| `VideoCarousel.SeekToEndThenEnded` | src/VideoCarousel.jsx:85-110 | seeking to the duration and then ending leaves the time at the duration, playback off and the index unchanged |
| `FlipCards.Toggle` | src/LandingPage.jsx:87-96 | the clicked card holds the negation of its old value, every other card is face-down, so at most one card is up |
| `FlipCards.ToggleTwiceFromClosed` | src/LandingPage.jsx:87-96 | clicking a card twice from all face-down returns to all face-down |
| `FlipCards.ToggleIsSelect` | src/LandingPage.jsx:87-96 | while at most one card is up, the three flags behave as one optional selection: clicking the selected card clears it, and clicking another card selects that card |
| `Marquee.Advance` | src/LandingPage.jsx:168 | a counter in `{0,1,2}` stays there and moves to `(p + 1) mod 3` |
| `Marquee.Retreat` | src/LandingPage.jsx:749 | a counter in `{0,1,2}` stays there and moves to `(p + 2) mod 3` |
| `Marquee.RetreatAfterAdvance` | src/LandingPage.jsx:749-756 | the left arrow undoes the right arrow |
| `Marquee.AdvanceAfterRetreat` | src/LandingPage.jsx:749-756 | the right arrow undoes the left arrow |
| `Marquee.ThreeTicks` | src/LandingPage.jsx:166-173 | three ticks return a strip to its slide |
| `Marquee.SameAsCarouselWrap` | src/LandingPage.jsx:168 | the strips' updaters agree with the carousel's modular next and previous for three items |
| `ScrollSpy.FirstHit` | src/LandingPage.jsx:51-55 | the result, if any, is the position of a section with a box straddling y = 100, and no earlier section has one; no result means no section has one |
| `ScrollSpy.Rank` | src/LandingPage.jsx:35-42 | each section's position in the order `sectionRefs` declares |
| `ScrollSpy.ActiveAfterScrollSpec` | src/LandingPage.jsx:51-59 | if some section straddles the line, the new active section does and no section declared before it does; if none does, the active section is unchanged |
| `ScrollSpy.EarlierSectionWins` | src/LandingPage.jsx:35-55 | when home and learn both touch the line, home is chosen |
| `ScrollSpy.DetachedSectionSkipped` | src/LandingPage.jsx:52 | sections without a box are passed over |
| `NavBar.Split` | src/LandingPage.jsx:230 | splitting always yields at least one piece |
| `NavBar.JoinSplit` | src/LandingPage.jsx:229-232 | joining the pieces of a split with the same separator gives the original string |
| `NavBar.SplitPiecesLackSep` | src/LandingPage.jsx:229 | no piece of a split holds the separator |
| `NavBar.LabelIsRelabel` | src/LandingPage.jsx:229-232 | the split, capitalise and join pipeline equals the character-by-character rule `Relabel` |
| `NavBar.LabelAt` | src/LandingPage.jsx:229-232 | the label has the item's length; each `-` shows as a space, the first character and each character after a `-` is upper-cased, and every other character is unchanged |
| `NavBar.LabelWithoutDash` | src/LandingPage.jsx:229-232 | an item without `-` is only capitalised |
| `NavBar.TestIqLabel` | src/LandingPage.jsx:211-232 | `test-iq` shows as `Test Iq` |
| `NavBar.ContactUsLabel` | src/LandingPage.jsx:208-232 | `contact us` shows as `Contact us` |
| `NavBar.TestIqNeverHighlighted` | src/LandingPage.jsx:221 | as written, the `test-iq` link is never highlighted, whatever section is active |
| `NavBar.RemoveFirstDashWithout` | src/LandingPage.jsx:221 | `item.replace("-", "")` leaves an item without `-` unchanged |
| `NavBar.HighlightedSpec` | src/LandingPage.jsx:221 | with the intended rule, each section's link is highlighted exactly while that section is active; for `home`, `learn` and `about` this agrees with the rule as written |
| `LandingPage.Page.constructor` | src/LandingPage.jsx:21-164 | menu closed, all cards down, playing, muted, volume 1, time and duration 0, not scrolled, `home` active, both strips at 0, no element |
| `LandingPage.Page.ToggleMenu` | src/LandingPage.jsx:83-85 | negates `isMenuOpen` and changes nothing else |
| `LandingPage.Page.ScrollToSection` | src/LandingPage.jsx:151-159 | afterwards the menu is closed; nothing else changes |
| `LandingPage.Page.ToggleCard` | src/LandingPage.jsx:87-96 | the clicked card is negated, every other card is down, and the at-most-one invariant is kept |
| `LandingPage.Page.AdvanceSlide` | src/LandingPage.jsx:166-173 | the chosen strip advances and stays in `{0,1,2}`; the other strip and the rest of the page are unchanged |
| `LandingPage.Page.RetreatSlide` | src/LandingPage.jsx:747-750 | the chosen strip steps back and stays in `{0,1,2}`; the other strip and the rest of the page are unchanged |
| `LandingPage.Page.HandleScroll` | src/LandingPage.jsx:46-60 | `isScrolled` holds exactly when the scroll offset is above 10, and `activeSection` follows the scroll-spy rule |
| `LandingPage.Page.TogglePlay` | src/LandingPage.jsx:98-107 | with no element nothing changes; with one, it pauses or plays by `isPlaying` and negates `isPlaying` |
| `LandingPage.Page.ToggleMute` | src/LandingPage.jsx:109-114 | with no element nothing changes; with one, `isMuted` is negated, the element's flag is set to the new `isMuted`, and so the two agree |
| `LandingPage.Page.HandleVolumeChange` | src/LandingPage.jsx:116-123 | with no element nothing changes; with one, both volumes take the new value and `isMuted` holds exactly when it is 0 |
| `LandingPage.Page.HandleTimeUpdate` | src/LandingPage.jsx:125-129 | with no element nothing changes; with one, the time takes the element's position |
| `LandingPage.Page.HandleLoadedMetadata` | src/LandingPage.jsx:131-135 | with no element nothing changes; with one, the duration takes the element's |
| `LandingPage.Page.HandleSeek` | src/LandingPage.jsx:137-143 | with no element nothing changes, the displayed time included; with one, both times become `t` |
| `LandingPage.CardTwiceFromFresh` | src/LandingPage.jsx:87-96 | clicking one card twice on a fresh page leaves every card down |
| `LandingPage.ThreeTicksIndependent` | src/LandingPage.jsx:166-180 | three ticks of one strip return it to its slide, and the other strip does not move |
| `LandingPage.MediaHandlersInert` | src/LandingPage.jsx:98-143 | on the page as written, with no element attached, no media handler changes any state |

## Findings

| source | as written | input that shows it | evidently intended | confidence | as-written member | corrected member |
|---|---|---|---|---|---|---|
| src/LandingPage.jsx:221 | a link is highlighted when `item.replace("-", "")` equals `activeSection`, whose values are the `sectionRefs` keys | scroll the test-iq section under the line: `activeSection` becomes `testIq`, but the item becomes `testiq`, so the "Test Iq" link never lights up | highlight the link whose item is the id of the active section (`test-iq`, the id on src/LandingPage.jsx:893) | high (by reading the code; not executed) | `NavBar.TestIqNeverHighlighted` | `NavBar.HighlightedSpec` |

## Left out

- Rendering is left out: JSX markup, Tailwind classes, framer-motion
  animations, icons, inline styles and the progress-bar gradient.
- The progress-bar fill divides the elapsed time by the duration with no
  guard. At mount this is `0 / 0`. Only the slider's upper end is modelled
  (`SliderMax`).
- The browser media element's own behaviour is left out: what `load()`,
  `play()` and `pause()` do, the `play()` promise and its timing, the
  autoplay policy, codec or network failures, and how the position advances.
  The model records the commands and takes the play outcome as an input.
- Re-renders that re-apply the `muted={isMuted}` prop after mount are not
  modelled. The prop is applied once, in the constructor.
- Stale play results are not guarded against, as in the code: `SettlePlay`
  may arrive at any time.
- Floating-point effects, `NaN` durations and `parseFloat` are left out. Times
  are `real`. `FormatSeconds` needs a non-negative time, which a media element
  always reports.
- Timers (`setInterval`/`clearInterval`) are left out. A tick is a call to
  `AdvanceSlide`.
- Scroll listeners, `getBoundingClientRect`, `scrollIntoView` and
  `document.getElementById` are left out. The scroll offset and the section
  boxes are parameters of `HandleScroll`.
- `console.log` is left out.
- The page's mount effect that mutes and plays its `videoRef` is left out
  (src/LandingPage.jsx:67-81). The ref is never attached to an element, so
  the effect never does anything; the page starts with no element.
- The contact modal is left out. Its form has no submission logic, and its
  open/close flag affects nothing else.
- `NavBar.Upper`: upper-cases ASCII letters only. Unicode case mapping is not
  modelled; the link items are ASCII.
- src/Videoplayer.jsx is not part of this model. Its only logic is an index
  update `(i + 1) % 1` that always gives 0 and is never read.
