/** The landing page's own state: the mobile menu, the flip cards, the two
    image strips, the scroll spy, and media handlers for a `<video>` that the
    page declares a ref for. */
module LandingPage {

  import opened Wrappers
  import opened Media
  import opened FlipCards
  import opened Marquee
  import opened ScrollSpy

  /** All of the page's state at one moment. */
  datatype Snapshot = Snapshot(
    isMenuOpen: bool,
    flipped: Flips,
    isPlaying: bool,
    isMuted: bool,
    volume: real,
    currentTime: real,
    duration: real,
    isScrolled: bool,
    activeSection: Section,
    slide1: nat,
    slide2: nat,
    video: Option<Element>)

  class Page {
    var isMenuOpen: bool
    var flipped: Flips
    var isPlaying: bool
    var isMuted: bool
    var volume: real
    var currentTime: real
    var duration: real
    var isScrolled: bool
    var activeSection: Section
    var slide1: nat
    var slide2: nat
    /** The element behind the page's `videoRef`; the page never attaches it,
        so it starts as `None`. */
    var video: Option<Element>

    /** At most one card is face-up and both strips show one of their three
        slides. */
    ghost predicate Valid()
      reads this
    {
      AtMostOne(flipped) && slide1 < SlideCount && slide2 < SlideCount
    }

    function State(): Snapshot
      reads this
    {
      Snapshot(isMenuOpen, flipped, isPlaying, isMuted, volume, currentTime, duration,
               isScrolled, activeSection, slide1, slide2, video)
    }

    function Slide(strip: Strip): nat
      reads this
    {
      match strip
      case First => slide1
      case Second => slide2
    }

    /** The initial state of every `useState` of the page. */
    constructor ()
      ensures Valid()
      ensures State() == Snapshot(false, AllClosed, true, true, 1.0, 0.0, 0.0, false, Home, 0, 0, None)
    {
      isMenuOpen := false;
      flipped := AllClosed;
      isPlaying := true;
      isMuted := true;
      volume := 1.0;
      currentTime := 0.0;
      duration := 0.0;
      isScrolled := false;
      activeSection := Home;
      slide1 := 0;
      slide2 := 0;
      video := None;
    }

    /** The menu button opens a closed menu and closes an open one. */
    method ToggleMenu()
      modifies this
      ensures isMenuOpen == !old(isMenuOpen)
      ensures State() == old(State()).(isMenuOpen := isMenuOpen)
    {
      isMenuOpen := !isMenuOpen;
    }

    /** A navbar link: the page scrolls (not modelled) and an open menu
        closes. */
    method ScrollToSection(sectionId: string)
      modifies this
      ensures !isMenuOpen
      ensures State() == old(State()).(isMenuOpen := false)
    {
      if isMenuOpen {
        isMenuOpen := false;
      }
    }

    /** Clicking a card. */
    method ToggleCard(card: Card)
      requires Valid()
      modifies this
      ensures Valid()
      ensures IsFlipped(flipped, card) == !IsFlipped(old(flipped), card)
      ensures forall c: Card :: c != card ==> !IsFlipped(flipped, c)
      ensures State() == old(State()).(flipped := Toggle(old(flipped), card))
    {
      flipped := Toggle(flipped, card);
    }

    /** A timer tick of one strip, or its right arrow: only that strip moves. */
    method AdvanceSlide(strip: Strip)
      requires Valid()
      modifies this
      ensures Valid()
      ensures Slide(strip) == Advance(old(Slide(strip)))
      ensures strip == First ==> State() == old(State()).(slide1 := slide1)
      ensures strip == Second ==> State() == old(State()).(slide2 := slide2)
    {
      match strip
      case First => slide1 := Advance(slide1);
      case Second => slide2 := Advance(slide2);
    }

    /** The left arrow of one strip: only that strip moves. */
    method RetreatSlide(strip: Strip)
      requires Valid()
      modifies this
      ensures Valid()
      ensures Slide(strip) == Retreat(old(Slide(strip)))
      ensures strip == First ==> State() == old(State()).(slide1 := slide1)
      ensures strip == Second ==> State() == old(State()).(slide2 := slide2)
    {
      match strip
      case First => slide1 := Retreat(slide1);
      case Second => slide2 := Retreat(slide2);
    }

    /** A scroll event, given the window's vertical offset and the boxes of
        the sections whose refs are attached. */
    method HandleScroll(scrollY: real, rects: map<Section, Rect>)
      modifies this
      ensures isScrolled == (scrollY > ScrolledThreshold)
      ensures activeSection == ActiveAfterScroll(old(activeSection), rects)
      ensures State() == old(State()).(isScrolled := isScrolled, activeSection := activeSection)
    {
      isScrolled := scrollY > ScrolledThreshold;
      var current := FirstHit(Order, rects);
      if current.Some? {
        activeSection := Order[current.value];
      }
    }

    /** Play/pause: does nothing without an element; otherwise pauses or plays
        it and flips `isPlaying`. */
    method TogglePlay()
      modifies this
      ensures old(video).None? ==> State() == old(State())
      ensures old(video).Some? ==>
        State() == old(State()).(
          isPlaying := !old(isPlaying),
          video := Some(old(video).value.(sent := old(video).value.sent + [if old(isPlaying) then Pause else Play])))
    {
      if video.Some? {
        var command := if isPlaying then Pause else Play;
        video := Some(video.value.(sent := video.value.sent + [command]));
        isPlaying := !isPlaying;
      }
    }

    /** Mute: does nothing without an element; otherwise the element's flag
        is set from the negated displayed flag (not from its own value), so
        afterwards the two agree. */
    method ToggleMute()
      modifies this
      ensures old(video).None? ==> State() == old(State())
      ensures old(video).Some? ==>
        State() == old(State()).(isMuted := !old(isMuted), video := Some(old(video).value.(muted := !old(isMuted))))
      ensures old(video).Some? ==> video.value.muted == isMuted
    {
      if video.Some? {
        video := Some(video.value.(muted := !isMuted));
        isMuted := !isMuted;
      }
    }

    /** The volume slider: does nothing without an element; otherwise sets the
        element's and the displayed volume, and shows "muted" exactly when the
        new volume is 0. */
    method HandleVolumeChange(newVolume: real)
      modifies this
      ensures old(video).None? ==> State() == old(State())
      ensures old(video).Some? ==> isMuted == (newVolume == 0.0)
      ensures old(video).Some? ==>
        State() == old(State()).(
          volume := newVolume, isMuted := newVolume == 0.0,
          video := Some(old(video).value.(volume := newVolume)))
    {
      if video.Some? {
        video := Some(video.value.(volume := newVolume));
        volume := newVolume;
        isMuted := newVolume == 0.0;
      }
    }

    method HandleTimeUpdate()
      modifies this
      ensures old(video).None? ==> State() == old(State())
      ensures old(video).Some? ==> State() == old(State()).(currentTime := old(video).value.currentTime)
    {
      if video.Some? {
        currentTime := video.value.currentTime;
      }
    }

    method HandleLoadedMetadata()
      modifies this
      ensures old(video).None? ==> State() == old(State())
      ensures old(video).Some? ==> State() == old(State()).(duration := old(video).value.duration)
    {
      if video.Some? {
        duration := video.value.duration;
      }
    }

    /** Seeking: unlike the carousel's, the whole handler is guarded, so with
        no element even the displayed time stays. */
    method HandleSeek(t: real)
      modifies this
      ensures old(video).None? ==> State() == old(State())
      ensures old(video).Some? ==>
        State() == old(State()).(currentTime := t, video := Some(old(video).value.(currentTime := t)))
    {
      if video.Some? {
        video := Some(video.value.(currentTime := t));
        currentTime := t;
      }
    }
  }

  /** Clicking the same card twice from a fresh page leaves every card
      face-down. */
  method CardTwiceFromFresh(card: Card) returns (flips: Flips)
    ensures flips == AllClosed
  {
    var page := new Page();
    page.ToggleCard(card);
    page.ToggleCard(card);
    ToggleTwiceFromClosed(card);
    flips := page.flipped;
  }

  /** Three ticks of one strip bring it back and leave the other strip
      where it was. */
  method ThreeTicksIndependent(page: Page, strip: Strip)
    requires page.Valid()
    modifies page
    ensures page.Valid()
    ensures page.slide1 == old(page.slide1) && page.slide2 == old(page.slide2)
  {
    ThreeTicks(page.Slide(strip));
    page.AdvanceSlide(strip);
    page.AdvanceSlide(strip);
    page.AdvanceSlide(strip);
  }

  /** On the page as written no element is attached, so none of the media
      handlers changes anything. */
  method MediaHandlersInert(t: real, v: real) returns (same: bool)
    ensures same
  {
    var page := new Page();
    var before := page.State();
    page.TogglePlay();
    page.ToggleMute();
    page.HandleVolumeChange(v);
    page.HandleTimeUpdate();
    page.HandleLoadedMetadata();
    page.HandleSeek(t);
    same := page.State() == before;
  }
}
