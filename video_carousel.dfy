/** The hero video carousel: one `<video>` element stepped through a fixed list
    of sources, with play/pause, mute and a seek slider. */
module VideoCarousel {

  import opened Wrappers
  import opened Media
  import opened CarouselIndex

  /** All of the component's state at one moment, for stating what a handler
      changes. */
  datatype Snapshot = Snapshot(
    index: nat,
    isPlaying: bool,
    isMuted: bool,
    currentTime: real,
    duration: real,
    video: Option<Element>)

  /** The element after the source swap has reloaded it with the source at
      `source` and asked it to play: `load()`, `autoplay = true`, `play()`. */
  function Reloaded(e: Element, source: nat): (r: Element)
    ensures r.sent == e.sent + [Load(source), Play] && r.autoplay
    ensures r.(sent := e.sent, autoplay := e.autoplay) == e
  {
    e.(autoplay := true, sent := e.sent + [Load(source), Play])
  }

  /** Upper end of the seek slider: the duration, or 100 while it is 0. */
  function SliderMax(duration: real): (r: real)
    ensures duration >= 0.0 ==> r > 0.0
    ensures duration == 0.0 ==> r == 100.0
    ensures duration != 0.0 ==> r == duration
  {
    if duration == 0.0 then 100.0 else duration
  }

  class Carousel {
    var index: nat
    var isPlaying: bool
    var isMuted: bool
    var currentTime: real
    var duration: real
    /** The element behind `videoRef`; `None` while the ref is not attached. */
    var video: Option<Element>

    ghost predicate Valid()
      reads this
    {
      index < SourceCount
    }

    /** The element's `muted` flag agrees with the displayed mute state. */
    ghost predicate MuteInSync()
      reads this
    {
      video.Some? ==> video.value.muted == isMuted
    }

    function State(): Snapshot
      reads this
    {
      Snapshot(index, isPlaying, isMuted, currentTime, duration, video)
    }

    /** Mounting: the initial state (first source, paused, muted, zero time and
        duration), the `muted` prop applied to the element, and then the
        source-swap effect run once for index 0. */
    constructor (element: Option<Element>)
      ensures Valid() && MuteInSync()
      ensures index == 0 && !isPlaying && isMuted
      ensures currentTime == 0.0 && duration == 0.0
      ensures video == if element.Some? then Some(Reloaded(element.value.(muted := true), 0)) else None
    {
      index := 0;
      isPlaying := false;
      isMuted := true;
      currentTime := 0.0;
      duration := 0.0;
      video := if element.Some? then Some(element.value.(muted := true)) else None;
      new;
      SwapSource();
    }

    /** The effect that runs whenever the index changes: with an element
        attached, the elapsed time goes back to 0, the element is reloaded and
        asked to play. Whether playing starts is reported later, through
        `SettlePlay`. */
    method SwapSource()
      modifies this
      ensures video.Some? == old(video).Some?
      ensures old(video).Some? ==>
        State() == old(State()).(currentTime := 0.0, video := Some(Reloaded(old(video).value, index)))
      ensures old(video).None? ==> State() == old(State())
    {
      if video.Some? {
        currentTime := 0.0;
        video := Some(Reloaded(video.value, index));
      }
    }

    /** The outcome of the play attempt made by the source swap: `true` when
        the browser started playback, `false` when it refused (autoplay
        policy). Nothing else changes, the index included. */
    method SettlePlay(accepted: bool)
      modifies this
      ensures State() == old(State()).(isPlaying := accepted)
    {
      isPlaying := accepted;
    }

    /** The "next" arrow. The swap effect runs only when the index really
        changed, which it always does with more than one source. */
    method GoToNext()
      requires Valid()
      modifies this
      ensures Valid() && index == Next(old(index), SourceCount)
      ensures index != old(index)
      ensures old(video).Some? ==>
        State() == old(State()).(index := index, currentTime := 0.0, video := Some(Reloaded(old(video).value, index)))
      ensures old(video).None? ==> State() == old(State()).(index := index)
    {
      var previous := index;
      index := Next(index, SourceCount);
      if index != previous {
        SwapSource();
      }
    }

    /** The "previous" arrow. */
    method GoToPrev()
      requires Valid()
      modifies this
      ensures Valid() && index == Prev(old(index), SourceCount)
      ensures index != old(index)
      ensures old(video).Some? ==>
        State() == old(State()).(index := index, currentTime := 0.0, video := Some(Reloaded(old(video).value, index)))
      ensures old(video).None? ==> State() == old(State()).(index := index)
    {
      var previous := index;
      index := Prev(index, SourceCount);
      if index != previous {
        SwapSource();
      }
    }

    /** Play/pause button: pauses the element when playing, asks it to play
        otherwise, and flips `isPlaying` without waiting for the browser. */
    method TogglePlay()
      modifies this
      ensures old(video).Some? ==>
        State() == old(State()).(
          isPlaying := !old(isPlaying),
          video := Some(old(video).value.(sent := old(video).value.sent + [if old(isPlaying) then Pause else Play])))
      ensures old(video).None? ==> State() == old(State())
    {
      if video.Some? {
        var command := if isPlaying then Pause else Play;
        video := Some(video.value.(sent := video.value.sent + [command]));
        isPlaying := !isPlaying;
      }
    }

    /** Mute button: flips the element's own `muted` flag and, separately,
        the displayed one. */
    method ToggleMute()
      modifies this
      ensures old(video).Some? ==>
        State() == old(State()).(
          isMuted := !old(isMuted),
          video := Some(old(video).value.(muted := !old(video).value.muted)))
      ensures old(video).None? ==> State() == old(State())
      ensures old(MuteInSync()) ==> MuteInSync()
    {
      if video.Some? {
        video := Some(video.value.(muted := !video.value.muted));
        isMuted := !isMuted;
      }
    }

    /** `timeupdate`: the displayed time takes the element's position. */
    method HandleTimeUpdate()
      modifies this
      ensures old(video).Some? ==> State() == old(State()).(currentTime := old(video).value.currentTime)
      ensures old(video).None? ==> State() == old(State())
    {
      if video.Some? {
        currentTime := video.value.currentTime;
      }
    }

    /** `loadedmetadata`: the displayed duration takes the element's. */
    method HandleLoadedMetadata()
      modifies this
      ensures old(video).Some? ==> State() == old(State()).(duration := old(video).value.duration)
      ensures old(video).None? ==> State() == old(State())
    {
      if video.Some? {
        duration := video.value.duration;
      }
    }

    /** The seek slider: the displayed time becomes `t` at once, even with no
        element, and the element is moved to `t` when there is one. */
    method HandleSeek(t: real)
      modifies this
      ensures currentTime == t
      ensures old(video).Some? ==>
        State() == old(State()).(currentTime := t, video := Some(old(video).value.(currentTime := t)))
      ensures old(video).None? ==> State() == old(State()).(currentTime := t)
    {
      currentTime := t;
      if video.Some? {
        video := Some(video.value.(currentTime := t));
      }
    }

    /** `ended`: back to the paused look on the same source. */
    method HandleEnded()
      modifies this
      ensures State() == old(State()).(isPlaying := false)
    {
      isPlaying := false;
    }
  }

  /** Mounting with an element whose autoplay the browser refuses leaves the
      first source shown, paused, at time 0. */
  method MountRefused(element: Element) returns (index: nat, playing: bool, time: real)
    ensures index == 0 && !playing && time == 0.0
  {
    var c := new Carousel(Some(element));
    c.SettlePlay(false);
    index, playing, time := c.index, c.isPlaying, c.currentTime;
  }

  /** Three presses of "next" from the first source show sources 1, 2, then 0
      again; each swap restarts the displayed time, even after a seek. */
  method WalkForward(element: Element) returns (seen: seq<nat>, times: seq<real>)
    ensures seen == [1, 2, 0]
    ensures times == [0.0, 0.0, 0.0]
  {
    var c := new Carousel(Some(element));
    c.GoToNext();
    seen, times := [c.index], [c.currentTime];
    c.HandleSeek(42.0);
    c.GoToNext();
    seen, times := seen + [c.index], times + [c.currentTime];
    c.HandleSeek(7.5);
    c.GoToNext();
    seen, times := seen + [c.index], times + [c.currentTime];
  }

  /** Two presses of play/pause restore the play state; the element has been
      sent one `play()` and one `pause()`, in the order the state dictates. */
  method TogglePlayTwice(c: Carousel)
    modifies c
    ensures c.isPlaying == old(c.isPlaying)
    ensures c.index == old(c.index) && c.currentTime == old(c.currentTime)
    ensures old(c.video).Some? ==>
              c.video.Some? &&
              c.video.value.sent == old(c.video).value.sent + (if old(c.isPlaying) then [Pause, Play] else [Play, Pause])
  {
    c.TogglePlay();
    c.TogglePlay();
  }

  /** Two presses of mute restore both the element's flag and the displayed
      one, whatever they were. */
  method ToggleMuteTwice(c: Carousel)
    modifies c
    ensures c.State() == old(c.State())
  {
    c.ToggleMute();
    c.ToggleMute();
  }

  /** Seeking to the end and then reaching it: the time is exactly the target,
      playback is off, the source is unchanged. */
  method SeekToEndThenEnded(c: Carousel)
    modifies c
    ensures c.currentTime == old(c.duration) && !c.isPlaying && c.index == old(c.index)
  {
    c.HandleSeek(c.duration);
    c.HandleEnded();
  }
}
