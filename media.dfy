/** What the page sees of a browser media element (`<video>`): the properties
    it reads and writes, and a log of the commands it has issued. How the
    element itself reacts to a command is the browser's business and is not
    modelled; the browser reports progress by rewriting `currentTime` and
    `duration`. */
module Media {

  /** A command sent to the element: `load()` (with the `<source>` that the
      element then holds, given by its index in the carousel's list),
      `play()` or `pause()`. */
  datatype Command = Load(source: nat) | Play | Pause

  datatype Element = Element(
    muted: bool,
    volume: real,
    currentTime: real,
    duration: real,
    autoplay: bool,
    sent: seq<Command>)
}
