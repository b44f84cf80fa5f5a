/** The input events the frame loop receives, in surface coordinates. */
module Events {

  /** A pointer position; the windowing layer reports whole pixels. */
  datatype Point = Point(x: int, y: int)

  /** The event kinds the sandbox reacts to; every other kind is `Ignored`. */
  datatype Event =
    | Quit
    | MouseDown(pos: Point)
    | MouseUp(pos: Point)
    | MouseMotion(pos: Point)
    | KeyDown(key: char)
    | Ignored

  /** The key that clears the sandbox. */
  const ResetKey: char := 'r'
}
