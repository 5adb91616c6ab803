/** The capture and display surface seen by both interactive loops: the key
    codes read with `cv2.waitKey(1)`, the face regions the cascade detector
    reports, and the operator messages the loops print. */
module Camera {

  /** A key code as returned by `cv2.waitKey(1)`; -1 means no key. */
  type Key = int

  /** `ord('c')`: capture a sample during enrollment (main.py:100). */
  const CaptureKey: Key := 'c' as int

  /** `ord('q')`: leave either loop (main.py:114, 177). */
  const QuitKey: Key := 'q' as int

  /** `ord('a')`: mark attendance during scanning (main.py:157). */
  const MarkKey: Key := 'a' as int

  /** A rectangle `(x, y, w, h)` returned by `detectMultiScale`. */
  datatype Region = Region(x: int, y: int, w: int, h: int)

  /** The recoverable messages printed when an attempt is refused. */
  datatype Notice =
    | NeedOneFace    // "Please ensure exactly one face is visible"
    | LowConfidence  // "Face not recognized with sufficient confidence"
}
