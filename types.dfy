/** The plain geometric records shared by the drawing and protocol code.
    Coordinates are pixel-space numbers, modelled as reals. */
module Types {

  /** A 2D coordinate. */
  datatype Point = Point(x: real, y: real)

  /** An extent; expected non-negative, but nothing enforces it. */
  datatype Size = Size(w: real, h: real)

  /** An axis-aligned box given by its top-left corner and its extent;
      `selected` is a UI flag with no geometric meaning. */
  datatype Rect = Rect(topLeft: Point, size: Size, selected: bool)

  /** A value that may be absent, such as a width or height given as `null`. */
  datatype Option<T> = None | Some(value: T)
}
