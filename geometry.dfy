/** Screen geometry, in whole pixels: a DOM rectangle and an overlay offset. */
module Geometry {
  datatype Rect = Rect(left: int, top: int, right: int, bottom: int)

  datatype Position = Position(left: int, top: int)
}
