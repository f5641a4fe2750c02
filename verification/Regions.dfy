/** Regions of a page: what they show and where they lie, in thousandths of the page. */
module Regions {

  datatype Kind = TextKind | Code | Formula | Table | Diagram | Chart | Image

  datatype Box = Box(left: real, top: real, right: real, bottom: real)

  const FULL_PAGE := Box(0.0, 0.0, 1000.0, 1000.0)

  function Area(b: Box): real {
    (b.right - b.left) * (b.bottom - b.top)
  }
}
