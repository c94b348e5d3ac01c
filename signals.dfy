/** The resize signals the event loop sends to the display through a channel. */
module Signals {
  import opened Geometry
  import Fonts

  /** A window size in physical pixels. */
  datatype PhysicalSize = PhysicalSize(width: real, height: real)

  /** `Resize`: one pending change of geometry. */
  datatype Resize =
    | Size(size: PhysicalSize)
    | MessageBar(lines: nat)
    | FontSize(fontSize: Fonts.FontSize)
    | DPR(dpr: PosReal)
}
