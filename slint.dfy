/**
 * The part of Slint's platform API that the collector produces: window
 * pointer events at a logical position.
 */
module Slint {
  import opened Evdev

  /** Device (physical) pixel coordinates, `slint::PhysicalPosition`. */
  datatype PhysicalPosition = PhysicalPosition(x: i32, y: i32)

  /**
   * `LogicalPosition::from_physical(physical, scaleFactor)`, kept as the pair
   * of its arguments: the `f32` division it performs is given exactly by
   * `Coordinates`.
   */
  datatype LogicalPosition = FromPhysical(physical: PhysicalPosition, scaleFactor: real) {
    /** The logical coordinates: the physical ones divided by the scale factor. */
    function Coordinates(): (c: (real, real))
      requires scaleFactor != 0.0
      ensures c.0 * scaleFactor == physical.x as real
      ensures c.1 * scaleFactor == physical.y as real
    {
      (physical.x as real / scaleFactor, physical.y as real / scaleFactor)
    }
  }

  datatype PointerEventButton = Other | Left | Right | Middle | Back | Forward

  /** The three `WindowEvent` variants a touch screen gives rise to. */
  datatype WindowEvent =
    | PointerPressed(position: LogicalPosition, button: PointerEventButton)
    | PointerReleased(position: LogicalPosition, button: PointerEventButton)
    | PointerMoved(position: LogicalPosition)
}
