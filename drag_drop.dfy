/**
 * The record the drag-and-drop library hands to an `onDragEnd` handler: where
 * the dragged item started, where it was dropped (nothing when it was dropped
 * outside every droppable area), the dragged item's id and the kind of
 * draggable (`'COLUMN'` for the kanban board's column handles).
 */
module DragDrop {
  import opened JsSupport

  /** A droppable area (a column id, or the board for columns) and a position in it. */
  datatype Location = Location(droppableId: string, index: nat)

  datatype DropResult = DropResult(source: Location, destination: Option<Location>, draggableId: string, dropType: string)

  /** The library's early-return test: no destination, or dropped back where it started. */
  predicate NoMove(drop: DropResult)
  {
    drop.destination.None? || drop.destination.value == drop.source
  }
}
