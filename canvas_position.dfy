/**
 * Drag-and-drop onto the canvas (src/pages/room/hooks/useCanvasPosition.ts): where a dropped or
 * dragged item lands, and the start-of-drag record (`initialOffset`, `initialPosition`) that
 * hovering keeps and dropping clears. The drag source, the DOM and the cursor are parameters.
 */
module CanvasPosition {

  import opened Wrappers
  import opened Design
  import opened Geometry
  import opened Sync
  import opened Rooms
  import RoomOps

  /** The two item types the drop target accepts: "component" (from the palette) and "canvas-item". */
  datatype DragKind = PaletteItem | CanvasItem

  /** What the drag source carries; `kind` is the component type tag of a palette item. */
  datatype DragItem = DragItem(
    kind: string,
    id: Option<string>,
    width: Option<real>,
    height: Option<real>,
    properties: Option<Properties>,
    x: Option<real>,
    y: Option<real>)

  const DefaultWidth: real := 100.0
  const DefaultHeight: real := 50.0

  /** `v || d` on an optional number: `undefined` and 0 fall back to `d`. */
  function OrDefault(v: Option<real>, d: real): (r: real)
    ensures v.Some? && v.value != 0.0 ==> r == v.value
    ensures v.None? || v.value == 0.0 ==> r == d
  {
    if v.Some? && v.value != 0.0 then v.value else d
  }

  /** A string that JavaScript treats as true: present and not empty. */
  predicate NonEmpty(s: Option<string>) {
    s.Some? && s.value != ""
  }

  /** The guard both handlers start with: a cursor offset, a mounted canvas and an active view. */
  predicate Ready(offset: Option<Position>, canvas: Option<Rect>, activeViewId: Option<string>) {
    offset.Some? && canvas.Some? && NonEmpty(activeViewId)
  }

  /**
   * The clamped drop position: the cursor relative to the canvas, or for a canvas item with a
   * recorded start the start position moved by the cursor's travel, clamped to `[0, canvas - size]`.
   */
  function DropPosition(kind: DragKind, offset: Position, rect: Rect, width: real, height: real,
                        initialOffset: Option<Position>, initialPosition: Option<Position>): (r: Position)
    ensures r.x >= 0.0 && r.y >= 0.0
    ensures width <= rect.width && height <= rect.height ==> IsWithinBounds(r, width, height, rect.width, rect.height)
    ensures !(kind == CanvasItem && initialOffset.Some? && initialPosition.Some?) ==>
      r == CalculateDropPosition(offset, rect, width, height)
    ensures kind == CanvasItem && initialOffset.Some? && initialPosition.Some? ==>
      var start := initialPosition.value;
      var moved := Position(start.x + (offset.x - initialOffset.value.x), start.y + (offset.y - initialOffset.value.y));
      (IsWithinBounds(moved, width, height, rect.width, rect.height) ==> r == moved) &&
      r == Constrain(moved.x, moved.y, width, height, rect.width, rect.height)
  {
    var x := if kind == CanvasItem && initialOffset.Some? && initialPosition.Some?
      then initialPosition.value.x + (offset.x - initialOffset.value.x) else offset.x - rect.left;
    var y := if kind == CanvasItem && initialOffset.Some? && initialPosition.Some?
      then initialPosition.value.y + (offset.y - initialOffset.value.y) else offset.y - rect.top;
    Position(ClampAxis(x, width, rect.width), ClampAxis(y, height, rect.height))
  }

  /** The component a palette drop adds: the defaulted size and `properties || {}`. */
  function NewComponent(id: string, item: DragItem, at: Position): (c: Component)
    ensures c.id == id && c.kind == item.kind && c.x == at.x && c.y == at.y
    ensures c.width == Some(OrDefault(item.width, DefaultWidth)) && c.height == Some(OrDefault(item.height, DefaultHeight))
    ensures c.properties == Some(if item.properties.Some? then item.properties.value else map[])
  {
    Component(id, item.kind, at.x, at.y,
      Some(OrDefault(item.width, DefaultWidth)), Some(OrDefault(item.height, DefaultHeight)),
      Some(item.properties.GetOr(map[])))
  }

  /** The position hovering pushes: the start position moved by the cursor's travel, clamped. */
  function HoverPosition(item: DragItem, offset: Position, rect: Rect, initialOffset: Position, initialPosition: Position): (r: Position)
    ensures r.x >= 0.0 && r.y >= 0.0
    ensures r == DropPosition(CanvasItem, offset, rect, OrDefault(item.width, DefaultWidth), OrDefault(item.height, DefaultHeight),
                              Some(initialOffset), Some(initialPosition))
  {
    var newX := initialPosition.x + (offset.x - initialOffset.x);
    var newY := initialPosition.y + (offset.y - initialOffset.y);
    Position(ClampAxis(newX, OrDefault(item.width, DefaultWidth), rect.width),
             ClampAxis(newY, OrDefault(item.height, DefaultHeight), rect.height))
  }

  /** The drop target's own state: where the current drag started, recorded by the first hover. */
  class DragTracker {
    var initialOffset: Option<Position>
    var initialPosition: Option<Position>
    const store: RoomStore

    /** The two records are set together and cleared together. */
    predicate Valid()
      reads this
    {
      initialOffset.Some? == initialPosition.Some?
    }

    constructor(store: RoomStore)
      ensures Valid() && initialOffset == None && initialPosition == None && this.store == store
    {
      initialOffset := None;
      initialPosition := None;
      this.store := store;
    }

    /**
     * `drop`: without offset, canvas or active view nothing happens (the records are kept);
     * otherwise a palette item is added, a canvas item with an id is moved, the records are
     * cleared and the clamped position is returned. `newId` stands for `Date.now().toString()`.
     */
    method Drop(item: DragItem, kind: DragKind, offset: Option<Position>, canvas: Option<Rect>, newId: string)
      returns (result: Option<Position>)
      requires Valid()
      modifies this, store
      ensures Valid()
      ensures !Ready(offset, canvas, old(store.activeViewId)) ==>
        result == None && initialOffset == old(initialOffset) && initialPosition == old(initialPosition) &&
        store.State() == old(store.State())
      ensures Ready(offset, canvas, old(store.activeViewId)) ==>
        var viewId := old(store.activeViewId).value;
        var at := DropPosition(kind, offset.value, canvas.value,
          OrDefault(item.width, DefaultWidth), OrDefault(item.height, DefaultHeight),
          old(initialOffset), old(initialPosition));
        && result == Some(at)
        && initialOffset == None && initialPosition == None
        && (kind == PaletteItem ==>
              store.State() == old(store.State()).(
                views := RoomOps.AddComponent(old(store.views), viewId, NewComponent(newId, item, at)),
                selectedComponentId := Some(newId),
                log := old(store.log) + Outbox(old(store.roomId), ComponentAdd(viewId, NewComponent(newId, item, at)))))
        && (kind == CanvasItem && NonEmpty(item.id) ==>
              store.State() == old(store.State()).(
                views := RoomOps.MoveComponent(old(store.views), viewId, item.id.value, at),
                log := old(store.log) + Outbox(old(store.roomId), ComponentPosition(viewId, item.id.value, at))))
        && (kind == CanvasItem && !NonEmpty(item.id) ==> store.State() == old(store.State()))
    {
      if !Ready(offset, canvas, store.activeViewId) {
        return None;
      }
      var viewId := store.activeViewId.value;
      var rect := canvas.value;
      var itemWidth := OrDefault(item.width, DefaultWidth);
      var itemHeight := OrDefault(item.height, DefaultHeight);

      var x := offset.value.x - rect.left;
      var y := offset.value.y - rect.top;
      if kind == CanvasItem && initialOffset.Some? && initialPosition.Some? {
        x := initialPosition.value.x + (offset.value.x - initialOffset.value.x);
        y := initialPosition.value.y + (offset.value.y - initialOffset.value.y);
      }
      var at := Position(ClampAxis(x, itemWidth, rect.width), ClampAxis(y, itemHeight, rect.height));
      assert at == DropPosition(kind, offset.value, canvas.value, itemWidth, itemHeight, initialOffset, initialPosition);

      if kind == PaletteItem {
        store.AddComponent(viewId, NewComponent(newId, item, at));
      } else if NonEmpty(item.id) {
        store.UpdateComponentPosition(viewId, item.id.value, at);
      }

      initialOffset := None;
      initialPosition := None;
      return Some(at);
    }

    /**
     * `hover` over the canvas itself: for a canvas item with an id, the first hover records where
     * the drag started and changes nothing else; later hovers move the component to the clamped
     * position and leave the records alone. Anything else changes nothing.
     */
    method Hover(item: DragItem, kind: DragKind, offset: Option<Position>, canvas: Option<Rect>, isOverShallow: bool)
      requires Valid()
      modifies this, store
      ensures Valid()
      ensures !(Ready(offset, canvas, old(store.activeViewId)) && isOverShallow && kind == CanvasItem && NonEmpty(item.id)) ==>
        initialOffset == old(initialOffset) && initialPosition == old(initialPosition) && store.State() == old(store.State())
      ensures Ready(offset, canvas, old(store.activeViewId)) && isOverShallow && kind == CanvasItem && NonEmpty(item.id) ==>
        if old(initialOffset).None? && item.x.Some? && item.y.Some? then
          && initialOffset == Some(offset.value) && initialPosition == Some(Position(item.x.value, item.y.value))
          && store.State() == old(store.State())
        else if old(initialOffset).Some? then
          var at := HoverPosition(item, offset.value, canvas.value, old(initialOffset).value, old(initialPosition).value);
          && initialOffset == old(initialOffset) && initialPosition == old(initialPosition)
          && store.State() == old(store.State()).(
               views := RoomOps.MoveComponent(old(store.views), old(store.activeViewId).value, item.id.value, at),
               log := old(store.log) + Outbox(old(store.roomId), ComponentPosition(old(store.activeViewId).value, item.id.value, at)))
        else
          initialOffset == old(initialOffset) && initialPosition == old(initialPosition) && store.State() == old(store.State())
    {
      if !(Ready(offset, canvas, store.activeViewId) && isOverShallow) {
        return;
      }
      var rect := canvas.value;
      if kind == CanvasItem && NonEmpty(item.id) {
        if initialOffset.None? && item.x.Some? && item.y.Some? {
          initialOffset := Some(offset.value);
          initialPosition := Some(Position(item.x.value, item.y.value));
          return;
        }
        if initialOffset.Some? && initialPosition.Some? {
          var at := HoverPosition(item, offset.value, rect, initialOffset.value, initialPosition.value);
          store.UpdateComponentPosition(store.activeViewId.value, item.id.value, at);
        }
      }
    }
  }

  /**
   * The canvas re-clamps a moved component with the same size and canvas; on a position
   * that is already clamped this changes nothing.
   */
  lemma ReclampIsNoOp(kind: DragKind, offset: Position, rect: Rect, width: real, height: real,
                      initialOffset: Option<Position>, initialPosition: Option<Position>)
    ensures var p := DropPosition(kind, offset, rect, width, height, initialOffset, initialPosition);
      Constrain(p.x, p.y, width, height, rect.width, rect.height) == p
  {
    var x := if kind == CanvasItem && initialOffset.Some? && initialPosition.Some?
      then initialPosition.value.x + (offset.x - initialOffset.value.x) else offset.x - rect.left;
    var y := if kind == CanvasItem && initialOffset.Some? && initialPosition.Some?
      then initialPosition.value.y + (offset.y - initialOffset.value.y) else offset.y - rect.top;
    ConstrainIdempotent(x, y, width, height, rect.width, rect.height);
  }
}
