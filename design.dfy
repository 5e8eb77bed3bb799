/** The document shapes of the room editor: positions, components, views, rooms and editor state. */
module Design {

  import opened Wrappers
  import opened JsValues

  datatype Position = Position(x: real, y: real)

  /** A component's `properties` bag: any keys, any values (text, colours, rows, items, ...). */
  type Properties = map<string, Json>

  /** A typed element on a view's canvas; `kind` is the source's `type` tag ("text", "button", ...). */
  datatype Component = Component(
    id: string,
    kind: string,
    x: real,
    y: real,
    width: Option<real>,
    height: Option<real>,
    properties: Option<Properties>)

  /** One canvas of a room; the order of `components` is insertion and display order. */
  datatype View = View(id: string, name: string, backgroundColor: Option<string>, components: seq<Component>)

  /** The editor's room record; `oid` is the server's `_id`, absent on an imported design. */
  datatype Room = Room(oid: Option<string>, id: string, name: string, views: seq<View>)

  /** A room as the server returns it, which is also what the room cache holds. */
  datatype ServerRoom = ServerRoom(oid: string, name: string, views: seq<View>)

  /** The store's picture of the document: the exporter's input and the importer's output. */
  datatype RoomState = RoomState(
    views: seq<View>,
    activeViewId: Option<string>,
    selectedComponentId: Option<string>,
    room: Option<Room>)

  /**
   * `Partial<Component>`: each field is absent (`None`) or present with a value. Optional fields
   * can be present with `undefined`, which the spread copies over the old value.
   */
  datatype ComponentPatch = ComponentPatch(
    id: Option<string>,
    kind: Option<string>,
    x: Option<real>,
    y: Option<real>,
    width: Option<Option<real>>,
    height: Option<Option<real>>,
    properties: Option<Option<Properties>>)

  /** `views[0]?.id || null`: the first view's id, unless there is none or it is the empty string. */
  function FirstViewId(views: seq<View>): (r: Option<string>)
    ensures r.Some? <==> |views| > 0 && views[0].id != ""
    ensures r.Some? ==> r.value == views[0].id
  {
    if |views| > 0 && views[0].id != "" then Some(views[0].id) else None
  }

  function ViewIds(views: seq<View>): (r: seq<string>)
    ensures |r| == |views| && forall i :: 0 <= i < |r| ==> r[i] == views[i].id
  {
    seq(|views|, i requires 0 <= i < |views| => views[i].id)
  }

  /** Some view of `views` carries `id`. */
  predicate HasView(views: seq<View>, id: string) {
    exists i :: 0 <= i < |views| && views[i].id == id
  }

  /** Component `j` of view `i` is component `componentId` of a view `viewId`. */
  predicate IsTarget(views: seq<View>, viewId: string, componentId: string, i: int, j: int) {
    && 0 <= i < |views| && views[i].id == viewId
    && 0 <= j < |views[i].components| && views[i].components[j].id == componentId
  }

  /** Some view `viewId` holds a component `componentId`. */
  ghost predicate HasComponent(views: seq<View>, viewId: string, componentId: string) {
    exists i, j :: IsTarget(views, viewId, componentId, i, j)
  }
}
