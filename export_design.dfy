/**
 * The design exporter (src/utils/exportDesign.ts): the `designData` document built from the
 * editor state, and that document as the JavaScript object `JSON.stringify` is given.
 */
module DesignExport {

  import opened Wrappers
  import opened JsValues
  import opened Design

  const FormatVersion: string := "1.0"
  const DefaultRoomName: string := "Untitled Design"

  /** An exported view: only id, name and components; the background is not written. */
  datatype ExportedView = ExportedView(id: string, name: string, components: seq<Component>)

  datatype ExportedRoom = ExportedRoom(id: string, name: string, views: seq<ExportedView>)

  datatype DesignData = DesignData(version: string, timestamp: string, room: ExportedRoom)

  /** `roomState.room?.id || ''`. */
  function ExportedRoomId(room: Option<Room>): (r: string)
    ensures room.Some? ==> r == room.value.id
    ensures room.None? ==> r == ""
  {
    if room.Some? && room.value.id != "" then room.value.id else ""
  }

  /** `roomState.room?.name || 'Untitled Design'`. */
  function ExportedRoomName(room: Option<Room>): (r: string)
    ensures room.Some? && room.value.name != "" ==> r == room.value.name
    ensures room.None? || room.value.name == "" ==> r == DefaultRoomName
    ensures r != ""
  {
    if room.Some? && room.value.name != "" then room.value.name else DefaultRoomName
  }

  function ExportView(v: View): (r: ExportedView)
    ensures r.id == v.id && r.name == v.name && r.components == v.components
  {
    ExportedView(v.id, v.name, v.components)
  }

  /**
   * `designData`: version "1.0", the given timestamp (`new Date().toISOString()`), the room's id
   * and name with their defaults, and every view in order with its components copied verbatim.
   */
  function ExportDesign(st: RoomState, timestamp: string): (d: DesignData)
    ensures d.version == FormatVersion && d.timestamp == timestamp
    ensures d.room.id == ExportedRoomId(st.room) && d.room.name == ExportedRoomName(st.room)
    ensures |d.room.views| == |st.views|
    ensures forall i :: 0 <= i < |st.views| ==> d.room.views[i] == ExportView(st.views[i])
  {
    DesignData(FormatVersion, timestamp,
      ExportedRoom(ExportedRoomId(st.room), ExportedRoomName(st.room),
        seq(|st.views|, i requires 0 <= i < |st.views| => ExportView(st.views[i]))))
  }

  // ---------------------------------------------------------------- as a JavaScript object

  /** An optional number as an object property: absent is `undefined`. */
  function NumOrUndefined(v: Option<real>): Json {
    if v.Some? then Num(v.value) else Undefined
  }

  function PropsOrUndefined(p: Option<Properties>): Json {
    if p.Some? then Obj(p.value) else Undefined
  }

  function ComponentJson(c: Component): Json {
    Obj(map[
      "id" := Str(c.id), "type" := Str(c.kind), "x" := Num(c.x), "y" := Num(c.y),
      "width" := NumOrUndefined(c.width), "height" := NumOrUndefined(c.height),
      "properties" := PropsOrUndefined(c.properties)])
  }

  function ViewJson(v: ExportedView): Json {
    Obj(map[
      "id" := Str(v.id), "name" := Str(v.name),
      "components" := Arr(seq(|v.components|, j requires 0 <= j < |v.components| => ComponentJson(v.components[j])))])
  }

  function ToJson(d: DesignData): (r: Json)
    ensures r.Obj? && r.fields.Keys == {"version", "timestamp", "room"}
    ensures OptMember(r, "version") == Str(d.version) && OptMember(r, "timestamp") == Str(d.timestamp)
    ensures var room := OptMember(r, "room");
      && OptMember(room, "id") == Str(d.room.id) && OptMember(room, "name") == Str(d.room.name)
      && OptMember(room, "views").Arr? && |OptMember(room, "views").items| == |d.room.views|
      && forall i :: 0 <= i < |d.room.views| ==>
           OptMember(OptMember(room, "views").items[i], "id") == Str(d.room.views[i].id)
           && OptMember(OptMember(room, "views").items[i], "backgroundColor") == Undefined
  {
    Obj(map[
      "version" := Str(d.version), "timestamp" := Str(d.timestamp),
      "room" := Obj(map[
        "id" := Str(d.room.id), "name" := Str(d.room.name),
        "views" := Arr(seq(|d.room.views|, i requires 0 <= i < |d.room.views| => ViewJson(d.room.views[i])))])])
  }
}
