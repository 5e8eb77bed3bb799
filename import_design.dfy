/**
 * The design importer (src/utils/importDesign.ts) over an already parsed document: the
 * structural checks, in the order the code makes them, and the normalisation of every view and
 * component into the editor's state. Reading a property of `null` throws a TypeError, which
 * the importer reports like its own errors; that outcome is `TypeFault`.
 */
module DesignImport {

  import opened Wrappers
  import opened JsValues
  import opened Design

  datatype ImportError =
    | InvalidFormat          // 'Invalid design file format'
    | UnsupportedVersion     // 'Unsupported design file version'
    | InvalidViewStructure   // 'Invalid view structure'
    | TypeFault              // a TypeError thrown while reading the document

  /** The outcome of a `validate…` call: true, false, or a TypeError thrown by it. */
  datatype Check = Pass | Fail | Fault

  /** The message the importer rejects with; a TypeError's own text is the engine's. */
  function ErrorMessage(e: ImportError): (m: Option<string>)
    ensures m.Some? <==> !e.TypeFault?
  {
    match e
    case InvalidFormat => Some("Failed to import design: Invalid design file format")
    case UnsupportedVersion => Some("Failed to import design: Unsupported design file version")
    case InvalidViewStructure => Some("Failed to import design: Invalid view structure")
    case TypeFault => None
  }

  /** `items.every(f)`: stops at the first element that does not pass. */
  function Every<T>(items: seq<T>, f: T -> Check): (r: Check)
    ensures r == Pass <==> forall i :: 0 <= i < |items| ==> f(items[i]) == Pass
    ensures r != Pass ==> exists i :: 0 <= i < |items| && f(items[i]) == r && forall k :: 0 <= k < i ==> f(items[k]) == Pass
  {
    if items == [] then Pass
    else if f(items[0]) != Pass then f(items[0])
    else
      var rest := Every(items[1..], f);
      assert forall i :: 1 <= i < |items| ==> items[i] == items[1..][i - 1];
      if rest != Pass then
        var i :| 0 <= i < |items[1..]| && f(items[1..][i]) == rest && forall k :: 0 <= k < i ==> f(items[1..][k]) == Pass;
        assert f(items[i + 1]) == rest && forall k :: 0 <= k < i + 1 ==> f(items[k]) == Pass;
        rest
      else
        rest
  }

  predicate IsStr(j: Json) { j.Str? }
  predicate IsNum(j: Json) { j.Num? }

  /** `validateComponent`: true iff `id` and `type` are strings and `x`, `y`, `width`, `height` numbers. */
  function ValidateComponent(c: Json): (r: Check)
    ensures r == Fault <==> c.Undefined? || c.Null?
    ensures r == Pass <==>
      && c.Obj?
      && IsStr(OptMember(c, "id")) && IsStr(OptMember(c, "type"))
      && IsNum(OptMember(c, "x")) && IsNum(OptMember(c, "y"))
      && IsNum(OptMember(c, "width")) && IsNum(OptMember(c, "height"))
  {
    if c.Undefined? || c.Null? then Fault
    else if IsStr(OptMember(c, "id")) && IsStr(OptMember(c, "type"))
         && IsNum(OptMember(c, "x")) && IsNum(OptMember(c, "y"))
         && IsNum(OptMember(c, "width")) && IsNum(OptMember(c, "height"))
    then Pass
    else Fail
  }

  /** `validateView`: `id` and `name` strings, `components` an array whose every element validates. */
  function ValidateView(v: Json): (r: Check)
    ensures r == Pass <==>
      && IsStr(OptMember(v, "id")) && IsStr(OptMember(v, "name"))
      && OptMember(v, "components").Arr?
      && forall j :: 0 <= j < |OptMember(v, "components").items| ==>
           ValidateComponent(OptMember(v, "components").items[j]) == Pass
    ensures v.Undefined? || v.Null? ==> r == Fault
  {
    if v.Undefined? || v.Null? then Fault
    else if !(IsStr(OptMember(v, "id")) && IsStr(OptMember(v, "name"))) then Fail
    else if !OptMember(v, "components").Arr? then Fail
    else Every(OptMember(v, "components").items, ValidateComponent)
  }

  /** The property keys the importer writes explicitly. */
  const ListedKeys: set<string> := {"backgroundColor", "color", "fontSize", "padding", "borderColor",
    "borderWidth", "text", "items", "checked", "placeholder", "textColor", "aspectRatio"}

  /** `{ ...p }` for an object; spreading any other value contributes no keys here. */
  function Spread(p: Json): Properties {
    if p.Obj? then p.fields else map[]
  }

  /** The value the importer writes for listed key `k`: three keys have a default for falsy values. */
  function ListedValue(p: Json, k: string): Json {
    if k == "backgroundColor" then Or(OptMember(p, k), Str("transparent"))
    else if k == "items" then Or(OptMember(p, k), Arr([]))
    else if k == "checked" then Or(OptMember(p, k), Bool(false))
    else OptMember(p, k)
  }

  /**
   * The normalised property bag: every key of the original kept, then the listed keys written
   * over it — `backgroundColor` defaulting to 'transparent', `items` to `[]`, `checked` to `false`
   * when falsy, the rest copied as they are (`undefined` when missing).
   */
  function NormaliseProps(p: Json): (r: Properties)
    ensures forall k :: k in r <==> k in ListedKeys || k in Spread(p)
    ensures forall k :: k in Spread(p) && k !in ListedKeys ==> r[k] == Spread(p)[k]
    ensures r["backgroundColor"] == (if Truthy(OptMember(p, "backgroundColor")) then OptMember(p, "backgroundColor") else Str("transparent"))
    ensures r["items"] == (if Truthy(OptMember(p, "items")) then OptMember(p, "items") else Arr([]))
    ensures r["checked"] == (if Truthy(OptMember(p, "checked")) then OptMember(p, "checked") else Bool(false))
    ensures forall k :: k in ListedKeys && k != "backgroundColor" && k != "items" && k != "checked" ==>
      r[k] == OptMember(p, k)
  {
    Spread(p) + map k | k in ListedKeys :: ListedValue(p, k)
  }

  /** The component transform: fields carried over, numbers as numbers, properties normalised. */
  function TransformComponent(c: Json): (r: Component)
    requires ValidateComponent(c) == Pass
    ensures Str(r.id) == OptMember(c, "id") && Str(r.kind) == OptMember(c, "type")
    ensures Num(r.x) == OptMember(c, "x") && Num(r.y) == OptMember(c, "y")
    ensures r.width.Some? && Num(r.width.value) == OptMember(c, "width")
    ensures r.height.Some? && Num(r.height.value) == OptMember(c, "height")
    ensures r.properties == Some(NormaliseProps(OptMember(c, "properties")))
  {
    Component(OptMember(c, "id").s, OptMember(c, "type").s, OptMember(c, "x").n, OptMember(c, "y").n,
      Some(OptMember(c, "width").n), Some(OptMember(c, "height").n),
      Some(NormaliseProps(OptMember(c, "properties"))))
  }

  /** A string-valued field, or none. */
  function StrField(j: Json, key: string): (r: Option<string>)
    ensures r.Some? <==> OptMember(j, key).Str?
    ensures r.Some? ==> Str(r.value) == OptMember(j, key)
  {
    if OptMember(j, key).Str? then Some(OptMember(j, key).s) else None
  }

  /** The view transform: id, name and background carried over, components in order. */
  function TransformView(v: Json): (r: View)
    requires ValidateView(v) == Pass
    ensures Str(r.id) == OptMember(v, "id") && Str(r.name) == OptMember(v, "name")
    ensures r.backgroundColor == StrField(v, "backgroundColor")
    ensures |r.components| == |OptMember(v, "components").items|
    ensures forall j :: 0 <= j < |r.components| ==> r.components[j] == TransformComponent(OptMember(v, "components").items[j])
  {
    var items := OptMember(v, "components").items;
    View(OptMember(v, "id").s, OptMember(v, "name").s, StrField(v, "backgroundColor"),
      seq(|items|, j requires 0 <= j < |items| => TransformComponent(items[j])))
  }

  /** The view list of a document that got past the format and version checks, if it is an array. */
  function RoomViews(doc: Json): Json {
    OptMember(OptMember(doc, "room"), "views")
  }

  /** `jsonData.room.id || ''` and `jsonData.room.name || 'Untitled Design'`, for string values. */
  function RoomIdOf(room: Json): (r: string)
    ensures Truthy(OptMember(room, "id")) && OptMember(room, "id").Str? ==> r == OptMember(room, "id").s
    ensures !Truthy(OptMember(room, "id")) ==> r == ""
  {
    var id := Or(OptMember(room, "id"), Str(""));
    if id.Str? then id.s else ""
  }

  function RoomNameOf(room: Json): (r: string)
    ensures Truthy(OptMember(room, "name")) && OptMember(room, "name").Str? ==> r == OptMember(room, "name").s
    ensures !Truthy(OptMember(room, "name")) ==> r == "Untitled Design"
  {
    var name := Or(OptMember(room, "name"), Str("Untitled Design"));
    if name.Str? then name.s else "Untitled Design"
  }

  /**
   * `importDesign` after `JSON.parse`: format check, then version check, then every view, and
   * only then the transform; any failure rejects the whole document.
   */
  function ImportDesign(doc: Json): (r: Result<RoomState, ImportError>)
    ensures doc.Undefined? || doc.Null? ==> r == Failure(TypeFault)
    ensures r == Failure(InvalidFormat) <==>
      !(doc.Undefined? || doc.Null?) && (!Truthy(OptMember(doc, "version")) || !Truthy(OptMember(doc, "room")))
    ensures r == Failure(UnsupportedVersion) <==>
      !(doc.Undefined? || doc.Null?) && Truthy(OptMember(doc, "version")) && Truthy(OptMember(doc, "room"))
      && OptMember(doc, "version") != Str("1.0")
    ensures r.Success? <==>
      && !(doc.Undefined? || doc.Null?)
      && OptMember(doc, "version") == Str("1.0") && Truthy(OptMember(doc, "room"))
      && RoomViews(doc).Arr?
      && forall i :: 0 <= i < |RoomViews(doc).items| ==> ValidateView(RoomViews(doc).items[i]) == Pass
    ensures r == Failure(InvalidViewStructure) <==>
      && !(doc.Undefined? || doc.Null?)
      && OptMember(doc, "version") == Str("1.0") && Truthy(OptMember(doc, "room"))
      && RoomViews(doc).Arr? && Every(RoomViews(doc).items, ValidateView) == Fail
    ensures r.Success? ==>
      && |r.value.views| == |RoomViews(doc).items|
      && (forall i :: 0 <= i < |r.value.views| ==> r.value.views[i] == TransformView(RoomViews(doc).items[i]))
      && r.value.activeViewId == FirstViewId(r.value.views)
      && r.value.selectedComponentId == None
      && r.value.room == Some(Room(None, RoomIdOf(OptMember(doc, "room")), RoomNameOf(OptMember(doc, "room")), r.value.views))
  {
    if Member(doc, "version").Failure? then Failure(TypeFault)
    else
    var version := OptMember(doc, "version");
    var room := OptMember(doc, "room");
    if !Truthy(version) || !Truthy(room) then Failure(InvalidFormat)
    else if version != Str("1.0") then Failure(UnsupportedVersion)
    else
      var views := OptMember(room, "views");
      if !views.Arr? then Failure(TypeFault)
      else
        var check := Every(views.items, ValidateView);
        if check == Fail then Failure(InvalidViewStructure)
        else if check == Fault then Failure(TypeFault)
        else
          var transformed := seq(|views.items|, i requires 0 <= i < |views.items| => TransformView(views.items[i]));
          Success(RoomState(transformed, FirstViewId(transformed), None,
            Some(Room(None, RoomIdOf(room), RoomNameOf(room), transformed))))
  }

  /** One invalid component anywhere rejects the document: there is no partial import. */
  lemma {:induction false} OneBadComponentRejectsAll(doc: Json, i: nat, j: nat)
    requires RoomViews(doc).Arr? && i < |RoomViews(doc).items|
    requires var v := RoomViews(doc).items[i];
      OptMember(v, "components").Arr? && j < |OptMember(v, "components").items| &&
      ValidateComponent(OptMember(v, "components").items[j]) != Pass
    ensures ImportDesign(doc).Failure?
  {
    assert ValidateView(RoomViews(doc).items[i]) != Pass;
  }
}
