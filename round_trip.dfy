/**
 * What survives exporting a design and importing the written file again: `JSON.stringify`
 * followed by `JSON.parse` (`Reparsed`) sits between the exporter and the importer.
 */
module RoundTrip {

  import opened Wrappers
  import opened JsValues
  import opened Design
  import opened DesignImport
  import opened DesignExport

  /** A component the importer accepts back: it has a width and a height. */
  predicate Sized(c: Component) {
    c.width.Some? && c.height.Some?
  }

  predicate AllSized(views: seq<View>) {
    forall i, j :: 0 <= i < |views| && 0 <= j < |views[i].components| ==> Sized(views[i].components[j])
  }

  /** The property bag as written to the file and read back. */
  function WrittenProps(p: Option<Properties>): Json {
    if p.Some? then Obj(ReparsedFields(p.value)) else Undefined
  }

  /** A component after export and re-import: its properties are normalised, nothing else changes. */
  function Reimported(c: Component): Component {
    c.(properties := Some(NormaliseProps(WrittenProps(c.properties))))
  }

  /** A view after export and re-import: the background is gone, components are re-imported in order. */
  function ReimportedView(v: View): View {
    View(v.id, v.name, None, seq(|v.components|, j requires 0 <= j < |v.components| => Reimported(v.components[j])))
  }

  /** Export, write, read and import a state, starting from the exporter's input. */
  function ExportImport(st: RoomState, timestamp: string): Result<RoomState, ImportError> {
    ImportDesign(Reparsed(ToJson(ExportDesign(st, timestamp))))
  }

  // ---------------------------------------------------------------- component level

  lemma ComponentFields(c: Component)
    ensures var j := Reparsed(ComponentJson(c));
      && j.Obj?
      && OptMember(j, "id") == Str(c.id) && OptMember(j, "type") == Str(c.kind)
      && OptMember(j, "x") == Num(c.x) && OptMember(j, "y") == Num(c.y)
      && OptMember(j, "width") == NumOrUndefined(c.width) && OptMember(j, "height") == NumOrUndefined(c.height)
      && OptMember(j, "properties") == WrittenProps(c.properties)
  {
    var m := ComponentJson(c).fields;
    assert m["id"] == Str(c.id) && m["type"] == Str(c.kind) && m["x"] == Num(c.x) && m["y"] == Num(c.y);
    assert m["width"] == NumOrUndefined(c.width) && m["height"] == NumOrUndefined(c.height);
    assert m["properties"] == PropsOrUndefined(c.properties);
  }

  /** An exported component validates iff it is sized, and then imports as `Reimported`. */
  lemma ComponentRoundTrip(c: Component)
    ensures ValidateComponent(Reparsed(ComponentJson(c))) == (if Sized(c) then Pass else Fail)
    ensures Sized(c) ==> TransformComponent(Reparsed(ComponentJson(c))) == Reimported(c)
  {
    ComponentFields(c);
  }

  // ---------------------------------------------------------------- view level

  lemma ViewFields(v: View)
    ensures var j := Reparsed(ViewJson(ExportView(v)));
      && j.Obj?
      && OptMember(j, "id") == Str(v.id) && OptMember(j, "name") == Str(v.name)
      && OptMember(j, "backgroundColor") == Undefined
      && OptMember(j, "components").Arr?
      && |OptMember(j, "components").items| == |v.components|
      && forall k :: 0 <= k < |v.components| ==> OptMember(j, "components").items[k] == Reparsed(ComponentJson(v.components[k]))
  {
    var e := ExportView(v);
    var m := ViewJson(e).fields;
    var items := seq(|e.components|, j requires 0 <= j < |e.components| => ComponentJson(e.components[j]));
    assert m["id"] == Str(v.id) && m["name"] == Str(v.name) && m["components"] == Arr(items);
    assert "backgroundColor" !in m;
  }

  predicate ComponentsSized(components: seq<Component>) {
    forall k :: 0 <= k < |components| ==> Sized(components[k])
  }

  /** An exported view validates iff all its components are sized; it never faults. */
  lemma ViewValidates(v: View)
    ensures ValidateView(Reparsed(ViewJson(ExportView(v)))) == (if ComponentsSized(v.components) then Pass else Fail)
  {
    var j := Reparsed(ViewJson(ExportView(v)));
    ViewFields(v);
    var items := OptMember(j, "components").items;
    forall k | 0 <= k < |items| ensures ValidateComponent(items[k]) == (if Sized(v.components[k]) then Pass else Fail) {
      ComponentRoundTrip(v.components[k]);
    }
    if !ComponentsSized(v.components) {
      var k :| 0 <= k < |v.components| && !Sized(v.components[k]);
      assert ValidateComponent(items[k]) != Pass;
      EveryWithoutFault(items, ValidateComponent);
    }
  }

  /** An exported view whose components are all sized imports as `ReimportedView`. */
  lemma ViewTransforms(v: View)
    requires ComponentsSized(v.components)
    ensures ValidateView(Reparsed(ViewJson(ExportView(v)))) == Pass
    ensures TransformView(Reparsed(ViewJson(ExportView(v)))) == ReimportedView(v)
  {
    ViewValidates(v);
    ViewFields(v);
    ViewTransformsComponents(v);
    var t := TransformView(Reparsed(ViewJson(ExportView(v))));
    assert t.backgroundColor == None;
  }

  lemma ViewTransformsComponents(v: View)
    requires ComponentsSized(v.components)
    ensures ValidateView(Reparsed(ViewJson(ExportView(v)))) == Pass
    ensures TransformView(Reparsed(ViewJson(ExportView(v)))).components == ReimportedView(v).components
  {
    ViewValidates(v);
    ViewFields(v);
    var t := TransformView(Reparsed(ViewJson(ExportView(v))));
    var expected := ReimportedView(v);
    forall k | 0 <= k < |v.components| ensures t.components[k] == expected.components[k] {
      ComponentRoundTrip(v.components[k]);
    }
  }

  /** `every` over elements none of which throws either passes or fails. */
  lemma EveryWithoutFault<T>(items: seq<T>, f: T -> Check)
    requires forall i :: 0 <= i < |items| ==> f(items[i]) != Fault
    ensures Every(items, f) != Fault
  {
  }

  /** `every` over elements none of which throws fails as soon as one element fails. */
  lemma EveryFails<T>(items: seq<T>, f: T -> Check, i: nat)
    requires forall n :: 0 <= n < |items| ==> f(items[n]) != Fault
    requires i < |items| && f(items[i]) != Pass
    ensures Every(items, f) == Fail
  {
    EveryWithoutFault(items, f);
  }

  // ---------------------------------------------------------------- document level

  lemma DocumentFields(d: DesignData)
    ensures var j := Reparsed(ToJson(d));
      && !j.Undefined? && !j.Null?
      && OptMember(j, "version") == Str(d.version)
      && OptMember(j, "room").Obj?
      && OptMember(OptMember(j, "room"), "id") == Str(d.room.id)
      && OptMember(OptMember(j, "room"), "name") == Str(d.room.name)
      && RoomViews(j).Arr?
      && |RoomViews(j).items| == |d.room.views|
      && forall i :: 0 <= i < |d.room.views| ==> RoomViews(j).items[i] == Reparsed(ViewJson(d.room.views[i]))
  {
    var m := ToJson(d).fields;
    var views := seq(|d.room.views|, i requires 0 <= i < |d.room.views| => ViewJson(d.room.views[i]));
    var roomFields := map["id" := Str(d.room.id), "name" := Str(d.room.name), "views" := Arr(views)];
    assert m["version"] == Str(d.version) && m["room"] == Obj(roomFields);
    assert roomFields["id"] == Str(d.room.id) && roomFields["name"] == Str(d.room.name) && roomFields["views"] == Arr(views);
    ReparsedMember(m, "version");
    ReparsedMember(m, "room");
    ReparsedMember(roomFields, "id");
    ReparsedMember(roomFields, "name");
    ReparsedMember(roomFields, "views");
  }

  /** Reading a defined key of a round-tripped object gives the round-tripped value. */
  lemma ReparsedMember(m: map<string, Json>, k: string)
    requires k in m && !m[k].Undefined?
    ensures OptMember(Reparsed(Obj(m)), k) == Reparsed(m[k])
  {
  }

  /** The view list of an exported document, element by element. */
  lemma ExportedViews(st: RoomState, timestamp: string)
    ensures var doc := Reparsed(ToJson(ExportDesign(st, timestamp)));
      && !doc.Undefined? && !doc.Null?
      && OptMember(doc, "version") == Str(FormatVersion) && Truthy(OptMember(doc, "room"))
      && OptMember(OptMember(doc, "room"), "id") == Str(ExportedRoomId(st.room))
      && OptMember(OptMember(doc, "room"), "name") == Str(ExportedRoomName(st.room))
      && RoomViews(doc).Arr? && |RoomViews(doc).items| == |st.views|
      && forall i :: 0 <= i < |st.views| ==>
           && RoomViews(doc).items[i] == Reparsed(ViewJson(ExportView(st.views[i])))
           && ValidateView(RoomViews(doc).items[i]) == (if ComponentsSized(st.views[i].components) then Pass else Fail)
  {
    var d := ExportDesign(st, timestamp);
    DocumentFields(d);
    forall i | 0 <= i < |st.views|
      ensures ValidateView(Reparsed(ViewJson(ExportView(st.views[i])))) == (if ComponentsSized(st.views[i].components) then Pass else Fail)
    {
      ViewValidates(st.views[i]);
    }
  }

  /** Validated views, one of which has an unsized component, fail `every`. */
  lemma UnsizedViewsFail(items: seq<Json>, views: seq<View>)
    requires |items| == |views| && !AllSized(views)
    requires forall i :: 0 <= i < |views| ==>
      ValidateView(items[i]) == (if ComponentsSized(views[i].components) then Pass else Fail)
    ensures Every(items, ValidateView) == Fail
  {
    var i, k :| 0 <= i < |views| && 0 <= k < |views[i].components| && !Sized(views[i].components[k]);
    assert !ComponentsSized(views[i].components);
    EveryFails(items, ValidateView, i);
  }

  /** An exported design with an unsized component is rejected as an invalid view structure. */
  lemma ExportThenImportRejects(st: RoomState, timestamp: string)
    requires !AllSized(st.views)
    ensures ExportImport(st, timestamp) == Failure(InvalidViewStructure)
  {
    var doc := Reparsed(ToJson(ExportDesign(st, timestamp)));
    ExportedViews(st, timestamp);
    UnsizedViewsFail(RoomViews(doc).items, st.views);
  }

  /** An exported design whose components are all sized imports as the re-imported state. */
  lemma ExportThenImportAccepts(st: RoomState, timestamp: string)
    requires AllSized(st.views)
    ensures ExportImport(st, timestamp).Success?
    ensures var s := ExportImport(st, timestamp).value;
      && |s.views| == |st.views|
      && (forall i :: 0 <= i < |st.views| ==> s.views[i] == ReimportedView(st.views[i]))
      && s.activeViewId == FirstViewId(st.views)
      && s.selectedComponentId == None
      && s.room == Some(Room(None, ExportedRoomId(st.room), ExportedRoomName(st.room), s.views))
  {
    var doc := Reparsed(ToJson(ExportDesign(st, timestamp)));
    ExportedViews(st, timestamp);
    var items := RoomViews(doc).items;
    forall i | 0 <= i < |items| ensures TransformView(items[i]) == ReimportedView(st.views[i]) {
      assert ComponentsSized(st.views[i].components);
      ViewTransforms(st.views[i]);
    }
    var s := ImportDesign(doc).value;
    assert FirstViewId(s.views) == FirstViewId(st.views) by {
      if |st.views| > 0 {
        assert s.views[0] == ReimportedView(st.views[0]);
      }
    }
  }

  /**
   * The importer reads back an exported design iff every component is sized; it never fails the
   * format or version check. What it returns is the state with backgrounds dropped and
   * properties normalised, the first view active, nothing selected and the exported room header.
   */
  lemma ExportThenImport(st: RoomState, timestamp: string)
    ensures ExportImport(st, timestamp).Success? <==> AllSized(st.views)
    ensures !AllSized(st.views) ==> ExportImport(st, timestamp) == Failure(InvalidViewStructure)
    ensures ExportImport(st, timestamp).Success? ==>
      var s := ExportImport(st, timestamp).value;
      && |s.views| == |st.views|
      && (forall i :: 0 <= i < |st.views| ==> s.views[i] == ReimportedView(st.views[i]))
      && s.activeViewId == FirstViewId(st.views)
      && s.selectedComponentId == None
      && s.room == Some(Room(None, ExportedRoomId(st.room), ExportedRoomName(st.room), s.views))
  {
    if AllSized(st.views) {
      ExportThenImportAccepts(st, timestamp);
    } else {
      ExportThenImportRejects(st, timestamp);
    }
  }

  // ---------------------------------------------------------------- stability

  /** Every value of an object's own keys is plain JSON. */
  predicate PlainFields(p: Json) {
    forall k :: k in Spread(p) ==> Defined(Spread(p)[k])
  }

  /** What is written and read back has plain JSON values only. */
  lemma WrittenPropsArePlain(props: Option<Properties>)
    ensures PlainFields(WrittenProps(props))
  {
    if props.Some? {
      forall k | k in ReparsedFields(props.value) ensures Defined(ReparsedFields(props.value)[k]) {
        ReparsedIsDefined(props.value[k]);
      }
    }
  }

  lemma OrTwice(x: Json, d: Json)
    ensures Or(Or(x, d), d) == Or(x, d)
  {
  }

  /** A listed key's normalised value is its own default when read again. */
  lemma ListedValueStable(p: Json, q: Json, k: string)
    requires k in ListedKeys && OptMember(q, k) == ListedValue(p, k)
    ensures ListedValue(q, k) == ListedValue(p, k)
  {
    OrTwice(OptMember(p, k), Str("transparent"));
    OrTwice(OptMember(p, k), Arr([]));
    OrTwice(OptMember(p, k), Bool(false));
  }

  /** A listed key's normalised value is absent or plain JSON. */
  lemma ListedValuePlain(p: Json, k: string)
    requires PlainFields(p)
    ensures ListedValue(p, k).Undefined? || Defined(ListedValue(p, k))
  {
    if p.Obj? && k in p.fields {
      assert Defined(Spread(p)[k]);
    }
    assert Defined(Arr([]));
  }

  lemma NormaliseListed(p: Json, k: string)
    requires k in ListedKeys
    ensures k in NormaliseProps(p) && NormaliseProps(p)[k] == ListedValue(p, k)
  {
  }

  /** Every value the normaliser produces from plain JSON is absent or plain. */
  lemma NormalisePlain(p: Json)
    requires PlainFields(p)
    ensures forall k :: k in NormaliseProps(p) ==> NormaliseProps(p)[k].Undefined? || Defined(NormaliseProps(p)[k])
  {
    var n := NormaliseProps(p);
    forall k | k in n ensures n[k].Undefined? || Defined(n[k]) {
      if k in ListedKeys {
        NormaliseListed(p, k);
        ListedValuePlain(p, k);
      }
    }
  }

  /** Writing out and reading back a bag of absent or plain values keeps every plain value. */
  lemma WrittenAgrees(n: Properties)
    requires forall k :: k in n ==> n[k].Undefined? || Defined(n[k])
    ensures forall k :: k in ReparsedFields(n) ==> ReparsedFields(n)[k] == n[k]
    ensures forall k :: k in n && !n[k].Undefined? ==> k in ReparsedFields(n)
  {
    var written := ReparsedFields(n);
    forall k | k in written ensures written[k] == n[k] {
      ReparsedDefinedIsIdentity(n[k]);
    }
  }

  /** A listed key keeps its normalised value when the read-back bag is normalised again. */
  lemma NormaliseAgainListed(p: Json, k: string)
    requires PlainFields(p) && k in ListedKeys
    ensures var n := NormaliseProps(p);
      k in n && NormaliseProps(Obj(ReparsedFields(n)))[k] == n[k]
  {
    var n := NormaliseProps(p);
    NormalisePlain(p);
    WrittenAgrees(n);
    var q := Obj(ReparsedFields(n));
    NormaliseListed(p, k);
    NormaliseListed(q, k);
    assert OptMember(q, k) == n[k];
    ListedValueStable(p, q, k);
  }

  /** An unlisted key is copied through both normalisations unchanged. */
  lemma NormaliseAgainUnlisted(p: Json, k: string)
    requires PlainFields(p) && k !in ListedKeys
    requires k in NormaliseProps(Obj(ReparsedFields(NormaliseProps(p))))
    ensures var n := NormaliseProps(p);
      k in n && NormaliseProps(Obj(ReparsedFields(n)))[k] == n[k]
  {
    var n := NormaliseProps(p);
    NormalisePlain(p);
    WrittenAgrees(n);
  }

  /** Normalising the read-back bag again writes no key and no value that was not there. */
  lemma NormaliseAgainAgrees(p: Json)
    requires PlainFields(p)
    ensures var n := NormaliseProps(p);
      var m := NormaliseProps(Obj(ReparsedFields(n)));
      forall k :: k in m ==> k in n && m[k] == n[k]
  {
    var n := NormaliseProps(p);
    var m := NormaliseProps(Obj(ReparsedFields(n)));
    forall k | k in m ensures k in n && m[k] == n[k] {
      if k in ListedKeys {
        NormaliseAgainListed(p, k);
      } else {
        NormaliseAgainUnlisted(p, k);
      }
    }
  }

  /** Normalising the read-back bag again keeps every key. */
  lemma NormaliseAgainCovers(p: Json)
    requires PlainFields(p)
    ensures var n := NormaliseProps(p);
      var m := NormaliseProps(Obj(ReparsedFields(n)));
      forall k :: k in n ==> k in m
  {
    var n := NormaliseProps(p);
    var written := ReparsedFields(n);
    forall k | k in n && k !in ListedKeys ensures k in written {
      assert k in Spread(p);
      assert Defined(n[k]);
    }
  }

  /** Normalising a bag that was normalised, written and read back changes nothing. */
  lemma {:induction false} NormaliseStable(p: Json)
    requires PlainFields(p)
    ensures NormaliseProps(Obj(ReparsedFields(NormaliseProps(p)))) == NormaliseProps(p)
  {
    var n := NormaliseProps(p);
    var m := NormaliseProps(Obj(ReparsedFields(n)));
    NormaliseAgainAgrees(p);
    NormaliseAgainCovers(p);
    SameMaps(m, n);
  }

  lemma SameMaps<K, V>(m: map<K, V>, n: map<K, V>)
    requires forall k :: k in m ==> k in n && m[k] == n[k]
    requires forall k :: k in n ==> k in m
    ensures m == n
  {
  }

  /** A re-imported component is a fixpoint of export and re-import. */
  lemma ReimportedIdempotent(c: Component)
    ensures Reimported(Reimported(c)) == Reimported(c)
  {
    WrittenPropsArePlain(c.properties);
    NormaliseStable(WrittenProps(c.properties));
  }

  lemma ReimportedViewIdempotent(v: View)
    ensures ReimportedView(ReimportedView(v)) == ReimportedView(v)
  {
    var once := ReimportedView(v);
    var twice := ReimportedView(once);
    forall k | 0 <= k < |v.components| ensures twice.components[k] == once.components[k] {
      ReimportedIdempotent(v.components[k]);
    }
  }

  /** Re-importing keeps every component sized. */
  lemma ReimportedStaySized(views: seq<View>, again: seq<View>)
    requires AllSized(views) && |again| == |views|
    requires forall i :: 0 <= i < |views| ==> again[i] == ReimportedView(views[i])
    ensures AllSized(again)
  {
    forall i, j | 0 <= i < |again| && 0 <= j < |again[i].components| ensures Sized(again[i].components[j]) {
      assert Sized(views[i].components[j]);
    }
  }

  /** Re-importing views that were re-imported once gives them back. */
  lemma ReimportedViewsIdempotent(views: seq<View>, once: seq<View>, twice: seq<View>)
    requires |once| == |views| && |twice| == |once|
    requires forall i :: 0 <= i < |views| ==> once[i] == ReimportedView(views[i])
    requires forall i :: 0 <= i < |once| ==> twice[i] == ReimportedView(once[i])
    ensures twice == once
  {
    forall i | 0 <= i < |once| ensures twice[i] == once[i] {
      ReimportedViewIdempotent(views[i]);
    }
  }

  /** Re-importing keeps the first view's id. */
  lemma ReimportedFirstViewId(views: seq<View>, once: seq<View>)
    requires |once| == |views|
    requires forall i :: 0 <= i < |views| ==> once[i] == ReimportedView(views[i])
    ensures FirstViewId(once) == FirstViewId(views)
  {
    if |views| > 0 {
      assert once[0] == ReimportedView(views[0]);
    }
  }

  /**
   * After one export and re-import, a design is stable: exporting and importing it again gives
   * the very same state, whatever the timestamps.
   */
  lemma ExportImportStable(st: RoomState, timestamp: string, later: string)
    requires ExportImport(st, timestamp).Success?
    ensures ExportImport(ExportImport(st, timestamp).value, later) == ExportImport(st, timestamp)
  {
    ExportThenImport(st, timestamp);
    var s := ExportImport(st, timestamp).value;
    ReimportedStaySized(st.views, s.views);
    ExportThenImport(s, later);
    var s2 := ExportImport(s, later).value;
    ReimportedViewsIdempotent(st.views, s.views, s2.views);
    ReimportedFirstViewId(st.views, s.views);
  }

  /** The exporter does not write backgrounds, so a coloured view comes back without its colour. */
  lemma BackgroundIsLost()
    ensures var st := RoomState([View("main", "Main View", Some("#ffffff"), [])], Some("main"), None, None);
      ExportImport(st, "").Success? && |ExportImport(st, "").value.views| == 1
      && ExportImport(st, "").value.views[0].backgroundColor == None
  {
    var st := RoomState([View("main", "Main View", Some("#ffffff"), [])], Some("main"), None, None);
    ExportThenImport(st, "");
  }
}
