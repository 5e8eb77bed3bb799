/**
 * The new `views` value that each room-store action computes from the old one with
 * `map`, `filter` and object spread (src/features/rooms/store/useRoomStore.ts). The older views
 * store computes the same values for the actions it shares.
 */
module RoomOps {

  import opened Wrappers
  import opened Design
  import Seqs

  // ---------------------------------------------------------------- shared shapes

  /** `views.map(view => view.id === viewId ? f(view) : view)`. */
  function MapView(views: seq<View>, viewId: string, f: View -> View): (r: seq<View>)
    ensures |r| == |views|
    ensures forall i :: 0 <= i < |r| ==> r[i] == if views[i].id == viewId then f(views[i]) else views[i]
  {
    seq(|views|, i requires 0 <= i < |views| => if views[i].id == viewId then f(views[i]) else views[i])
  }

  /** The same `map` one level down: rewrite component `componentId` of view `viewId` with `g`. */
  function MapComponent(views: seq<View>, viewId: string, componentId: string, g: Component -> Component): (r: seq<View>)
    ensures |r| == |views|
    ensures forall i :: 0 <= i < |r| ==>
      r[i] == (if views[i].id == viewId then views[i].(components := MapComponentIn(views[i].components, componentId, g))
               else views[i])
  {
    MapView(views, viewId, (v: View) => v.(components := MapComponentIn(v.components, componentId, g)))
  }

  function MapComponentIn(components: seq<Component>, componentId: string, g: Component -> Component): (r: seq<Component>)
    ensures |r| == |components|
    ensures forall j :: 0 <= j < |r| ==>
      r[j] == if components[j].id == componentId then g(components[j]) else components[j]
  {
    seq(|components|, j requires 0 <= j < |components| =>
      if components[j].id == componentId then g(components[j]) else components[j])
  }

  /** Two views agree on everything except their component lists. */
  predicate SameHeader(a: View, b: View) {
    a.id == b.id && a.name == b.name && a.backgroundColor == b.backgroundColor
  }

  /**
   * `after` differs from `before` at most in component `componentId` of view `viewId`:
   * view and component order and lengths are kept, and so is every view header.
   */
  predicate OnlyComponentChanged(before: seq<View>, after: seq<View>, viewId: string, componentId: string) {
    && |after| == |before|
    && (forall i :: 0 <= i < |after| ==> SameHeader(after[i], before[i]))
    && (forall i :: 0 <= i < |after| && before[i].id != viewId ==> after[i] == before[i])
    && (forall i :: 0 <= i < |after| && before[i].id == viewId ==>
          |after[i].components| == |before[i].components| &&
          forall j :: 0 <= j < |after[i].components| && before[i].components[j].id != componentId ==>
            after[i].components[j] == before[i].components[j])
  }

  /** When the target does not exist, an update that could only touch the target changes nothing. */
  lemma OnlyComponentChangedWithoutTarget(before: seq<View>, after: seq<View>, viewId: string, componentId: string)
    requires OnlyComponentChanged(before, after, viewId, componentId)
    requires !HasComponent(before, viewId, componentId)
    ensures after == before
  {
    forall i | 0 <= i < |after| ensures after[i] == before[i] {
      if before[i].id == viewId {
        forall j | 0 <= j < |before[i].components| ensures after[i].components[j] == before[i].components[j] {
          assert !IsTarget(before, viewId, componentId, i, j);
        }
        assert after[i].components == before[i].components;
      }
    }
  }

  lemma MapComponentChangesOnlyTarget(views: seq<View>, viewId: string, componentId: string, g: Component -> Component)
    ensures OnlyComponentChanged(views, MapComponent(views, viewId, componentId, g), viewId, componentId)
    ensures forall i, j :: IsTarget(views, viewId, componentId, i, j) ==>
        MapComponent(views, viewId, componentId, g)[i].components[j] == g(views[i].components[j])
  {
  }

  // ---------------------------------------------------------------- component-level edits

  /** `{ ...comp, x: position.x, y: position.y }`: exactly the given coordinates, no clamping. */
  function Moved(c: Component, position: Position): (r: Component)
    ensures r.x == position.x && r.y == position.y
    ensures r.(x := c.x, y := c.y) == c
  {
    c.(x := position.x, y := position.y)
  }

  /** `{ ...comp, ...size }`: exactly the given width and height, no clamping. */
  function Resized(c: Component, width: real, height: real): (r: Component)
    ensures r.width == Some(width) && r.height == Some(height)
    ensures r.(width := c.width, height := c.height) == c
  {
    c.(width := Some(width), height := Some(height))
  }

  /** `{ ...comp.properties, ...patch }`: patch keys overwrite, all other keys keep their values. */
  function MergeProperties(current: Option<Properties>, patch: Properties): (r: Properties)
    ensures forall k :: k in patch ==> k in r && r[k] == patch[k]
    ensures forall k :: current.Some? && k in current.value && k !in patch ==> k in r && r[k] == current.value[k]
    ensures forall k :: k in r ==> k in patch || (current.Some? && k in current.value)
  {
    current.GetOr(map[]) + patch
  }

  /** `{ ...comp, ...updates }` for a `Partial<Component>`: present fields replace, absent ones stay. */
  function Patched(c: Component, p: ComponentPatch): (r: Component)
    ensures r.id == (if p.id.Some? then p.id.value else c.id)
    ensures r.kind == (if p.kind.Some? then p.kind.value else c.kind)
    ensures r.x == (if p.x.Some? then p.x.value else c.x)
    ensures r.y == (if p.y.Some? then p.y.value else c.y)
    ensures r.width == (if p.width.Some? then p.width.value else c.width)
    ensures r.height == (if p.height.Some? then p.height.value else c.height)
    ensures r.properties == (if p.properties.Some? then p.properties.value else c.properties)
  {
    Component(
      p.id.GetOr(c.id), p.kind.GetOr(c.kind), p.x.GetOr(c.x), p.y.GetOr(c.y),
      p.width.GetOr(c.width), p.height.GetOr(c.height), p.properties.GetOr(c.properties))
  }

  /** `{ ...first, ...second }` on two patches. */
  function PatchThen(first: ComponentPatch, second: ComponentPatch): ComponentPatch {
    ComponentPatch(
      if second.id.Some? then second.id else first.id,
      if second.kind.Some? then second.kind else first.kind,
      if second.x.Some? then second.x else first.x,
      if second.y.Some? then second.y else first.y,
      if second.width.Some? then second.width else first.width,
      if second.height.Some? then second.height else first.height,
      if second.properties.Some? then second.properties else first.properties)
  }

  /** Two shallow merges in a row are one merge of the combined patch (last writer wins per field). */
  lemma PatchedTwice(c: Component, first: ComponentPatch, second: ComponentPatch)
    ensures Patched(Patched(c, first), second) == Patched(c, PatchThen(first, second))
  {
  }

  // ---------------------------------------------------------------- the store actions

  /** `addComponent`: append `component` to every view `viewId`; nothing else changes. */
  function AddComponent(views: seq<View>, viewId: string, component: Component): (r: seq<View>)
    ensures |r| == |views|
    ensures forall i :: 0 <= i < |r| ==> SameHeader(r[i], views[i])
    ensures forall i :: 0 <= i < |r| && views[i].id != viewId ==> r[i] == views[i]
    ensures forall i :: 0 <= i < |r| && views[i].id == viewId ==>
      |r[i].components| == |views[i].components| + 1 &&
      r[i].components[..|views[i].components|] == views[i].components &&
      r[i].components[|views[i].components|] == component
    ensures !HasView(views, viewId) ==> r == views
  {
    var r := MapView(views, viewId, (v: View) => v.(components := v.components + [component]));
    assert !HasView(views, viewId) ==> r == views by {
      if !HasView(views, viewId) {
        assert forall i :: 0 <= i < |r| ==> r[i] == views[i];
      }
    }
    r
  }

  /** `removeComponent`: drop every component `componentId` of view `viewId`. */
  function RemoveComponent(views: seq<View>, viewId: string, componentId: string): (r: seq<View>)
    ensures |r| == |views|
    ensures forall i :: 0 <= i < |r| ==> SameHeader(r[i], views[i])
    ensures forall i :: 0 <= i < |r| && views[i].id != viewId ==> r[i] == views[i]
    ensures forall i :: 0 <= i < |r| && views[i].id == viewId ==>
      (forall j :: 0 <= j < |r[i].components| ==>
        r[i].components[j].id != componentId && r[i].components[j] in views[i].components) &&
      (forall j :: 0 <= j < |views[i].components| && views[i].components[j].id != componentId ==>
        views[i].components[j] in r[i].components)
    ensures forall i :: 0 <= i < |r| && views[i].id == viewId ==>
      Seqs.KeepsInOrder(r[i].components, views[i].components, (c: Component) => c.id != componentId)
  {
    var q := (c: Component) => c.id != componentId;
    Seqs.FilterInOrder(q);
    MapView(views, viewId, (v: View) => v.(components := Seqs.Filter(v.components, q)))
  }

  /** Removing a component that is not there leaves the views exactly as they were. */
  lemma RemoveAbsentComponent(views: seq<View>, viewId: string, componentId: string)
    requires !HasComponent(views, viewId, componentId)
    ensures RemoveComponent(views, viewId, componentId) == views
  {
    var r := RemoveComponent(views, viewId, componentId);
    forall i | 0 <= i < |views| ensures r[i] == views[i] {
      if views[i].id == viewId {
        forall j | 0 <= j < |views[i].components| ensures views[i].components[j].id != componentId {
          assert !IsTarget(views, viewId, componentId, i, j);
        }
        Seqs.FilterKeepsAll(views[i].components, (c: Component) => c.id != componentId);
      }
    }
  }

  /** Removing a fresh component right after adding it restores the views (the pair are inverses). */
  lemma RemoveUndoesAdd(views: seq<View>, viewId: string, component: Component)
    requires !HasComponent(views, viewId, component.id)
    ensures RemoveComponent(AddComponent(views, viewId, component), viewId, component.id) == views
  {
    var added := AddComponent(views, viewId, component);
    var p := (c: Component) => c.id != component.id;
    var r := RemoveComponent(added, viewId, component.id);
    forall i | 0 <= i < |views| ensures r[i] == views[i] {
      if views[i].id == viewId {
        var cs := views[i].components;
        assert added[i].components == cs + [component];
        forall j | 0 <= j < |cs| ensures p(cs[j]) {
          assert !IsTarget(views, viewId, component.id, i, j);
        }
        Seqs.FilterKeepsAll(cs, p);
        Seqs.FilterAppendRejected(cs, component, p);
      }
    }
  }

  /** `updateComponent`: shallow-merge `updates` into component `componentId` of view `viewId`. */
  function UpdateComponent(views: seq<View>, viewId: string, componentId: string, updates: ComponentPatch): (r: seq<View>)
    ensures |r| == |views|
    ensures OnlyComponentChanged(views, r, viewId, componentId)
    ensures forall i, j :: IsTarget(views, viewId, componentId, i, j) ==>
        r[i].components[j] == Patched(views[i].components[j], updates)
    ensures !HasComponent(views, viewId, componentId) ==> r == views
  {
    var g := (c: Component) => Patched(c, updates);
    MapComponentChangesOnlyTarget(views, viewId, componentId, g);
    var r := MapComponent(views, viewId, componentId, g);
    assert !HasComponent(views, viewId, componentId) ==> r == views by {
      if !HasComponent(views, viewId, componentId) {
        forall i | 0 <= i < |r| ensures r[i] == views[i] {
          if views[i].id == viewId {
            forall j | 0 <= j < |views[i].components| ensures r[i].components[j] == views[i].components[j] {
              assert !IsTarget(views, viewId, componentId, i, j);
            }
            assert r[i].components == views[i].components;
          }
        }
      }
    }
    r
  }

  /** `updateComponentPosition`: store exactly `position` on the target; nothing is clamped. */
  function MoveComponent(views: seq<View>, viewId: string, componentId: string, position: Position): (r: seq<View>)
    ensures OnlyComponentChanged(views, r, viewId, componentId)
    ensures forall i, j :: IsTarget(views, viewId, componentId, i, j) ==>
        r[i].components[j] == Moved(views[i].components[j], position)
    ensures !HasComponent(views, viewId, componentId) ==> r == views
  {
    MapComponentChangesOnlyTarget(views, viewId, componentId, (c: Component) => Moved(c, position));
    var r := MapComponent(views, viewId, componentId, (c: Component) => Moved(c, position));
    assert !HasComponent(views, viewId, componentId) ==> r == views by {
      if !HasComponent(views, viewId, componentId) {
        OnlyComponentChangedWithoutTarget(views, r, viewId, componentId);
      }
    }
    r
  }

  /** `updateComponentProperties`: merge `patch` into the target's property bag. */
  function UpdateProperties(views: seq<View>, viewId: string, componentId: string, patch: Properties): (r: seq<View>)
    ensures OnlyComponentChanged(views, r, viewId, componentId)
    ensures forall i, j :: IsTarget(views, viewId, componentId, i, j) ==>
        r[i].components[j] ==
          views[i].components[j].(properties := Some(MergeProperties(views[i].components[j].properties, patch)))
    ensures !HasComponent(views, viewId, componentId) ==> r == views
  {
    var g := (c: Component) => c.(properties := Some(MergeProperties(c.properties, patch)));
    MapComponentChangesOnlyTarget(views, viewId, componentId, g);
    var r := MapComponent(views, viewId, componentId, g);
    assert !HasComponent(views, viewId, componentId) ==> r == views by {
      if !HasComponent(views, viewId, componentId) {
        OnlyComponentChangedWithoutTarget(views, r, viewId, componentId);
      }
    }
    r
  }

  /** `updateComponentSize`: store exactly the given size on the target; nothing is clamped. */
  function ResizeComponent(views: seq<View>, viewId: string, componentId: string, width: real, height: real): (r: seq<View>)
    ensures OnlyComponentChanged(views, r, viewId, componentId)
    ensures forall i, j :: IsTarget(views, viewId, componentId, i, j) ==>
        r[i].components[j] == Resized(views[i].components[j], width, height)
    ensures !HasComponent(views, viewId, componentId) ==> r == views
  {
    MapComponentChangesOnlyTarget(views, viewId, componentId, (c: Component) => Resized(c, width, height));
    var r := MapComponent(views, viewId, componentId, (c: Component) => Resized(c, width, height));
    assert !HasComponent(views, viewId, componentId) ==> r == views by {
      if !HasComponent(views, viewId, componentId) {
        OnlyComponentChangedWithoutTarget(views, r, viewId, componentId);
      }
    }
    r
  }

  /** Two moves of the same component: the second one wins outright. */
  lemma MoveTwice(views: seq<View>, viewId: string, componentId: string, first: Position, second: Position)
    ensures MoveComponent(MoveComponent(views, viewId, componentId, first), viewId, componentId, second)
         == MoveComponent(views, viewId, componentId, second)
  {
    var once := MoveComponent(views, viewId, componentId, first);
    var twice := MoveComponent(once, viewId, componentId, second);
    var direct := MoveComponent(views, viewId, componentId, second);
    forall i | 0 <= i < |views| ensures twice[i] == direct[i] {
      if views[i].id == viewId {
        assert twice[i].components == direct[i].components;
      }
    }
  }

  /** Two property patches in a row equal one patch of their union, later keys winning. */
  lemma UpdatePropertiesTwice(views: seq<View>, viewId: string, componentId: string, first: Properties, second: Properties)
    ensures UpdateProperties(UpdateProperties(views, viewId, componentId, first), viewId, componentId, second)
         == UpdateProperties(views, viewId, componentId, first + second)
  {
    var g1 := (c: Component) => c.(properties := Some(MergeProperties(c.properties, first)));
    var g2 := (c: Component) => c.(properties := Some(MergeProperties(c.properties, second)));
    var g := (c: Component) => c.(properties := Some(MergeProperties(c.properties, first + second)));
    forall c: Component | c.id == componentId ensures g1(c).id == componentId && g2(g1(c)) == g(c) {
      assert MergeProperties(Some(MergeProperties(c.properties, first)), second)
          == MergeProperties(c.properties, first + second);
    }
    MapComponentTwice(views, viewId, componentId, g1, g2, g);
  }

  /** Two rewrites of one component compose when the first keeps its id. */
  lemma MapComponentTwice(views: seq<View>, viewId: string, componentId: string,
                          g1: Component -> Component, g2: Component -> Component, g: Component -> Component)
    requires forall c: Component :: c.id == componentId ==> g1(c).id == componentId && g2(g1(c)) == g(c)
    ensures MapComponent(MapComponent(views, viewId, componentId, g1), viewId, componentId, g2)
         == MapComponent(views, viewId, componentId, g)
  {
    var once := MapComponent(views, viewId, componentId, g1);
    var twice := MapComponent(once, viewId, componentId, g2);
    var direct := MapComponent(views, viewId, componentId, g);
    forall i | 0 <= i < |views| ensures twice[i] == direct[i] {
      if views[i].id == viewId {
        forall j | 0 <= j < |views[i].components| ensures twice[i].components[j] == direct[i].components[j] {
          if views[i].components[j].id == componentId {
            assert once[i].components[j] == g1(views[i].components[j]);
          }
        }
        assert twice[i].components == direct[i].components;
      }
    }
  }

  // ---------------------------------------------------------------- view-level edits

  /** `updateViewName`: rename every view `id`; only names change. */
  function RenameView(views: seq<View>, id: string, name: string): (r: seq<View>)
    ensures |r| == |views|
    ensures forall i :: 0 <= i < |r| ==> r[i] == if views[i].id == id then views[i].(name := name) else views[i]
  {
    MapView(views, id, (v: View) => v.(name := name))
  }

  /** `updateViewBackground`: set the background of every view `viewId`. */
  function SetBackground(views: seq<View>, viewId: string, color: string): (r: seq<View>)
    ensures |r| == |views|
    ensures forall i :: 0 <= i < |r| ==>
      r[i] == if views[i].id == viewId then views[i].(backgroundColor := Some(color)) else views[i]
  {
    MapView(views, viewId, (v: View) => v.(backgroundColor := Some(color)))
  }

  /** `removeView`: `views.filter(v => v.id !== id)`. */
  function RemoveView(views: seq<View>, id: string): (r: seq<View>)
    ensures !HasView(r, id)
    ensures forall i :: 0 <= i < |r| ==> r[i] in views
    ensures forall i :: 0 <= i < |views| && views[i].id != id ==> views[i] in r
    ensures !HasView(views, id) ==> r == views
    ensures Seqs.KeepsInOrder(r, views, (v: View) => v.id != id)
  {
    var p := (v: View) => v.id != id;
    Seqs.FilterInOrder(p);
    if !HasView(views, id) then
      Seqs.FilterKeepsAll(views, p);
      Seqs.Filter(views, p)
    else
      Seqs.Filter(views, p)
  }

  /**
   * `addView`: append an empty view `id`; it is named `name`, or `View {n+1}` (n the prior count)
   * when `name` is absent or empty.
   */
  function AppendView(views: seq<View>, id: string, name: Option<string>): (r: seq<View>)
    ensures |r| == |views| + 1 && r[..|views|] == views
    ensures r[|views|] == View(id, DefaultedViewName(name, |views|), None, [])
  {
    views + [View(id, DefaultedViewName(name, |views|), None, [])]
  }

  /** `name || \`View ${count + 1}\``. */
  function DefaultedViewName(name: Option<string>, count: nat): (r: string)
    ensures name.Some? && name.value != "" ==> r == name.value
    ensures (name.None? || name.value == "") ==> r == "View " + Decimal(count + 1)
  {
    if name.Some? && name.value != "" then name.value else "View " + Decimal(count + 1)
  }

  /** Removing a view right after adding it under a fresh id restores the views. */
  lemma RemoveUndoesAppend(views: seq<View>, id: string, name: Option<string>)
    requires !HasView(views, id)
    ensures RemoveView(AppendView(views, id, name), id) == views
  {
    var p := (v: View) => v.id != id;
    var appended := AppendView(views, id, name);
    Seqs.FilterKeepsAll(views, p);
    Seqs.FilterAppendRejected(views, appended[|views|], p);
    assert appended == views + [appended[|views|]];
  }

  /** The number a string of decimal digits stands for, most significant digit first. */
  ghost function DecimalValue(s: string): int {
    if s == [] then 0 else DecimalValue(s[..|s| - 1]) * 10 + (s[|s| - 1] as int - '0' as int)
  }

  /**
   * A natural number in decimal, as a template literal prints it: digits only, no leading zero
   * except for 0 itself, and the digits read back as `n`.
   */
  function Decimal(n: nat): (r: string)
    ensures |r| > 0
    ensures forall i :: 0 <= i < |r| ==> '0' <= r[i] <= '9'
    ensures r[0] != '0' || n == 0
    ensures DecimalValue(r) == n
  {
    if n < 10 then [Digit(n)]
    else
      var r := Decimal(n / 10) + [Digit(n % 10)];
      assert r[..|r| - 1] == Decimal(n / 10);
      r
  }

  function Digit(d: nat): (c: char)
    requires d < 10
    ensures '0' <= c <= '9'
    ensures c as int == '0' as int + d
  {
    ['0', '1', '2', '3', '4', '5', '6', '7', '8', '9'][d]
  }
}
