/**
 * The real-time sync protocol: the six socket events the room store emits
 * (src/services/socketService.ts) and the table that maps each received event back to the
 * store action it triggers (src/hooks/useSocketEvents.ts). There is no origin tag on either side.
 */
module Sync {

  import opened Wrappers
  import opened Design
  import RoomOps

  /** A mutation as it travels between clients; each payload also carries the room id (see `Msg`). */
  datatype Event =
    | ComponentUpdate(viewId: string, componentId: string, updates: ComponentPatch)
    | ComponentPosition(viewId: string, componentId: string, position: Position)
    | ComponentProperties(viewId: string, componentId: string, properties: Properties)
    | ViewBackground(viewId: string, backgroundColor: string)
    | ComponentAdd(viewId: string, component: Component)
    | ComponentRemove(viewId: string, componentId: string)
  {
    /** The socket event name. */
    function Name(): string {
      match this
      case ComponentUpdate(_, _, _) => "component_update"
      case ComponentPosition(_, _, _) => "component_position"
      case ComponentProperties(_, _, _) => "component_properties"
      case ViewBackground(_, _) => "view_background"
      case ComponentAdd(_, _) => "component_add"
      case ComponentRemove(_, _) => "component_remove"
    }
  }

  /** One emitted payload: `{ roomId, ...fields of the event }`. */
  datatype Msg = Msg(roomId: string, event: Event)

  /** `if (roomId)`: a room id is bound and is not the empty string. */
  predicate IsBound(roomId: Option<string>) {
    roomId.Some? && roomId.value != ""
  }

  /** What an emitting store action sends: exactly one message of its kind iff a room is bound. */
  function Outbox(roomId: Option<string>, event: Event): (r: seq<Msg>)
    ensures |r| == (if IsBound(roomId) then 1 else 0)
    ensures IsBound(roomId) ==> r[0].roomId == roomId.value && r[0].event == event
  {
    if IsBound(roomId) then [Msg(roomId.value, event)] else []
  }

  /**
   * The views after a client applies `event`: the same store action the sender ran
   * (`component_update` -> `updateComponent`, `component_position` -> `updateComponentPosition`, ...).
   */
  function ApplyToViews(views: seq<View>, event: Event): seq<View> {
    match event
    case ComponentUpdate(v, c, u) => RoomOps.UpdateComponent(views, v, c, u)
    case ComponentPosition(v, c, p) => RoomOps.MoveComponent(views, v, c, p)
    case ComponentProperties(v, c, p) => RoomOps.UpdateProperties(views, v, c, p)
    case ViewBackground(v, color) => RoomOps.SetBackground(views, v, color)
    case ComponentAdd(v, c) => RoomOps.AddComponent(views, v, c)
    case ComponentRemove(v, c) => RoomOps.RemoveComponent(views, v, c)
  }

  /** The selection after applying `event`: an added component becomes selected, a removed one is dropped. */
  function SelectionAfter(selected: Option<string>, event: Event): (r: Option<string>)
    ensures event.ComponentAdd? ==> r == Some(event.component.id)
    ensures event.ComponentRemove? ==> r == (if selected == Some(event.componentId) then None else selected)
    ensures !event.ComponentAdd? && !event.ComponentRemove? ==> r == selected
  {
    match event
    case ComponentAdd(_, c) => Some(c.id)
    case ComponentRemove(_, c) => if selected == Some(c) then None else selected
    case _ => selected
  }

  /** The views after applying a whole stream of received events in order. */
  function ApplyAll(views: seq<View>, events: seq<Event>): seq<View>
    decreases |events|
  {
    if events == [] then views else ApplyAll(ApplyToViews(views, events[0]), events[1..])
  }

  /** Every key of `r` holds the value of the last patch in `patches` that sets it. */
  ghost predicate LastWriterWins(r: Properties, patches: seq<Properties>) {
    forall k :: k in r ==>
      exists n :: 0 <= n < |patches| && k in patches[n] && r[k] == patches[n][k] &&
                  forall m :: n < m < |patches| ==> k !in patches[m]
  }

  /** The keys of `r` are those some patch sets. */
  ghost predicate KeysOfSome(r: Properties, patches: seq<Properties>) {
    forall k :: k in r <==> exists n :: 0 <= n < |patches| && k in patches[n]
  }

  /** Merging a first patch under the union of the rest keeps the last writer winning. */
  lemma LastWriterStep(patches: seq<Properties>, tail: Properties)
    requires |patches| > 0
    requires KeysOfSome(tail, patches[1..]) && LastWriterWins(tail, patches[1..])
    ensures KeysOfSome(patches[0] + tail, patches) && LastWriterWins(patches[0] + tail, patches)
  {
    var r, rest := patches[0] + tail, patches[1..];
    assert forall m :: 1 <= m < |patches| ==> patches[m] == rest[m - 1];
    forall k | k in r
      ensures exists n :: 0 <= n < |patches| && k in patches[n] && r[k] == patches[n][k] &&
                          forall m :: n < m < |patches| ==> k !in patches[m]
    {
      if k in tail {
        var n :| 0 <= n < |rest| && k in rest[n] && tail[k] == rest[n][k] &&
          forall m :: n < m < |rest| ==> k !in rest[m];
        assert patches[n + 1] == rest[n];
      } else {
        assert forall m :: 0 < m < |patches| ==> k !in patches[m];
      }
    }
  }

  /** The union of a list of property patches, later patches winning on shared keys. */
  function UnionAll(patches: seq<Properties>): (r: Properties)
    ensures KeysOfSome(r, patches)
    ensures LastWriterWins(r, patches)
    decreases |patches|
  {
    if patches == [] then map[]
    else
      var tail := UnionAll(patches[1..]);
      LastWriterStep(patches, tail);
      patches[0] + tail
  }

  /**
   * Last writer wins per key: applying a stream of `component_properties` events for one
   * component is one merge of all their patches.
   */
  lemma {:induction false} PropertyStreamIsOneMerge(views: seq<View>, viewId: string, componentId: string, patches: seq<Properties>)
    ensures ApplyAll(views, seq(|patches|, n requires 0 <= n < |patches| => ComponentProperties(viewId, componentId, patches[n])))
         == (if patches == [] then views else RoomOps.UpdateProperties(views, viewId, componentId, UnionAll(patches)))
    decreases |patches|
  {
    var events := seq(|patches|, n requires 0 <= n < |patches| => ComponentProperties(viewId, componentId, patches[n]));
    if |patches| == 1 {
      assert patches[1..] == [];
      assert patches[0] + map[] == patches[0];
    } else if |patches| > 1 {
      var first := RoomOps.UpdateProperties(views, viewId, componentId, patches[0]);
      var tail := patches[1..];
      assert events[1..] == seq(|tail|, n requires 0 <= n < |tail| => ComponentProperties(viewId, componentId, tail[n]));
      PropertyStreamIsOneMerge(first, viewId, componentId, tail);
      RoomOps.UpdatePropertiesTwice(views, viewId, componentId, patches[0], UnionAll(tail));
      assert UnionAll(patches) == patches[0] + UnionAll(tail);
    }
  }
}
