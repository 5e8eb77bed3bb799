/**
 * The room store (src/features/rooms/store/useRoomStore.ts): one document of views and
 * components, the editor's selection, the bound room and its cache. Every action replaces its
 * fields with a value computed by the pure transforms of `RoomOps`; the socket sends of the
 * syncing actions are appended to `log`. Server calls are parameters of `LoadRoom`/`SaveRoom`.
 */
module Rooms {

  import opened Wrappers
  import opened Design
  import opened Sync
  import RoomOps

  const LoadError: string := "Error al cargar la sala"
  const SaveError: string := "Error al guardar la sala"

  /** Every field of the store, so a method can state its whole new state in one equation. */
  datatype StoreState = StoreState(
    views: seq<View>,
    activeViewId: Option<string>,
    selectedComponentId: Option<string>,
    room: Option<Room>,
    roomId: Option<string>,
    roomName: Option<string>,
    isLoading: bool,
    error: Option<string>,
    roomCache: map<string, ServerRoom>,
    log: seq<Msg>)

  /** One view "main" named "Main View", active; nothing selected, no room, empty cache. */
  function Initial(): StoreState {
    StoreState([View("main", "Main View", None, [])], Some("main"), None, None, None, None, false, None, map[], [])
  }

  /** What `loadRoom` sets once it holds room `r`, from the cache or from the server. */
  function Entered(s: StoreState, r: ServerRoom): StoreState {
    s.(roomId := Some(r.oid), roomName := Some(r.name), views := r.views,
       activeViewId := FirstViewId(r.views), selectedComponentId := None,
       isLoading := false, error := None, room := Some(Room(Some(r.oid), r.oid, r.name, r.views)))
  }

  /**
   * What `setRoom(r)` leaves: the room itself; its views when there is a room; its first view
   * id when that is truthy, the old active view otherwise. Nothing else changes.
   */
  function AfterSetRoom(s: StoreState, r: Option<Room>): StoreState {
    s.(room := r,
       views := if r.Some? then r.value.views else s.views,
       activeViewId := if r.Some? && FirstViewId(r.value.views).Some? then FirstViewId(r.value.views) else s.activeViewId)
  }

  /** `state.activeViewId === id ? "main" : state.activeViewId`. */
  function ActiveAfterRemove(active: Option<string>, id: string): (r: Option<string>)
    ensures active == Some(id) ==> r == Some("main")
    ensures active != Some(id) ==> r == active
  {
    if active == Some(id) then Some("main") else active
  }

  /** The body `saveRoom` sends to the server: the room's name (possibly absent) and its views. */
  datatype SaveRequest = SaveRequest(roomId: string, name: Option<string>, views: seq<View>)

  class RoomStore {
    var views: seq<View>
    var activeViewId: Option<string>
    var selectedComponentId: Option<string>
    var room: Option<Room>
    var roomId: Option<string>
    var roomName: Option<string>
    var isLoading: bool
    var error: Option<string>
    var roomCache: map<string, ServerRoom>
    /** The socket messages sent so far, oldest first. */
    var log: seq<Msg>

    function State(): StoreState
      reads this
    {
      StoreState(views, activeViewId, selectedComponentId, room, roomId, roomName, isLoading, error, roomCache, log)
    }

    constructor()
      ensures State() == Initial()
    {
      views := [View("main", "Main View", None, [])];
      activeViewId := Some("main");
      selectedComponentId := None;
      room := None;
      roomId := None;
      roomName := None;
      isLoading := false;
      error := None;
      roomCache := map[];
      log := [];
    }

    /** `setRoom`: takes the room's views when there is a room, and its first view id when that is truthy. */
    method SetRoom(r: Option<Room>)
      modifies this
      ensures State() == AfterSetRoom(old(State()), r)
    {
      room := r;
      if r.Some? {
        views := r.value.views;
        var first := FirstViewId(r.value.views);
        if first.Some? {
          activeViewId := first;
        }
      }
    }

    method SetViews(vs: seq<View>)
      modifies this
      ensures State() == old(State()).(views := vs)
    {
      views := vs;
    }

    method SetActiveViewId(id: Option<string>)
      modifies this
      ensures State() == old(State()).(activeViewId := id)
    {
      activeViewId := id;
    }

    method SetActiveView(id: string)
      modifies this
      ensures State() == old(State()).(activeViewId := Some(id))
    {
      activeViewId := Some(id);
    }

    method SetSelectedComponent(id: Option<string>)
      modifies this
      ensures State() == old(State()).(selectedComponentId := id)
    {
      selectedComponentId := id;
    }

    /** `addView`; `newId` stands for the `view-${Date.now()}` id, which is not checked for collisions. */
    method AddView(name: Option<string>, newId: string)
      modifies this
      ensures State() == old(State()).(views := RoomOps.AppendView(old(views), newId, name), activeViewId := Some(newId))
    {
      views := RoomOps.AppendView(views, newId, name);
      activeViewId := Some(newId);
    }

    /** `removeView`: the selection is always cleared; "main" becomes active only if `id` was. */
    method RemoveView(id: string)
      modifies this
      ensures State() == old(State()).(
        views := RoomOps.RemoveView(old(views), id),
        activeViewId := ActiveAfterRemove(old(activeViewId), id),
        selectedComponentId := None)
    {
      views := RoomOps.RemoveView(views, id);
      activeViewId := ActiveAfterRemove(activeViewId, id);
      selectedComponentId := None;
    }

    method UpdateViewName(id: string, name: string)
      modifies this
      ensures State() == old(State()).(views := RoomOps.RenameView(old(views), id, name))
    {
      views := RoomOps.RenameView(views, id, name);
    }

    method UpdateViewBackground(viewId: string, backgroundColor: string)
      modifies this
      ensures State() == old(State()).(
        views := RoomOps.SetBackground(old(views), viewId, backgroundColor),
        log := old(log) + Outbox(old(roomId), ViewBackground(viewId, backgroundColor)))
    {
      views := RoomOps.SetBackground(views, viewId, backgroundColor);
      log := log + Outbox(roomId, ViewBackground(viewId, backgroundColor));
    }

    /** `addComponent`: the new component is selected even when no view `viewId` exists. */
    method AddComponent(viewId: string, component: Component)
      modifies this
      ensures State() == old(State()).(
        views := RoomOps.AddComponent(old(views), viewId, component),
        selectedComponentId := Some(component.id),
        log := old(log) + Outbox(old(roomId), ComponentAdd(viewId, component)))
    {
      views := RoomOps.AddComponent(views, viewId, component);
      selectedComponentId := Some(component.id);
      log := log + Outbox(roomId, ComponentAdd(viewId, component));
    }

    /** `removeComponent`: the selection is cleared iff it was the removed id. */
    method RemoveComponent(viewId: string, componentId: string)
      modifies this
      ensures State() == old(State()).(
        views := RoomOps.RemoveComponent(old(views), viewId, componentId),
        selectedComponentId := if old(selectedComponentId) == Some(componentId) then None else old(selectedComponentId),
        log := old(log) + Outbox(old(roomId), ComponentRemove(viewId, componentId)))
    {
      views := RoomOps.RemoveComponent(views, viewId, componentId);
      if selectedComponentId == Some(componentId) {
        selectedComponentId := None;
      }
      log := log + Outbox(roomId, ComponentRemove(viewId, componentId));
    }

    method UpdateComponent(viewId: string, componentId: string, updates: ComponentPatch)
      modifies this
      ensures State() == old(State()).(
        views := RoomOps.UpdateComponent(old(views), viewId, componentId, updates),
        log := old(log) + Outbox(old(roomId), ComponentUpdate(viewId, componentId, updates)))
    {
      views := RoomOps.UpdateComponent(views, viewId, componentId, updates);
      log := log + Outbox(roomId, ComponentUpdate(viewId, componentId, updates));
    }

    method UpdateComponentPosition(viewId: string, componentId: string, position: Position)
      modifies this
      ensures State() == old(State()).(
        views := RoomOps.MoveComponent(old(views), viewId, componentId, position),
        log := old(log) + Outbox(old(roomId), ComponentPosition(viewId, componentId, position)))
    {
      views := RoomOps.MoveComponent(views, viewId, componentId, position);
      log := log + Outbox(roomId, ComponentPosition(viewId, componentId, position));
    }

    method UpdateComponentProperties(viewId: string, componentId: string, properties: Properties)
      modifies this
      ensures State() == old(State()).(
        views := RoomOps.UpdateProperties(old(views), viewId, componentId, properties),
        log := old(log) + Outbox(old(roomId), ComponentProperties(viewId, componentId, properties)))
    {
      views := RoomOps.UpdateProperties(views, viewId, componentId, properties);
      log := log + Outbox(roomId, ComponentProperties(viewId, componentId, properties));
    }

    /** `updateComponentSize`: the one component action that sends nothing. */
    method UpdateComponentSize(viewId: string, componentId: string, width: real, height: real)
      modifies this
      ensures State() == old(State()).(views := RoomOps.ResizeComponent(old(views), viewId, componentId, width, height))
    {
      views := RoomOps.ResizeComponent(views, viewId, componentId, width, height);
    }

    /**
     * `loadRoom(id)`: a cached room is entered without a request and the cache is unchanged;
     * otherwise `server` is the outcome of the request (a failure is the request throwing) and a
     * room it returns is entered and cached under `id`, keeping every other entry.
     */
    method LoadRoom(id: string, server: Result<ServerRoom, ()>) returns (requested: bool)
      modifies this
      ensures requested <==> id !in old(roomCache)
      ensures id in old(roomCache) ==> State() == Entered(old(State()), old(roomCache)[id])
      ensures id !in old(roomCache) && server.Success? ==>
        State() == Entered(old(State()), server.value).(roomCache := old(roomCache)[id := server.value])
      ensures id !in old(roomCache) && server.Failure? ==>
        State() == old(State()).(isLoading := false, error := Some(LoadError))
    {
      isLoading := true;
      error := None;
      if id in roomCache {
        requested := false;
        Enter(roomCache[id]);
      } else {
        requested := true;
        if server.Success? {
          Enter(server.value);
          roomCache := roomCache[id := server.value];
        } else {
          isLoading := false;
          error := Some(LoadError);
        }
      }
    }

    /** The sets `loadRoom` makes once it holds room `r`. */
    method Enter(r: ServerRoom)
      modifies this
      ensures State() == Entered(old(State()), r)
    {
      roomId := Some(r.oid);
      roomName := Some(r.name);
      views := r.views;
      activeViewId := FirstViewId(r.views);
      selectedComponentId := None;
      isLoading := false;
      error := None;
      room := Some(Room(Some(r.oid), r.oid, r.name, r.views));
    }

    /**
     * `saveRoom`: nothing at all without a bound room id; otherwise the request it sends, and
     * `server` is its outcome — a returned room overwrites only that cache entry, a failure sets
     * the error.
     */
    method SaveRoom(server: Result<ServerRoom, ()>) returns (request: Option<SaveRequest>)
      modifies this
      ensures !IsBound(old(roomId)) ==> request == None && State() == old(State())
      ensures IsBound(old(roomId)) ==> request == Some(SaveRequest(old(roomId).value, old(roomName), old(views)))
      ensures IsBound(old(roomId)) && server.Success? ==>
        State() == old(State()).(roomCache := old(roomCache)[old(roomId).value := server.value])
      ensures IsBound(old(roomId)) && server.Failure? ==> State() == old(State()).(error := Some(SaveError))
    {
      if !IsBound(roomId) {
        return None;
      }
      var id := roomId.value;
      request := Some(SaveRequest(id, roomName, views));
      if server.Success? {
        roomCache := roomCache[id := server.value];
      } else {
        error := Some(SaveError);
      }
    }

    /**
     * A socket event arriving: the listener calls the same action the sender ran, which sends
     * the event again whenever this store has a bound room id.
     */
    method Receive(m: Msg)
      modifies this
      ensures State() == old(State()).(
        views := ApplyToViews(old(views), m.event),
        selectedComponentId := SelectionAfter(old(selectedComponentId), m.event),
        log := old(log) + Outbox(old(roomId), m.event))
    {
      match m.event
      case ComponentUpdate(v, c, u) => UpdateComponent(v, c, u);
      case ComponentPosition(v, c, p) => UpdateComponentPosition(v, c, p);
      case ComponentProperties(v, c, p) => UpdateComponentProperties(v, c, p);
      case ViewBackground(v, color) => UpdateViewBackground(v, color);
      case ComponentAdd(v, c) => AddComponent(v, c);
      case ComponentRemove(v, c) => RemoveComponent(v, c);
    }
  }

  /**
   * The echo: two clients that loaded the same room; a move on the first is sent, delivered to
   * the second, and the second sends the very same message back.
   */
  method EchoScenario(room: ServerRoom, viewId: string, componentId: string, position: Position)
    returns (sentByFirst: seq<Msg>, sentBySecond: seq<Msg>)
    requires room.oid != ""
    ensures sentByFirst == [Msg(room.oid, ComponentPosition(viewId, componentId, position))]
    ensures sentBySecond == sentByFirst
  {
    var first := new RoomStore();
    var second := new RoomStore();
    var _ := first.LoadRoom(room.oid, Success(room));
    var _ := second.LoadRoom(room.oid, Success(room));
    first.UpdateComponentPosition(viewId, componentId, position);
    sentByFirst := first.log;
    second.Receive(sentByFirst[0]);
    sentBySecond := second.log;
  }

  /** Removing the active "main" view leaves `activeViewId` naming a view that no longer exists. */
  lemma RemovingActiveMainDangles(views: seq<View>)
    ensures ActiveAfterRemove(Some("main"), "main") == Some("main")
    ensures !HasView(RoomOps.RemoveView(views, "main"), "main")
  {
  }
}
