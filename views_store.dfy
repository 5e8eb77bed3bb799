/**
 * The older views store (src/pages/room/store/useViewsStore.ts): the same views-of-components
 * document with the same "main" fallback, an always-present active view id, and no sync.
 */
module ViewsStores {

  import opened Wrappers
  import opened Design
  import RoomOps

  class ViewsStore {
    var views: seq<View>
    var activeViewId: string

    constructor()
      ensures views == [View("main", "Main View", None, [])] && activeViewId == "main"
    {
      views := [View("main", "Main View", None, [])];
      activeViewId := "main";
    }

    method SetActiveView(id: string)
      modifies this
      ensures views == old(views) && activeViewId == id
    {
      activeViewId := id;
    }

    /** `addView`: an empty view named "View " + its id, made active; `newId` stands for `view-${Date.now()}`. */
    method AddView(newId: string)
      modifies this
      ensures |views| == |old(views)| + 1 && views[..|old(views)|] == old(views)
      ensures views[|old(views)|] == View(newId, "View " + newId, None, [])
      ensures activeViewId == newId
    {
      views := views + [View(newId, "View " + newId, None, [])];
      activeViewId := newId;
    }

    /** `removeView`: "main" becomes active only if the removed view was the active one. */
    method RemoveView(id: string)
      modifies this
      ensures views == RoomOps.RemoveView(old(views), id)
      ensures activeViewId == if old(activeViewId) == id then "main" else old(activeViewId)
    {
      views := RoomOps.RemoveView(views, id);
      if activeViewId == id {
        activeViewId := "main";
      }
    }

    method AddComponent(viewId: string, component: Component)
      modifies this
      ensures views == RoomOps.AddComponent(old(views), viewId, component)
      ensures activeViewId == old(activeViewId)
    {
      views := RoomOps.AddComponent(views, viewId, component);
    }

    method UpdateComponentPosition(viewId: string, componentId: string, x: real, y: real)
      modifies this
      ensures views == RoomOps.MoveComponent(old(views), viewId, componentId, Position(x, y))
      ensures activeViewId == old(activeViewId)
    {
      views := RoomOps.MoveComponent(views, viewId, componentId, Position(x, y));
    }
  }
}
