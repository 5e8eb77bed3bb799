/**
 * The views panel (src/pages/room/sidebar/ViewsSidebar.tsx): inline renaming through the
 * panel's own `editingId`/`editName` state, the "+ Add View" button, and a remove button that
 * is never shown for the "main" view.
 */
module ViewsPanel {

  import opened Wrappers
  import opened Design
  import opened Text
  import RoomOps
  import Rooms

  /** Whether the "×" remove button is rendered for `v`. */
  predicate RemoveOffered(v: View) {
    v.id != "main"
  }

  /** Whether `handleSaveEdit` renames: `editingId && editName.trim()`, both truthy. */
  predicate SaveApplies(editingId: Option<string>, editName: string) {
    editingId.Some? && editingId.value != "" && !IsBlank(editName)
  }

  class ViewsSidebar {
    const store: Rooms.RoomStore
    var editingId: Option<string>
    var editName: string

    constructor(store: Rooms.RoomStore)
      ensures this.store == store && editingId.None? && editName == ""
    {
      this.store := store;
      editingId := None;
      editName := "";
    }

    /** `handleStartEdit`: edit this view, starting from its current name. */
    method StartEdit(view: View)
      modifies this
      ensures editingId == Some(view.id) && editName == view.name
    {
      editingId := Some(view.id);
      editName := view.name;
    }

    /** The input's `onChange`. */
    method TypeName(name: string)
      modifies this
      ensures editingId == old(editingId) && editName == name
    {
      editName := name;
    }

    /**
     * `handleSaveEdit` (on blur or Enter): rename to the trimmed name and close the editor, or,
     * with a blank name, stay in edit mode and change nothing.
     */
    method SaveEdit()
      modifies this, store
      ensures editName == old(editName)
      ensures SaveApplies(old(editingId), old(editName)) ==>
        && editingId.None?
        && store.State() == old(store.State()).(views := RoomOps.RenameView(old(store.views), old(editingId).value, Trim(old(editName))))
      ensures !SaveApplies(old(editingId), old(editName)) ==>
        editingId == old(editingId) && store.State() == old(store.State())
    {
      if editingId.Some? && editingId.value != "" && Trim(editName) != "" {
        store.UpdateViewName(editingId.value, Trim(editName));
        editingId := None;
      }
    }

    /** "+ Add View": `addView()` with no name, so the store names it after the view count. */
    method AddViewClicked(newId: string)
      modifies store
      ensures store.State() == old(store.State()).(views := RoomOps.AppendView(old(store.views), newId, None), activeViewId := Some(newId))
      ensures store.views[|old(store.views)|].name == "View " + RoomOps.Decimal(|old(store.views)| + 1)
    {
      store.AddView(None, newId);
    }

    /** The "×" button of a view it is rendered for; the "main" view, if present, stays. */
    method RemoveClicked(v: View)
      requires RemoveOffered(v)
      modifies store
      ensures store.State() == old(store.State()).(
        views := RoomOps.RemoveView(old(store.views), v.id),
        activeViewId := Rooms.ActiveAfterRemove(old(store.activeViewId), v.id),
        selectedComponentId := None)
      ensures forall i :: 0 <= i < |old(store.views)| && old(store.views)[i].id == "main" ==> old(store.views)[i] in store.views
    {
      store.RemoveView(v.id);
    }

    /** Clicking a view's name makes it the active view. */
    method SelectView(v: View)
      modifies store
      ensures store.State() == old(store.State()).(activeViewId := Some(v.id))
    {
      store.SetActiveView(v.id);
    }
  }

  /** No view the panel offers for removal is "main", so the panel never removes it. */
  lemma PanelNeverRemovesMain(views: seq<View>, v: View)
    requires RemoveOffered(v)
    ensures forall i :: 0 <= i < |views| && views[i].id == "main" ==> views[i] in RoomOps.RemoveView(views, v.id)
  {
  }
}
