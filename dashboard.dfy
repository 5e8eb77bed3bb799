/**
 * The dashboard (src/pages/dashboard/Dashboard.tsx): the rooms the server lists, split into the
 * user's own and those shared with the user, and the list updates after create, delete and rename.
 */
module DashboardPage {

  import opened Wrappers
  import opened JsValues
  import opened Text
  import opened Toasts
  import Seqs

  const LoadRoomsError: string := "No se pudieron cargar las salas"
  const Created: string := "Sala creada!"
  const CreateFailed: string := "No se pudo crear la sala"
  const DeleteFailed: string := "No se pudo eliminar la sala"
  const RenameFailed: string := "No se pudo actualizar la sala"

  /**
   * A room as the room service lists it: its `_id`, its name, and the loosely typed `owner` and
   * `collaborators` the filters inspect (a user object with `_id`, a bare id, or anything else).
   */
  datatype ListedRoom = ListedRoom(id: string, name: string, owner: Json, collaborators: Json)

  datatype Tab = MyRooms | SharedRooms

  /**
   * `===` between values read from two separate server responses: primitives compare by value,
   * and two distinct parsed objects are never the same reference.
   */
  predicate StrictEquals(a: Json, b: Json) {
    !a.Obj? && !a.Arr? && a == b
  }

  /**
   * The test the owner filter and each collaborator test apply to a reference `x`:
   * `typeof x === "object" ? x._id === userId : x === userId`. `None` when it throws, which
   * happens for `null`, whose `typeof` is also "object".
   */
  function RefersTo(x: Json, userId: Json): (r: Option<bool>)
    ensures r.None? <==> x.Null?
    ensures (x.Obj? || x.Arr?) ==> r == Some(StrictEquals(OptMember(x, "_id"), userId))
    ensures !(x.Obj? || x.Arr? || x.Null?) ==> r == Some(StrictEquals(x, userId))
  {
    if x.Null? then None
    else if x.Obj? || x.Arr? then Some(StrictEquals(OptMember(x, "_id"), userId))
    else Some(StrictEquals(x, userId))
  }

  /** Every item before index `i` is tested and does not match. */
  predicate NoMatchBefore(items: seq<Json>, userId: Json, i: int)
    requires i <= |items|
  {
    forall k :: 0 <= k < i ==> RefersTo(items[k], userId) == Some(false)
  }

  /** `collaborators.some(...)`: stops at the first match, and throws at a `null` met before one. */
  function AnyRefersTo(items: seq<Json>, userId: Json): (r: Option<bool>)
    ensures r == Some(false) <==> forall i :: 0 <= i < |items| ==> RefersTo(items[i], userId) == Some(false)
    ensures r == Some(true) ==> exists i :: 0 <= i < |items| && RefersTo(items[i], userId) == Some(true)
    ensures r.Some? && (exists i :: 0 <= i < |items| && RefersTo(items[i], userId) == Some(true)) ==> r == Some(true)
    ensures r.None? <==> exists i :: 0 <= i < |items| && items[i].Null? && NoMatchBefore(items, userId, i)
    ensures r == Some(true) <==> exists i :: 0 <= i < |items| && RefersTo(items[i], userId) == Some(true) && NoMatchBefore(items, userId, i)
  {
    if items == [] then Some(false)
    else
      var first := RefersTo(items[0], userId);
      if first != Some(false) then
        assert NoMatchBefore(items, userId, 0);
        first
      else
        var rest := AnyRefersTo(items[1..], userId);
        assert forall i :: 1 <= i < |items| ==> items[i] == items[1..][i - 1];
        assert forall i :: 1 <= i <= |items| ==>
          (NoMatchBefore(items, userId, i) <==> NoMatchBefore(items[1..], userId, i - 1));
        rest
  }

  /** The owner filter's test for one room. */
  function OwnedBy(room: ListedRoom, userId: Json): Option<bool> {
    RefersTo(room.owner, userId)
  }

  /** The shared filter's test for one room: a non-array `collaborators` never matches. */
  function SharedWith(room: ListedRoom, userId: Json): (r: Option<bool>)
    ensures !room.collaborators.Arr? ==> r == Some(false)
    ensures r.Some? ==> (r == Some(true) <==>
      room.collaborators.Arr? && exists i :: 0 <= i < |room.collaborators.items| && RefersTo(room.collaborators.items[i], userId) == Some(true))
    ensures r.None? <==> (room.collaborators.Arr? &&
      exists i :: 0 <= i < |room.collaborators.items| && room.collaborators.items[i].Null? &&
                  NoMatchBefore(room.collaborators.items, userId, i))
  {
    if room.collaborators.Arr? then AnyRefersTo(room.collaborators.items, userId) else Some(false)
  }

  /** Whether either filter throws on some room, which sends `loadRooms` to its catch block. */
  predicate FiltersThrow(rooms: seq<ListedRoom>, userId: Json) {
    exists i :: 0 <= i < |rooms| && (OwnedBy(rooms[i], userId).None? || SharedWith(rooms[i], userId).None?)
  }

  /**
   * `userRooms` and `shared`, or `None` when a filter throws. The first list holds exactly the
   * rooms the user owns and the second exactly the rooms listing the user as a collaborator.
   */
  function Partition(rooms: seq<ListedRoom>, userId: Json): (r: Option<(seq<ListedRoom>, seq<ListedRoom>)>)
    ensures r.None? <==> FiltersThrow(rooms, userId)
    ensures r.Some? ==> forall room :: room in r.value.0 <==> room in rooms && OwnedBy(room, userId) == Some(true)
    ensures r.Some? ==> forall room :: room in r.value.1 <==> room in rooms && SharedWith(room, userId) == Some(true)
    ensures r.Some? ==> Seqs.KeepsInOrder(r.value.0, rooms, (room: ListedRoom) => OwnedBy(room, userId) == Some(true))
    ensures r.Some? ==> Seqs.KeepsInOrder(r.value.1, rooms, (room: ListedRoom) => SharedWith(room, userId) == Some(true))
  {
    if FiltersThrow(rooms, userId) then None
    else
      var owns := (room: ListedRoom) => OwnedBy(room, userId) == Some(true);
      var shares := (room: ListedRoom) => SharedWith(room, userId) == Some(true);
      Seqs.FilterInOrder(owns);
      Seqs.FilterInOrder(shares);
      var owned := Seqs.Filter(rooms, owns);
      var shared := Seqs.Filter(rooms, shares);
      Some((owned, shared))
  }

  /** `myRooms.find(r => r._id === roomId)`. */
  function FindRoom(rooms: seq<ListedRoom>, id: string): (r: Option<ListedRoom>)
    ensures r.None? <==> forall i :: 0 <= i < |rooms| ==> rooms[i].id != id
    ensures r.Some? ==>
      exists i :: 0 <= i < |rooms| && rooms[i] == r.value && r.value.id == id && forall k :: 0 <= k < i ==> rooms[k].id != id
  {
    if rooms == [] then None
    else if rooms[0].id == id then Some(rooms[0])
    else
      var rest := FindRoom(rooms[1..], id);
      assert forall i :: 1 <= i < |rooms| ==> rooms[i] == rooms[1..][i - 1];
      if rest.Some? then
        var i :| 0 <= i < |rooms[1..]| && rooms[1..][i] == rest.value && rest.value.id == id
          && forall k :: 0 <= k < i ==> rooms[1..][k].id != id;
        assert rooms[i + 1] == rest.value && forall k :: 0 <= k < i + 1 ==> rooms[k].id != id;
        rest
      else rest
  }

  /** The guard of `handleEditRoom`: a listed room, a name that is not blank, and a change. */
  predicate EditAllowed(rooms: seq<ListedRoom>, id: string, newName: string) {
    FindRoom(rooms, id).Some? && !IsBlank(newName) && newName != FindRoom(rooms, id).value.name
  }

  /** `myRooms.map(r => r._id === roomId ? updatedRoom : r)`. */
  function ReplaceRoom(rooms: seq<ListedRoom>, id: string, updated: ListedRoom): (r: seq<ListedRoom>)
    ensures |r| == |rooms|
    ensures forall i :: 0 <= i < |rooms| && rooms[i].id != id ==> r[i] == rooms[i]
    ensures forall i :: 0 <= i < |rooms| && rooms[i].id == id ==> r[i] == updated
  {
    seq(|rooms|, i requires 0 <= i < |rooms| => if rooms[i].id == id then updated else rooms[i])
  }

  /** `myRooms.filter(r => r._id !== roomId)`. */
  function WithoutRoom(rooms: seq<ListedRoom>, id: string): (r: seq<ListedRoom>)
    ensures FindRoom(r, id).None?
    ensures forall room :: room in r <==> room in rooms && room.id != id
    ensures Seqs.KeepsInOrder(r, rooms, (room: ListedRoom) => room.id != id)
  {
    var keep := (room: ListedRoom) => room.id != id;
    Seqs.FilterInOrder(keep);
    Seqs.Filter(rooms, keep)
  }

  /** After a rename that keeps the id, looking the room up finds the server's updated room. */
  lemma {:induction false} ReplacedRoomIsFound(rooms: seq<ListedRoom>, id: string, updated: ListedRoom)
    requires FindRoom(rooms, id).Some? && updated.id == id
    ensures FindRoom(ReplaceRoom(rooms, id, updated), id) == Some(updated)
  {
    var r := ReplaceRoom(rooms, id, updated);
    var i :| 0 <= i < |rooms| && rooms[i] == FindRoom(rooms, id).value && rooms[i].id == id
      && forall k :: 0 <= k < i ==> rooms[k].id != id;
    FirstMatchIsFound(r, id, i);
  }

  lemma {:induction false} FirstMatchIsFound(rooms: seq<ListedRoom>, id: string, i: nat)
    requires i < |rooms| && rooms[i].id == id && forall k :: 0 <= k < i ==> rooms[k].id != id
    ensures FindRoom(rooms, id) == Some(rooms[i])
    decreases i
  {
    if i > 0 {
      assert forall k :: 0 <= k < i - 1 ==> rooms[1..][k] == rooms[k + 1];
      FirstMatchIsFound(rooms[1..], id, i - 1);
    }
  }

  /** Deleting a room just created takes the list back to what it was before, minus that id. */
  lemma DeleteUndoesCreate(rooms: seq<ListedRoom>, created: ListedRoom)
    ensures WithoutRoom(rooms + [created], created.id) == WithoutRoom(rooms, created.id)
  {
    Seqs.FilterAppendRejected(rooms, created, (room: ListedRoom) => room.id != created.id);
  }

  class Dashboard {
    var tab: Tab
    var myRooms: seq<ListedRoom>
    var sharedRooms: seq<ListedRoom>
    var isLoading: bool
    var error: string

    constructor()
      ensures tab == MyRooms && myRooms == [] && sharedRooms == [] && isLoading && error == ""
    {
      tab := MyRooms;
      myRooms := [];
      sharedRooms := [];
      isLoading := true;
      error := "";
    }

    /** `roomsToShow`. */
    function RoomsToShow(): (r: seq<ListedRoom>)
      reads this
      ensures tab == MyRooms ==> r == myRooms
      ensures tab == SharedRooms ==> r == sharedRooms
    {
      if tab == MyRooms then myRooms else sharedRooms
    }

    /**
     * The rooms effect: it runs only once `user` is truthy; `server` is `getRooms()`'s outcome.
     * Both lists are replaced together, or neither when the request or a filter throws.
     */
    method LoadRooms(user: Json, server: Result<seq<ListedRoom>, ()>)
      modifies this
      ensures tab == old(tab)
      ensures !Truthy(user) ==>
        myRooms == old(myRooms) && sharedRooms == old(sharedRooms) && isLoading == old(isLoading) && error == old(error)
      ensures Truthy(user) ==> !isLoading
      ensures Truthy(user) && server.Success? && Partition(server.value, OptMember(user, "id")).Some? ==>
        var parts := Partition(server.value, OptMember(user, "id")).value;
        myRooms == parts.0 && sharedRooms == parts.1 && error == old(error)
      ensures Truthy(user) && !(server.Success? && Partition(server.value, OptMember(user, "id")).Some?) ==>
        myRooms == old(myRooms) && sharedRooms == old(sharedRooms) && error == LoadRoomsError
    {
      if !Truthy(user) {
        return;
      }
      isLoading := true;
      var parts := if server.Success? then Partition(server.value, OptMember(user, "id")) else None;
      if parts.Some? {
        myRooms := parts.value.0;
        sharedRooms := parts.value.1;
      } else {
        error := LoadRoomsError;
      }
      isLoading := false;
    }

    /** `handleCreateRoom`: the created room is appended and opened; `server` is `createRoom()`'s outcome. */
    method CreateRoom(server: Result<ListedRoom, ()>) returns (toast: Toast, navigateTo: Option<string>)
      modifies this
      ensures tab == old(tab) && sharedRooms == old(sharedRooms) && isLoading == old(isLoading) && error == old(error)
      ensures server.Success? ==>
        myRooms == old(myRooms) + [server.value] && toast == Toast(Created, SuccessToast)
        && navigateTo == Some("/room/" + server.value.id)
      ensures server.Failure? ==> myRooms == old(myRooms) && toast == Toast(CreateFailed, ErrorToast) && navigateTo.None?
    {
      if server.Failure? {
        return Toast(CreateFailed, ErrorToast), None;
      }
      myRooms := myRooms + [server.value];
      toast := Toast(Created, SuccessToast);
      navigateTo := Some("/room/" + server.value.id);
    }

    /** `handleDeleteRoom`: every room with that id leaves the list once the server agrees. */
    method DeleteRoom(roomId: string, server: Result<(), ()>) returns (toast: Option<Toast>)
      modifies this
      ensures tab == old(tab) && sharedRooms == old(sharedRooms) && isLoading == old(isLoading) && error == old(error)
      ensures server.Success? ==> myRooms == WithoutRoom(old(myRooms), roomId) && toast.None?
      ensures server.Failure? ==> myRooms == old(myRooms) && toast == Some(Toast(DeleteFailed, ErrorToast))
    {
      if server.Failure? {
        return Some(Toast(DeleteFailed, ErrorToast));
      }
      myRooms := WithoutRoom(myRooms, roomId);
      toast := None;
    }

    /**
     * `handleEditRoom`: nothing is sent unless the guard holds; `server` is `updateRoom()`'s
     * outcome, the updated room on success.
     */
    method EditRoom(roomId: string, newName: string, server: Result<ListedRoom, ()>) returns (requested: bool, alert: Option<string>)
      modifies this
      ensures tab == old(tab) && sharedRooms == old(sharedRooms) && isLoading == old(isLoading) && error == old(error)
      ensures requested <==> EditAllowed(old(myRooms), roomId, newName)
      ensures !requested ==> myRooms == old(myRooms) && alert.None?
      ensures requested && server.Success? ==> myRooms == ReplaceRoom(old(myRooms), roomId, server.value) && alert.None?
      ensures requested && server.Failure? ==> myRooms == old(myRooms) && alert == Some(RenameFailed)
    {
      var room := FindRoom(myRooms, roomId);
      if room.None? || Trim(newName) == "" || newName == room.value.name {
        return false, None;
      }
      requested := true;
      if server.Failure? {
        return requested, Some(RenameFailed);
      }
      myRooms := ReplaceRoom(myRooms, roomId, server.value);
      alert := None;
    }
  }
}
