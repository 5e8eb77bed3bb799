# Flutter UI designer — a verified model of its editing core

The system is a browser-based, collaborative designer for mobile screens. A user owns rooms. A
room holds an ordered list of views (screens), and each view holds an ordered list of positioned
components (buttons, texts, lists …) with free-form properties. The core modelled here:

- the room store: views, the active view, the selected component, the bound room, the cache of
  loaded rooms, and the socket messages every syncing action sends;
- the inbound-event table that applies other clients' messages to the same store actions;
- the older views store;
- the canvas arithmetic: clamping, grid snap, bounds test, centring, and the drop and hover
  handlers with their drag-start record;
- the design file exporter, the Flutter exporter and the importer's checks and normaliser, and
  what an export followed by an import yields;
- the code-fence stripper, and the loaders that feed generated text to the importer;
- the sign-up and profile forms: the address pattern, the ordered checks, the update body and
  the error messages;
- the dashboard's split of rooms into owned and shared, and its list updates;
- the views panel: renaming, adding, and the remove button that is never shown for "main".

Numbers are mathematical reals. JavaScript values that the code reads loosely (`any`, parsed
JSON, server errors) are the `JsValues.Json` datatype, with JavaScript truthiness, `a?.b`, `a.b`
(which throws on `null`/`undefined`), and `JSON.stringify` followed by `JSON.parse` written out.
Server calls, the socket, the clock and `JSON.parse` are parameters: a method receives the
outcome of each request it makes (a `Result`), ids and timestamps as strings, and `JSON.parse` as
a function that returns `None` where it would throw.

Where the code and the system's written specification differ, the model follows the code:

- An inbound socket event calls the same store action a local edit calls, and that action sends
  again whenever a room is bound. The code has no replay tag. `Rooms.EchoScenario` shows a
  `component_position` that one client sends being sent again, unchanged, by the client that
  receives it. The specification requires that received messages are never re-sent.
- `setRoom` keeps the old active view when the new room has no views, and it never clears the
  selection. The specification says the active view is reset.
- `constrainPosition(500, 500, 100, 50, 375, 667)` is `{x: 275, y: 500}`, because 500 already
  lies in `[0, 617]`. The specification's example gives `{275, 617}`.
- Exporting then importing is not the identity, although the specification states that
  round-trip law. Export does not write view backgrounds, so they are lost. Import adds the
  normalised property keys. It rejects the whole document if any component lacks a numeric width or height. What holds is
  `RoundTrip.ExportThenImport`, and `RoundTrip.ExportImportStable`: after one round trip, a
  second one changes nothing.

## Model

| member | source | states |
|---|---|---|
| Seqs.Filter | src/features/rooms/store/useRoomStore.ts:74-79 | `Array.prototype.filter`: only elements of the input, each passing the test, and every passing element kept |
| Seqs.PositionsPass | src/features/rooms/store/useRoomStore.ts:74-79 | every index `filter` keeps is one whose element passes the test |
| Seqs.PositionsIncrease | src/features/rooms/store/useRoomStore.ts:74-79 | the kept indices are strictly increasing, so each is kept once and order is preserved |
| Seqs.PositionsCover | src/features/rooms/store/useRoomStore.ts:74-79 | every index whose element passes the test is kept |
| Seqs.FilterInOrder | src/features/rooms/store/useRoomStore.ts:74-79 | `filter` keeps the passing elements in their original order, one per passing index, so nothing is reordered or duplicated |
| Text.Trim | src/components/GenerateFromPromptButton.tsx:13 | `trim()`: the result has no leading or trailing ECMAScript whitespace, is empty exactly when the input is all whitespace, and leaves a trimmed string unchanged |
| JsValues.ReparsedIsDefined | src/utils/exportDesign.ts:27-28 | a stringified and re-parsed value contains no `undefined` anywhere |
| JsValues.ReparsedDefinedIsIdentity | src/utils/exportDesign.ts:27-28 | stringify-then-parse returns a value without `undefined` unchanged |
| Design.FirstViewId | src/features/rooms/store/useRoomStore.ts:44 | `views[0]?.id \|\| null`: present exactly when there is a first view with a non-empty id |
| RoomOps.MapComponentChangesOnlyTarget | src/features/rooms/store/useRoomStore.ts:139-152 | editing component `componentId` of view `viewId` changes nothing else: no other view, no other component, no view header, no length, no order |
| RoomOps.AddComponent | src/features/rooms/store/useRoomStore.ts:101-110 | the component is appended at the end of every view `viewId`, other views and existing components are unchanged, and an absent view leaves the views unchanged |
| RoomOps.RemoveComponent | src/features/rooms/store/useRoomStore.ts:117-132 | every component with that id leaves view `viewId` only, the other components stay in their order, the other views are untouched, and an absent component leaves the views unchanged |
| RoomOps.RemoveAbsentComponent | src/features/rooms/store/useRoomStore.ts:117-132 | removing an id no component of the view carries is the identity |
| RoomOps.RemoveUndoesAdd | src/features/rooms/store/useRoomStore.ts:101-132 | removing a component just added under a fresh id restores the views |
| RoomOps.Patched | src/features/rooms/store/useRoomStore.ts:139-152 | `{...comp, ...updates}`: each field the patch names is overwritten, each other field kept |
| RoomOps.PatchedTwice | src/features/rooms/store/useRoomStore.ts:139-152 | two shallow merges are one merge of the combined patch, the later one winning |
| RoomOps.UpdateComponent | src/features/rooms/store/useRoomStore.ts:139-152 | only the target component changes, to its patched value, and no position or size is clamped |
| RoomOps.MoveComponent | src/features/rooms/store/useRoomStore.ts:159-174 | the target gets exactly the given `x`, `y`, with nothing else changed and no clamping |
| RoomOps.MoveTwice | src/features/rooms/store/useRoomStore.ts:159-174 | moving twice leaves the target at the second position |
| RoomOps.MergeProperties | src/features/rooms/store/useRoomStore.ts:181-199 | patch keys overwrite, keys missing from the patch keep their old values, and a component without properties gets exactly the patch |
| RoomOps.UpdateProperties | src/features/rooms/store/useRoomStore.ts:181-199 | only the target's properties change, to the shallow merge, and an absent target leaves the views unchanged |
| RoomOps.UpdatePropertiesTwice | src/features/rooms/store/useRoomStore.ts:181-199 | two property updates of one component are one update with the union of the patches |
| RoomOps.ResizeComponent | src/features/rooms/store/useRoomStore.ts:206-218 | only the target's width and height change, and nothing is clamped |
| RoomOps.RenameView | src/features/rooms/store/useRoomStore.ts:81-86 | every view with that id gets the new name, the others are unchanged, and the length is kept |
| RoomOps.SetBackground | src/features/rooms/store/useRoomStore.ts:88-95 | every view with that id gets the colour, and the others are unchanged |
| RoomOps.RemoveView | src/features/rooms/store/useRoomStore.ts:74-79 | no view with that id remains, every other view stays in its order, and an absent id changes nothing |
| RoomOps.AppendView | src/features/rooms/store/useRoomStore.ts:59-72 | one empty view is appended after the existing ones |
| RoomOps.DefaultedViewName | src/features/rooms/store/useRoomStore.ts:59-66 | `name \|\| \`View ${views.length + 1}\`` |
| RoomOps.RemoveUndoesAppend | src/features/rooms/store/useRoomStore.ts:59-79 | removing a view just appended under a fresh id restores the views |
| RoomOps.Decimal | src/features/rooms/store/useRoomStore.ts:61 | the decimal numeral of a natural number: non-empty, digits only, no leading zero, and its digits read back as the number |
| Sync.Outbox | src/services/socketService.ts:49-109 | one message for the bound room when a room id is bound, and none otherwise |
| Sync.ApplyToViews | src/hooks/useSocketEvents.ts:24-46 | each inbound event applies the store action of the same name with its own payload |
| Sync.SelectionAfter | src/features/rooms/store/useRoomStore.ts:101-132 | an inbound add selects the added component, an inbound remove of the selected component clears the selection, and other events keep it |
| Sync.UnionAll | src/features/rooms/store/useRoomStore.ts:181-199 | a key is in the union of the patches exactly when some patch has it, and it holds the value of the last patch that sets it |
| Sync.PropertyStreamIsOneMerge | src/hooks/useSocketEvents.ts:32-34 | a stream of property events for one component has the effect of one merge of their union, the last writer winning per key |
| Rooms.ActiveAfterRemove | src/features/rooms/store/useRoomStore.ts:74-79 | "main" becomes active exactly when the removed view was active |
| Rooms.RoomStore.constructor | src/features/rooms/store/useRoomStore.ts:31-38 | one view "main", which is active; nothing selected; no room; an empty cache; nothing sent |
| Rooms.RoomStore.SetRoom | src/features/rooms/store/useRoomStore.ts:40-45 | takes the room's views when there is a room, and its first view id when that is truthy; the rest of the state is kept |
| Rooms.RoomStore.SetViews | src/features/rooms/store/useRoomStore.ts:47 | replaces the views only |
| Rooms.RoomStore.SetActiveViewId | src/features/rooms/store/useRoomStore.ts:49-53 | replaces the active view only, so the selection is kept |
| Rooms.RoomStore.SetActiveView | src/features/rooms/store/useRoomStore.ts:55 | replaces the active view only, and sends nothing |
| Rooms.RoomStore.SetSelectedComponent | src/features/rooms/store/useRoomStore.ts:57 | replaces the selection only, and sends nothing |
| Rooms.RoomStore.AddView | src/features/rooms/store/useRoomStore.ts:59-72 | appends the (default-named) empty view, makes it active, and sends nothing |
| Rooms.RoomStore.RemoveView | src/features/rooms/store/useRoomStore.ts:74-79 | removes the view, always clears the selection, falls back to "main" only if the removed view was active, and sends nothing |
| Rooms.RoomStore.UpdateViewName | src/features/rooms/store/useRoomStore.ts:81-86 | renames, and sends nothing |
| Rooms.RoomStore.UpdateViewBackground | src/features/rooms/store/useRoomStore.ts:88-99 | sets the background, and sends one `view_background` message iff a room is bound |
| Rooms.RoomStore.AddComponent | src/features/rooms/store/useRoomStore.ts:101-115 | appends, selects the component even when no view matches, and sends one `component_add` iff bound |
| Rooms.RoomStore.RemoveComponent | src/features/rooms/store/useRoomStore.ts:117-137 | removes, clears the selection iff it was that component, and sends one `component_remove` iff bound |
| Rooms.RoomStore.UpdateComponent | src/features/rooms/store/useRoomStore.ts:139-157 | merges the patch, and sends one `component_update` iff bound |
| Rooms.RoomStore.UpdateComponentPosition | src/features/rooms/store/useRoomStore.ts:159-179 | stores the position unclamped, and sends one `component_position` iff bound |
| Rooms.RoomStore.UpdateComponentProperties | src/features/rooms/store/useRoomStore.ts:181-204 | merges the properties, and sends one `component_properties` iff bound |
| Rooms.RoomStore.UpdateComponentSize | src/features/rooms/store/useRoomStore.ts:206-218 | stores the size unclamped, and sends nothing |
| Rooms.RoomStore.LoadRoom | src/features/rooms/store/useRoomStore.ts:221-272 | a cached room is entered without a request and with the cache unchanged; a miss requests the room and, on success, enters it and adds only that cache entry; a failed request records the load error; entering always clears the selection and activates the first view id or none |
| Rooms.RoomStore.SaveRoom | src/features/rooms/store/useRoomStore.ts:275-298 | without a bound room nothing is sent or changed; otherwise the name and views are sent, and success overwrites only that room's cache entry while failure records the save error |
| Rooms.RoomStore.Receive | src/hooks/useSocketEvents.ts:24-46 | an inbound event updates the views and the selection as the named action does, and sends that action's message again iff a room is bound |
| Rooms.EchoScenario | src/features/rooms/store/useRoomStore.ts:159-179 | a position received by a second bound client is sent again by it, unchanged |
| Rooms.RemovingActiveMainDangles | src/features/rooms/store/useRoomStore.ts:74-79 | removing the active "main" view leaves "main" active with no such view |
| ViewsStores.ViewsStore.constructor | src/pages/room/store/useViewsStore.ts:31-32 | one view "main", which is active |
| ViewsStores.ViewsStore.SetActiveView | src/pages/room/store/useViewsStore.ts:34 | replaces the active view only |
| ViewsStores.ViewsStore.AddView | src/pages/room/store/useViewsStore.ts:36-42 | appends an empty view named "View " + its id, after the unchanged old views, and makes it active |
| ViewsStores.ViewsStore.RemoveView | src/pages/room/store/useViewsStore.ts:44-48 | filters the view out, and falls back to "main" only if the removed view was active |
| ViewsStores.ViewsStore.AddComponent | src/pages/room/store/useViewsStore.ts:50-57 | appends to the matching views only |
| ViewsStores.ViewsStore.UpdateComponentPosition | src/pages/room/store/useViewsStore.ts:59-73 | sets `x`, `y` on the matching component only |
| Geometry.Round | src/pages/room/utils/position.ts:5-6 | `Math.round`: the integer nearest to the input, ties upward |
| Geometry.SnapToGrid | src/pages/room/utils/position.ts:3-7 | a multiple of 8 no more than 4 away from the input |
| Geometry.SnapToGridIdempotent | src/pages/room/utils/position.ts:3-7 | snapping a snapped value changes nothing |
| Geometry.ClampAxis | src/pages/room/utils/position.ts:17-20 | never negative, at most `canvas − size` when the item fits, and unchanged when already inside |
| Geometry.Constrain | src/pages/room/utils/position.ts:9-21 | `constrainPosition`: each axis is clamped on its own to `[0, canvas - size]`, so the result is never negative, within the canvas when the component fits, and a position already inside is returned as is |
| Geometry.ConstrainIdempotent | src/pages/room/utils/position.ts:9-21 | clamping twice is clamping once |
| Geometry.ConstrainFixesExactlyInBounds | src/pages/room/utils/position.ts:44-57 | when the component fits, the clamped position is within bounds, and a position is left unchanged iff it is within bounds |
| Geometry.IsWithinBounds | src/pages/room/utils/position.ts:44-57 | `isWithinBounds`: only a component that fits can be inside, and a position is inside iff the component fits and clamping leaves both coordinates unchanged |
| Geometry.ConstrainExample | src/pages/room/utils/position.ts:9-21 | `constrainPosition(500, 500, 100, 50, 375, 667)` is `{275, 500}` |
| Geometry.CalculateDropPosition | src/pages/room/utils/position.ts:23-42 | the cursor relative to the canvas origin, clamped by `Constrain`: non-negative, in bounds when the item fits, unchanged when already in bounds |
| Geometry.CalculateCenterPosition | src/pages/room/utils/position.ts:60-70 | `(canvas − size) / 2` on each axis when the component fits, and 0 otherwise |
| Geometry.CenteredIsWithinBounds | src/pages/room/utils/position.ts:44-70 | a centred component that fits is within bounds |
| CanvasPosition.DropPosition | src/pages/room/hooks/useCanvasPosition.ts:33-54 | a palette item lands at `CalculateDropPosition` of the cursor; a dragged item with a recorded start moves by the cursor's travel and is then clamped by `Constrain`; the result is non-negative and in bounds when the item fits |
| CanvasPosition.NewComponent | src/pages/room/hooks/useCanvasPosition.ts:56-66 | the dropped palette item as a component at the drop position, with its size defaulted to 100 × 50 and its properties or `{}` |
| CanvasPosition.HoverPosition | src/pages/room/hooks/useCanvasPosition.ts:110-122 | a later hover moves the item by the same arithmetic as a drop |
| CanvasPosition.DragTracker.constructor | src/pages/room/hooks/useCanvasPosition.ts:20-21 | no drag-start offset and no drag-start position are recorded at first |
| CanvasPosition.DragTracker.Drop | src/pages/room/hooks/useCanvasPosition.ts:26-80 | with no offset, canvas or active view nothing happens; otherwise a palette item is added (and selected) or a canvas item moved to the clamped position, and the drag-start record is cleared |
| CanvasPosition.DragTracker.Hover | src/pages/room/hooks/useCanvasPosition.ts:81-127 | the first hover of a canvas item only records where the drag started; later hovers move the item; nothing else changes |
| CanvasPosition.ReclampIsNoOp | src/pages/room/canvas/Canvas.tsx:36-43 | clamping a drop result again, as the canvas does, changes nothing |
| DesignImport.Every | src/utils/importDesign.ts:42 | `every`: passes iff every element passes, and otherwise reports the first element that does not |
| DesignImport.ValidateComponent | src/utils/importDesign.ts:26-35 | passes iff `id` and `type` are strings and `x`, `y`, `width`, `height` are numbers, and throws on `null` |
| DesignImport.ValidateView | src/utils/importDesign.ts:37-44 | passes iff `id` and `name` are strings, `components` is an array and every component passes |
| DesignImport.NormaliseProps | src/utils/importDesign.ts:78-92 | the extra keys are kept; `backgroundColor`, `items`, `checked` default to `'transparent'`, `[]`, `false` when falsy; the other listed keys are copied, possibly as undefined |
| DesignImport.TransformView | src/utils/importDesign.ts:70-94 | the view's id and name, and its components in order with ids, types, coordinates and sizes kept and properties normalised |
| DesignImport.ImportDesign | src/utils/importDesign.ts:55-105 | the format error iff `version` is falsy or `room` is missing; then the version error iff `version` is not exactly `'1.0'`; then the view error iff some view or component fails; a success holds the transformed views, the first view active, no selection, and the room with id `''` and name `'Untitled Design'` as defaults |
| DesignImport.OneBadComponentRejectsAll | src/utils/importDesign.ts:65-67 | a single invalid component anywhere rejects the whole file, with no partial result |
| DesignExport.ExportedRoomName | src/utils/exportDesign.ts:9 | the room's name, or `'Untitled Design'`, so never empty |
| DesignExport.ExportDesign | src/utils/exportDesign.ts:4-24 | version `'1.0'`, the given timestamp, the defaulted id and name, and every view in order with only its id, name and verbatim components |
| DesignExport.ToJson | src/utils/exportDesign.ts:4-24 | the object handed to `JSON.stringify` has exactly the keys `version`, `timestamp` and `room`; the room carries the id, the name and one entry per view, each with its id and no `backgroundColor` |
| FlutterExport.ExportDesignFlutter | src/utils/exportDesignFlutter.ts:4-25 | exactly the design exporter's document |
| RoundTrip.ComponentRoundTrip | src/utils/exportDesign.ts:14-21 | a sized component comes back with its fields and its properties normalised |
| RoundTrip.ViewValidates | src/utils/importDesign.ts:37-44 | an exported view passes the importer iff each of its components has a width and a height |
| RoundTrip.ExportThenImport | src/utils/exportDesign.ts:4-24 | re-importing an export passes the version check; it succeeds iff every component has a width and a height and otherwise fails with the view error; a success holds the views without backgrounds and with properties normalised, the first view active, and the exported room id and name |
| RoundTrip.NormaliseStable | src/utils/importDesign.ts:78-92 | normalising properties that were normalised, written out and read back changes nothing |
| RoundTrip.ExportImportStable | src/utils/importDesign.ts:55-105 | after one export and re-import, exporting and importing again gives the same state |
| RoundTrip.BackgroundIsLost | src/utils/exportDesign.ts:10-13 | a view's background colour does not survive the round trip |
| Fences.Unfenced | src/components/GenerateFromPromptButton.tsx:12-18 | the cleaned text is trimmed, and text with neither fence is only trimmed |
| Fences.CleanJson | src/components/JsonExportButton.tsx:27-33 | the step-by-step cleanup gives the cleaned text, which is trimmed |
| Fences.UnfencedOpeningOnly | src/components/GenerateFromPromptButton.tsx:15 | a leading "```json" is removed even without a closing fence: the rest comes out trimmed |
| Fences.UnfencedClosingOnly | src/components/GenerateFromPromptButton.tsx:16 | a trailing "```" is removed even without an opening fence: the rest comes out trimmed |
| Fences.UnfencedWrappedBody | src/components/GenerateFromPromptButton.tsx:15-16 | a trimmed body wrapped in "```json" … "```" with any whitespace comes out exactly |
| Fences.UntaggedFenceIsKept | src/components/GenerateFromPromptButton.tsx:15 | a fence opened by a bare "```" keeps its opening backticks |
| DesignLoader.LoadAnswer | src/components/JsonExportButton.tsx:27-43 | the cleaned answer is parsed and imported; only the imported room is given to `setRoom`, and on any failure the store is untouched |
| DesignLoader.ImportFromSketch | src/components/JsonExportButton.tsx:14-56 | without a file nothing happens; a failed upload, parse or import shows the error toast and changes nothing; success loads the room and shows the success toast |
| DesignLoader.GenerateFromPrompt | src/components/GenerateFromPromptButton.tsx:20-39 | a blank prompt is refused before any request; otherwise the answer is loaded as for a sketch, with the matching alert |
| DesignLoader.LoadedStoreHoldsImport | src/components/GenerateFromPromptButton.tsx:30-31 | after a load the store holds the imported views and room, the first imported view is active when there is one, and the selection, cache and sent messages are kept |
| Forms.EmailCheckIsPattern | src/pages/auth/Register.tsx:23-24 | the computed address check accepts exactly the strings `^[^\s@]+@[^\s@]+\.[^\s@]+$` matches |
| Forms.EmailIsNotBlank | src/pages/dashboard/components/UserProfile.tsx:36-46 | an accepted address is never blank |
| Forms.PaddedEmailIsRejected | src/pages/auth/Register.tsx:24 | the address is matched as typed, so a leading space rejects it |
| Forms.ServerMessage | src/pages/dashboard/components/UserProfile.tsx:93 | `err.response?.data?.message \|\| fallback` |
| Registration.ValidateForm | src/pages/auth/Register.tsx:15-36 | the checks run in order: blank name, then invalid address, then a password shorter than 6; the first failure gives its message; the form is accepted iff all pass |
| Registration.ErrorMessage | src/pages/auth/Register.tsx:61-67 | status 409 gives the already-registered message; 400 gives the server's message or the default, and throws without a body; any other status gives the server's message or another default |
| Registration.BadRequestMessages | src/pages/auth/Register.tsx:63-64 | concrete 400 answers: with a message, with an empty body, and without a body |
| Registration.RegisterForm.constructor | src/pages/auth/Register.tsx:8-12 | the form starts with empty name, address, password and error, and not loading |
| Registration.RegisterForm.Submit | src/pages/auth/Register.tsx:38-72 | nothing is sent unless the form validates, and then the address matches the pattern; both requests succeeding opens the dashboard; a failure shows the mapped message; loading ends false |
| Profile.ValidateChanges | src/pages/dashboard/components/UserProfile.tsx:31-64 | blank name first, then blank address, then the pattern on the untrimmed address; the password rules apply only with a new password, in the order current password, length, confirmation |
| Profile.BuildUpdate | src/pages/dashboard/components/UserProfile.tsx:69-77 | name and email always; `currentPassword` and `password` exactly when a new password was typed |
| Profile.SentPasswordIsConfirmed | src/pages/dashboard/components/UserProfile.tsx:49-77 | a sent password change carries a non-empty current password and a confirmed new password of at least 6 characters, and the address matches the pattern |
| Profile.PaddedEmailIsRefused | src/pages/dashboard/components/UserProfile.tsx:42-46 | a profile address with a leading space gets the format error |
| Profile.ProfileEditor.constructor | src/pages/dashboard/components/UserProfile.tsx:16-24 | the editor starts in edit mode iff opened in edit mode, with the given name and address, empty password fields, no error or success message, and not loading |
| Profile.ProfileEditor.SaveChanges | src/pages/dashboard/components/UserProfile.tsx:26-97 | a failed check shows its message and sends nothing; otherwise the built body is sent; success clears the three password fields and leaves edit mode only when the `editMode` prop is false; failure shows the server message or the default |
| DashboardPage.RefersTo | src/pages/dashboard/Dashboard.tsx:57-61 | an object owner is compared by its `_id` and anything else directly, and `null` throws |
| DashboardPage.AnyRefersTo | src/pages/dashboard/Dashboard.tsx:66-71 | `some`: false iff no element refers to the user; true iff some element refers to the user and every element before it is tested without matching; throws iff a `null` comes before any match |
| DashboardPage.SharedWith | src/pages/dashboard/Dashboard.tsx:63-74 | a room is shared with the user iff `collaborators` is an array with an entry referring to the user; a non-array never matches; the test throws iff `collaborators` is an array holding a `null` before any match |
| DashboardPage.Partition | src/pages/dashboard/Dashboard.tsx:57-77 | fails iff a filter throws; otherwise the first list is exactly the rooms the user owns and the second exactly those shared with the user, each in the order of the fetched list |
| DashboardPage.FindRoom | src/pages/dashboard/Dashboard.tsx:161 | `find`: the first room with that id, or none iff no room has it |
| DashboardPage.ReplaceRoom | src/pages/dashboard/Dashboard.tsx:168 | same length and order; the rooms with that id become the updated room; the others are unchanged |
| DashboardPage.ReplacedRoomIsFound | src/pages/dashboard/Dashboard.tsx:161-168 | after a rename that keeps the id, looking the room up finds the updated room |
| DashboardPage.WithoutRoom | src/pages/dashboard/Dashboard.tsx:134 | every room with that id is gone and every other room stays, in its order |
| DashboardPage.DeleteUndoesCreate | src/pages/dashboard/Dashboard.tsx:104-134 | deleting a room just created gives the list without that id |
| DashboardPage.Dashboard.constructor | src/pages/dashboard/Dashboard.tsx:19-25 | the page starts on the own-rooms tab with both lists empty, loading and no error |
| DashboardPage.Dashboard.RoomsToShow | src/pages/dashboard/Dashboard.tsx:176 | the user's rooms on the "misSalas" tab and the shared rooms otherwise |
| DashboardPage.Dashboard.LoadRooms | src/pages/dashboard/Dashboard.tsx:50-89 | only with a truthy user; both lists are replaced together by the partition, or neither is, with the load error, when the request or a filter throws |
| DashboardPage.Dashboard.CreateRoom | src/pages/dashboard/Dashboard.tsx:103-114 | the created room is appended at the end and opened, with the success toast, or the error toast and nothing changes |
| DashboardPage.Dashboard.DeleteRoom | src/pages/dashboard/Dashboard.tsx:132-140 | after the server agrees, every room with that id is removed; a failure shows the error toast |
| DashboardPage.Dashboard.EditRoom | src/pages/dashboard/Dashboard.tsx:160-173 | nothing is sent unless the room is listed, the new name is not blank and it differs from the current one; success replaces the room in place |
| ViewsPanel.ViewsSidebar.constructor | src/pages/room/sidebar/ViewsSidebar.tsx:14-15 | no view is being edited and the edit text is empty |
| ViewsPanel.ViewsSidebar.StartEdit | src/pages/room/sidebar/ViewsSidebar.tsx:17-20 | edits that view, starting from its current name |
| ViewsPanel.ViewsSidebar.TypeName | src/pages/room/sidebar/ViewsSidebar.tsx:58 | typing replaces the edit text and keeps the view being edited |
| ViewsPanel.ViewsSidebar.SaveEdit | src/pages/room/sidebar/ViewsSidebar.tsx:22-27 | renames to the trimmed name and closes the editor only when a view is being edited and the name is not blank; otherwise nothing changes |
| ViewsPanel.ViewsSidebar.AddViewClicked | src/pages/room/sidebar/ViewsSidebar.tsx:39 | `addView()` with no name: the new view is named "View n+1" |
| ViewsPanel.ViewsSidebar.RemoveClicked | src/pages/room/sidebar/ViewsSidebar.tsx:79-86 | removes a view other than "main", and the "main" view stays |
| ViewsPanel.ViewsSidebar.SelectView | src/pages/room/sidebar/ViewsSidebar.tsx:66 | clicking a view's name makes it the active view and changes nothing else in the store |
| ViewsPanel.PanelNeverRemovesMain | src/pages/room/sidebar/ViewsSidebar.tsx:79-86 | no removal the panel offers removes the "main" view |

## Left out

- The socket transport is left out: the connection, `join_room`/`leave_room`, and listener
  registration. A send is an append to the store's `log`. Delivery, ordering and convergence
  between clients are not modelled, and the code does nothing to ensure them.
- HTTP and local storage services are not modelled. Their outcomes are method parameters.
- Browser APIs are not modelled: `FileReader`, `Blob`/`File`, object URLs and download links,
  `alert`, navigation, and the file input's reset. `JSON.parse` is a function parameter that
  returns `None` when parsing would throw.
- `Date.now()` ids and `toISOString()` timestamps are parameters. Their uniqueness is not modelled.
- NaN and Infinity are not modelled. Coordinates are reals. `width || 0` in `constrainPosition`
  only matters for NaN, so the model reads it as `width`.
- Rooms.RoomStore.LoadRoom: the awaits are atomic. Another action running while the request is
  pending is not modelled.
- DashboardPage.Dashboard.CreateRoom: the await is atomic. The handler appends to the `myRooms`
  it captured at render time, so when requests overlap a later answer can overwrite an earlier
  one; the model applies each answer to the list as it is when the answer arrives.
- DashboardPage.Dashboard.DeleteRoom: the await is atomic, and the stale render-time `myRooms`
  is not modelled. With rooms [A, B], deleting A and then B before A's answer arrives leaves
  [A] in the code, although A is gone on the server.
- DashboardPage.Dashboard.EditRoom: the await is atomic, and the stale render-time `myRooms`
  is not modelled, as for DeleteRoom.
- DashboardPage.Dashboard.LoadRooms: the awaits are atomic. A second effect run overlapping the
  first is not modelled.
- Registration.RegisterForm.Submit: the awaits are atomic. Edits to the form while the requests
  are pending are not modelled.
- Profile.ProfileEditor.SaveChanges: the await is atomic. Edits to the form while the request
  is pending are not modelled.
- DesignLoader.ImportFromSketch: the awaits are atomic. Store actions made while the upload is
  pending are not modelled.
- DesignLoader.GenerateFromPrompt: the awaits are atomic. Store actions made while the
  generation request is pending are not modelled.
- Rooms.RoomStore.SaveRoom: the await is atomic. Store actions made while the request is
  pending are not modelled.
- CanvasPosition.DragTracker.Hover: React state updates take effect at once. Batching of
  `setInitialOffset` between renders is not modelled.
- CanvasPosition.ReclampIsNoOp: the canvas re-clamps with the canvas element's client size, and
  the model assumes it equals the rectangle used for the drop.
- DesignImport.ImportDesign: the result is typed. Extra keys on views and components are
  dropped. A string view background is kept; a non-string background, room id or room name
  counts as absent. Spreading a `properties` that is a string or an array is treated as
  spreading `{}`. `Number(...)` is the identity, because validation already requires numbers.
- DesignExport.ToJson: the document is the object given to `JSON.stringify`. The byte-level
  JSON text and its formatting are not modelled.
- DashboardPage.ListedRoom: a listed room's `_id` and `name` are strings. The owner and the
  collaborators keep their loose type. `===` between two distinct parsed objects is false.
- Registration.ValidateForm: `password.length` counts code points, where JavaScript counts
  UTF-16 units. They differ only outside the Basic Multilingual Plane.
- The `loading` / `isLoading` flags of the buttons are set, then reset in `finally`. Only the
  final value is stated, and only where a class holds the flag.
- Toasts and alerts are returned values. The rendering and the timer are not modelled.
- Rendering and widget wiring beyond the handlers above are not modelled: drag-and-drop
  libraries, resize handles, the properties form and the templates.
