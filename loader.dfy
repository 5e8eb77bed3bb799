/**
 * Loading a design from generated text: the sketch upload (`handleFileChange` in
 * src/components/JsonExportButton.tsx) and the prompt box (`handleGenerate` in
 * src/components/GenerateFromPromptButton.tsx). The service's answer is fence-stripped, parsed,
 * imported, and only the imported `room` is handed to the room store's `setRoom`; any failure
 * along the way is caught and leaves the store untouched.
 */
module DesignLoader {

  import opened Wrappers
  import opened JsValues
  import opened Design
  import opened Text
  import Fences
  import DesignImport
  import Rooms
  import opened Toasts

  const NoPromptMessage: string := "Escribe un prompt primero."
  const PromptLoadedMessage: string := "Diseño cargado desde descripción con éxito"
  const PromptErrorMessage: string := "Hubo un error al generar el diseño."
  const SketchLoadedMessage: string := "¡Diseño cargado exitosamente desde el boceto!"
  const SketchErrorMessage: string := "Ocurrió un error al cargar el diseño."

  /**
   * The state the importer yields for an answer, or `None` when parsing or importing throws.
   * `parse` stands for `JSON.parse`, which `None` means threw.
   */
  function Imported(raw: string, parse: string -> Option<Json>): Option<RoomState> {
    var doc := parse(Fences.Unfenced(raw));
    if doc.Some? && DesignImport.ImportDesign(doc.value).Success? then Some(DesignImport.ImportDesign(doc.value).value)
    else None
  }

  /**
   * The shared steps: clean the answer, import it, and pass the imported room to `setRoom`.
   * `loaded` is false exactly when one of the steps throws.
   */
  method LoadAnswer(store: Rooms.RoomStore, raw: string, parse: string -> Option<Json>) returns (loaded: bool)
    modifies store
    ensures loaded <==> Imported(raw, parse).Some?
    ensures loaded ==> store.State() == Rooms.AfterSetRoom(old(store.State()), Imported(raw, parse).value.room)
    ensures !loaded ==> store.State() == old(store.State())
  {
    var clean := Fences.CleanJson(raw);
    var doc := parse(clean);
    if doc.None? {
      return false;
    }
    var imported := DesignImport.ImportDesign(doc.value);
    if imported.Failure? {
      return false;
    }
    store.SetRoom(imported.value.room);
    loaded := true;
  }

  /**
   * `handleFileChange`: nothing happens without a file; otherwise the upload's answer (`upload`,
   * a failure when the service rejects) is loaded and a toast reports the outcome.
   */
  method ImportFromSketch(store: Rooms.RoomStore, upload: Option<Result<string, ()>>, parse: string -> Option<Json>)
    returns (toast: Option<Toast>)
    modifies store
    ensures upload.None? ==> toast == None && store.State() == old(store.State())
    ensures upload.Some? && upload.value.Success? && Imported(upload.value.value, parse).Some? ==>
      toast == Some(Toast(SketchLoadedMessage, SuccessToast))
      && store.State() == Rooms.AfterSetRoom(old(store.State()), Imported(upload.value.value, parse).value.room)
    ensures upload.Some? && !(upload.value.Success? && Imported(upload.value.value, parse).Some?) ==>
      toast == Some(Toast(SketchErrorMessage, ErrorToast)) && store.State() == old(store.State())
  {
    if upload.None? {
      return None;
    }
    if upload.value.Failure? {
      return Some(Toast(SketchErrorMessage, ErrorToast));
    }
    var loaded := LoadAnswer(store, upload.value.value, parse);
    toast := if loaded then Some(Toast(SketchLoadedMessage, SuccessToast)) else Some(Toast(SketchErrorMessage, ErrorToast));
  }

  /**
   * `handleGenerate`: a blank prompt is refused before any request; otherwise the service's
   * answer (`answer`) is loaded and an alert reports the outcome. `requested` is whether the
   * service was called.
   */
  method GenerateFromPrompt(store: Rooms.RoomStore, prompt: string, answer: Result<string, ()>, parse: string -> Option<Json>)
    returns (requested: bool, alert: string)
    modifies store
    ensures requested <==> !IsBlank(prompt)
    ensures !requested ==> alert == NoPromptMessage && store.State() == old(store.State())
    ensures requested && answer.Success? && Imported(answer.value, parse).Some? ==>
      alert == PromptLoadedMessage
      && store.State() == Rooms.AfterSetRoom(old(store.State()), Imported(answer.value, parse).value.room)
    ensures requested && !(answer.Success? && Imported(answer.value, parse).Some?) ==>
      alert == PromptErrorMessage && store.State() == old(store.State())
  {
    if Trim(prompt) == "" {
      return false, NoPromptMessage;
    }
    requested := true;
    if answer.Failure? {
      return requested, PromptErrorMessage;
    }
    var loaded := LoadAnswer(store, answer.value, parse);
    alert := if loaded then PromptLoadedMessage else PromptErrorMessage;
  }

  /**
   * After a successful load the store holds the imported views and room; the first imported
   * view becomes active when there is one, and the selection is left as it was.
   */
  lemma LoadedStoreHoldsImport(s: Rooms.StoreState, raw: string, parse: string -> Option<Json>)
    requires Imported(raw, parse).Some?
    ensures var st := Imported(raw, parse).value;
      var after := Rooms.AfterSetRoom(s, st.room);
      && after.views == st.views
      && after.room == st.room
      && (st.activeViewId.Some? ==> after.activeViewId == st.activeViewId)
      && (st.activeViewId.None? ==> after.activeViewId == s.activeViewId)
      && after.selectedComponentId == s.selectedComponentId
      && after.log == s.log && after.roomCache == s.roomCache
  {
    var doc := parse(Fences.Unfenced(raw));
    assert DesignImport.ImportDesign(doc.value).Success?;
  }
}
