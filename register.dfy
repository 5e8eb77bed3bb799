/**
 * The sign-up form (src/pages/auth/Register.tsx): three checks run in order before any request,
 * and the reading of a rejected request into the message the form shows.
 */
module Registration {

  import opened Wrappers
  import opened JsValues
  import opened Text
  import opened Forms

  const NameRequired: string := "El nombre es obligatorio"
  const EmailInvalid: string := "El formato del correo electrónico no es válido"
  const PasswordTooShort: string := "La contraseña debe tener al menos 6 caracteres"
  const MinPasswordLength: nat := 6
  const AlreadyRegistered: string := "Este correo electrónico ya está registrado"
  const InvalidData: string := "Datos de registro inválidos"
  const RegisterFailed: string := "Error al registrar usuario"

  /**
   * `validateForm`: the message of the first failing check, `None` when the form may be sent.
   * The address is checked as typed; only the name is trimmed.
   */
  function ValidateForm(name: string, email: string, password: string): (r: Option<string>)
    ensures r.None? <==> !IsBlank(name) && IsValidEmail(email) && |password| >= MinPasswordLength
    ensures IsBlank(name) ==> r == Some(NameRequired)
    ensures !IsBlank(name) && !IsValidEmail(email) ==> r == Some(EmailInvalid)
    ensures !IsBlank(name) && IsValidEmail(email) && |password| < MinPasswordLength ==> r == Some(PasswordTooShort)
  {
    if IsBlank(name) then Some(NameRequired)
    else if !IsValidEmail(email) then Some(EmailInvalid)
    else if |password| < MinPasswordLength then Some(PasswordTooShort)
    else None
  }

  /**
   * The message the catch block sets for `err.response` (`Undefined` when the request got no
   * response); `None` when reading it throws, which happens for a 400 without a body.
   */
  function ErrorMessage(response: Json): (r: Option<Json>)
    ensures OptMember(response, "status") == Num(409.0) ==> r == Some(Str(AlreadyRegistered))
    ensures OptMember(response, "status") == Num(400.0) ==>
      var data := OptMember(response, "data");
      && (r.None? <==> data.Undefined? || data.Null?)
      && (r.Some? && Truthy(OptMember(data, "message")) ==> r.value == OptMember(data, "message"))
      && (r.Some? && !Truthy(OptMember(data, "message")) ==> r.value == Str(InvalidData))
    ensures OptMember(response, "status") != Num(409.0) && OptMember(response, "status") != Num(400.0) ==>
      r == Some(ServerMessage(response, RegisterFailed))
  {
    var status := OptMember(response, "status");
    if status == Num(409.0) then Some(Str(AlreadyRegistered))
    else if status == Num(400.0) then
      var data := OptMember(response, "data");
      if data.Undefined? || data.Null? then None
      else Some(Or(OptMember(data, "message"), Str(InvalidData)))
    else Some(ServerMessage(response, RegisterFailed))
  }

  class RegisterForm {
    var name: string
    var email: string
    var password: string
    /** The message shown under the form; `setError` is also given non-string server values. */
    var error: Json
    var isLoading: bool

    constructor()
      ensures name == "" && email == "" && password == "" && error == Str("") && !isLoading
    {
      name := "";
      email := "";
      password := "";
      error := Str("");
      isLoading := false;
    }

    /**
     * `handleSubmit`: validate, then register and log in; `registration` and `login` are the
     * outcomes of the two requests, a failure carrying `err.response`. `requested` is whether
     * anything was sent, `navigated` whether the dashboard was opened.
     */
    method Submit(registration: Result<(), Json>, login: Result<(), Json>) returns (requested: bool, navigated: bool)
      modifies this
      ensures name == old(name) && email == old(email) && password == old(password)
      ensures requested <==> ValidateForm(name, email, password).None?
      ensures requested ==> MatchesEmailPattern(email)
      ensures !requested ==> !navigated && error == Str(ValidateForm(name, email, password).value) && isLoading == old(isLoading)
      ensures requested ==> !isLoading
      ensures requested && registration.Success? && login.Success? ==> navigated && error == Str("")
      ensures requested && !(registration.Success? && login.Success?) ==>
        var response := if registration.Failure? then registration.error else login.error;
        !navigated && error == ErrorMessage(response).GetOr(Str(""))
    {
      var invalid := ValidateForm(name, email, password);
      if invalid.Some? {
        error := Str(invalid.value);
        return false, false;
      }
      EmailCheckIsPattern(email);
      requested := true;
      navigated := Send(registration, login);
    }

    /** The `try`/`catch`/`finally` part of `handleSubmit`, once the form is valid. */
    method Send(registration: Result<(), Json>, login: Result<(), Json>) returns (navigated: bool)
      modifies this
      ensures name == old(name) && email == old(email) && password == old(password) && !isLoading
      ensures registration.Success? && login.Success? ==> navigated && error == Str("")
      ensures !(registration.Success? && login.Success?) ==>
        var response := if registration.Failure? then registration.error else login.error;
        !navigated && error == ErrorMessage(response).GetOr(Str(""))
    {
      isLoading := true;
      error := Str("");
      var outcome := if registration.Failure? then registration else login;
      if outcome.Success? {
        navigated := true;
      } else {
        navigated := false;
        var message := ErrorMessage(outcome.error);
        if message.Some? {
          error := message.value;
        }
      }
      isLoading := false;
    }
  }

  /** A 400 with a message shows the server's message; one with an empty body shows the default. */
  lemma BadRequestMessages(message: string)
    requires message != ""
    ensures ErrorMessage(Obj(map["status" := Num(400.0), "data" := Obj(map["message" := Str(message)])])) == Some(Str(message))
    ensures ErrorMessage(Obj(map["status" := Num(400.0), "data" := Obj(map[])])) == Some(Str(InvalidData))
    ensures ErrorMessage(Obj(map["status" := Num(400.0)])) == None
  {
  }
}
