/**
 * The profile editor (src/pages/dashboard/components/UserProfile.tsx): the checks run before a
 * profile update, the body that is sent, and the form state after the server answers.
 */
module Profile {

  import opened Wrappers
  import opened JsValues
  import opened Text
  import opened Forms

  const NameRequired: string := "El nombre es obligatorio"
  const EmailRequired: string := "El correo electrónico es obligatorio"
  const EmailInvalid: string := "El formato del correo electrónico no es válido"
  const CurrentPasswordRequired: string := "Debes ingresar tu contraseña actual para cambiarla"
  const NewPasswordTooShort: string := "La nueva contraseña debe tener al menos 6 caracteres"
  const PasswordsDiffer: string := "Las contraseñas no coinciden"
  const MinPasswordLength: nat := 6
  const Updated: string := "Perfil actualizado correctamente"
  const UpdateFailed: string := "Error al actualizar el perfil"

  /**
   * The validation chain of `handleSaveChanges`: the message of the first failing check, `None`
   * when the update may be sent. Name and address must not be blank, the address is matched as
   * typed, and the password rules apply only when a new password was typed.
   */
  function ValidateChanges(userName: string, userEmail: string, currentPassword: string, newPassword: string,
                           confirmPassword: string): (r: Option<string>)
    ensures r.None? <==>
      && !IsBlank(userName) && IsValidEmail(userEmail)
      && (newPassword != "" ==> currentPassword != "" && |newPassword| >= MinPasswordLength && newPassword == confirmPassword)
    ensures IsBlank(userName) ==> r == Some(NameRequired)
    ensures !IsBlank(userName) && IsBlank(userEmail) ==> r == Some(EmailRequired)
    ensures !IsBlank(userName) && !IsBlank(userEmail) && !IsValidEmail(userEmail) ==> r == Some(EmailInvalid)
    ensures newPassword == "" && !IsBlank(userName) && IsValidEmail(userEmail) ==> r.None?
    ensures newPassword != "" && !IsBlank(userName) && IsValidEmail(userEmail) ==>
      r == if currentPassword == "" then Some(CurrentPasswordRequired)
           else if |newPassword| < MinPasswordLength then Some(NewPasswordTooShort)
           else if newPassword != confirmPassword then Some(PasswordsDiffer)
           else None
  {
    assert IsValidEmail(userEmail) ==> !IsBlank(userEmail) by {
      if IsValidEmail(userEmail) {
        EmailIsNotBlank(userEmail);
      }
    }
    if IsBlank(userName) then Some(NameRequired)
    else if IsBlank(userEmail) then Some(EmailRequired)
    else if !IsValidEmail(userEmail) then Some(EmailInvalid)
    else if newPassword != "" && currentPassword == "" then Some(CurrentPasswordRequired)
    else if newPassword != "" && |newPassword| < MinPasswordLength then Some(NewPasswordTooShort)
    else if newPassword != "" && newPassword != confirmPassword then Some(PasswordsDiffer)
    else None
  }

  /** `updateData`: name and email always; the two password keys only when changing the password. */
  datatype UpdateData = UpdateData(name: string, email: string, currentPassword: Option<string>, password: Option<string>)

  function BuildUpdate(userName: string, userEmail: string, currentPassword: string, newPassword: string): (d: UpdateData)
    ensures d.name == userName && d.email == userEmail
    ensures d.currentPassword.Some? <==> newPassword != ""
    ensures d.password.Some? <==> newPassword != ""
    ensures newPassword != "" ==> d.currentPassword == Some(currentPassword) && d.password == Some(newPassword)
  {
    if newPassword != "" then UpdateData(userName, userEmail, Some(currentPassword), Some(newPassword))
    else UpdateData(userName, userEmail, None, None)
  }

  class ProfileEditor {
    /** The `editMode` prop: the editor was opened for editing and stays in edit mode. */
    const editMode: bool
    var isEditing: bool
    var userName: string
    var userEmail: string
    var currentPassword: string
    var newPassword: string
    var confirmPassword: string
    var error: Json
    var successMessage: string
    var isLoading: bool

    constructor(name: string, email: string, editMode: bool)
      ensures this.editMode == editMode && isEditing == editMode
      ensures userName == name && userEmail == email
      ensures currentPassword == "" && newPassword == "" && confirmPassword == ""
      ensures error == Str("") && successMessage == "" && !isLoading
    {
      this.editMode := editMode;
      isEditing := editMode;
      userName := name;
      userEmail := email;
      currentPassword := "";
      newPassword := "";
      confirmPassword := "";
      error := Str("");
      successMessage := "";
      isLoading := false;
    }

    /**
     * `handleSaveChanges`: `server` is the outcome of `updateUserProfile`, a failure carrying
     * `err.response`; `sent` is the body sent, `None` when a check failed.
     */
    method SaveChanges(server: Result<(), Json>) returns (sent: Option<UpdateData>)
      modifies this
      ensures userName == old(userName) && userEmail == old(userEmail)
      ensures sent.Some? <==> ValidateChanges(userName, userEmail, old(currentPassword), old(newPassword), old(confirmPassword)).None?
      ensures sent.None? ==>
        && error == Str(ValidateChanges(userName, userEmail, old(currentPassword), old(newPassword), old(confirmPassword)).value)
        && successMessage == "" && isEditing == old(isEditing) && isLoading == old(isLoading)
        && currentPassword == old(currentPassword) && newPassword == old(newPassword) && confirmPassword == old(confirmPassword)
      ensures sent.Some? ==> sent.value == BuildUpdate(userName, userEmail, old(currentPassword), old(newPassword)) && !isLoading
      ensures sent.Some? && server.Success? ==>
        && successMessage == Updated && error == Str("")
        && currentPassword == "" && newPassword == "" && confirmPassword == ""
        && isEditing == (editMode && old(isEditing))
      ensures sent.Some? && server.Failure? ==>
        && error == ServerMessage(server.error, UpdateFailed) && successMessage == "" && isEditing == old(isEditing)
        && currentPassword == old(currentPassword) && newPassword == old(newPassword) && confirmPassword == old(confirmPassword)
    {
      error := Str("");
      successMessage := "";
      var invalid := ValidateChanges(userName, userEmail, currentPassword, newPassword, confirmPassword);
      if invalid.Some? {
        error := Str(invalid.value);
        return None;
      }
      var data := BuildUpdate(userName, userEmail, currentPassword, newPassword);
      Send(server);
      sent := Some(data);
    }

    /** The `try`/`catch`/`finally` part of `handleSaveChanges`, once every check passed. */
    method Send(server: Result<(), Json>)
      modifies this
      ensures userName == old(userName) && userEmail == old(userEmail) && !isLoading
      ensures server.Success? ==>
        && successMessage == Updated && error == old(error)
        && currentPassword == "" && newPassword == "" && confirmPassword == ""
        && isEditing == (editMode && old(isEditing))
      ensures server.Failure? ==>
        && error == ServerMessage(server.error, UpdateFailed) && successMessage == old(successMessage)
        && isEditing == old(isEditing)
        && currentPassword == old(currentPassword) && newPassword == old(newPassword) && confirmPassword == old(confirmPassword)
    {
      isLoading := true;
      if server.Success? {
        successMessage := Updated;
        currentPassword := "";
        newPassword := "";
        confirmPassword := "";
        if !editMode {
          isEditing := false;
        }
      } else {
        error := ServerMessage(server.error, UpdateFailed);
      }
      isLoading := false;
    }
  }

  /** A password change is only sent with the current password and a confirmed new one of six or more. */
  lemma SentPasswordIsConfirmed(userName: string, userEmail: string, currentPassword: string, newPassword: string,
                                confirmPassword: string)
    requires ValidateChanges(userName, userEmail, currentPassword, newPassword, confirmPassword).None?
    ensures var d := BuildUpdate(userName, userEmail, currentPassword, newPassword);
      && MatchesEmailPattern(d.email)
      && (d.password.Some? ==> d.currentPassword.value != "" && |d.password.value| >= MinPasswordLength && d.password.value == confirmPassword)
  {
    EmailCheckIsPattern(userEmail);
  }

  lemma NotBlankAt(s: string, i: nat)
    requires i < |s| && !IsWhitespace(s[i])
    ensures !IsBlank(s)
  {
  }

  /** Unlike the name, the address is not trimmed before it is matched. */
  lemma PaddedEmailIsRefused()
    ensures ValidateChanges("Ana", " ana@mail.com", "", "", "") == Some(EmailInvalid)
  {
    var name, email := "Ana", " ana@mail.com";
    assert name[0] == 'A' && email[1] == 'a';
    NotBlankAt(name, 0);
    NotBlankAt(email, 1);
    PaddedEmailIsRejected();
  }
}
