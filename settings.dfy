/**
 * The password form of app/admin/settings/page.tsx: the two checks made
 * before any request is sent, and how the form's fields change with the
 * server's answer.
 */
module Settings {
  import opened Wrappers

  const MismatchMessage: string := "Az új jelszavak nem egyeznek!"
  const TooShortMessage: string := "A jelszónak legalább 6 karakter hosszúnak kell lennie!"
  const ChangedMessage: string := "Jelszó sikeresen megváltoztatva!"
  const DefaultFailureMessage: string := "Hiba történt"
  const NetworkFailureMessage: string := "Hálózati hiba"

  /** The shortest new password the form accepts. */
  const MinPasswordLength: nat := 6

  /** The request body the form sends. */
  datatype ChangeRequest = ChangeRequest(currentPassword: string, newPassword: string)

  /**
   * How the request ended: an answer with its `ok` flag and the `error`
   * field of its body, or a failure to fetch or to read the body.
   */
  datatype ServerReply = Answered(ok: bool, error: Option<string>) | NetworkFailure

  /** The message of the first check that fails: matching passwords first, then length. */
  function PasswordProblem(newPassword: string, confirmPassword: string): (problem: Option<string>)
    ensures problem == None <==> newPassword == confirmPassword && |newPassword| >= MinPasswordLength
    ensures newPassword != confirmPassword ==> problem == Some(MismatchMessage)
    ensures newPassword == confirmPassword && |newPassword| < MinPasswordLength ==> problem == Some(TooShortMessage)
  {
    if newPassword != confirmPassword then Some(MismatchMessage)
    else if |newPassword| < MinPasswordLength then Some(TooShortMessage)
    else None
  }

  /** `data.error || 'Hiba történt'`: the server's message unless it is missing or empty. */
  function FailureMessage(error: Option<string>): (message: string)
    ensures message != ""
    ensures error.Some? && error.value != "" ==> message == error.value
    ensures error.None? || error.value == "" ==> message == DefaultFailureMessage
  {
    if error.Some? && error.value != "" then error.value else DefaultFailureMessage
  }

  /** The component state of the settings page. */
  class PasswordForm {
    var currentPassword: string
    var newPassword: string
    var confirmPassword: string
    var error: string
    var success: string
    var loading: bool

    constructor()
      ensures currentPassword == "" && newPassword == "" && confirmPassword == ""
      ensures error == "" && success == "" && !loading
    {
      currentPassword, newPassword, confirmPassword := "", "", "";
      error, success := "", "";
      loading := false;
    }

    /**
     * `handleChangePassword`. Both messages are cleared first. A failed check
     * sets its message and sends nothing. Otherwise the request is sent and
     * `reply` is how it ended: on success the three password fields are
     * cleared and the success message shown; on failure the error shown.
     */
    method HandleChangePassword(reply: ServerReply) returns (request: Option<ChangeRequest>)
      modifies this
      ensures PasswordProblem(old(newPassword), old(confirmPassword)).Some? ==>
        && request == None
        && error == PasswordProblem(old(newPassword), old(confirmPassword)).value
        && success == ""
        && currentPassword == old(currentPassword) && newPassword == old(newPassword)
        && confirmPassword == old(confirmPassword) && loading == old(loading)
      ensures PasswordProblem(old(newPassword), old(confirmPassword)).None? ==>
        && request == Some(ChangeRequest(old(currentPassword), old(newPassword)))
        && !loading
        && (reply.Answered? && reply.ok ==>
              && success == ChangedMessage && error == ""
              && currentPassword == "" && newPassword == "" && confirmPassword == "")
        && (!(reply.Answered? && reply.ok) ==>
              && success == ""
              && error == (if reply.NetworkFailure? then NetworkFailureMessage else FailureMessage(reply.error))
              && currentPassword == old(currentPassword) && newPassword == old(newPassword)
              && confirmPassword == old(confirmPassword))
    {
      error := "";
      success := "";

      if newPassword != confirmPassword {
        error := MismatchMessage;
        return None;
      }
      if |newPassword| < MinPasswordLength {
        error := TooShortMessage;
        return None;
      }

      loading := true;
      request := Some(ChangeRequest(currentPassword, newPassword));
      match reply {
        case NetworkFailure =>
          error := NetworkFailureMessage;
        case Answered(ok, serverError) =>
          if ok {
            success := ChangedMessage;
            currentPassword := "";
            newPassword := "";
            confirmPassword := "";
          } else {
            error := FailureMessage(serverError);
          }
      }
      loading := false;
    }
  }
}
