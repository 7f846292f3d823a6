/** The change-password handler of the security dialog: two checks on the
    new password, then one request whose answer decides whether the fields
    are cleared and the dialog closed. Notifications and requests are
    recorded in sequences; the request's outcome is a parameter. */
module SecurityModal {
  import opened Common

  datatype Toast = ErrorToast(message: string) | SuccessToast(message: string)

  /** The request body and the `x-user-id` header it carries. */
  datatype Request = ChangePassword(userId: string, currentPassword: string, newPassword: string)

  /** The request answered with `res.ok` and the body's `error`, or it (or
      the reading of its body) threw. */
  datatype Outcome = Answered(ok: bool, error: Option<string>) | Threw

  const Mismatch := "New passwords do not match"
  const TooShort := "Password must be at least 6 characters"

  /** The message of the first check that fails, or None when the request
      may be sent. The mismatch check comes first. */
  function PreCheck(newPassword: string, confirmPassword: string): (r: Option<string>)
    ensures newPassword != confirmPassword ==> r == Some(Mismatch)
    ensures newPassword == confirmPassword && |newPassword| < 6 ==> r == Some(TooShort)
    ensures r.None? <==> newPassword == confirmPassword && |newPassword| >= 6
  {
    if newPassword != confirmPassword then Some(Mismatch)
    else if |newPassword| < 6 then Some(TooShort)
    else None
  }

  /** A mismatched password that is also short reports the mismatch. */
  lemma MismatchReportedFirst(newPassword: string, confirmPassword: string)
    requires newPassword != confirmPassword && |newPassword| < 6
    ensures PreCheck(newPassword, confirmPassword) == Some(Mismatch)
    ensures PreCheck(newPassword, confirmPassword) != Some(TooShort)
  {
  }

  class SecurityForm {
    var currentPassword: string
    var newPassword: string
    var confirmPassword: string
    var isLoading: bool
    var open: bool
    var toasts: seq<Toast>
    var requests: seq<Request>
    /** Every `setIsLoading` call, in order. */
    var loadingUpdates: seq<bool>

    constructor ()
      ensures currentPassword == "" && newPassword == "" && confirmPassword == ""
      ensures !isLoading && open && toasts == [] && requests == [] && loadingUpdates == []
    {
      currentPassword, newPassword, confirmPassword := "", "", "";
      isLoading, open := false, true;
      toasts, requests, loadingUpdates := [], [], [];
    }

    /** `userId` is the signed-in user's id, if any. */
    method HandleChangePassword(userId: Option<string>, outcome: Outcome)
      modifies this
      ensures PreCheck(old(newPassword), old(confirmPassword)).Some? ==>
        && toasts == old(toasts) + [ErrorToast(PreCheck(old(newPassword), old(confirmPassword)).value)]
        && requests == old(requests) && loadingUpdates == old(loadingUpdates) && isLoading == old(isLoading)
        && currentPassword == old(currentPassword) && newPassword == old(newPassword)
        && confirmPassword == old(confirmPassword) && open == old(open)
      ensures PreCheck(old(newPassword), old(confirmPassword)).None? ==>
        && requests == old(requests) + [ChangePassword(if Truthy(userId) then userId.value else "", old(currentPassword), old(newPassword))]
        && loadingUpdates == old(loadingUpdates) + [true, false] && !isLoading
      ensures PreCheck(old(newPassword), old(confirmPassword)).None? && (outcome.Answered? && outcome.ok) ==>
        && toasts == old(toasts) + [SuccessToast("Password updated successfully")]
        && currentPassword == "" && newPassword == "" && confirmPassword == "" && !open
      ensures PreCheck(old(newPassword), old(confirmPassword)).None? && !(outcome.Answered? && outcome.ok) ==>
        && currentPassword == old(currentPassword) && newPassword == old(newPassword)
        && confirmPassword == old(confirmPassword) && open == old(open)
        && toasts == old(toasts) + [ErrorToast(
             if outcome.Threw? then "An error occurred"
             else if Truthy(outcome.error) then outcome.error.value
             else "Failed to update password")]
    {
      if newPassword != confirmPassword {
        toasts := toasts + [ErrorToast(Mismatch)];
        return;
      }
      if |newPassword| < 6 {
        toasts := toasts + [ErrorToast(TooShort)];
        return;
      }
      isLoading := true;
      loadingUpdates := loadingUpdates + [true];
      requests := requests + [ChangePassword(if Truthy(userId) then userId.value else "", currentPassword, newPassword)];
      match outcome {
        case Answered(ok, error) =>
          if ok {
            toasts := toasts + [SuccessToast("Password updated successfully")];
            currentPassword := "";
            newPassword := "";
            confirmPassword := "";
            open := false;
          } else {
            toasts := toasts + [ErrorToast(if Truthy(error) then error.value else "Failed to update password")];
          }
        case Threw =>
          toasts := toasts + [ErrorToast("An error occurred")];
      }
      isLoading := false;
      loadingUpdates := loadingUpdates + [false];
    }
  }
}
