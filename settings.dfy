/**
 * The settings page's handlers: the profile update, the password change with its two local
 * checks, and the email change. Every remote call clears both messages first and then sets
 * either the error (to the call's message) or the success message.
 */
module SettingsPage {
  import opened Wrappers
  import opened Records
  import opened JsStrings

  const PasswordsDiffer := "New passwords do not match"
  const PasswordTooShort := "Password must be at least 6 characters"
  const MinPasswordLength := 6
  const ProfileSaved := "Profile updated successfully!"
  const PasswordSaved := "Password updated successfully!"
  const EmailPending := "Check your new email for verification link!"

  /** The editable profile fields. */
  datatype ProfileForm = ProfileForm(fullName: string, username: string, bio: string, location: string, website: string)

  /** The remote calls the handlers make. */
  datatype Call = UpdateProfile(userId: Id, form: ProfileForm) | FetchProfile(userId: Id) | UpdatePassword(password: string) | UpdateEmail(email: string)

  /**
   * The message a password change stops at before any call, if any: the match check comes
   * first, and the length is JavaScript's, in UTF-16 code units.
   */
  function PasswordProblem(newPassword: string, confirmPassword: string): (r: Option<string>)
    ensures r == Some(PasswordsDiffer) <==> newPassword != confirmPassword
    ensures r == Some(PasswordTooShort) <==> newPassword == confirmPassword && Utf16Length(newPassword) < MinPasswordLength
    ensures r.None? <==> newPassword == confirmPassword && Utf16Length(newPassword) >= MinPasswordLength
  {
    if newPassword != confirmPassword then Some(PasswordsDiffer)
    else if Utf16Length(newPassword) < MinPasswordLength then Some(PasswordTooShort)
    else None
  }

  class Settings {
    var loading: bool
    var success: string
    var error: string
    var currentPassword: string
    var newPassword: string
    var confirmPassword: string
    var calls: seq<Call>

    constructor ()
      ensures !loading && success == "" && error == ""
      ensures currentPassword == "" && newPassword == "" && confirmPassword == "" && calls == []
    {
      loading := false;
      success := "";
      error := "";
      currentPassword := "";
      newPassword := "";
      confirmPassword := "";
      calls := [];
    }

    /** handleProfileUpdate: the update, then a profile refetch when it succeeded. */
    method HandleProfileUpdate(userId: Id, form: ProfileForm, updateError: Option<string>)
      modifies this
      ensures updateError.Some? ==> calls == old(calls) + [UpdateProfile(userId, form)]
      ensures updateError.Some? ==> error == updateError.value && success == ""
      ensures updateError.None? ==> calls == old(calls) + [UpdateProfile(userId, form), FetchProfile(userId)]
      ensures updateError.None? ==> error == "" && success == ProfileSaved
      ensures !loading
      ensures currentPassword == old(currentPassword) && newPassword == old(newPassword) && confirmPassword == old(confirmPassword)
    {
      loading := true;
      error := "";
      success := "";
      calls := calls + [UpdateProfile(userId, form)];
      if updateError.Some? {
        error := updateError.value;
      } else {
        calls := calls + [FetchProfile(userId)];
        success := ProfileSaved;
      }
      loading := false;
    }

    /**
     * handlePasswordChange. A failed local check only sets the error (the success message
     * stays and nothing is called); a successful change empties all three fields.
     */
    method HandlePasswordChange(updateError: Option<string>)
      modifies this
      ensures var problem := PasswordProblem(old(newPassword), old(confirmPassword));
              && (problem.Some? ==>
                    && error == problem.value && success == old(success) && calls == old(calls)
                    && loading == old(loading)
                    && currentPassword == old(currentPassword) && newPassword == old(newPassword)
                    && confirmPassword == old(confirmPassword))
              && (problem.None? ==> calls == old(calls) + [UpdatePassword(old(newPassword))] && !loading)
              && (problem.None? && updateError.Some? ==>
                    && error == updateError.value && success == ""
                    && currentPassword == old(currentPassword) && newPassword == old(newPassword)
                    && confirmPassword == old(confirmPassword))
              && (problem.None? && updateError.None? ==>
                    error == "" && success == PasswordSaved
                    && currentPassword == "" && newPassword == "" && confirmPassword == "")
    {
      if newPassword != confirmPassword {
        error := PasswordsDiffer;
        return;
      }
      if Utf16Length(newPassword) < MinPasswordLength {
        error := PasswordTooShort;
        return;
      }
      loading := true;
      error := "";
      success := "";
      calls := calls + [UpdatePassword(newPassword)];
      if updateError.Some? {
        error := updateError.value;
      } else {
        success := PasswordSaved;
        currentPassword := "";
        newPassword := "";
        confirmPassword := "";
      }
      loading := false;
    }

    /** handleEmailUpdate. */
    method HandleEmailUpdate(newEmail: string, updateError: Option<string>)
      modifies this
      ensures calls == old(calls) + [UpdateEmail(newEmail)] && !loading
      ensures updateError.Some? ==> error == updateError.value && success == ""
      ensures updateError.None? ==> error == "" && success == EmailPending
      ensures currentPassword == old(currentPassword) && newPassword == old(newPassword) && confirmPassword == old(confirmPassword)
    {
      loading := true;
      error := "";
      success := "";
      calls := calls + [UpdateEmail(newEmail)];
      if updateError.Some? {
        error := updateError.value;
      } else {
        success := EmailPending;
      }
      loading := false;
    }
  }
}
