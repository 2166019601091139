/**
 * The sign-in / register page: a submit needs a username and an email; sign-in makes a
 * local user record from the form, and registration goes through the store's createUser.
 */
module AccountPage {
  import opened Wrappers
  import opened Records
  import opened JsStrings
  import opened Store

  const FillEverything := "Vui lòng điền đầy đủ thông tin!"
  const RegisterFailed := "Có lỗi xảy ra khi tạo tài khoản!"

  /** The form's four fields. */
  datatype FormData = FormData(username: string, email: string, bio: string, avatarUrl: string)

  const EmptyForm := FormData("", "", "", "")

  /** Both required fields hold something other than whitespace. */
  predicate Complete(form: FormData) {
    !IsBlank(form.username) && !IsBlank(form.email)
  }

  /** The user a sign-in makes: the form as typed (untrimmed), with the clock reading as id. */
  function SignedInUser(form: FormData, now: nat): User {
    User(NatToString(now), form.username, form.email, form.bio, form.avatarUrl)
  }

  class Account {
    var isLogin: bool
    var formData: FormData
    var error: string

    constructor ()
      ensures isLogin && formData == EmptyForm && error == ""
    {
      isLogin := true;
      formData := EmptyForm;
      error := "";
    }

    /**
     * handleSubmit. `now` is `Date.now()`, `createdAt` the ISO time and `reply` what the
     * backend answers a registration with.
     */
    method HandleSubmit(app: Provider, now: nat, createdAt: string, reply: Response<User>)
      modifies this, app
      ensures !Complete(formData) ==>
                error == FillEverything && app.state == old(app.state) && app.calls == old(app.calls)
      ensures Complete(formData) && isLogin ==>
                && app.state == old(app.state).(currentUser := Some(SignedInUser(formData, now)))
                && app.calls == old(app.calls) && error == ""
      ensures Complete(formData) && !isLogin ==>
                && app.calls == old(app.calls)
                     + [InsertUser(UserDraft(formData.username, formData.email, formData.bio, formData.avatarUrl, createdAt))]
                && (reply.Ok? ==> app.state.currentUser == Some(reply.data) && error == "")
                && (reply.Err? ==> app.state.currentUser == old(app.state.currentUser)
                                   && error == (if reply.message == [] then RegisterFailed else reply.message))
                && (reply.Ok? ==> app.state == old(app.state).(users := [reply.data] + old(app.state.users),
                                                               currentUser := Some(reply.data), loading := false))
                && (reply.Err? ==> app.state == old(app.state).(error := Some(reply.message), loading := false))
      ensures isLogin == old(isLogin) && formData == old(formData)
    {
      error := "";
      if IsBlank(formData.username) || IsBlank(formData.email) {
        error := FillEverything;
        return;
      }
      if isLogin {
        app.SetCurrentUser(Some(SignedInUser(formData, now)));
      } else {
        var userData := UserDraft(formData.username, formData.email, formData.bio, formData.avatarUrl, createdAt);
        var result := app.CreateUser(userData, reply);
        if result.Success? {
          app.SetCurrentUser(Some(result.data));
        } else {
          error := if result.error == [] then RegisterFailed else result.error;
        }
      }
    }

    /** handleLogout: nobody is signed in and the form is empty again. */
    method HandleLogout(app: Provider)
      modifies this, app
      ensures app.state == old(app.state).(currentUser := None) && app.calls == old(app.calls)
      ensures formData == EmptyForm && isLogin == old(isLogin) && error == old(error)
    {
      app.SetCurrentUser(None);
      formData := EmptyForm;
    }
  }
}
