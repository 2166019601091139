/**
 * The text post page: its submit checks for a signed-in user, then for text, and hands the
 * store's createPost a row with the trimmed text and the trimmed image link or null.
 */
module CreatePostPage {
  import opened Wrappers
  import opened Records
  import opened JsStrings
  import opened Store

  const SignInFirst := "Vui lòng đăng nhập để tạo bài viết!"
  const EnterContent := "Vui lòng nhập nội dung bài viết!"
  const CreateFailed := "Có lỗi xảy ra khi tạo bài viết!"

  /** `imageUrl.trim() || null`. */
  function OptionalLink(imageUrl: string): (r: Option<string>)
    ensures r.None? <==> IsBlank(imageUrl)
    ensures r.Some? ==> r.value == Trim(imageUrl) && !IsWhitespace(r.value[0])
  {
    var t := Trim(imageUrl);
    TrimFacts(imageUrl);
    if t == [] then None else Some(t)
  }

  /** `result.error || fallback`: an empty message counts as none. */
  function FailureMessage(message: string, fallback: string): string {
    if message == [] then fallback else message
  }

  /** The row a submit sends for `user` at the ISO time `createdAt`. */
  function Draft(user: User, content: string, imageUrl: string, createdAt: string): PostDraft {
    PostDraft(user.id, Trim(content), OptionalLink(imageUrl), createdAt)
  }

  class CreatePost {
    var content: string
    var imageUrl: string
    var error: string
    var navigatedHome: bool

    constructor ()
      ensures content == "" && imageUrl == "" && error == "" && !navigatedHome
    {
      content := "";
      imageUrl := "";
      error := "";
      navigatedHome := false;
    }

    /**
     * handleSubmit. The user check comes first; only a submit that passes both checks calls
     * the store, and the store's reply decides between going home and showing the message.
     */
    method HandleSubmit(app: Provider, createdAt: string, reply: Response<Post>)
      modifies this, app
      ensures old(app.state.currentUser).None? ==>
                error == SignInFirst && app.state == old(app.state) && app.calls == old(app.calls)
                && navigatedHome == old(navigatedHome)
      ensures old(app.state.currentUser).Some? && IsBlank(content) ==>
                error == EnterContent && app.state == old(app.state) && app.calls == old(app.calls)
                && navigatedHome == old(navigatedHome)
      ensures old(app.state.currentUser).Some? && !IsBlank(content) ==>
                && app.calls == old(app.calls) + [InsertPost(Draft(old(app.state.currentUser).value, content, imageUrl, createdAt))]
                && (reply.Ok? ==> error == "" && navigatedHome)
                && (reply.Err? ==> error == FailureMessage(reply.message, CreateFailed) && navigatedHome == old(navigatedHome))
                && (reply.Ok? ==> app.state.posts == [reply.data.(author := old(app.state.currentUser))] + old(app.state.posts))
                && (reply.Err? ==> app.state.posts == old(app.state.posts))
                && (reply.Ok? ==> app.state == old(app.state).(posts := [reply.data.(author := old(app.state.currentUser))]
                                                                        + old(app.state.posts), loading := false))
                && (reply.Err? ==> app.state == old(app.state).(error := Some(reply.message), loading := false))
      ensures content == old(content) && imageUrl == old(imageUrl)
    {
      var user := app.state.currentUser;
      if user.None? {
        error := SignInFirst;
        return;
      }
      if IsBlank(content) {
        error := EnterContent;
        return;
      }
      error := "";
      var draft := PostDraft(user.value.id, Trim(content), OptionalLink(imageUrl), createdAt);
      var result := app.CreatePost(draft, reply);
      if result.Success? {
        navigatedHome := true;
      } else {
        error := FailureMessage(result.error, CreateFailed);
      }
    }
  }
}
