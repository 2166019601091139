/**
 * The application store: the record every page reads, the reducer that computes each new
 * record from the old one and an action, and the provider's actions, which dispatch
 * `SET_LOADING` and then a success action or `SET_ERROR` according to the backend's reply.
 */
module Store {
  import opened Wrappers
  import opened Records
  import opened Seqs

  datatype AppState = AppState(
    users: seq<User>,
    posts: seq<Post>,
    currentUser: Option<User>,
    loading: bool,
    error: Option<string>)

  /** The record the store starts from: empty collections, nobody signed in, idle, no error. */
  const InitialState := AppState([], [], None, false, None)

  /** The action types the reducer understands, and any other type tag. */
  datatype Action =
    | SetLoading(on: bool)
    | SetError(message: Option<string>)
    | SetUsers(userList: seq<User>)
    | SetPosts(postList: seq<Post>)
    | AddPost(post: Post)
    | DeletePost(postId: Id)
    | SetCurrentUser(user: Option<User>)
    | AddUser(newUser: User)
    | Unknown(tag: string)

  /** `post => post.id !== postId`, the test DELETE_POST filters by. */
  function NotId(postId: Id): Post -> bool {
    (p: Post) => p.id != postId
  }

  /**
   * appReducer. Each field changes only under the actions that own it; the actions that
   * write a collection or an error also end loading; an unknown type changes nothing.
   */
  function Reduce(s: AppState, a: Action): (r: AppState)
    ensures r.currentUser != s.currentUser ==> a.SetCurrentUser?
    ensures r.users != s.users ==> a.SetUsers? || a.AddUser?
    ensures r.posts != s.posts ==> a.SetPosts? || a.AddPost? || a.DeletePost?
    ensures r.error != s.error ==> a.SetError?
    ensures r.loading != s.loading ==> !a.SetCurrentUser? && !a.Unknown?
    ensures !a.SetLoading? && !a.SetCurrentUser? && !a.Unknown? ==> !r.loading
    ensures a.Unknown? ==> r == s
    ensures a.AddPost? ==> |r.posts| == |s.posts| + 1 && r.posts[0] == a.post && r.posts[1..] == s.posts
    ensures a.AddUser? ==> |r.users| == |s.users| + 1 && r.users[0] == a.newUser && r.users[1..] == s.users
    ensures a.DeletePost? ==> forall p :: p in r.posts <==> p in s.posts && p.id != a.postId
  {
    match a
    case SetLoading(on) => s.(loading := on)
    case SetError(message) => s.(error := message, loading := false)
    case SetUsers(users) => s.(users := users, loading := false)
    case SetPosts(posts) => s.(posts := posts, loading := false)
    case AddPost(post) => s.(posts := [post] + s.posts, loading := false)
    case DeletePost(postId) =>
      FilterMembers(s.posts, NotId(postId));
      s.(posts := Filter(s.posts, NotId(postId)), loading := false)
    case SetCurrentUser(user) => s.(currentUser := user)
    case AddUser(user) => s.(users := [user] + s.users, loading := false)
    case Unknown(_) => s
  }

  /** Adding a post with a fresh id and then deleting that id gives back the old posts. */
  lemma DeleteUndoesAdd(s: AppState, p: Post)
    requires forall q :: q in s.posts ==> q.id != p.id
    ensures Reduce(Reduce(s, AddPost(p)), DeletePost(p.id)).posts == s.posts
  {
    var ps := [p] + s.posts;
    assert ps[1..] == s.posts;
    FilterAll(s.posts, NotId(p.id));
  }

  /** Deleting the same id twice is the same as deleting it once. */
  lemma DeleteIdempotent(s: AppState, postId: Id)
    ensures Reduce(Reduce(s, DeletePost(postId)), DeletePost(postId)) == Reduce(s, DeletePost(postId))
  {
    FilterIdempotent(s.posts, NotId(postId));
  }

  /** Deletions of two ids may happen in either order. */
  lemma DeletesCommute(s: AppState, a: Id, b: Id)
    ensures Reduce(Reduce(s, DeletePost(a)), DeletePost(b)) == Reduce(Reduce(s, DeletePost(b)), DeletePost(a))
  {
    FilterCommutes(s.posts, NotId(a), NotId(b));
  }

  /** DELETE_POST keeps the surviving posts in their original order: it splits over any cut of the feed. */
  lemma DeleteKeepsOrder(s: AppState, front: seq<Post>, back: seq<Post>, postId: Id)
    requires s.posts == front + back
    ensures Reduce(s, DeletePost(postId)).posts
         == Reduce(s.(posts := front), DeletePost(postId)).posts + Reduce(s.(posts := back), DeletePost(postId)).posts
  {
    FilterAppend(front, back, NotId(postId));
  }

  /** The backend calls the provider makes, with the payload each one sends. */
  datatype Call = GetUsers | GetPosts | InsertUser(user: UserDraft) | InsertPost(post: PostDraft) | RemovePost(postId: Id)

  /**
   * The provider: the one shared record, the actions dispatched to it so far and the backend
   * calls made so far. Each action takes the reply its backend call resolves to as a parameter.
   */
  class Provider {
    var state: AppState
    var dispatched: seq<Action>
    var calls: seq<Call>

    constructor ()
      ensures state == InitialState && dispatched == [] && calls == []
    {
      state := InitialState;
      dispatched := [];
      calls := [];
    }

    /** `dispatch`: the reducer's result becomes the state. */
    method Dispatch(a: Action)
      modifies this
      ensures state == Reduce(old(state), a)
      ensures dispatched == old(dispatched) + [a] && calls == old(calls)
    {
      state := Reduce(state, a);
      dispatched := dispatched + [a];
    }

    /** loadUsers: the list is replaced wholesale (`data || []`), or kept when the fetch fails. */
    method LoadUsers(reply: Response<Option<seq<User>>>)
      modifies this
      ensures calls == old(calls) + [GetUsers]
      ensures reply.Err? ==> dispatched == old(dispatched) + [SetLoading(true), SetError(Some(reply.message))]
      ensures reply.Ok? ==> dispatched == old(dispatched) + [SetLoading(true), SetUsers(reply.data.GetOr([]))]
      ensures state.users == if reply.Err? then old(state.users) else reply.data.GetOr([])
      ensures state.error == if reply.Err? then Some(reply.message) else old(state.error)
      ensures state.posts == old(state.posts) && state.currentUser == old(state.currentUser) && !state.loading
      ensures state == if reply.Err? then old(state).(error := Some(reply.message), loading := false)
                       else old(state).(users := reply.data.GetOr([]), loading := false)
    {
      Dispatch(SetLoading(true));
      calls := calls + [GetUsers];
      if reply.Err? {
        Dispatch(SetError(Some(reply.message)));
      } else {
        Dispatch(SetUsers(reply.data.GetOr([])));
      }
    }

    /** loadPosts: as loadUsers, for the feed. */
    method LoadPosts(reply: Response<Option<seq<Post>>>)
      modifies this
      ensures calls == old(calls) + [GetPosts]
      ensures reply.Err? ==> dispatched == old(dispatched) + [SetLoading(true), SetError(Some(reply.message))]
      ensures reply.Ok? ==> dispatched == old(dispatched) + [SetLoading(true), SetPosts(reply.data.GetOr([]))]
      ensures state.posts == if reply.Err? then old(state.posts) else reply.data.GetOr([])
      ensures state.error == if reply.Err? then Some(reply.message) else old(state.error)
      ensures state.users == old(state.users) && state.currentUser == old(state.currentUser) && !state.loading
      ensures state == if reply.Err? then old(state).(error := Some(reply.message), loading := false)
                       else old(state).(posts := reply.data.GetOr([]), loading := false)
    {
      Dispatch(SetLoading(true));
      calls := calls + [GetPosts];
      if reply.Err? {
        Dispatch(SetError(Some(reply.message)));
      } else {
        Dispatch(SetPosts(reply.data.GetOr([])));
      }
    }

    /** createUser: the inserted row (`data[0]`) is prepended to the users and handed back. */
    method CreateUser(draft: UserDraft, reply: Response<User>) returns (out: Outcome<User>)
      modifies this
      ensures calls == old(calls) + [InsertUser(draft)]
      ensures reply.Err? ==> out == Failure(reply.message) && state.users == old(state.users)
      ensures reply.Err? ==> state.error == Some(reply.message)
      ensures reply.Ok? ==> out == Success(reply.data) && state.users == [reply.data] + old(state.users)
      ensures reply.Ok? ==> state.error == old(state.error)
      ensures state.posts == old(state.posts) && state.currentUser == old(state.currentUser) && !state.loading
      ensures state == if reply.Err? then old(state).(error := Some(reply.message), loading := false)
                       else old(state).(users := [reply.data] + old(state.users), loading := false)
    {
      Dispatch(SetLoading(true));
      calls := calls + [InsertUser(draft)];
      if reply.Err? {
        Dispatch(SetError(Some(reply.message)));
        out := Failure(reply.message);
      } else {
        Dispatch(AddUser(reply.data));
        out := Success(reply.data);
      }
    }

    /**
     * createPost: the inserted row, with the signed-in user attached as its author, is
     * prepended to the feed; the caller gets the row as the backend returned it.
     */
    method CreatePost(draft: PostDraft, reply: Response<Post>) returns (out: Outcome<Post>)
      modifies this
      ensures calls == old(calls) + [InsertPost(draft)]
      ensures reply.Err? ==> out == Failure(reply.message) && state.posts == old(state.posts)
      ensures reply.Err? ==> state.error == Some(reply.message)
      ensures reply.Ok? ==> out == Success(reply.data)
      ensures reply.Ok? ==> state.posts == [reply.data.(author := old(state.currentUser))] + old(state.posts)
      ensures reply.Ok? ==> state.error == old(state.error)
      ensures state.users == old(state.users) && state.currentUser == old(state.currentUser) && !state.loading
      ensures state == if reply.Err? then old(state).(error := Some(reply.message), loading := false)
                       else old(state).(posts := [reply.data.(author := old(state.currentUser))] + old(state.posts), loading := false)
    {
      var author := state.currentUser;
      Dispatch(SetLoading(true));
      calls := calls + [InsertPost(draft)];
      if reply.Err? {
        Dispatch(SetError(Some(reply.message)));
        out := Failure(reply.message);
      } else {
        Dispatch(AddPost(reply.data.(author := author)));
        out := Success(reply.data);
      }
    }

    /** deletePost: the posts with that id leave the feed only when the backend reports no error. */
    method DeletePost(postId: Id, reply: Response<()>) returns (out: Outcome<()>)
      modifies this
      ensures calls == old(calls) + [RemovePost(postId)]
      ensures reply.Err? ==> out == Failure(reply.message) && state.posts == old(state.posts)
      ensures reply.Err? ==> state.error == Some(reply.message)
      ensures reply.Ok? ==> out == Success(()) && state.error == old(state.error)
      ensures reply.Ok? ==> forall p :: p in state.posts <==> p in old(state.posts) && p.id != postId
      ensures reply.Ok? ==> state == Reduce(old(state), Action.DeletePost(postId))
      ensures reply.Err? ==> state == old(state).(error := Some(reply.message), loading := false)
      ensures state.users == old(state.users) && state.currentUser == old(state.currentUser) && !state.loading
    {
      Dispatch(SetLoading(true));
      calls := calls + [RemovePost(postId)];
      if reply.Err? {
        Dispatch(SetError(Some(reply.message)));
        out := Failure(reply.message);
      } else {
        Dispatch(Action.DeletePost(postId));
        out := Success(());
      }
    }

    /** setCurrentUser: only the signed-in user changes. */
    method SetCurrentUser(user: Option<User>)
      modifies this
      ensures state == old(state).(currentUser := user)
      ensures dispatched == old(dispatched) + [Action.SetCurrentUser(user)] && calls == old(calls)
    {
      Dispatch(Action.SetCurrentUser(user));
    }

    /** clearError: SET_ERROR with no message, which also ends loading. */
    method ClearError()
      modifies this
      ensures state == old(state).(error := None, loading := false)
      ensures dispatched == old(dispatched) + [SetError(None)] && calls == old(calls)
    {
      Dispatch(SetError(None));
    }

    /** The provider's mount effect: loadUsers, then loadPosts. */
    method Mount(usersReply: Response<Option<seq<User>>>, postsReply: Response<Option<seq<Post>>>)
      modifies this
      ensures calls == old(calls) + [GetUsers, GetPosts]
      ensures state.users == if usersReply.Err? then old(state.users) else usersReply.data.GetOr([])
      ensures state.posts == if postsReply.Err? then old(state.posts) else postsReply.data.GetOr([])
      ensures state.currentUser == old(state.currentUser) && !state.loading
      ensures state.error == if postsReply.Err? then Some(postsReply.message)
                             else if usersReply.Err? then Some(usersReply.message)
                             else old(state.error)
    {
      LoadUsers(usersReply);
      LoadPosts(postsReply);
    }
  }
}
