/**
 * The feed's post card (the one the home page renders over the store's posts): it loads the
 * post's likes, toggles the signed-in user's like through `toggleLike`, and offers deletion
 * to the post's owner, after a confirmation.
 */
module FeedCard {
  import opened Wrappers
  import opened Records
  import opened Likes
  import opened Store

  const SignInToLike := "Vui lòng đăng nhập để thích bài viết!"

  /** `data.some(like => like.user_id === currentUser?.id)`: nobody signed in matches no row. */
  function LikedBy(rows: seq<Like>, currentUser: Option<User>): (r: bool)
    ensures r <==> currentUser.Some? && exists i :: 0 <= i < |rows| && rows[i].userId == currentUser.value.id
  {
    if rows == [] then false
    else (currentUser.Some? && rows[0].userId == currentUser.value.id) || LikedBy(rows[1..], currentUser)
  }

  /** `canDelete`: a signed-in user who owns the row or is its embedded author. */
  predicate CanDelete(currentUser: Option<User>, post: Post) {
    currentUser.Some? &&
    (currentUser.value.id == post.userId || (post.author.Some? && currentUser.value.id == post.author.value.id))
  }

  /** The store attaches the signed-in user as the author of a new post, so its creator may delete it. */
  lemma CreatorCanDelete(user: User, row: Post)
    ensures CanDelete(Some(user), row.(author := Some(user)))
    ensures !CanDelete(None, row)
  {
  }

  /** The likes of one post in the likes table. */
  function PostLikes(likes: set<Like>, postId: Id): (r: set<Like>)
    ensures forall l :: l in r <==> l in likes && l.postId == postId
  {
    set l | l in likes && l.postId == postId
  }

  /** A successful toggle moves the post's like total by exactly one, in the reported direction. */
  lemma ToggleMovesCount(likes: set<Like>, l: Like)
    ensures |PostLikes(Toggled(likes, l), l.postId)|
         == |PostLikes(likes, l.postId)| + (if l in likes then -1 else 1)
  {
    var before := PostLikes(likes, l.postId);
    var after := PostLikes(Toggled(likes, l), l.postId);
    if l in likes {
      assert after == before - {l};
    } else {
      assert after == before + {l};
    }
  }

  class PostCard {
    const post: Post
    var likes: seq<Like>
    var isLiked: bool
    var likesCount: int
    var alerts: seq<string>

    constructor (post: Post)
      ensures this.post == post
      ensures likes == [] && !isLiked && likesCount == 0 && alerts == []
    {
      this.post := post;
      likes := [];
      isLiked := false;
      likesCount := 0;
      alerts := [];
    }

    /** The card agrees with the table: its heart is the user's row, its count the post's rows. */
    predicate InSync(table: LikeTable, user: User)
      reads this, table
    {
      isLiked == (Like(user.id, post.id) in table.likes) && likesCount == |PostLikes(table.likes, post.id)|
    }

    /** loadLikes: when the query returns rows, the count and the heart are taken from them. */
    method LoadLikes(currentUser: Option<User>, data: Option<seq<Like>>)
      modifies this
      ensures data.None? ==> likes == old(likes) && isLiked == old(isLiked) && likesCount == old(likesCount)
      ensures data.Some? ==> likes == data.value && likesCount == |data.value|
      ensures data.Some? ==> (isLiked <==> currentUser.Some? && exists l :: l in data.value && l.userId == currentUser.value.id)
      ensures alerts == old(alerts)
    {
      if data.Some? {
        likes := data.value;
        likesCount := |data.value|;
        isLiked := LikedBy(data.value, currentUser);
      }
    }

    /**
     * handleLike. Without a user it only alerts. Otherwise the heart and the count follow the
     * action toggleLike reports, whatever became of its write.
     */
    method HandleLike(currentUser: Option<User>, table: LikeTable, lookupFails: bool, writeError: Option<string>)
      modifies this, table
      ensures currentUser.None? ==>
                && alerts == old(alerts) + [SignInToLike] && table.likes == old(table.likes)
                && isLiked == old(isLiked) && likesCount == old(likesCount)
      ensures currentUser.Some? ==>
                var l := Like(currentUser.value.id, post.id);
                var found := !lookupFails && l in old(table.likes);
                && table.likes == (if writeError.Some? then old(table.likes)
                                   else if found then old(table.likes) - {l}
                                   else old(table.likes) + {l})
                && isLiked == !found
                && likesCount == old(likesCount) + (if found then -1 else 1)
                && alerts == old(alerts)
      ensures likes == old(likes)
    {
      if currentUser.None? {
        alerts := alerts + [SignInToLike];
        return;
      }
      var action, _ := table.ToggleLike(currentUser.value.id, post.id, lookupFails, writeError);
      if action == Added {
        isLiked := true;
        likesCount := likesCount + 1;
      } else {
        isLiked := false;
        likesCount := likesCount - 1;
      }
    }

    /**
     * A like that goes through keeps a card that agreed with the table in agreement; a failed
     * write leaves the table alone but still moves the card, which then disagrees with it.
     */
    method LikeKeepsSync(user: User, table: LikeTable, writeError: Option<string>)
      requires InSync(table, user)
      modifies this, table
      ensures writeError.None? ==> InSync(table, user)
      ensures writeError.Some? ==> !InSync(table, user) && table.likes == old(table.likes)
    {
      ghost var before := table.likes;
      HandleLike(Some(user), table, false, writeError);
      if writeError.None? {
        ToggleMovesCount(before, Like(user.id, post.id));
      }
    }

    /** handleDelete: the store's deletePost runs only when the user confirms. */
    method HandleDelete(app: Provider, confirmed: bool, reply: Response<()>)
      modifies app
      ensures !confirmed ==> app.state == old(app.state) && app.calls == old(app.calls)
      ensures confirmed ==> app.calls == old(app.calls) + [RemovePost(post.id)]
      ensures confirmed && reply.Ok? ==> app.state == Reduce(old(app.state), Action.DeletePost(post.id))
      ensures confirmed && reply.Ok? ==> forall p :: p in app.state.posts ==> p.id != post.id
      ensures confirmed && reply.Err? ==> app.state == old(app.state).(error := Some(reply.message), loading := false)
    {
      if confirmed {
        var _ := app.DeletePost(post.id, reply);
      }
    }
  }
}
