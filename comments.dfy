/**
 * A post's comment thread: loading it, and a submit that appends the inserted comment at the
 * end of the thread.
 */
module CommentThread {
  import opened Wrappers
  import opened Records
  import opened JsStrings

  /** The row a submit inserts. */
  datatype CommentDraft = CommentDraft(postId: Id, userId: Id, content: string, createdAt: string)

  datatype Call = GetComments(postId: Id) | InsertComment(draft: CommentDraft)

  /** `!newComment.trim() || !currentUser`: the submit does nothing. */
  predicate Ignored(newComment: string, currentUser: Option<User>) {
    IsBlank(newComment) || currentUser.None?
  }

  class CommentSection {
    const postId: Id
    var comments: seq<Comment>
    var newComment: string
    var loading: bool
    var calls: seq<Call>

    constructor (postId: Id)
      ensures this.postId == postId && comments == [] && newComment == "" && !loading && calls == []
    {
      this.postId := postId;
      comments := [];
      newComment := "";
      loading := false;
      calls := [];
    }

    /** loadComments: the thread is replaced only by a reply that has data and no error. */
    method LoadComments(reply: Response<Option<seq<Comment>>>)
      modifies this
      ensures calls == old(calls) + [GetComments(postId)]
      ensures comments == if reply.Ok? && reply.data.Some? then reply.data.value else old(comments)
      ensures newComment == old(newComment) && loading == old(loading)
    {
      calls := calls + [GetComments(postId)];
      if reply.Ok? && reply.data.Some? {
        comments := reply.data.value;
      }
    }

    /**
     * handleSubmit. `reply` is the insert's answer: the stored row, no data, or an error. Only
     * a stored row changes the thread (it goes last) and empties the input.
     */
    method HandleSubmit(currentUser: Option<User>, createdAt: string, reply: Response<Option<Comment>>)
      modifies this
      ensures Ignored(old(newComment), currentUser) ==>
                comments == old(comments) && newComment == old(newComment) && calls == old(calls)
                && loading == old(loading)
      ensures !Ignored(old(newComment), currentUser) ==>
                && calls == old(calls) + [InsertComment(CommentDraft(postId, currentUser.value.id, Trim(old(newComment)), createdAt))]
                && !loading
                && (reply.Ok? && reply.data.Some? ==> comments == old(comments) + [reply.data.value] && newComment == "")
                && (!(reply.Ok? && reply.data.Some?) ==> comments == old(comments) && newComment == old(newComment))
    {
      if IsBlank(newComment) || currentUser.None? {
        return;
      }
      loading := true;
      var commentData := CommentDraft(postId, currentUser.value.id, Trim(newComment), createdAt);
      calls := calls + [InsertComment(commentData)];
      if reply.Ok? && reply.data.Some? {
        comments := comments + [reply.data.value];
        newComment := "";
      }
      loading := false;
    }
  }
}
