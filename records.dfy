/** The rows the front end reads from and writes to the hosted tables. */
module Records {
  import opened Wrappers

  /** Row identifiers (uuids or stringified numbers) are compared only for equality. */
  type Id = string

  datatype User = User(id: Id, username: string, email: string, bio: string, avatarUrl: string)

  /** A post row; `author` is the embedded `users` record a joined select attaches. */
  datatype Post = Post(
    id: Id,
    userId: Id,
    content: string,
    imageUrl: Option<string>,
    audioUrl: Option<string>,
    author: Option<User>)

  datatype Comment = Comment(id: Id, postId: Id, userId: Id, content: string)

  /** A row of the likes table: the presence of (user, post) means "liked". */
  datatype Like = Like(userId: Id, postId: Id)

  /** The payload a page hands to `createPost` (no id yet: the backend assigns it). */
  datatype PostDraft = PostDraft(userId: Id, content: string, imageUrl: Option<string>, createdAt: string)

  /** A file picked in an `<input type="file">`: its name and its size in bytes. */
  datatype File = File(name: string, size: nat)

  /** The payload the register form hands to `createUser`. */
  datatype UserDraft = UserDraft(username: string, email: string, bio: string, avatarUrl: string, createdAt: string)

  /** A JavaScript string value that is truthy: present and not empty. */
  predicate Truthy(s: Option<string>) {
    s.Some? && s.value != ""
  }

  /**
   * One entry of a post's embedded `likes` list: a whole like row, or the single
   * `{ count }` row that a `likes (count)` embed returns instead.
   */
  datatype LikeEntry = LikeRow(likerId: Id) | CountRow(count: nat)

  /** A post row as the pages under `pages/` select it, with its embedded likes, if selected. */
  datatype FeedPost = FeedPost(
    id: Id,
    userId: Id,
    content: string,
    imageUrl: Option<string>,
    audioUrl: Option<string>,
    likes: Option<seq<LikeEntry>>)

  /** A row of the `profiles` table; the counters may be missing. */
  datatype Profile = Profile(
    id: Id,
    username: string,
    email: string,
    verified: bool,
    followersCount: Option<int>,
    followingCount: Option<int>,
    likesCount: Option<int>)

  /** A row of the `verify_requests` table; `updatedAt` is its `updated_at` stamp, which may be null. */
  datatype VerifyRequest = VerifyRequest(id: Id, userId: Id, status: string, updatedAt: Option<string>)
}
