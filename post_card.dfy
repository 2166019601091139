/**
 * The post card that the news feed and the profile page render: a relative date, and a
 * like button that writes the likes table directly and keeps its own heart and counter.
 */
module PostCardView {
  import opened Wrappers
  import opened Records
  import opened JsStrings

  const HourMs := 3_600_000
  const DayMs := 86_400_000
  const WeekMs := 604_800_000

  /** `Math.floor(ms / 3600000) / 24`, floored again, is the number of whole days. */
  lemma WholeDays(ms: int)
    ensures ms / HourMs / 24 == ms / DayMs
  {
    var q := ms / DayMs;
    var r := ms % DayMs;
    assert ms == q * DayMs + r && 0 <= r < DayMs;
    assert ms == (q * 24 + r / HourMs) * HourMs + r % HourMs;
    assert ms / HourMs == q * 24 + r / HourMs;
  }

  /**
   * formatDate, given `now - date` in milliseconds and the locale's rendering of the date.
   * Hours are floored, so a date in the future also reads "Just now".
   */
  function FormatDate(diffMs: int, localeDate: string): (r: string)
    ensures diffMs < HourMs ==> r == "Just now"
    ensures HourMs <= diffMs < DayMs ==>
      1 <= diffMs / HourMs < 24 && r == NatToString(diffMs / HourMs) + "h ago"
    ensures DayMs <= diffMs < WeekMs ==>
      1 <= diffMs / DayMs < 7 && r == NatToString(diffMs / DayMs) + "d ago"
    ensures WeekMs <= diffMs ==> r == localeDate
  {
    var hours := diffMs / HourMs;
    WholeDays(diffMs);
    if hours < 1 then "Just now"
    else if hours < 24 then NatToString(hours) + "h ago"
    else if hours < 168 then NatToString(hours / 24) + "d ago"
    else localeDate
  }

  /** `post?.likes?.length || 0`, as written: the number of entries in the embedded list. */
  function InitialCountAsWritten(likes: Option<seq<LikeEntry>>): nat {
    if likes.Some? then |likes.value| else 0
  }

  /**
   * A `likes (count)` embed is one `{ count }` entry, so the card as written starts every
   * such post at 1, whatever the real number of likes.
   */
  lemma CountEmbedReadsOne(n: nat)
    ensures InitialCountAsWritten(Some([CountRow(n)])) == 1
    ensures n != 1 ==> InitialCountAsWritten(Some([CountRow(n)])) != LikesTotal(Some([CountRow(n)]))
  {
    assert [CountRow(n)][1..] == [];
    assert EntriesTotal([CountRow(n)]) == n + EntriesTotal([]);
  }

  /** The number of likes an embedded list stands for: one per row, `count` per count entry. */
  function LikesTotal(likes: Option<seq<LikeEntry>>): nat {
    if likes.None? then 0 else EntriesTotal(likes.value)
  }

  function EntriesTotal(entries: seq<LikeEntry>): nat {
    if entries == [] then 0
    else (match entries[0] case LikeRow(_) => 1 case CountRow(n) => n) + EntriesTotal(entries[1..])
  }

  /** The corrected count reads a count embed, and agrees with the length on a list of whole rows. */
  lemma {:induction false} LikesTotalIsCount(entries: seq<LikeEntry>, n: nat)
    ensures LikesTotal(Some([CountRow(n)])) == n
    ensures (forall i :: 0 <= i < |entries| ==> entries[i].LikeRow?) ==>
              LikesTotal(Some(entries)) == |entries| == InitialCountAsWritten(Some(entries))
  {
    assert [CountRow(n)][1..] == [];
    assert EntriesTotal([CountRow(n)]) == n + EntriesTotal([]);
    RowsTotal(entries);
  }

  lemma {:induction false} RowsTotal(entries: seq<LikeEntry>)
    ensures (forall i :: 0 <= i < |entries| ==> entries[i].LikeRow?) ==> EntriesTotal(entries) == |entries|
  {
    if entries != [] {
      RowsTotal(entries[1..]);
      assert forall i :: 0 <= i < |entries| - 1 ==> entries[1..][i] == entries[i + 1];
    }
  }

  /** The like writes the card makes: a delete of the pair, or an insert of it. */
  datatype Call = DeleteLike(postId: Id, userId: Id) | InsertLike(postId: Id, userId: Id)

  class PostCard {
    const post: FeedPost
    var liked: bool
    var likesCount: int
    var calls: seq<Call>

    /** The heart starts empty; the counter starts at the post's like total. */
    constructor (post: FeedPost)
      ensures this.post == post && !liked && likesCount == LikesTotal(post.likes) && calls == []
    {
      this.post := post;
      liked := false;
      likesCount := LikesTotal(post.likes);
      calls := [];
    }

    /**
     * handleLike. Without a user, reading `user.id` throws before any write and the catch
     * leaves everything as it was. A write that rejects (`throws`) leaves the heart and the
     * counter alone; otherwise both flip, the counter by one in the heart's new direction.
     */
    method HandleLike(user: Option<User>, throws: bool)
      modifies this
      ensures user.None? ==> calls == old(calls) && liked == old(liked) && likesCount == old(likesCount)
      ensures user.Some? ==>
                calls == old(calls) + [if old(liked) then DeleteLike(post.id, user.value.id) else InsertLike(post.id, user.value.id)]
      ensures user.Some? && throws ==> liked == old(liked) && likesCount == old(likesCount)
      ensures user.Some? && !throws ==>
                liked == !old(liked) && likesCount == old(likesCount) + (if old(liked) then -1 else 1)
    {
      if user.None? {
        return;
      }
      if liked {
        calls := calls + [DeleteLike(post.id, user.value.id)];
        if throws {
          return;
        }
        likesCount := likesCount - 1;
      } else {
        calls := calls + [InsertLike(post.id, user.value.id)];
        if throws {
          return;
        }
        likesCount := likesCount + 1;
      }
      liked := !liked;
    }

    /** Two clicks that both go through restore the heart and the counter, after an insert and a delete. */
    method ClickTwice(user: User)
      modifies this
      ensures liked == old(liked) && likesCount == old(likesCount)
      ensures calls == old(calls) + (if old(liked) then [DeleteLike(post.id, user.id), InsertLike(post.id, user.id)]
                                     else [InsertLike(post.id, user.id), DeleteLike(post.id, user.id)])
    {
      HandleLike(Some(user), false);
      HandleLike(Some(user), false);
    }
  }
}
