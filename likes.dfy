/**
 * `database.toggleLike`: look the (user, post) pair up in the likes table, then delete it
 * when it is there and insert it when it is not, reporting which of the two was attempted.
 */
module Likes {
  import opened Wrappers
  import opened Records

  /** The `action` field of toggleLike's reply. */
  datatype LikeAction = Added | Removed

  /** The table after a toggle of `l` whose write went through. */
  function Toggled(likes: set<Like>, l: Like): (r: set<Like>)
    ensures l in r <==> l !in likes
    ensures forall m :: m != l ==> (m in r <==> m in likes)
  {
    if l in likes then likes - {l} else likes + {l}
  }

  /** The action reported for a lookup that found (`true`) or did not find the pair. */
  function ActionFor(found: bool): LikeAction {
    if found then Removed else Added
  }

  /** Toggling the same pair twice restores the table. */
  lemma ToggleTwiceRestores(likes: set<Like>, l: Like)
    ensures Toggled(Toggled(likes, l), l) == likes
  {
    var once := Toggled(likes, l);
    assert forall m :: m in Toggled(once, l) <==> m in likes;
  }

  /** Two toggles of one pair report one insertion and one deletion. */
  lemma ToggleTwiceReports(likes: set<Like>, l: Like)
    ensures {ActionFor(l in likes), ActionFor(l in Toggled(likes, l))} == {Added, Removed}
  {
  }

  /** The likes table, as a set of (user, post) pairs. */
  class LikeTable {
    var likes: set<Like>

    constructor (initial: set<Like>)
      ensures likes == initial
    {
      likes := initial;
    }

    /**
     * toggleLike. A lookup that fails (`lookupFails`) returns no row, just as a missing pair
     * does, so the insert branch is taken. `writeError` is the error the delete or
     * insert resolves to; a failed write leaves the table as it was. The action is reported
     * from the lookup alone, whatever the write did.
     */
    method ToggleLike(userId: Id, postId: Id, lookupFails: bool, writeError: Option<string>)
      returns (action: LikeAction, error: Option<string>)
      modifies this
      ensures var l := Like(userId, postId);
              var found := !lookupFails && l in old(likes);
              && action == ActionFor(found)
              && error == writeError
              && likes == (if writeError.Some? then old(likes)
                           else if found then old(likes) - {l}
                           else old(likes) + {l})
    {
      var l := Like(userId, postId);
      var found := !lookupFails && l in likes;
      if found {
        if writeError.None? {
          likes := likes - {l};
        }
        action := Removed;
      } else {
        if writeError.None? {
          likes := likes + {l};
        }
        action := Added;
      }
      error := writeError;
    }

    /** Two toggles of one pair that both go through restore the table and report both actions. */
    method ToggleTwice(userId: Id, postId: Id) returns (first: LikeAction, second: LikeAction)
      modifies this
      ensures likes == old(likes)
      ensures {first, second} == {Added, Removed}
      ensures first == (if Like(userId, postId) in old(likes) then Removed else Added)
    {
      ghost var l := Like(userId, postId);
      ghost var before := likes;
      var e;
      first, e := ToggleLike(userId, postId, false, None);
      assert likes == Toggled(before, l);
      second, e := ToggleLike(userId, postId, false, None);
      assert likes == Toggled(Toggled(before, l), l);
      ToggleTwiceRestores(before, l);
    }
  }
}
