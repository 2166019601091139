/**
 * The profile page under `/profile/:userId?`: whose profile it shows, its three tabs, the
 * follow button with its local counter, and the loads its mount effect starts.
 */
module ProfileView {
  import opened Wrappers
  import opened Records
  import opened Seqs

  /** `userId || currentUser?.id`: the route parameter when given, else the signed-in user. */
  function TargetUserId(routeUserId: Option<Id>, currentUser: Option<User>): (r: Option<Id>)
    ensures Truthy(routeUserId) ==> r == routeUserId
    ensures !Truthy(routeUserId) && currentUser.Some? ==> r == Some(currentUser.value.id)
    ensures !Truthy(routeUserId) && currentUser.None? ==> r.None?
  {
    if Truthy(routeUserId) then routeUserId
    else if currentUser.Some? then Some(currentUser.value.id)
    else None
  }

  /** `currentUser?.id`. */
  function CurrentId(currentUser: Option<User>): Option<Id> {
    if currentUser.Some? then Some(currentUser.value.id) else None
  }

  /** `targetUserId === currentUser?.id`: two missing values are equal too. */
  predicate IsOwnProfile(target: Option<Id>, currentUser: Option<User>) {
    target == CurrentId(currentUser)
  }

  /**
   * Without a route parameter the page is the viewer's own, signed in or not; with one, only
   * when it is the viewer's id. The page has nobody to load only without both.
   */
  lemma OwnProfileIff(routeUserId: Option<Id>, currentUser: Option<User>)
    ensures !Truthy(routeUserId) ==> IsOwnProfile(TargetUserId(routeUserId, currentUser), currentUser)
    ensures Truthy(routeUserId) ==>
      (IsOwnProfile(TargetUserId(routeUserId, currentUser), currentUser)
       <==> currentUser.Some? && currentUser.value.id == routeUserId.value)
    ensures TargetUserId(routeUserId, currentUser).None? <==> !Truthy(routeUserId) && currentUser.None?
  {
  }

  /** `post.image_url || post.audio_url`. */
  predicate HasMedia(post: FeedPost) {
    Truthy(post.imageUrl) || Truthy(post.audioUrl)
  }

  /** The tabs the page offers; any other id falls to the default branch of the switch. */
  datatype Tab = PostsTab | MediaTab | LikesTab | OtherTab(id: string)

  /** getFilteredPosts. */
  function FilteredPosts(tab: Tab, posts: seq<FeedPost>): seq<FeedPost> {
    match tab
    case MediaTab => Filter(posts, HasMedia)
    case LikesTab => []
    case _ => posts
  }

  /** The counters shown beside the tab names. */
  datatype TabCounts = TabCounts(posts: nat, media: nat, likes: int)

  function Counts(posts: seq<FeedPost>, profile: Option<Profile>): TabCounts {
    TabCounts(|posts|, |Filter(posts, HasMedia)|,
              if profile.Some? then profile.value.likesCount.GetOr(0) else 0)
  }

  /**
   * The media tab holds exactly the posts with an image or a recording, keeps their order
   * over any cut of the list, and its counter is the number of posts it shows.
   */
  lemma MediaTabExact(posts: seq<FeedPost>, front: seq<FeedPost>, back: seq<FeedPost>, profile: Option<Profile>)
    requires posts == front + back
    ensures forall p :: p in FilteredPosts(MediaTab, posts) <==> p in posts && HasMedia(p)
    ensures FilteredPosts(MediaTab, posts) == FilteredPosts(MediaTab, front) + FilteredPosts(MediaTab, back)
    ensures Counts(posts, profile).media == |FilteredPosts(MediaTab, posts)| == CountIf(posts, HasMedia)
  {
    FilterMembers(posts, HasMedia);
    FilterAppend(front, back, HasMedia);
    FilterLength(posts, HasMedia);
  }

  /** The likes tab is always empty, and the posts tab, like any unknown tab, shows every post. */
  lemma OtherTabs(posts: seq<FeedPost>, other: string, profile: Option<Profile>)
    ensures FilteredPosts(LikesTab, posts) == []
    ensures FilteredPosts(PostsTab, posts) == posts == FilteredPosts(OtherTab(other), posts)
    ensures Counts(posts, profile).posts == |FilteredPosts(PostsTab, posts)|
  {
  }

  /** `x || 0` for a counter the row may lack (a stored 0 reads as 0 either way). */
  function CountOr(c: Option<int>): int {
    c.GetOr(0)
  }

  /** The remote calls the page makes. */
  datatype Call =
    | FetchProfile(userId: Id)
    | FetchPosts(userId: Id)
    | FetchFollow(followerId: Id, followingId: Id)
    | Unfollow(followerId: Id, followingId: Id)
    | Follow(followerId: Id, followingId: Id)

  class ProfilePage {
    const target: Option<Id>
    const viewer: Option<User>
    var profile: Option<Profile>
    var posts: seq<FeedPost>
    var loading: bool
    var isFollowing: bool
    var followersCount: int
    var followingCount: int
    var calls: seq<Call>

    constructor (routeUserId: Option<Id>, currentUser: Option<User>)
      ensures target == TargetUserId(routeUserId, currentUser) && viewer == currentUser
      ensures profile.None? && posts == [] && loading && !isFollowing
      ensures followersCount == 0 && followingCount == 0 && calls == []
    {
      target := TargetUserId(routeUserId, currentUser);
      viewer := currentUser;
      profile := None;
      posts := [];
      loading := true;
      isFollowing := false;
      followersCount := 0;
      followingCount := 0;
      calls := [];
    }

    /** fetchProfile: a failed lookup is only logged; a row sets the profile and both counters. */
    method FetchProfileRow(id: Id, reply: Response<Option<Profile>>)
      modifies this
      ensures calls == old(calls) + [FetchProfile(id)]
      ensures reply.Err? ==> profile == old(profile) && followersCount == old(followersCount) && followingCount == old(followingCount)
      ensures reply.Ok? ==> profile == reply.data
      ensures reply.Ok? ==> followersCount == (if reply.data.Some? then CountOr(reply.data.value.followersCount) else 0)
      ensures reply.Ok? ==> followingCount == (if reply.data.Some? then CountOr(reply.data.value.followingCount) else 0)
      ensures posts == old(posts) && loading == old(loading) && isFollowing == old(isFollowing)
    {
      calls := calls + [FetchProfile(id)];
      if reply.Ok? {
        profile := reply.data;
        followersCount := if reply.data.Some? then CountOr(reply.data.value.followersCount) else 0;
        followingCount := if reply.data.Some? then CountOr(reply.data.value.followingCount) else 0;
      }
    }

    /** fetchPosts: the rows (`data || []`) replace the list unless the query failed; loading ends either way. */
    method FetchPostRows(id: Id, reply: Response<Option<seq<FeedPost>>>)
      modifies this
      ensures calls == old(calls) + [FetchPosts(id)]
      ensures posts == if reply.Err? then old(posts) else reply.data.GetOr([])
      ensures !loading
      ensures profile == old(profile) && isFollowing == old(isFollowing)
      ensures followersCount == old(followersCount) && followingCount == old(followingCount)
    {
      calls := calls + [FetchPosts(id)];
      if reply.Ok? {
        posts := reply.data.GetOr([]);
      }
      loading := false;
    }

    /**
     * checkFollowStatus: following exactly when the lookup finds a row. With nobody signed in,
     * reading `currentUser.id` throws and the catch also means "not following".
     */
    method CheckFollowStatus(id: Id, rowFound: bool)
      modifies this
      ensures viewer.Some? ==> calls == old(calls) + [FetchFollow(viewer.value.id, id)]
      ensures viewer.None? ==> calls == old(calls)
      ensures isFollowing == (viewer.Some? && rowFound)
      ensures profile == old(profile) && posts == old(posts) && loading == old(loading)
      ensures followersCount == old(followersCount) && followingCount == old(followingCount)
    {
      if viewer.None? {
        isFollowing := false;
        return;
      }
      calls := calls + [FetchFollow(viewer.value.id, id)];
      isFollowing := rowFound;
    }

    /**
     * The mount effect: nothing without a target (the page then stays on its spinner); else
     * the profile and the posts, and the follow lookup only for someone else's profile.
     */
    method Mount(profileReply: Response<Option<Profile>>, postsReply: Response<Option<seq<FeedPost>>>, rowFound: bool)
      modifies this
      ensures !Truthy(target) ==> calls == old(calls) && loading == old(loading) && isFollowing == old(isFollowing)
      ensures !Truthy(target) ==>
                profile == old(profile) && posts == old(posts)
                && followersCount == old(followersCount) && followingCount == old(followingCount)
      ensures Truthy(target) ==> profile == (if profileReply.Err? then old(profile) else profileReply.data)
      ensures Truthy(target) ==>
                followersCount == (if profileReply.Err? then old(followersCount)
                                   else if profileReply.data.Some? then CountOr(profileReply.data.value.followersCount) else 0)
                && followingCount == (if profileReply.Err? then old(followingCount)
                                      else if profileReply.data.Some? then CountOr(profileReply.data.value.followingCount) else 0)
      ensures Truthy(target) && IsOwnProfile(target, viewer) ==>
                calls == old(calls) + [FetchProfile(target.value), FetchPosts(target.value)]
                && isFollowing == old(isFollowing)
      ensures Truthy(target) && !IsOwnProfile(target, viewer) ==>
                calls == old(calls) + [FetchProfile(target.value), FetchPosts(target.value)]
                                     + (if viewer.Some? then [FetchFollow(viewer.value.id, target.value)] else [])
                && isFollowing == (viewer.Some? && rowFound)
      ensures Truthy(target) ==> !loading && posts == (if postsReply.Err? then old(posts) else postsReply.data.GetOr([]))
    {
      if !Truthy(target) {
        return;
      }
      FetchProfileRow(target.value, profileReply);
      FetchPostRows(target.value, postsReply);
      if !IsOwnProfile(target, viewer) {
        CheckFollowStatus(target.value, rowFound);
      }
    }

    /**
     * handleFollow. Following: delete the row and lower the counter; otherwise insert one and
     * raise it. A rejected write (`throws`) or no signed-in user (`currentUser.id` throws)
     * changes nothing locally. The button only appears once a profile has loaded, which
     * takes a target.
     */
    method HandleFollow(throws: bool)
      requires target.Some?
      modifies this
      ensures viewer.None? ==> calls == old(calls) && isFollowing == old(isFollowing) && followersCount == old(followersCount)
      ensures viewer.Some? ==>
                calls == old(calls) + [if old(isFollowing) then Unfollow(viewer.value.id, target.value)
                                       else Follow(viewer.value.id, target.value)]
      ensures viewer.Some? && throws ==> isFollowing == old(isFollowing) && followersCount == old(followersCount)
      ensures viewer.Some? && !throws ==>
                isFollowing == !old(isFollowing)
                && followersCount == old(followersCount) + (if old(isFollowing) then -1 else 1)
      ensures followingCount == old(followingCount) && posts == old(posts) && profile == old(profile)
    {
      if viewer.None? {
        return;
      }
      if isFollowing {
        calls := calls + [Unfollow(viewer.value.id, target.value)];
        if throws {
          return;
        }
        followersCount := followersCount - 1;
      } else {
        calls := calls + [Follow(viewer.value.id, target.value)];
        if throws {
          return;
        }
        followersCount := followersCount + 1;
      }
      isFollowing := !isFollowing;
    }
  }
}
