/**
 * The admin dashboard: who may see it, the four statistics, the pending verification
 * requests panel with its approve and reject buttons, the recent activity list, and the
 * review handler. The `verify_requests` and `profiles` tables are part of the state here
 * because the review handler writes them.
 */
module AdminPage {
  import opened Wrappers
  import opened Records
  import opened JsStrings
  import opened Seqs

  const AdminEmail := "admin@thazh.social"
  const AdminUsername := "admin"
  const Pending := "pending"
  const Approved := "approved"
  const Rejected := "rejected"
  const PanelSize := 5
  const ExcerptLength := 50

  /** isAdmin: the signed-in profile has the admin address or the admin username. */
  predicate IsAdmin(profile: Option<Profile>) {
    profile.Some? && (profile.value.email == AdminEmail || profile.value.username == AdminUsername)
  }

  /**
   * Either credential alone makes any profile an admin, whatever its other fields; the
   * comparison is exact, so a differently cased address and username admit nobody.
   */
  lemma AdminCredentials(p: Profile)
    ensures IsAdmin(Some(p.(email := "admin@thazh.social"))) && IsAdmin(Some(p.(username := "admin")))
    ensures !IsAdmin(Some(p.(email := "Admin@thazh.social", username := "Admin")))
    ensures !IsAdmin(None)
  {
  }

  datatype Stats = Stats(totalUsers: nat, totalPosts: nat, verifyRequests: nat, todayPosts: nat)

  const NoStats := Stats(0, 0, 0, 0)

  /** The stats record from the four head counts: `count || 0`, a missing count reading as 0. */
  function StatsOf(users: Option<nat>, posts: Option<nat>, pending: Option<nat>, today: Option<nat>): (s: Stats)
    ensures users.Some? ==> s.totalUsers == users.value
    ensures posts.Some? ==> s.totalPosts == posts.value
    ensures pending.Some? ==> s.verifyRequests == pending.value
    ensures today.Some? ==> s.todayPosts == today.value
    ensures users.None? ==> s.totalUsers == 0
    ensures posts.None? ==> s.totalPosts == 0
    ensures pending.None? ==> s.verifyRequests == 0
    ensures today.None? ==> s.todayPosts == 0
    ensures users.None? && posts.None? && pending.None? && today.None? ==> s == NoStats
  {
    Stats(users.GetOr(0), posts.GetOr(0), pending.GetOr(0), today.GetOr(0))
  }

  function IsPending(r: VerifyRequest): bool {
    r.status == Pending
  }

  /** The pending panel: `filter(r => r.status === 'pending').slice(0, 5)`. */
  function PendingPanel(requests: seq<VerifyRequest>): seq<VerifyRequest> {
    Take(Filter(requests, IsPending), PanelSize)
  }

  /**
   * The panel shows at most five requests, all pending, and they are the first pending ones
   * in the list's order: all of them when there are at most five, else exactly five.
   */
  lemma PendingPanelFacts(requests: seq<VerifyRequest>)
    ensures var panel := PendingPanel(requests);
      && |panel| <= 5
      && |panel| == (if CountIf(requests, IsPending) < 5 then CountIf(requests, IsPending) else 5)
      && (forall i :: 0 <= i < |panel| ==> panel[i].status == "pending" && panel[i] in requests)
      && panel <= Filter(requests, IsPending)
      && (CountIf(requests, IsPending) <= 5 ==> forall r :: r in requests && r.status == "pending" <==> r in panel)
  {
    FilterLength(requests, IsPending);
    FilterMembers(requests, IsPending);
  }

  /** A review button: the request it acts on and the status it sets. */
  datatype Review = Review(requestId: Id, status: string)

  /** The buttons the full list offers: approve and reject, for the pending requests only. */
  function Offered(requests: seq<VerifyRequest>): seq<Review> {
    if requests == [] then []
    else (if IsPending(requests[0]) then [Review(requests[0].id, Approved), Review(requests[0].id, Rejected)] else [])
         + Offered(requests[1..])
  }

  /** Every offered button belongs to a pending request, and every pending request has both. */
  lemma {:induction false} OfferedOnlyPending(requests: seq<VerifyRequest>)
    ensures forall b :: b in Offered(requests) ==>
      (b.status == "approved" || b.status == "rejected")
      && exists r :: r in requests && r.id == b.requestId && r.status == "pending"
    ensures forall r :: r in requests && r.status == "pending" ==>
      Review(r.id, "approved") in Offered(requests) && Review(r.id, "rejected") in Offered(requests)
  {
    if requests != [] {
      OfferedOnlyPending(requests[1..]);
      var head := if IsPending(requests[0]) then [Review(requests[0].id, Approved), Review(requests[0].id, Rejected)] else [];
      assert Offered(requests) == head + Offered(requests[1..]);
      forall b | b in Offered(requests)
        ensures exists r :: r in requests && r.id == b.requestId && r.status == "pending"
      {
        if b in head {
          assert requests[0] in requests;
        } else {
          var r :| r in requests[1..] && r.id == b.requestId && r.status == "pending";
          assert r in requests;
        }
      }
    }
  }

  /**
   * One line of the recent activity panel: the post's first 50 characters followed by a
   * literal "...", which the markup appends whether or not anything was cut.
   */
  function Excerpt(post: FeedPost): string {
    Prefix(post.content, ExcerptLength) + "..."
  }

  /**
   * The recent activity panel: the first five posts, each shown as its first 50 characters
   * and then "...".
   */
  function RecentActivity(posts: seq<FeedPost>): (lines: seq<string>)
    ensures |lines| == if |posts| < 5 then |posts| else 5
    ensures forall i :: 0 <= i < |lines| ==>
      && |lines[i]| == 3 + (if |posts[i].content| < 50 then |posts[i].content| else 50)
      && lines[i][..|lines[i]| - 3] <= posts[i].content
      && lines[i][|lines[i]| - 3..] == "..."
  {
    var shown := Take(posts, PanelSize);
    seq(|shown|, i requires 0 <= i < |shown| => Excerpt(shown[i]))
  }

  /**
   * `update({ status, updated_at: now }).eq('id', requestId)`: every row with that id takes
   * the status and the review's ISO time `now`.
   */
  function SetStatus(rows: seq<VerifyRequest>, requestId: Id, status: string, now: string): seq<VerifyRequest> {
    seq(|rows|, i requires 0 <= i < |rows| =>
      if rows[i].id == requestId then rows[i].(status := status, updatedAt := Some(now)) else rows[i])
  }

  /** `update({ verified: true }).eq('id', userId)`. */
  function MarkVerified(rows: seq<Profile>, userId: Id): seq<Profile> {
    seq(|rows|, i requires 0 <= i < |rows| => if rows[i].id == userId then rows[i].(verified := true) else rows[i])
  }

  /** `.delete().eq('id', userId)` keeps the rows with another id. */
  function NotProfile(userId: Id): Profile -> bool {
    (p: Profile) => p.id != userId
  }

  /** Request `i` is the first one in `requests` with that id. */
  predicate FirstWithId(requests: seq<VerifyRequest>, requestId: Id, i: nat) {
    i < |requests| && requests[i].id == requestId && forall j :: 0 <= j < i ==> requests[j].id != requestId
  }

  /** `verifyRequests.find(r => r.id === requestId)`: the first request with that id. */
  function Find(requests: seq<VerifyRequest>, requestId: Id): (r: Option<VerifyRequest>)
    ensures r.Some? <==> exists i :: 0 <= i < |requests| && requests[i].id == requestId
    ensures r.Some? ==> r.value in requests && r.value.id == requestId
    ensures r.Some? ==> exists i: nat :: FirstWithId(requests, requestId, i) && requests[i] == r.value
  {
    if requests == [] then None
    else if requests[0].id == requestId then Some(requests[0])
    else Find(requests[1..], requestId)
  }

  /**
   * A second review of the same id overwrites the first, status and stamp alike; so reviewing
   * twice with the same status at the same time is reviewing once.
   */
  lemma SetStatusIdempotent(rows: seq<VerifyRequest>, requestId: Id, status: string, now: string)
    ensures SetStatus(SetStatus(rows, requestId, status, now), requestId, status, now) == SetStatus(rows, requestId, status, now)
    ensures forall first: string, earlier: string ::
      SetStatus(SetStatus(rows, requestId, first, earlier), requestId, status, now) == SetStatus(rows, requestId, status, now)
  {
  }

  /** The remote operations the dashboard performs. */
  datatype Call =
    | CountUsers
    | CountPosts
    | CountPending
    | CountToday
    | FetchRequests
    | FetchPosts
    | FetchProfiles
    | UpdateRequest(requestId: Id, status: string, updatedAt: string)
    | VerifyProfile(userId: Id)
    | DeletePostRow(postId: Id)
    | DeleteProfileRow(userId: Id)

  /** fetchStats: the four head counts, in order. */
  const StatsCalls := [CountUsers, CountPosts, CountPending, CountToday]

  class Dashboard {
    const profile: Option<Profile>
    var stats: Stats
    var verifyRequests: seq<VerifyRequest>
    var posts: seq<FeedPost>
    var users: seq<Profile>
    var loading: bool
    var calls: seq<Call>
    /** The `verify_requests` table. */
    var requestTable: seq<VerifyRequest>
    /** The `profiles` table. */
    var profileTable: seq<Profile>

    constructor (profile: Option<Profile>, requestTable: seq<VerifyRequest>, profileTable: seq<Profile>)
      ensures this.profile == profile && stats == NoStats && verifyRequests == [] && posts == [] && users == []
      ensures loading && calls == [] && this.requestTable == requestTable && this.profileTable == profileTable
    {
      this.profile := profile;
      stats := NoStats;
      verifyRequests := [];
      posts := [];
      users := [];
      loading := true;
      calls := [];
      this.requestTable := requestTable;
      this.profileTable := profileTable;
    }

    /**
     * The mount effect. Nothing is fetched for a non-admin, whose page shows Access Denied.
     * For an admin the four loads start in the effect's order. The stats load awaits its
     * counts one after another, so only the user count goes out before the three list
     * loads, and the other counts follow once it is answered. A failed list load keeps the
     * list (`data || []` on success), and only the users load ends loading.
     */
    method Mount(
      counts: (Option<nat>, Option<nat>, Option<nat>, Option<nat>),
      requestsReply: Response<Option<seq<VerifyRequest>>>,
      postsReply: Response<Option<seq<FeedPost>>>,
      usersReply: Response<Option<seq<Profile>>>)
      modifies this
      ensures !IsAdmin(profile) ==>
                calls == old(calls) && stats == old(stats) && verifyRequests == old(verifyRequests)
                && posts == old(posts) && users == old(users) && loading == old(loading)
      ensures IsAdmin(profile) ==>
                && calls == old(calls) + [CountUsers, FetchRequests, FetchPosts, FetchProfiles, CountPosts, CountPending, CountToday]
                && stats == StatsOf(counts.0, counts.1, counts.2, counts.3)
                && verifyRequests == (if requestsReply.Err? then old(verifyRequests) else requestsReply.data.GetOr([]))
                && posts == (if postsReply.Err? then old(posts) else postsReply.data.GetOr([]))
                && users == (if usersReply.Err? then old(users) else usersReply.data.GetOr([]))
                && !loading
      ensures requestTable == old(requestTable) && profileTable == old(profileTable)
    {
      if !IsAdmin(profile) {
        return;
      }
      calls := calls + [CountUsers, FetchRequests];
      if requestsReply.Ok? {
        verifyRequests := requestsReply.data.GetOr([]);
      }
      calls := calls + [FetchPosts];
      if postsReply.Ok? {
        posts := postsReply.data.GetOr([]);
      }
      calls := calls + [FetchProfiles];
      if usersReply.Ok? {
        users := usersReply.data.GetOr([]);
      }
      loading := false;
      calls := calls + [CountPosts, CountPending, CountToday];
      stats := StatsOf(counts.0, counts.1, counts.2, counts.3);
    }

    /**
     * handleVerifyRequest. The status update comes first and a failure stops there. An
     * approval then marks the requester verified, but only when the request is in the local
     * list. The two reloads are started, not awaited, so only their calls are recorded here.
     */
    method HandleVerifyRequest(requestId: Id, status: string, now: string, updateError: Option<string>)
      modifies this
      ensures updateError.Some? ==>
                calls == old(calls) + [UpdateRequest(requestId, status, now)]
                && requestTable == old(requestTable) && profileTable == old(profileTable)
      ensures updateError.None? ==> requestTable == SetStatus(old(requestTable), requestId, status, now)
      ensures updateError.None? && status == "approved" && Find(old(verifyRequests), requestId).Some? ==>
                var userId := Find(old(verifyRequests), requestId).value.userId;
                && profileTable == MarkVerified(old(profileTable), userId)
                && calls == old(calls) + [UpdateRequest(requestId, status, now), VerifyProfile(userId), FetchRequests] + StatsCalls
      ensures updateError.None? && (status != "approved" || Find(old(verifyRequests), requestId).None?) ==>
                profileTable == old(profileTable)
                && calls == old(calls) + [UpdateRequest(requestId, status, now), FetchRequests] + StatsCalls
      ensures verifyRequests == old(verifyRequests) && stats == old(stats) && posts == old(posts)
      ensures users == old(users) && loading == old(loading)
    {
      calls := calls + [UpdateRequest(requestId, status, now)];
      if updateError.Some? {
        return;
      }
      requestTable := SetStatus(requestTable, requestId, status, now);
      if status == Approved {
        var request := Find(verifyRequests, requestId);
        if request.Some? {
          calls := calls + [VerifyProfile(request.value.userId)];
          profileTable := MarkVerified(profileTable, request.value.userId);
        }
      }
      calls := calls + [FetchRequests] + StatsCalls;
    }

    /** handleDeletePost: only after confirmation; a successful delete starts the posts and stats reloads. */
    method HandleDeletePost(postId: Id, confirmed: bool, deleteError: Option<string>)
      modifies this
      ensures !confirmed ==> calls == old(calls)
      ensures confirmed && deleteError.Some? ==> calls == old(calls) + [DeletePostRow(postId)]
      ensures confirmed && deleteError.None? ==> calls == old(calls) + [DeletePostRow(postId), FetchPosts] + StatsCalls
      ensures stats == old(stats) && verifyRequests == old(verifyRequests) && posts == old(posts) && users == old(users)
      ensures loading == old(loading) && requestTable == old(requestTable) && profileTable == old(profileTable)
    {
      if !confirmed {
        return;
      }
      calls := calls + [DeletePostRow(postId)];
      if deleteError.None? {
        calls := calls + [FetchPosts] + StatsCalls;
      }
    }

    /** handleDeleteUser: as the post delete, for a profile row, reloading the users and the stats. */
    method HandleDeleteUser(userId: Id, confirmed: bool, deleteError: Option<string>)
      modifies this
      ensures !confirmed ==> calls == old(calls) && profileTable == old(profileTable)
      ensures confirmed && deleteError.Some? ==> calls == old(calls) + [DeleteProfileRow(userId)] && profileTable == old(profileTable)
      ensures confirmed && deleteError.None? ==> calls == old(calls) + [DeleteProfileRow(userId), FetchProfiles] + StatsCalls
      ensures confirmed && deleteError.None? ==> forall p :: p in profileTable <==> p in old(profileTable) && p.id != userId
      ensures stats == old(stats) && verifyRequests == old(verifyRequests) && posts == old(posts) && users == old(users)
      ensures loading == old(loading) && requestTable == old(requestTable)
    {
      if !confirmed {
        return;
      }
      calls := calls + [DeleteProfileRow(userId)];
      if deleteError.None? {
        FilterMembers(profileTable, NotProfile(userId));
        profileTable := Filter(profileTable, NotProfile(userId));
        calls := calls + [FetchProfiles] + StatsCalls;
      }
    }
  }

  /** The id and requester of every request, in order. */
  function Owners(rows: seq<VerifyRequest>): seq<(Id, Id)> {
    seq(|rows|, i requires 0 <= i < |rows| => (rows[i].id, rows[i].userId))
  }

  /**
   * After a review the first request with that id, if there is one, carries the new status
   * and the review's stamp, and nothing else about it changes.
   */
  lemma {:induction false} ReviewSettlesRequest(rows: seq<VerifyRequest>, requestId: Id, status: string, now: string)
    ensures Find(SetStatus(rows, requestId, status, now), requestId)
      == if Find(rows, requestId).Some? then Some(Find(rows, requestId).value.(status := status, updatedAt := Some(now))) else None
    decreases |rows|
  {
    if rows != [] && rows[0].id != requestId {
      ReviewSettlesRequest(rows[1..], requestId, status, now);
      assert SetStatus(rows, requestId, status, now)[1..] == SetStatus(rows[1..], requestId, status, now);
    }
  }

  /** A review keeps every request's id and requester, in order. */
  lemma ReviewKeepsOwners(rows: seq<VerifyRequest>, requestId: Id, status: string, now: string)
    ensures Owners(SetStatus(rows, requestId, status, now)) == Owners(rows)
  {
  }

  /** A request approved or rejected leaves the pending panel. */
  lemma ReviewedLeavesPanel(rows: seq<VerifyRequest>, requestId: Id, status: string, now: string)
    requires status != "pending"
    ensures forall r :: r in PendingPanel(SetStatus(rows, requestId, status, now)) ==> r.id != requestId
  {
    FilterMembers(SetStatus(rows, requestId, status, now), IsPending);
  }

  /** Approving or rejecting never adds a pending request, and drops the count when one of that id was pending. */
  lemma {:induction false} ReviewLowersPendingCount(rows: seq<VerifyRequest>, requestId: Id, status: string, now: string)
    requires status != "pending"
    ensures CountIf(SetStatus(rows, requestId, status, now), IsPending) <= CountIf(rows, IsPending)
    ensures (exists i :: 0 <= i < |rows| && rows[i].id == requestId && rows[i].status == "pending") ==>
      CountIf(SetStatus(rows, requestId, status, now), IsPending) < CountIf(rows, IsPending)
    decreases |rows|
  {
    if rows != [] {
      var after := SetStatus(rows, requestId, status, now);
      ReviewLowersPendingCount(rows[1..], requestId, status, now);
      assert after[1..] == SetStatus(rows[1..], requestId, status, now);
      if exists i :: 0 <= i < |rows| && rows[i].id == requestId && rows[i].status == "pending" {
        var i :| 0 <= i < |rows| && rows[i].id == requestId && rows[i].status == "pending";
        if i > 0 {
          assert rows[1..][i - 1] == rows[i];
        }
      }
    }
  }

  /** The ids of the verified profiles. */
  function VerifiedIds(rows: seq<Profile>): set<Id> {
    set i | 0 <= i < |rows| && rows[i].verified :: rows[i].id
  }

  /** The profile ids, in order. */
  function ProfileIds(rows: seq<Profile>): seq<Id> {
    seq(|rows|, i requires 0 <= i < |rows| => rows[i].id)
  }

  /**
   * Approval adds the requester to the verified profiles, exactly when a profile with that
   * id exists, un-verifies nobody, and removes or reorders no profile.
   */
  lemma ApprovalVerifiesRequester(rows: seq<Profile>, userId: Id)
    ensures VerifiedIds(MarkVerified(rows, userId))
      == VerifiedIds(rows) + (if exists i :: 0 <= i < |rows| && rows[i].id == userId then {userId} else {})
    ensures ProfileIds(MarkVerified(rows, userId)) == ProfileIds(rows)
  {
    var after := MarkVerified(rows, userId);
    if exists i :: 0 <= i < |rows| && rows[i].id == userId {
      var i :| 0 <= i < |rows| && rows[i].id == userId;
      assert after[i].verified && after[i].id == userId;
    }
    assert forall i :: 0 <= i < |rows| && rows[i].verified ==> after[i].verified && after[i].id == rows[i].id;
  }
}
