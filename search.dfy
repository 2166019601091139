/**
 * The search page: a query searches the profiles and the posts remotely and the trending
 * hashtags locally; the active tab decides which of the three lists are shown.
 */
module SearchPage {
  import opened Wrappers
  import opened Records
  import opened JsStrings
  import opened Seqs

  /** The trending hashtags; the page never replaces them. */
  const HotSearches: seq<string> := ["#ThanhXuan", "#TechTalk", "#Music", "#Travel", "#Food"]

  datatype Results = Results(users: seq<Profile>, posts: seq<FeedPost>, hashtags: seq<string>)

  const NoResults := Results([], [], [])

  /** `tag => tag.toLowerCase().includes(searchQuery.toLowerCase())`. */
  function MatchesQuery(query: string): string -> bool {
    (tag: string) => Includes(ToLower(tag), ToLower(query))
  }

  /** The hashtag results: the trending tags that contain the query, ignoring case. */
  function MatchingTags(tags: seq<string>, query: string): seq<string> {
    Filter(tags, MatchesQuery(query))
  }

  /**
   * Exactly the tags whose lower-cased text contains the lower-cased query somewhere, in the
   * order of the trending list over any cut of it.
   */
  lemma MatchingTagsExact(tags: seq<string>, front: seq<string>, back: seq<string>, query: string)
    requires tags == front + back
    ensures forall t :: t in MatchingTags(tags, query) <==>
      t in tags && exists i: nat :: OccursAt(ToLower(t), ToLower(query), i)
    ensures MatchingTags(tags, query) == MatchingTags(front, query) + MatchingTags(back, query)
  {
    FilterMembers(tags, MatchesQuery(query));
    forall t | t in tags
      ensures MatchesQuery(query)(t) <==> exists i: nat :: OccursAt(ToLower(t), ToLower(query), i)
    {
      IncludesIff(ToLower(t), ToLower(query));
    }
    FilterAppend(front, back, MatchesQuery(query));
  }

  /** The tabs; any other id falls to the default branch. */
  datatype Tab = AllTab | UsersTab | HashtagsTab | OtherTab(id: string)

  /** filteredResults. */
  function Shown(tab: Tab, r: Results): (shown: Results)
    ensures shown.users == (if tab.HashtagsTab? then [] else r.users)
    ensures shown.hashtags == (if tab.UsersTab? then [] else r.hashtags)
    ensures shown.posts == (if tab.UsersTab? || tab.HashtagsTab? then [] else r.posts)
  {
    match tab
    case UsersTab => Results(r.users, [], [])
    case HashtagsTab => Results([], [], r.hashtags)
    case _ => r
  }

  /** Filtering by tab twice is filtering once; every tab other than the two named ones shows all. */
  lemma ShownIdempotent(tab: Tab, r: Results)
    ensures Shown(tab, Shown(tab, r)) == Shown(tab, r)
    ensures !tab.UsersTab? && !tab.HashtagsTab? ==> Shown(tab, r) == r
  {
  }

  /** The remote queries, in the order they are made. */
  datatype Call = SearchUsers(query: string) | SearchPosts(query: string)

  class Search {
    var results: Results
    var loading: bool
    var calls: seq<Call>

    constructor ()
      ensures results == NoResults && !loading && calls == []
    {
      results := NoResults;
      loading := false;
      calls := [];
    }

    /**
     * handleSearch. A blank query empties the results and queries nothing; any other query
     * runs both searches. The query is sent as typed, untrimmed.
     */
    method HandleSearch(query: string, usersReply: Response<Option<seq<Profile>>>, postsReply: Response<Option<seq<FeedPost>>>)
      modifies this
      ensures IsBlank(query) ==> results == NoResults && calls == old(calls) && loading == old(loading)
      ensures !IsBlank(query) ==> Searched(query, usersReply, postsReply, old(results), old(calls))
    {
      if IsBlank(query) {
        results := NoResults;
        return;
      }
      RunQueries(query, usersReply, postsReply);
    }

    /**
     * What a search for a query leaves: the profile search runs first and a failure stops
     * there; only when both succeed are the results replaced, with missing data read as
     * empty; loading ends false either way.
     */
    ghost predicate Searched(
      query: string, usersReply: Response<Option<seq<Profile>>>, postsReply: Response<Option<seq<FeedPost>>>,
      oldResults: Results, oldCalls: seq<Call>)
      reads this
    {
      && !loading
      && (usersReply.Err? ==> calls == oldCalls + [SearchUsers(query)] && results == oldResults)
      && (usersReply.Ok? ==> calls == oldCalls + [SearchUsers(query), SearchPosts(query)])
      && (usersReply.Ok? && postsReply.Err? ==> results == oldResults)
      && (usersReply.Ok? && postsReply.Ok? ==>
            results == Results(usersReply.data.GetOr([]), postsReply.data.GetOr([]), MatchingTags(HotSearches, query)))
    }

    /** The two remote searches and the local hashtag filter, for a query that is not blank. */
    method RunQueries(query: string, usersReply: Response<Option<seq<Profile>>>, postsReply: Response<Option<seq<FeedPost>>>)
      modifies this
      ensures Searched(query, usersReply, postsReply, old(results), old(calls))
    {
      loading := true;
      if usersReply.Err? {
        calls := calls + [SearchUsers(query)];
      } else {
        calls := calls + [SearchUsers(query), SearchPosts(query)];
        if postsReply.Ok? {
          var hashtags := MatchingTags(HotSearches, query);
          results := Results(usersReply.data.GetOr([]), postsReply.data.GetOr([]), hashtags);
        }
      }
      loading := false;
    }
  }
}
