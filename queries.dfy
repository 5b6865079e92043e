/**
 * The decision logic of the query layer, without its HTTP calls: the request
 * path each query and mutation builds from its parameters, the `enabled` gates,
 * the cache keys, the key each mutation invalidates on success, and the cursor
 * of the infinite post feed.
 */
module Queries {
  import opened Wrappers
  import opened JsValues
  import Decimal
  import AuthSlice

  /** Posts per feed page. */
  const PageSize: nat := 6

  /** The feed's first page. */
  const InitialPageParam: nat := 1

  /** `${x}` in a template literal for `x: string | undefined`. */
  function Interpolated(x: Option<string>): (s: string)
    ensures x.Some? ==> s == x.value
    ensures x.None? ==> s == "undefined"
  {
    x.GetOr("undefined")
  }

  /** `x ?? ''`: an absent id becomes the empty string. */
  function OrEmpty(x: Option<string>): (s: string)
    ensures x.Some? ==> s == x.value
    ensures x.None? ==> s == ""
  {
    x.GetOr("")
  }

  /** `!!x` for `x: string | undefined`. */
  predicate Present(x: Option<string>) {
    x.Some? && x.value != ""
  }

  /** The tags of the key registry. */
  datatype QueryTag =
    | GetUsers | GetSearchedUsers | GetUserById | GetPostById | GetRecentPosts
    | GetUserPosts | GetInfinitePosts | SearchPosts | GetSavedPosts | GetLikedPosts
    | GetRoomMessages

  /** One element of a cache key: a registry tag or a (possibly undefined) string parameter. */
  datatype KeyPart = Tag(tag: QueryTag) | Param(value: Option<string>)

  /** The queries, with the parameters each hook takes. `InfinitePosts` is one page request of the feed. */
  datatype Query =
    | Users(limit: Option<nat>)
    | SearchedUsers(searchTerm: string)
    | UserById(id: Option<string>)
    | RecentPosts
    | PostById(postId: Option<string>)
    | UserPosts(userId: Option<string>)
    | InfinitePosts(pageParam: Option<nat>)
    | SearchPostsQuery(term: string)
    | SavedPosts
    | LikedPosts
    | RoomMessages(roomName: string)

  /** The mutations, with the parameters each mutation function receives. */
  datatype Mutation =
    | FollowUserToggle(followId: Option<string>)
    | SignOutAccount
    | CreateComment
    | LikeComment(commentId: int)
    | LikePost(likedId: int)
    | UnlikePost(unlikedId: int)
    | SavePost(savedId: int)
    | DeleteSavedPost(unsavedId: int)
    | DeletePost(deletedId: Option<string>)

  function TagOf(q: Query): QueryTag {
    match q
    case Users(_) => GetUsers
    case SearchedUsers(_) => GetSearchedUsers
    case UserById(_) => GetUserById
    case RecentPosts => GetRecentPosts
    case PostById(_) => GetPostById
    case UserPosts(_) => GetUserPosts
    case InfinitePosts(_) => GetInfinitePosts
    case SearchPostsQuery(_) => SearchPosts
    case SavedPosts => GetSavedPosts
    case LikedPosts => GetLikedPosts
    case RoomMessages(_) => GetRoomMessages
  }

  /** The cache key each query hook declares. */
  function QueryKey(q: Query): (k: seq<KeyPart>)
    ensures |k| > 0 && k[0] == Tag(TagOf(q))
  {
    match q
    case SearchedUsers(term) => [Tag(GetSearchedUsers), Param(Some(term))]
    case UserById(id) => [Tag(GetUserById), Param(id)]
    case PostById(postId) => [Tag(GetPostById), Param(postId)]
    case UserPosts(userId) => [Tag(GetUserPosts), Param(userId)]
    case SearchPostsQuery(term) => [Tag(SearchPosts), Param(Some(term))]
    case _ => [Tag(TagOf(q))]
  }

  /** The `enabled` option: only the post-by-id, user-posts and post-search queries are gated. */
  predicate Enabled(q: Query) {
    match q
    case PostById(postId) => Present(postId)
    case UserPosts(userId) => Present(userId)
    case SearchPostsQuery(term) => term != ""
    case _ => true
  }

  /** The feed page request: `/api/post?limit=6&page=N`, the page defaulting to 1. */
  function FeedPath(pageParam: Option<nat>): string {
    "/api/post?limit=" + Decimal.NatToString(PageSize) + "&page=" + Decimal.NatToString(pageParam.GetOr(1))
  }

  const FeedPathPrefix: string := "/api/post?limit=6&page="

  /** The request path a query issues, none when it is disabled. */
  function RequestPath(q: Query): (r: Option<string>)
    ensures r.None? <==> !Enabled(q)
    ensures r.None? <==> (q.PostById? && !Present(q.postId)) || (q.UserPosts? && !Present(q.userId))
                         || (q.SearchPostsQuery? && q.term == "")
    ensures q.UserPosts? && r.Some? ==> r.value == "/api/post/user/" + q.userId.value + "/"
    ensures q.PostById? && r.Some? ==> r.value == "/api/post/" + q.postId.value + "/"
    ensures q.UserById? ==> r == Some("/api/user/" + Interpolated(q.id) + "/")
  {
    if !Enabled(q) then None
    else
      Some(match q
        case Users(limit) =>
          if limit.Some? then "/api/user?limit=" + Decimal.NatToString(limit.value) else "/api/user"
        case SearchedUsers(term) => "/api/user/search?query=" + term
        case UserById(id) => "/api/user/" + Interpolated(id) + "/"
        case RecentPosts => "/api/post/recent"
        case PostById(postId) => "/api/post/" + postId.value + "/"
        case UserPosts(userId) => "/api/post/user/" + OrEmpty(userId) + "/"
        case InfinitePosts(page) => FeedPath(page)
        case SearchPostsQuery(term) => "/api/post/search?query=" + term
        case SavedPosts => "/api/post/saved"
        case LikedPosts => "/api/post/liked"
        case RoomMessages(room) => "/api/chat/" + room + "/messages")
  }

  const FollowPathPrefix: string := "/api/user/follow/"

  /** The request path a mutation issues. */
  function MutationPath(m: Mutation): (p: string)
    ensures m.FollowUserToggle? ==> |p| == |FollowPathPrefix| + |OrEmpty(m.followId)| + 1
    ensures m.FollowUserToggle? ==> p[..|FollowPathPrefix|] == FollowPathPrefix && p[|p| - 1] == '/'
    ensures m.FollowUserToggle? ==> p[|FollowPathPrefix|..|p| - 1] == OrEmpty(m.followId)
  {
    match m
    case FollowUserToggle(id) => FollowPathPrefix + OrEmpty(id) + "/"
    case SignOutAccount => "/api/user/logout/"
    case CreateComment => "/api/post/comment/"
    case LikeComment(id) => "/api/post/comments/" + Decimal.IntToString(id) + "/like/"
    case LikePost(id) => "/api/post/" + Decimal.IntToString(id) + "/like/"
    case UnlikePost(id) => "/api/post/" + Decimal.IntToString(id) + "/unlike/"
    case SavePost(id) => "/api/post/" + Decimal.IntToString(id) + "/save/"
    case DeleteSavedPost(id) => "/api/post/" + Decimal.IntToString(id) + "/unsave/"
    case DeletePost(id) => "/api/post/" + Interpolated(id) + "/"
  }

  /** An absent follow id is sent as the empty one: both give `/api/user/follow//`, and
      present ids are told apart by their path. */
  lemma FollowPathCoercion(a: Option<string>, b: Option<string>)
    ensures MutationPath(FollowUserToggle(None)) == "/api/user/follow//"
    ensures MutationPath(FollowUserToggle(None)) == MutationPath(FollowUserToggle(Some("")))
    ensures MutationPath(FollowUserToggle(a)) == MutationPath(FollowUserToggle(b)) <==> OrEmpty(a) == OrEmpty(b)
  {
    var pa, pb := MutationPath(FollowUserToggle(a)), MutationPath(FollowUserToggle(b));
    if pa == pb {
      assert OrEmpty(a) == pa[|FollowPathPrefix|..|pa| - 1];
    }
  }

  /** The key filter a mutation's `onSuccess` hands to `invalidateQueries`, none when it invalidates nothing. */
  function InvalidationFilter(m: Mutation): Option<seq<KeyPart>> {
    match m
    case FollowUserToggle(_) => Some([Tag(GetUserById)])
    case LikeComment(_) => Some([Tag(GetPostById)])
    case LikePost(_) => Some([Tag(GetRecentPosts)])
    case UnlikePost(_) => Some([Tag(GetRecentPosts)])
    case SavePost(_) => Some([Tag(GetRecentPosts)])
    case DeleteSavedPost(_) => Some([Tag(GetRecentPosts)])
    case DeletePost(_) => Some([Tag(GetRecentPosts)])
    case SignOutAccount => None
    case CreateComment => None
  }

  /** The cache's prefix match of a filter against a query key. */
  predicate PrefixMatches(filter: seq<KeyPart>, key: seq<KeyPart>) {
    |filter| <= |key| && key[..|filter|] == filter
  }

  /** Whether a mutation's success marks a query's cached data stale. */
  predicate Invalidates(m: Mutation, q: Query) {
    InvalidationFilter(m).Some? && PrefixMatches(InvalidationFilter(m).value, QueryKey(q))
  }

  /** The invalidation table, as queries: likes, saves and deletes of posts mark only the
      recent-posts list stale; following marks every user-by-id query stale; liking a
      comment marks every post-by-id query stale; comments and sign-out mark nothing. */
  lemma InvalidationTable(m: Mutation, q: Query)
    ensures (m.LikePost? || m.UnlikePost? || m.SavePost? || m.DeleteSavedPost? || m.DeletePost?) ==>
              (Invalidates(m, q) <==> q == RecentPosts)
    ensures m.FollowUserToggle? ==> (Invalidates(m, q) <==> q.UserById?)
    ensures m.LikeComment? ==> (Invalidates(m, q) <==> q.PostById?)
    ensures (m.CreateComment? || m.SignOutAccount?) ==> !Invalidates(m, q)
  {
    var key := QueryKey(q);
    assert key[..1] == [key[0]];
  }

  /** The next page the feed asks for after `lastPage`: the cursor, no page, or the
      TypeError of reading `next` on a null body. */
  datatype NextPage = NextPageParam(page: nat) | NoNextPage | NullPageError

  /** `getNextPageParam`: `pages.length + 1` when the last page's `next` is truthy. */
  function GetNextPageParam(lastPage: Json, pages: seq<Json>): (r: NextPage)
    ensures r.NextPageParam? <==> lastPage.JObj? && Lookup(lastPage.fields, "next").Some?
                                    && Truthy(Lookup(lastPage.fields, "next").value)
    ensures r.NextPageParam? ==> r.page == |pages| + 1
    ensures r.NullPageError? <==> lastPage.JNull?
  {
    match lastPage
    case JNull => NullPageError
    case JObj(fields) =>
      var next := Lookup(fields, "next");
      if next.Some? && Truthy(next.value) then NextPageParam(|pages| + 1) else NoNextPage
    case _ => NoNextPage
  }

  /** The server's answer to the request for feed page `page`. */
  function PageBody(server: string -> Json, page: nat): Json {
    server(FeedPath(Some(page)))
  }

  /** The pages the feed holds after `fetches` calls of `fetchNextPage`, given the server's
      answer to each request path: the first page, then a further page whenever the cursor
      names one. */
  function Crawl(server: string -> Json, fetches: nat): (pages: seq<Json>)
    ensures 0 < |pages| <= fetches + 1
  {
    if fetches == 0 then [PageBody(server, InitialPageParam)]
    else
      var pages := Crawl(server, fetches - 1);
      match GetNextPageParam(pages[|pages| - 1], pages)
      case NextPageParam(p) => pages + [PageBody(server, p)]
      case _ => pages
  }

  /** The feed requests pages 1, 2, 3, ... in order with no gaps or repeats, each of size 6. */
  lemma {:induction false} CrawlRequestsConsecutivePages(server: string -> Json, fetches: nat)
    ensures forall i :: 0 <= i < |Crawl(server, fetches)| ==> Crawl(server, fetches)[i] == PageBody(server, i + 1)
  {
    if fetches > 0 {
      var before := Crawl(server, fetches - 1);
      CrawlRequestsConsecutivePages(server, fetches - 1);
      var cursor := GetNextPageParam(before[|before| - 1], before);
      if cursor.NextPageParam? {
        var after := before + [PageBody(server, |before| + 1)];
        assert Crawl(server, fetches) == after;
        forall i | 0 <= i < |after| ensures after[i] == PageBody(server, i + 1) {
          if i < |before| {
            assert after[i] == before[i];
            assert before[i] == PageBody(server, i + 1);
          } else {
            assert i == |before|;
            assert after[i] == PageBody(server, |before| + 1);
          }
        }
      } else {
        assert Crawl(server, fetches) == before;
      }
    }
  }

  /** While every page says there is a next one, each fetch adds a page; once a page
      says there is none, further fetches add nothing. */
  lemma {:induction false} CrawlGrowth(server: string -> Json, fetches: nat)
    ensures var pages := Crawl(server, fetches);
      (forall i :: 0 <= i < |pages| ==> GetNextPageParam(pages[i], pages[..i + 1]).NextPageParam?) ==>
        |Crawl(server, fetches + 1)| == |pages| + 1
    ensures var pages := Crawl(server, fetches);
      !GetNextPageParam(pages[|pages| - 1], pages).NextPageParam? ==> Crawl(server, fetches + 1) == pages
  {
    var pages := Crawl(server, fetches);
    assert pages[..|pages|] == pages;
  }

  /** The page number is recoverable from a feed request path, and an absent page is page 1. */
  lemma FeedPathNamesItsPage(page: Option<nat>)
    ensures FeedPath(page)[..|FeedPathPrefix|] == FeedPathPrefix
    ensures Decimal.AllDigits(FeedPath(page)[|FeedPathPrefix|..])
    ensures Decimal.DecimalValue(FeedPath(page)[|FeedPathPrefix|..]) == page.GetOr(InitialPageParam)
    ensures FeedPath(None) == FeedPath(Some(InitialPageParam))
  {
    assert Decimal.NatToString(PageSize) == "6";
    var digits := Decimal.NatToString(page.GetOr(1));
    assert FeedPath(page) == FeedPathPrefix + digits;
    assert FeedPath(page)[|FeedPathPrefix|..] == digits;
    Decimal.DecimalValueOfNatToString(page.GetOr(1));
  }

  /** Distinct feed pages are requested under distinct paths, so no page request is
      served from another page's answer. */
  lemma FeedPathsDistinct(p: nat, q: nat)
    ensures FeedPath(Some(p)) == FeedPath(Some(q)) <==> p == q
  {
    if FeedPath(Some(p)) == FeedPath(Some(q)) {
      FeedPathNamesItsPage(Some(p));
      FeedPathNamesItsPage(Some(q));
      var dp, dq := Decimal.NatToString(p), Decimal.NatToString(q);
      assert FeedPath(Some(p))[|FeedPathPrefix|..] == dp;
      assert FeedPath(Some(q))[|FeedPathPrefix|..] == dq;
      Decimal.NatToStringInjective(p, q);
    }
  }

  /** `signOutAccount`'s effect on storage: once the logout request has resolved, the
      persisted session is removed, so the next start-up begins with no user; a rejected
      logout request never reaches the removal and leaves storage as it was. */
  function SignOutStorage(storage: AuthSlice.Storage, loggedOut: bool): (r: AuthSlice.Storage)
    ensures !loggedOut ==> r == storage
    ensures loggedOut ==> r.Keys == storage.Keys - {AuthSlice.StorageKey}
    ensures loggedOut ==> AuthSlice.InitialState(r).userInfo == JNull
    ensures forall k :: k in storage && k != AuthSlice.StorageKey ==> k in r && r[k] == storage[k]
  {
    if loggedOut then storage - {AuthSlice.StorageKey} else storage
  }
}
