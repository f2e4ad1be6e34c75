/** Discovery (src/discover/services/discover.service.ts): the top posts and
    itineraries, the text search with its type dispatch, and the posts of a tag. Each
    is a filter, an `orderBy` key and a `skip`/`take` window over one table. */
module Discover {
  import opened Common
  import opened Store
  import opened Text
  import Social

  /** `{ data, skip, take }`: a window without a total. */
  datatype Listing<T> = Listing(data: seq<T>, skip: nat, take: nat)

  // ---------------------------------------------------------------------------
  // Top posts and itineraries.
  // ---------------------------------------------------------------------------

  /** The `where` of `getTopPosts`. */
  predicate TopPost(p: Post)
  {
    p.status == Active && p.visibility == All && p.approvedByAdmin
  }

  /** `orderBy: [likeCount desc, viewCount desc, createdAt desc]`. */
  function TopPostOrder(): Post -> seq<int>
  {
    (p: Post) => [p.likeCount, p.viewCount, p.createdAt]
  }

  /** `getTopPosts`: active, public, approved posts; most liked first, then most
      viewed, then newest; the window [skip, skip + take). */
  function GetTopPosts(db: Db, skip: nat, take: nat): (r: Listing<Post>)
    reads db
    ensures r.skip == skip && r.take == take && |r.data| <= take
    ensures forall p :: p in r.data ==> p in db.posts && TopPost(p)
    ensures forall i, j :: 0 <= i < j < |r.data| ==>
      var a, b := r.data[i], r.data[j];
      && a.likeCount >= b.likeCount
      && (a.likeCount == b.likeCount ==> a.viewCount >= b.viewCount)
      && (a.likeCount == b.likeCount && a.viewCount == b.viewCount ==> a.createdAt >= b.createdAt)
  {
    var rows := Query(db.posts, TopPost, TopPostOrder(), skip, take);
    forall i, j | 0 <= i < j < |rows|
      ensures rows[i].likeCount >= rows[j].likeCount
      ensures rows[i].likeCount == rows[j].likeCount ==> rows[i].viewCount >= rows[j].viewCount
      ensures rows[i].likeCount == rows[j].likeCount && rows[i].viewCount == rows[j].viewCount ==>
              rows[i].createdAt >= rows[j].createdAt
    {
      LexGeq3(TopPostOrder()(rows[i]), TopPostOrder()(rows[j]));
    }
    Listing(rows, skip, take)
  }

  /** A window from 0 that is wide enough holds every top post, each once per row. */
  lemma TopPostsComplete(db: Db, take: nat)
    requires Count(db.posts, TopPost) <= take
    ensures multiset(GetTopPosts(db, 0, take).data) == multiset(Filter(db.posts, TopPost))
  {
    QueryComplete(db.posts, TopPost, TopPostOrder(), take);
  }

  /** The `where` of `getTopItineraries`: public and approved, whatever else. */
  predicate TopItinerary(t: Itinerary)
  {
    t.visibility == All && t.approvedByAdmin
  }

  /** `orderBy: [rating desc, likeCount desc, createdAt desc]`. */
  function TopItineraryOrder(): Itinerary -> seq<int>
  {
    (t: Itinerary) => [t.rating, t.likeCount, t.createdAt]
  }

  /** `getTopItineraries`: public, approved itineraries; best rated first, then most
      liked, then newest; the window [skip, skip + take). */
  function GetTopItineraries(db: Db, skip: nat, take: nat): (r: Listing<Itinerary>)
    reads db
    ensures r.skip == skip && r.take == take && |r.data| <= take
    ensures forall t :: t in r.data ==> t in db.itineraries && TopItinerary(t)
    ensures forall i, j :: 0 <= i < j < |r.data| ==>
      var a, b := r.data[i], r.data[j];
      && a.rating >= b.rating
      && (a.rating == b.rating ==> a.likeCount >= b.likeCount)
      && (a.rating == b.rating && a.likeCount == b.likeCount ==> a.createdAt >= b.createdAt)
  {
    var rows := Query(db.itineraries, TopItinerary, TopItineraryOrder(), skip, take);
    forall i, j | 0 <= i < j < |rows|
      ensures rows[i].rating >= rows[j].rating
      ensures rows[i].rating == rows[j].rating ==> rows[i].likeCount >= rows[j].likeCount
      ensures rows[i].rating == rows[j].rating && rows[i].likeCount == rows[j].likeCount ==>
              rows[i].createdAt >= rows[j].createdAt
    {
      LexGeq3(TopItineraryOrder()(rows[i]), TopItineraryOrder()(rows[j]));
    }
    Listing(rows, skip, take)
  }

  /** The top itineraries take no notice of anything but visibility and approval: an
      itinerary that has both is listed by a window from 0 holding them all. */
  lemma TopItinerariesComplete(db: Db, take: nat, t: Itinerary)
    requires Count(db.itineraries, TopItinerary) <= take
    requires t in db.itineraries && TopItinerary(t)
    ensures t in GetTopItineraries(db, 0, take).data
  {
    QueryHas(db.itineraries, TopItinerary, TopItineraryOrder(), take, t);
  }

  // ---------------------------------------------------------------------------
  // Text search.
  // ---------------------------------------------------------------------------

  /** `q` occurs in `s` from position `i` on. */
  predicate OccursAt(q: string, s: string, i: nat)
  {
    i + |q| <= |s| && s[i..i + |q|] == q
  }

  /** `q` occurs in `s` as a contiguous piece. */
  predicate IsInfix(q: string, s: string)
  {
    exists i: nat :: i <= |s| && OccursAt(q, s, i)
  }

  /** `{ contains: query, mode: 'insensitive' }`: the query occurs in the column once
      both are lower-cased; a null column never matches. */
  predicate Contains(column: Option<string>, query: string)
  {
    column.Some? && IsInfix(ToLower(query), ToLower(column.value))
  }

  /** The empty query matches every column that is present. */
  lemma EmptyQueryMatches(column: string)
    ensures Contains(Some(column), "")
  {
    assert OccursAt(ToLower(""), ToLower(column), 0);
  }

  /** The search is blind to the case of the query. */
  lemma ContainsIgnoresQueryCase(column: Option<string>, query: string)
    ensures Contains(column, ToLower(query)) == Contains(column, query)
  {
    ToLowerIdempotent(query);
  }

  /** The three kinds `search` can be asked for. */
  datatype SearchKind = PostSearch | ItinerarySearch | UserSearch

  /** What `search` answers: one kind of hits with the window, or only a message. */
  datatype SearchResult =
    | FoundPosts(posts: seq<Post>, skip: nat, take: nat)
    | FoundItineraries(itineraries: seq<Itinerary>, skip: nat, take: nat)
    | FoundUsers(users: seq<User>, skip: nat, take: nat)
    | SearchComplete

  function PostMatch(query: string): Post -> bool
  {
    (p: Post) => p.status == Active
                 && (Contains(p.caption, query) || Contains(p.details, query) || Contains(p.location, query))
  }

  function ItineraryMatch(query: string): Itinerary -> bool
  {
    (t: Itinerary) => Contains(Some(t.title), query) || Contains(t.description, query)
                      || Contains(t.destination, query) || Contains(t.country, query)
  }

  /** The username of a user's profile, if there is one. */
  function UsernameOf(profiles: seq<Profile>, userId: UserId): Option<string>
  {
    match ProfileOf(profiles, userId)
    case None => None
    case Some(i) => Some(profiles[i].username)
  }

  function UserMatch(profiles: seq<Profile>, query: string): User -> bool
  {
    (u: User) => !u.banned
                 && (Contains(Some(u.fullName), query) || Contains(Some(u.email), query)
                     || Contains(UsernameOf(profiles, u.id), query))
  }

  function Newest<T>(createdAt: T -> nat): T -> seq<int>
  {
    (x: T) => [createdAt(x)]
  }

  /** The post hits: active posts whose caption, details or location contains the
      query, newest first. */
  function SearchPosts(db: Db, query: string, skip: nat, take: nat): (r: seq<Post>)
    reads db
    ensures |r| <= take
    ensures forall p :: p in r ==> p in db.posts && PostMatch(query)(p)
    ensures forall i, j :: 0 <= i < j < |r| ==> r[i].createdAt >= r[j].createdAt
  {
    var rows := Query(db.posts, PostMatch(query), Newest((p: Post) => p.createdAt), skip, take);
    SortedByColumn(rows, Newest((p: Post) => p.createdAt), (p: Post) => p.createdAt);
    rows
  }

  /** The itinerary hits: title, description, destination or country contains the
      query, whatever the visibility and approval, newest first. */
  function SearchItineraries(db: Db, query: string, skip: nat, take: nat): (r: seq<Itinerary>)
    reads db
    ensures |r| <= take
    ensures forall t :: t in r ==> t in db.itineraries && ItineraryMatch(query)(t)
    ensures forall i, j :: 0 <= i < j < |r| ==> r[i].createdAt >= r[j].createdAt
  {
    var rows := Query(db.itineraries, ItineraryMatch(query), Newest((t: Itinerary) => t.createdAt), skip, take);
    SortedByColumn(rows, Newest((t: Itinerary) => t.createdAt), (t: Itinerary) => t.createdAt);
    rows
  }

  /** The user hits: accounts that are not banned whose name, e-mail or username
      contains the query, most followed first. */
  function SearchUsers(db: Db, query: string, skip: nat, take: nat): (r: seq<User>)
    reads db
    ensures |r| <= take
    ensures forall u :: u in r ==> u in db.users && !u.banned && UserMatch(db.profiles, query)(u)
    ensures forall i, j :: 0 <= i < j < |r| ==>
      Social.FollowerCount(db.stats, r[i].id) >= Social.FollowerCount(db.stats, r[j].id)
  {
    var stats := db.stats;
    var rows := Query(db.users, UserMatch(db.profiles, query), Social.MostFollowedFirst(stats), skip, take);
    SortedByColumn(rows, Social.MostFollowedFirst(stats), (u: User) => Social.FollowerCount(stats, u.id));
    rows
  }

  /** With a window from 0 that holds every hit, every active post whose caption,
      details or location contains the query is found. */
  lemma SearchPostsComplete(db: Db, query: string, take: nat, p: Post)
    requires Count(db.posts, PostMatch(query)) <= take && p in db.posts && PostMatch(query)(p)
    ensures p in SearchPosts(db, query, 0, take)
  {
    QueryHas(db.posts, PostMatch(query), Newest((p: Post) => p.createdAt), take, p);
  }

  /** With a window from 0 that holds every hit, every matching itinerary is found,
      whatever its visibility and approval. */
  lemma SearchItinerariesComplete(db: Db, query: string, take: nat, t: Itinerary)
    requires Count(db.itineraries, ItineraryMatch(query)) <= take
    requires t in db.itineraries && ItineraryMatch(query)(t)
    ensures t in SearchItineraries(db, query, 0, take)
  {
    QueryHas(db.itineraries, ItineraryMatch(query), Newest((t: Itinerary) => t.createdAt), take, t);
  }

  /** With a window from 0 that holds every hit, every matching account that is not
      banned is found. */
  lemma SearchUsersComplete(db: Db, query: string, take: nat, u: User)
    requires Count(db.users, UserMatch(db.profiles, query)) <= take
    requires u in db.users && UserMatch(db.profiles, query)(u)
    ensures u in SearchUsers(db, query, 0, take)
  {
    QueryHas(db.users, UserMatch(db.profiles, query), Social.MostFollowedFirst(db.stats), take, u);
  }

  /** `search`: with a kind, the hits of that kind only; without one, every query is
      issued but only the message comes back. */
  function Search(db: Db, query: string, kind: Option<SearchKind>, skip: nat, take: nat): (r: SearchResult)
    reads db
    ensures kind.None? <==> r == SearchComplete
    ensures r.FoundPosts? <==> kind == Some(PostSearch)
    ensures r.FoundItineraries? <==> kind == Some(ItinerarySearch)
    ensures r.FoundUsers? <==> kind == Some(UserSearch)
    ensures !r.SearchComplete? ==> r.skip == skip && r.take == take
    ensures r.FoundPosts? ==> |r.posts| <= take && forall p :: p in r.posts ==> p.status == Active
    ensures r.FoundUsers? ==> |r.users| <= take && forall u :: u in r.users ==> !u.banned
    ensures r.FoundItineraries? ==> |r.itineraries| <= take
    ensures r.FoundPosts? ==> r.posts == SearchPosts(db, query, skip, take)
    ensures r.FoundItineraries? ==> r.itineraries == SearchItineraries(db, query, skip, take)
    ensures r.FoundUsers? ==> r.users == SearchUsers(db, query, skip, take)
  {
    match kind
    case None => SearchComplete
    case Some(PostSearch) => FoundPosts(SearchPosts(db, query, skip, take), skip, take)
    case Some(ItinerarySearch) => FoundItineraries(SearchItineraries(db, query, skip, take), skip, take)
    case Some(UserSearch) => FoundUsers(SearchUsers(db, query, skip, take), skip, take)
  }

  // ---------------------------------------------------------------------------
  // Posts of a tag.
  // ---------------------------------------------------------------------------

  /** The post has a tag link to a tag of this name. */
  predicate HasTagNamed(tags: seq<Tag>, postTags: seq<PostTag>, postId: RowId, name: string)
  {
    exists pt :: pt in postTags && pt.postId == postId
                 && exists t :: t in tags && t.id == pt.tagId && t.name == name
  }

  function TaggedActive(tags: seq<Tag>, postTags: seq<PostTag>, name: string): Post -> bool
  {
    (p: Post) => p.status == Active && HasTagNamed(tags, postTags, p.id, name)
  }

  /** `getPostsByTag`: the active posts carrying the lower-cased tag, newest first, and
      the number of such posts, counted with the same filter. */
  function GetPostsByTag(db: Db, tagName: string, skip: nat, take: nat): (r: Page<Post>)
    reads db
    ensures r.total == Count(db.posts, TaggedActive(db.tags, db.postTags, ToLower(tagName)))
    ensures r.skip == skip && r.take == take
    ensures |r.data| <= take && |r.data| <= r.total
    ensures forall p :: p in r.data ==> p in db.posts && p.status == Active
                                        && HasTagNamed(db.tags, db.postTags, p.id, ToLower(tagName))
    ensures forall i, j :: 0 <= i < j < |r.data| ==> r.data[i].createdAt >= r.data[j].createdAt
  {
    var filter := TaggedActive(db.tags, db.postTags, ToLower(tagName));
    var rows := Query(db.posts, filter, Newest((p: Post) => p.createdAt), skip, take);
    SortedByColumn(rows, Newest((p: Post) => p.createdAt), (p: Post) => p.createdAt);
    Page(rows, Count(db.posts, filter), skip, take)
  }

  /** With a window from 0 that holds them all, every active post carrying the
      lower-cased tag is listed. */
  lemma PostsByTagComplete(db: Db, tagName: string, take: nat, p: Post)
    requires Count(db.posts, TaggedActive(db.tags, db.postTags, ToLower(tagName))) <= take
    requires p in db.posts && p.status == Active && HasTagNamed(db.tags, db.postTags, p.id, ToLower(tagName))
    ensures p in GetPostsByTag(db, tagName, 0, take).data
  {
    QueryHas(db.posts, TaggedActive(db.tags, db.postTags, ToLower(tagName)), Newest((p: Post) => p.createdAt), take, p);
  }

  /** "Paris" and "paris" list the same posts. */
  lemma PostsByTagIgnoresCase(db: Db, tagName: string, skip: nat, take: nat)
    ensures GetPostsByTag(db, ToLower(tagName), skip, take) == GetPostsByTag(db, tagName, skip, take)
  {
    ToLowerIdempotent(tagName);
  }
}
