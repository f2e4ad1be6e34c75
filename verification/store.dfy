/** The relational store the services work against, held in memory: one object whose
    fields are the tables. Tables that are listed or counted are sequences of rows;
    rows keyed one-per-user (statistics, settings) are maps. A Prisma `$transaction`
    becomes the body of one method, which is atomic by construction. */
module Store {
  import opened Common

  type UserId = string
  type RowId = nat

  datatype Role = Member | Admin
  datatype Visibility = All | Followers
  datatype Status = Active | Deleted

  /** A column of a settings row: the settings tables hold booleans, plus one e-mail
      address (`trustedContactEmail`). */
  datatype Value = Flag(b: bool) | Text(s: string)

  /** A settings row, or the fields a DTO supplies: a field absent from the map is a
      field the DTO left `undefined`. */
  type Row = map<string, Value>

  /** A boolean column that is present and true. */
  predicate FlagSet(row: Row, field: string)
  {
    field in row && row[field] == Flag(true)
  }

  datatype User = User(id: UserId, fullName: string, email: string, password: string,
                       role: Role, banned: bool, active: bool, createdAt: nat)

  datatype Stats = Stats(totalFollowers: int, totalFollowing: int, totalPosts: int,
                         totalTrips: int, countriesVisited: int, continentsVisited: int)

  /** The statistics row as the store creates it when no column is given. */
  const EmptyStats := Stats(0, 0, 0, 0, 0, 0)

  /** A profile; `fields` holds its free-text columns (bio, location, website,
      birthday, gender). */
  datatype Profile = Profile(id: RowId, userId: UserId, username: string,
                             fields: map<string, string>,
                             countriesExplored: seq<string>, achievements: seq<string>,
                             profileImage: Option<string>, coverImage: Option<string>)

  datatype Device = Device(id: RowId, userId: UserId, deviceName: string, platform: string,
                           isActive: bool, createdAt: nat, updatedAt: nat)

  /** A row linking a user to a subject. In `following` the row of "u follows t" has
      userId u and subject t; in `follower` it has userId t and subject u (the
      follower). In the like and save tables the subject is the liked or saved item. */
  datatype Link<K> = Link(subject: K, userId: UserId, createdAt: nat)

  datatype Post = Post(id: RowId, userId: UserId, caption: Option<string>,
                       details: Option<string>, location: Option<string>,
                       imageLinks: seq<string>, visibility: Visibility, status: Status,
                       approvedByAdmin: bool, likeCount: int, commentCount: int,
                       shareCount: int, viewCount: int, createdAt: nat)

  datatype Share = Share(postId: RowId, userId: UserId, sharedTo: Option<string>, createdAt: nat)

  datatype Comment = Comment(id: RowId, postId: RowId, userId: UserId, text: string,
                             likeCount: int, createdAt: nat)

  datatype Reply = Reply(id: RowId, commentId: RowId, userId: UserId, text: string, createdAt: nat)

  datatype Tag = Tag(id: RowId, name: string)

  datatype PostTag = PostTag(postId: RowId, tagId: RowId)

  datatype Itinerary = Itinerary(id: RowId, userId: UserId, title: string,
                                 description: Option<string>, destination: Option<string>,
                                 country: Option<string>, visibility: Visibility,
                                 approvedByAdmin: bool, rating: int, likeCount: int,
                                 createdAt: nat)

  datatype Notification = Notification(id: RowId, userId: UserId, kind: string, content: string,
                                       relatedUser: Option<UserId>, relatedPost: Option<RowId>,
                                       relatedItinerary: Option<RowId>, isRead: bool,
                                       createdAt: nat)

  /** Column defaults of new post and itinerary rows. */
  const DefaultVisibility: Visibility := All
  const DefaultApproved: bool := false

  /** A viewer id counts only when present and non-empty (`if (userId)`). */
  predicate Signed(viewer: Option<UserId>)
  {
    viewer.Some? && viewer.value != ""
  }

  // ---------------------------------------------------------------------------
  // Lookups: `findUnique` / `findFirst` return the first row that matches.
  // ---------------------------------------------------------------------------

  function IndexOf<T>(s: seq<T>, p: T -> bool): (r: Option<nat>)
    ensures r.Some? ==> r.value < |s| && p(s[r.value])
    ensures r.Some? ==> forall j :: 0 <= j < r.value ==> !p(s[j])
    ensures r.None? ==> forall j :: 0 <= j < |s| ==> !p(s[j])
  {
    if s == [] then None
    else if p(s[0]) then Some(0)
    else match IndexOf(s[1..], p)
      case None => None
      case Some(i) => Some(i + 1)
  }

  function UserIndex(users: seq<User>, id: UserId): (r: Option<nat>)
    ensures r.Some? ==> r.value < |users| && users[r.value].id == id
    ensures r.None? ==> forall j :: 0 <= j < |users| ==> users[j].id != id
    ensures r.None? ==> forall x :: x in users ==> x.id != id
  {
    IndexOf(users, (x: User) => x.id == id)
  }

  function PostIndex(posts: seq<Post>, id: RowId): (r: Option<nat>)
    ensures r.Some? ==> r.value < |posts| && posts[r.value].id == id
    ensures r.Some? ==> forall j :: 0 <= j < r.value ==> posts[j].id != id
    ensures r.None? ==> forall j :: 0 <= j < |posts| ==> posts[j].id != id
  {
    IndexOf(posts, (x: Post) => x.id == id)
  }

  function CommentIndex(comments: seq<Comment>, id: RowId): (r: Option<nat>)
    ensures r.Some? ==> r.value < |comments| && comments[r.value].id == id
    ensures r.Some? ==> forall j :: 0 <= j < r.value ==> comments[j].id != id
    ensures r.None? ==> forall j :: 0 <= j < |comments| ==> comments[j].id != id
  {
    IndexOf(comments, (x: Comment) => x.id == id)
  }

  function ItineraryIndex(its: seq<Itinerary>, id: RowId): (r: Option<nat>)
    ensures r.Some? ==> r.value < |its| && its[r.value].id == id
    ensures r.Some? ==> forall j :: 0 <= j < r.value ==> its[j].id != id
    ensures r.None? ==> forall j :: 0 <= j < |its| ==> its[j].id != id
  {
    IndexOf(its, (x: Itinerary) => x.id == id)
  }

  /** Rewriting the row a lookup found, keeping its id, leaves the lookup where it was. */
  lemma PostIndexUpdate(posts: seq<Post>, id: RowId, x: Post)
    requires PostIndex(posts, id).Some? && x.id == id
    ensures PostIndex(posts[PostIndex(posts, id).value := x], id) == PostIndex(posts, id)
  {
    var i := PostIndex(posts, id).value;
    var r := PostIndex(posts[i := x], id);
    assert posts[i := x][i].id == id;
    assert r.Some? && r.value <= i;
  }

  lemma CommentIndexUpdate(comments: seq<Comment>, id: RowId, x: Comment)
    requires CommentIndex(comments, id).Some? && x.id == id
    ensures CommentIndex(comments[CommentIndex(comments, id).value := x], id) == CommentIndex(comments, id)
  {
    var i := CommentIndex(comments, id).value;
    var r := CommentIndex(comments[i := x], id);
    assert comments[i := x][i].id == id;
    assert r.Some? && r.value <= i;
  }

  lemma ItineraryIndexUpdate(its: seq<Itinerary>, id: RowId, x: Itinerary)
    requires ItineraryIndex(its, id).Some? && x.id == id
    ensures ItineraryIndex(its[ItineraryIndex(its, id).value := x], id) == ItineraryIndex(its, id)
  {
    var i := ItineraryIndex(its, id).value;
    var r := ItineraryIndex(its[i := x], id);
    assert its[i := x][i].id == id;
    assert r.Some? && r.value <= i;
  }

  /** The profile of a user (`where: { userAccountId }`). */
  function ProfileOf(profiles: seq<Profile>, userId: UserId): (r: Option<nat>)
    ensures r.Some? ==> r.value < |profiles| && profiles[r.value].userId == userId
    ensures r.None? ==> forall j :: 0 <= j < |profiles| ==> profiles[j].userId != userId
  {
    IndexOf(profiles, (x: Profile) => x.userId == userId)
  }

  /** The profile holding a username (`where: { username }`). */
  function ProfileByUsername(profiles: seq<Profile>, username: string): (r: Option<nat>)
    ensures r.Some? ==> r.value < |profiles| && profiles[r.value].username == username
    ensures r.None? ==> forall j :: 0 <= j < |profiles| ==> profiles[j].username != username
  {
    IndexOf(profiles, (x: Profile) => x.username == username)
  }

  // ---------------------------------------------------------------------------
  // Link tables: counts and `deleteMany` of one (subject, user) pair.
  // Each count peels the last row, so appending a row is one unfolding.
  // ---------------------------------------------------------------------------

  /** Rows of user `u` (`count({ where: { userId } })`). */
  function UserRows<K>(s: seq<Link<K>>, u: UserId): nat
  {
    if s == [] then 0
    else UserRows(s[..|s| - 1], u) + (if s[|s| - 1].userId == u then 1 else 0)
  }

  /** Rows linking user `u` to subject `k`. */
  function PairRows<K(==)>(s: seq<Link<K>>, k: K, u: UserId): nat
  {
    if s == [] then 0
    else PairRows(s[..|s| - 1], k, u) + (if s[|s| - 1].subject == k && s[|s| - 1].userId == u then 1 else 0)
  }

  /** Rows for subject `k` (`_count` of an item's likes). */
  function SubjectRows<K(==)>(s: seq<Link<K>>, k: K): nat
  {
    if s == [] then 0
    else SubjectRows(s[..|s| - 1], k) + (if s[|s| - 1].subject == k then 1 else 0)
  }

  /** `deleteMany({ where: { subject: k, userId: u } })`. */
  function WithoutPair<K(==)>(s: seq<Link<K>>, k: K, u: UserId): (r: seq<Link<K>>)
    ensures |r| <= |s|
    ensures forall x :: x in r ==> x in s && !(x.subject == k && x.userId == u)
  {
    if s == [] then []
    else
      var rest := WithoutPair(s[..|s| - 1], k, u);
      var last := s[|s| - 1];
      if last.subject == k && last.userId == u then rest else rest + [last]
  }

  lemma UserRowsAppend<K>(s: seq<Link<K>>, e: Link<K>, u: UserId)
    ensures UserRows(s + [e], u) == UserRows(s, u) + (if e.userId == u then 1 else 0)
  {
    assert (s + [e])[..|s|] == s;
  }

  lemma SubjectRowsAppend<K>(s: seq<Link<K>>, e: Link<K>, k: K)
    ensures SubjectRows(s + [e], k) == SubjectRows(s, k) + (if e.subject == k then 1 else 0)
  {
    assert (s + [e])[..|s|] == s;
  }

  lemma PairRowsAppend<K>(s: seq<Link<K>>, e: Link<K>, k: K, u: UserId)
    ensures PairRows(s + [e], k, u) == PairRows(s, k, u) + (if e.subject == k && e.userId == u then 1 else 0)
  {
    assert (s + [e])[..|s|] == s;
  }

  /** A pair's rows are some of its user's rows. */
  lemma {:induction false} PairRowsBound<K>(s: seq<Link<K>>, k: K, u: UserId)
    ensures PairRows(s, k, u) <= UserRows(s, u)
  {
    if s != [] {
      PairRowsBound(s[..|s| - 1], k, u);
    }
  }

  /** Deleting the pair (k, u) removes exactly its rows: the pair's count drops to zero,
      every other pair keeps its count, and only user u loses rows. */
  lemma {:induction false} WithoutPairCounts<K>(s: seq<Link<K>>, k: K, u: UserId, k2: K, u2: UserId)
    ensures PairRows(WithoutPair(s, k, u), k2, u2) == if k2 == k && u2 == u then 0 else PairRows(s, k2, u2)
    ensures UserRows(WithoutPair(s, k, u), u2) == UserRows(s, u2) - (if u2 == u then PairRows(s, k, u) else 0)
    ensures SubjectRows(WithoutPair(s, k, u), k2) == SubjectRows(s, k2) - (if k2 == k then PairRows(s, k, u) else 0)
  {
    if s != [] {
      var rest := WithoutPair(s[..|s| - 1], k, u);
      var last := s[|s| - 1];
      WithoutPairCounts(s[..|s| - 1], k, u, k2, u2);
      if !(last.subject == k && last.userId == u) {
        PairRowsAppend(rest, last, k2, u2);
        UserRowsAppend(rest, last, u2);
        SubjectRowsAppend(rest, last, k2);
      }
    }
  }

  /** With no row for the pair, `deleteMany` changes nothing. */
  lemma {:induction false} WithoutAbsentPair<K>(s: seq<Link<K>>, k: K, u: UserId)
    requires PairRows(s, k, u) == 0
    ensures WithoutPair(s, k, u) == s
  {
    if s != [] {
      WithoutAbsentPair(s[..|s| - 1], k, u);
      assert s[..|s| - 1] + [s[|s| - 1]] == s;
    }
  }

  /** Deleting a pair just after inserting one row for it undoes the insert when the
      pair had no rows before. */
  lemma WithoutPairUndoesAppend<K>(s: seq<Link<K>>, k: K, u: UserId, now: nat)
    requires PairRows(s, k, u) == 0
    ensures WithoutPair(s + [Link(k, u, now)], k, u) == s
  {
    assert (s + [Link(k, u, now)])[..|s|] == s;
    WithoutAbsentPair(s, k, u);
  }

  /** A pair has rows exactly when some row links the two. */
  lemma {:induction false} PairRowsIndex<K>(s: seq<Link<K>>, k: K, u: UserId)
    ensures PairRows(s, k, u) > 0 <==> exists i :: 0 <= i < |s| && s[i].subject == k && s[i].userId == u
  {
    if s != [] {
      PairRowsIndex(s[..|s| - 1], k, u);
      if PairRows(s[..|s| - 1], k, u) > 0 {
        var i :| 0 <= i < |s| - 1 && s[..|s| - 1][i].subject == k && s[..|s| - 1][i].userId == u;
        assert s[i] == s[..|s| - 1][i];
      }
      if exists i :: 0 <= i < |s| && s[i].subject == k && s[i].userId == u {
        var i :| 0 <= i < |s| && s[i].subject == k && s[i].userId == u;
        if i < |s| - 1 {
          assert s[..|s| - 1][i] == s[i];
        }
      }
    }
  }

  /** `findFirst({ where: { subject: k, userId: u } })` found a row. */
  function HasPair<K(==)>(s: seq<Link<K>>, k: K, u: UserId): (r: bool)
    ensures r <==> PairRows(s, k, u) > 0
  {
    PairRowsIndex(s, k, u);
    IndexOf(s, (l: Link<K>) => l.subject == k && l.userId == u).Some?
  }

  /** The `where: { userId }` filter of a link table. */
  function OfUser<K>(u: UserId): Link<K> -> bool
  {
    (l: Link<K>) => l.userId == u
  }

  /** A user's rows are the rows the `where: { userId }` filter keeps. */
  lemma {:induction false} UserRowsCount<K>(s: seq<Link<K>>, u: UserId)
    ensures UserRows(s, u) == Count(s, OfUser(u))
  {
    if s != [] {
      UserRowsCount(s[..|s| - 1], u);
    }
  }

  /** The `orderBy: { createdAt: 'desc' }` key of a link table. */
  function NewestFirst<K>(): Link<K> -> seq<int>
  {
    (l: Link<K>) => [l.createdAt]
  }

  // ---------------------------------------------------------------------------
  // The follow graph invariant: the two edge tables mirror each other, no pair
  // occurs twice, no user follows themself, and each counter equals its edge count.
  // ---------------------------------------------------------------------------

  ghost predicate GraphInvariant(following: seq<Link<UserId>>, follower: seq<Link<UserId>>,
                                 stats: map<UserId, Stats>)
  {
    && (forall t, u :: PairRows(following, t, u) <= 1)
    && (forall t, u :: PairRows(following, t, u) == PairRows(follower, u, t))
    && (forall u :: PairRows(following, u, u) == 0)
    && (forall u :: u in stats ==> stats[u].totalFollowing == UserRows(following, u))
    && (forall u :: u in stats ==> stats[u].totalFollowers == UserRows(follower, u))
    && (forall u :: u !in stats ==> UserRows(following, u) == 0 && UserRows(follower, u) == 0)
  }

  /** Statistics rows agree on the follow counters. */
  ghost predicate SameFollowCounters(a: map<UserId, Stats>, b: map<UserId, Stats>)
  {
    a.Keys == b.Keys &&
    forall u :: u in a ==> a[u].totalFollowers == b[u].totalFollowers && a[u].totalFollowing == b[u].totalFollowing
  }

  /** Operations that touch other statistics columns (posts, trips, countries) keep
      the follow graph invariant. */
  lemma GraphInvariantOtherColumns(following: seq<Link<UserId>>, follower: seq<Link<UserId>>,
                                   stats: map<UserId, Stats>, stats': map<UserId, Stats>)
    requires SameFollowCounters(stats, stats')
    ensures GraphInvariant(following, follower, stats) ==> GraphInvariant(following, follower, stats')
  {
  }

  /** Creating a statistics row with zero follow counters for a user without one keeps
      the invariant: such a user has no edges. */
  lemma GraphInvariantNewStatsRow(following: seq<Link<UserId>>, follower: seq<Link<UserId>>,
                                  stats: map<UserId, Stats>, u: UserId, row: Stats)
    requires GraphInvariant(following, follower, stats)
    requires u !in stats && row.totalFollowers == 0 && row.totalFollowing == 0
    ensures GraphInvariant(following, follower, stats[u := row])
  {
  }

  // ---------------------------------------------------------------------------
  // Notification ids: generated from a counter, so no two rows share one.
  // ---------------------------------------------------------------------------

  /** Notifications carrying id `id`. */
  function IdRows(s: seq<Notification>, id: RowId): nat
  {
    if s == [] then 0
    else IdRows(s[..|s| - 1], id) + (if s[|s| - 1].id == id then 1 else 0)
  }

  ghost predicate NotificationIds(s: seq<Notification>, nextId: RowId)
  {
    && (forall i :: 0 <= i < |s| ==> s[i].id < nextId)
    && (forall id :: IdRows(s, id) <= 1)
  }

  lemma {:induction false} IdRowsFresh(s: seq<Notification>, id: RowId)
    requires forall i :: 0 <= i < |s| ==> s[i].id < id
    ensures IdRows(s, id) == 0
  {
    if s != [] {
      IdRowsFresh(s[..|s| - 1], id);
    }
  }

  /** Appending a notification with the next id keeps the ids distinct. */
  lemma NotificationIdsAppend(s: seq<Notification>, nextId: RowId, n: Notification)
    requires NotificationIds(s, nextId) && n.id == nextId
    ensures NotificationIds(s + [n], nextId + 1)
  {
    IdRowsFresh(s, nextId);
    forall id ensures IdRows(s + [n], id) <= 1 {
      assert (s + [n])[..|s|] == s;
    }
  }

  /** No two items share an id. */
  ghost predicate DistinctIds<T>(items: seq<T>, id: T -> RowId)
  {
    forall i, j :: 0 <= i < j < |items| ==> id(items[i]) != id(items[j])
  }

  /** Every id was handed out before `next`. */
  ghost predicate IdsBelow<T>(items: seq<T>, id: T -> RowId, next: RowId)
  {
    forall i :: 0 <= i < |items| ==> id(items[i]) < next
  }

  function PostId(p: Post): RowId { p.id }
  function CommentId(c: Comment): RowId { c.id }
  function ItineraryId(t: Itinerary): RowId { t.id }
  function TagId(t: Tag): RowId { t.id }

  /** Appending an item with a fresh id keeps ids distinct and below the counter. */
  lemma FreshIdAppend<T>(items: seq<T>, id: T -> RowId, next: RowId, x: T)
    requires DistinctIds(items, id) && IdsBelow(items, id, next) && id(x) == next
    ensures DistinctIds(items + [x], id) && IdsBelow(items + [x], id, next + 1)
  {
  }

  /** Replacing an item by one with the same id keeps both properties. */
  lemma SameIdUpdate<T>(items: seq<T>, id: T -> RowId, next: RowId, i: nat, x: T)
    requires i < |items| && id(x) == id(items[i])
    ensures DistinctIds(items, id) ==> DistinctIds(items[i := x], id)
    ensures IdsBelow(items, id, next) ==> IdsBelow(items[i := x], id, next)
  {
  }

  /** `delete` of the row at `i`: the others keep their order. */
  function RemoveAt<T>(items: seq<T>, i: nat): (r: seq<T>)
    requires i < |items|
    ensures |r| == |items| - 1
    ensures forall j :: 0 <= j < i ==> r[j] == items[j]
    ensures forall j :: i <= j < |r| ==> r[j] == items[j + 1]
  {
    items[..i] + items[i + 1..]
  }

  /** Deleting a row keeps the ids distinct and below the counter. */
  lemma RemoveAtKeepsIds<T>(items: seq<T>, id: T -> RowId, next: RowId, i: nat)
    requires i < |items|
    ensures DistinctIds(items, id) ==> DistinctIds(RemoveAt(items, i), id)
    ensures IdsBelow(items, id, next) ==> IdsBelow(RemoveAt(items, i), id, next)
  {
    var r := RemoveAt(items, i);
    if DistinctIds(items, id) {
      forall a, b | 0 <= a < b < |r| ensures id(r[a]) != id(r[b]) {
        var a' := if a < i then a else a + 1;
        var b' := if b < i then b else b + 1;
        assert r[a] == items[a'] && r[b] == items[b'] && a' < b';
      }
    }
  }

  class Db {
    var users: seq<User>
    var profiles: seq<Profile>
    var stats: map<UserId, Stats>
    var accountSettings: map<UserId, Row>
    var notificationSettings: map<UserId, Row>
    var privacySettings: map<UserId, Row>
    var adminSettings: map<UserId, Row>
    /** Social links, keyed by profile id. */
    var socialLinks: map<RowId, Row>
    var devices: seq<Device>
    var following: seq<Link<UserId>>
    var follower: seq<Link<UserId>>
    var notifications: seq<Notification>
    var posts: seq<Post>
    var postLikes: seq<Link<RowId>>
    var postSaves: seq<Link<RowId>>
    var postShares: seq<Share>
    var comments: seq<Comment>
    var commentLikes: seq<Link<RowId>>
    var replies: seq<Reply>
    var tags: seq<Tag>
    var postTags: seq<PostTag>
    var itineraries: seq<Itinerary>
    var itineraryLikes: seq<Link<RowId>>
    var itinerarySaves: seq<Link<RowId>>
    /** The next id the store hands out to a row of each table with generated ids. */
    var nextPostId: RowId
    var nextCommentId: RowId
    var nextReplyId: RowId
    var nextTagId: RowId
    var nextItineraryId: RowId
    var nextNotificationId: RowId

    /** An empty store. */
    constructor ()
      ensures GraphValid() && UsersHaveStats() && NotificationsValid()
      ensures PostIdsValid() && CommentIdsValid() && ItineraryIdsValid() && TagIdsValid()
      ensures users == [] && posts == [] && itineraries == [] && notifications == []
    {
      users, profiles, stats := [], [], map[];
      accountSettings, notificationSettings, privacySettings, adminSettings := map[], map[], map[], map[];
      socialLinks, devices := map[], [];
      following, follower, notifications := [], [], [];
      posts, postLikes, postSaves, postShares := [], [], [], [];
      comments, commentLikes, replies, tags, postTags := [], [], [], [], [];
      itineraries, itineraryLikes, itinerarySaves := [], [], [];
      nextPostId, nextCommentId, nextReplyId, nextTagId, nextItineraryId, nextNotificationId := 0, 0, 0, 0, 0, 0;
    }

    ghost predicate GraphValid()
      reads `following, `follower, `stats
    {
      GraphInvariant(following, follower, stats)
    }

    /** Registration creates a statistics row with every account. */
    ghost predicate UsersHaveStats()
      reads `users, `stats
    {
      forall i :: 0 <= i < |users| ==> users[i].id in stats
    }

    ghost predicate NotificationsValid()
      reads `notifications, `nextNotificationId
    {
      NotificationIds(notifications, nextNotificationId)
    }

    /** Rows created with generated ids carry distinct ids below their table's
        counter. */
    ghost predicate PostIdsValid()
      reads `posts, `nextPostId
    {
      DistinctIds(posts, PostId) && IdsBelow(posts, PostId, nextPostId)
    }

    ghost predicate CommentIdsValid()
      reads `comments, `nextCommentId
    {
      DistinctIds(comments, CommentId) && IdsBelow(comments, CommentId, nextCommentId)
    }

    ghost predicate ItineraryIdsValid()
      reads `itineraries, `nextItineraryId
    {
      DistinctIds(itineraries, ItineraryId) && IdsBelow(itineraries, ItineraryId, nextItineraryId)
    }

    ghost predicate TagIdsValid()
      reads `tags, `nextTagId
    {
      IdsBelow(tags, TagId, nextTagId)
    }

    predicate UserExists(id: UserId)
      reads `users
    {
      UserIndex(users, id).Some?
    }
  }

  /** `notification.create`: appends one notification with a fresh id. */
  method Notify(db: Db, recipient: UserId, kind: string, content: string,
                relatedUser: Option<UserId>, relatedPost: Option<RowId>,
                relatedItinerary: Option<RowId>, now: nat)
    requires db.NotificationsValid()
    modifies db`notifications, db`nextNotificationId
    ensures db.NotificationsValid()
    ensures db.notifications == old(db.notifications) +
      [Notification(old(db.nextNotificationId), recipient, kind, content, relatedUser, relatedPost, relatedItinerary, false, now)]
    ensures db.nextNotificationId == old(db.nextNotificationId) + 1
  {
    var n := Notification(db.nextNotificationId, recipient, kind, content, relatedUser, relatedPost, relatedItinerary, false, now);
    NotificationIdsAppend(db.notifications, db.nextNotificationId, n);
    db.notifications := db.notifications + [n];
    db.nextNotificationId := db.nextNotificationId + 1;
  }
}
