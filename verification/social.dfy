/** The follow graph (client-project/src/social/services/social.service.ts): following
    and unfollowing, which keep the `following` and `follower` tables mirrored and the
    follow counters of the statistics rows equal to the edge counts, and the listings
    over the graph. */
module Social {
  import opened Common
  import opened Store

  // ---------------------------------------------------------------------------
  // The statistics updates of one follow / unfollow transaction.
  // ---------------------------------------------------------------------------

  /** `totalFollowing` of u goes up by one, then `totalFollowers` of t. */
  function FollowStats(stats: map<UserId, Stats>, u: UserId, t: UserId): (r: map<UserId, Stats>)
    requires u in stats && t in stats
    ensures SameKeysOtherColumns(stats, r)
  {
    var s1 := stats[u := stats[u].(totalFollowing := stats[u].totalFollowing + 1)];
    s1[t := s1[t].(totalFollowers := s1[t].totalFollowers + 1)]
  }

  /** `totalFollowing` of u goes down by one, then `totalFollowers` of t. */
  function UnfollowStats(stats: map<UserId, Stats>, u: UserId, t: UserId): (r: map<UserId, Stats>)
    requires u in stats && t in stats
    ensures SameKeysOtherColumns(stats, r)
  {
    var s1 := stats[u := stats[u].(totalFollowing := stats[u].totalFollowing - 1)];
    s1[t := s1[t].(totalFollowers := s1[t].totalFollowers - 1)]
  }

  /** The same statistics rows, differing at most in their follow counters. */
  ghost predicate SameKeysOtherColumns(a: map<UserId, Stats>, b: map<UserId, Stats>)
  {
    a.Keys == b.Keys &&
    forall x :: x in a ==> a[x].(totalFollowers := 0, totalFollowing := 0) == b[x].(totalFollowers := 0, totalFollowing := 0)
  }

  /** The counter updates of an unfollow undo those of a follow. */
  lemma UnfollowStatsUndoesFollow(stats: map<UserId, Stats>, u: UserId, t: UserId)
    requires u in stats && t in stats && u != t
    ensures UnfollowStats(FollowStats(stats, u, t), u, t) == stats
  {
    var r := UnfollowStats(FollowStats(stats, u, t), u, t);
    assert forall x :: x in stats ==> r[x] == stats[x];
  }

  /** A follow of t by u, where u does not follow t yet, keeps the graph invariant:
      one new edge in each table, and one more on each of the two counters. */
  lemma {:induction false} FollowKeepsGraph(following: seq<Link<UserId>>, follower: seq<Link<UserId>>,
                                            stats: map<UserId, Stats>, u: UserId, t: UserId, now: nat)
    requires GraphInvariant(following, follower, stats)
    requires u != t && u in stats && t in stats && PairRows(following, t, u) == 0
    ensures GraphInvariant(following + [Link(t, u, now)], follower + [Link(u, t, now)], FollowStats(stats, u, t))
  {
    var fg := following + [Link(t, u, now)];
    var fr := follower + [Link(u, t, now)];
    forall a, b
      ensures PairRows(fg, a, b) == PairRows(following, a, b) + (if a == t && b == u then 1 else 0)
      ensures PairRows(fr, b, a) == PairRows(follower, b, a) + (if a == t && b == u then 1 else 0)
    {
      PairRowsAppend(following, Link(t, u, now), a, b);
      PairRowsAppend(follower, Link(u, t, now), b, a);
    }
    forall x
      ensures UserRows(fg, x) == UserRows(following, x) + (if x == u then 1 else 0)
      ensures UserRows(fr, x) == UserRows(follower, x) + (if x == t then 1 else 0)
    {
      UserRowsAppend(following, Link(t, u, now), x);
      UserRowsAppend(follower, Link(u, t, now), x);
    }
  }

  /** An unfollow of t by u, where u follows t, keeps the graph invariant: the one edge
      leaves both tables and each of the two counters loses one. Both users hold a
      statistics row, since both have an edge. */
  lemma {:induction false} UnfollowKeepsGraph(following: seq<Link<UserId>>, follower: seq<Link<UserId>>,
                                              stats: map<UserId, Stats>, u: UserId, t: UserId)
    requires GraphInvariant(following, follower, stats)
    requires PairRows(following, t, u) > 0
    ensures u in stats && t in stats
    ensures GraphInvariant(WithoutPair(following, t, u), WithoutPair(follower, u, t), UnfollowStats(stats, u, t))
  {
    PairRowsBound(following, t, u);
    PairRowsBound(follower, u, t);
    assert u != t;
    var fg, fr, st := WithoutPair(following, t, u), WithoutPair(follower, u, t), UnfollowStats(stats, u, t);
    EdgeTablesAfterUnfollow(following, follower, u, t);
    UnfollowStatsCounters(stats, u, t);
  }

  /** The counters of an unfollow of t by u: one fewer followed account for u and one
      fewer follower for t; every other counter and row is kept. */
  lemma UnfollowStatsCounters(stats: map<UserId, Stats>, u: UserId, t: UserId)
    requires u in stats && t in stats && u != t
    ensures UnfollowStats(stats, u, t).Keys == stats.Keys
    ensures forall x :: x in stats ==>
      && UnfollowStats(stats, u, t)[x].totalFollowing == stats[x].totalFollowing - (if x == u then 1 else 0)
      && UnfollowStats(stats, u, t)[x].totalFollowers == stats[x].totalFollowers - (if x == t then 1 else 0)
  {
  }

  /** The edge tables after the unfollow of t by u, where that edge occurs once in each:
      still mirrored and without repeats or self-follows, and each table has one row
      fewer for the user on its side of the edge. */
  lemma EdgeTablesAfterUnfollow(following: seq<Link<UserId>>, follower: seq<Link<UserId>>, u: UserId, t: UserId)
    requires forall a, b :: PairRows(following, a, b) <= 1
    requires forall a, b :: PairRows(following, a, b) == PairRows(follower, b, a)
    requires forall a :: PairRows(following, a, a) == 0
    requires PairRows(following, t, u) > 0
    ensures forall a, b :: PairRows(WithoutPair(following, t, u), a, b) <= 1
    ensures forall a, b :: PairRows(WithoutPair(following, t, u), a, b) == PairRows(WithoutPair(follower, u, t), b, a)
    ensures forall a :: PairRows(WithoutPair(following, t, u), a, a) == 0
    ensures forall x :: UserRows(WithoutPair(following, t, u), x) == UserRows(following, x) - (if x == u then 1 else 0)
    ensures forall x :: UserRows(WithoutPair(follower, u, t), x) == UserRows(follower, x) - (if x == t then 1 else 0)
  {
    var fg, fr := WithoutPair(following, t, u), WithoutPair(follower, u, t);
    forall a, b
      ensures PairRows(fg, a, b) == if a == t && b == u then 0 else PairRows(following, a, b)
      ensures PairRows(fr, b, a) == if a == t && b == u then 0 else PairRows(follower, b, a)
    {
      WithoutPairCounts(following, t, u, a, b);
      WithoutPairCounts(follower, u, t, b, a);
    }
    forall x
      ensures UserRows(fg, x) == UserRows(following, x) - (if x == u then 1 else 0)
      ensures UserRows(fr, x) == UserRows(follower, x) - (if x == t then 1 else 0)
    {
      WithoutPairCounts(following, t, u, t, x);
      WithoutPairCounts(follower, u, t, u, x);
    }
  }

  /** Unfollowing right after following restores both edge tables and the statistics. */
  lemma FollowUnfollowRoundTrip(following: seq<Link<UserId>>, follower: seq<Link<UserId>>,
                                stats: map<UserId, Stats>, u: UserId, t: UserId, now: nat)
    requires GraphInvariant(following, follower, stats)
    requires u != t && u in stats && t in stats && PairRows(following, t, u) == 0
    ensures WithoutPair(following + [Link(t, u, now)], t, u) == following
    ensures WithoutPair(follower + [Link(u, t, now)], u, t) == follower
    ensures UnfollowStats(FollowStats(stats, u, t), u, t) == stats
  {
    WithoutPairUndoesAppend(following, t, u, now);
    WithoutPairUndoesAppend(follower, u, t, now);
    UnfollowStatsUndoesFollow(stats, u, t);
  }

  // ---------------------------------------------------------------------------
  // The service operations.
  // ---------------------------------------------------------------------------

  /** `followUser`: refuses a self-follow, an unknown target and a repeated follow;
      otherwise one transaction adds the edge to both tables, bumps the two counters and
      notifies the target. A missing statistics row makes the store reject the
      transaction, which then changes nothing. */
  method FollowUser(db: Db, userId: UserId, targetUserId: UserId, now: nat) returns (r: Result<string>)
    requires db.GraphValid() && db.NotificationsValid()
    modifies db`following, db`follower, db`stats, db`notifications, db`nextNotificationId
    ensures db.GraphValid() && db.NotificationsValid()
    ensures userId == targetUserId ==> r == Err(BadRequest)
    ensures userId != targetUserId && !old(db.UserExists(targetUserId)) ==> r == Err(NotFound)
    ensures userId != targetUserId && old(db.UserExists(targetUserId)) && old(PairRows(db.following, targetUserId, userId)) > 0
            ==> r == Err(BadRequest)
    ensures r.Ok? <==> userId != targetUserId && old(db.UserExists(targetUserId))
                       && old(PairRows(db.following, targetUserId, userId)) == 0
                       && userId in old(db.stats) && targetUserId in old(db.stats)
    ensures r.Ok? ==>
      && db.following == old(db.following) + [Link(targetUserId, userId, now)]
      && db.follower == old(db.follower) + [Link(userId, targetUserId, now)]
      && db.stats == FollowStats(old(db.stats), userId, targetUserId)
      && db.notifications == old(db.notifications) +
           [Notification(old(db.nextNotificationId), targetUserId, "follow", "started following you", Some(userId), None, None, false, now)]
    ensures r.Err? ==> unchanged(db)
  {
    if userId == targetUserId {
      return Err(BadRequest);
    }
    if !db.UserExists(targetUserId) {
      return Err(NotFound);
    }
    if HasPair(db.following, targetUserId, userId) {
      return Err(BadRequest);
    }
    if userId !in db.stats || targetUserId !in db.stats {
      return Err(StoreError);
    }
    FollowKeepsGraph(db.following, db.follower, db.stats, userId, targetUserId, now);
    db.following := db.following + [Link(targetUserId, userId, now)];
    db.follower := db.follower + [Link(userId, targetUserId, now)];
    db.stats := FollowStats(db.stats, userId, targetUserId);
    Notify(db, targetUserId, "follow", "started following you", Some(userId), None, None, now);
    return Ok("Successfully followed user");
  }

  /** `unfollowUser`: refuses when there is no edge; otherwise one transaction removes
      the edge from both tables and lowers the two counters. */
  method UnfollowUser(db: Db, userId: UserId, targetUserId: UserId) returns (r: Result<string>)
    requires db.GraphValid()
    modifies db`following, db`follower, db`stats
    ensures db.GraphValid()
    ensures r.Ok? <==> old(PairRows(db.following, targetUserId, userId)) > 0
    ensures r.Err? ==> r.error == BadRequest && unchanged(db)
    ensures r.Ok? ==>
      && userId in old(db.stats) && targetUserId in old(db.stats)
      && db.following == WithoutPair(old(db.following), targetUserId, userId)
      && db.follower == WithoutPair(old(db.follower), userId, targetUserId)
      && db.stats == UnfollowStats(old(db.stats), userId, targetUserId)
      && PairRows(db.following, targetUserId, userId) == 0
  {
    if !HasPair(db.following, targetUserId, userId) {
      return Err(BadRequest);
    }
    UnfollowKeepsGraph(db.following, db.follower, db.stats, userId, targetUserId);
    WithoutPairCounts(db.following, targetUserId, userId, targetUserId, userId);
    db.following := WithoutPair(db.following, targetUserId, userId);
    db.follower := WithoutPair(db.follower, userId, targetUserId);
    db.stats := UnfollowStats(db.stats, userId, targetUserId);
    return Ok("Successfully unfollowed user");
  }

  /** Following and then unfollowing the same user leaves the graph and the statistics
      as they were; only the follow notification remains. */
  method FollowThenUnfollow(db: Db, userId: UserId, targetUserId: UserId, now: nat)
    returns (followed: Result<string>, unfollowed: Result<string>)
    requires db.GraphValid() && db.NotificationsValid()
    modifies db`following, db`follower, db`stats, db`notifications, db`nextNotificationId
    ensures followed.Ok? ==> unfollowed.Ok?
    ensures followed.Ok? ==>
      && db.following == old(db.following)
      && db.follower == old(db.follower)
      && db.stats == old(db.stats)
  {
    followed := FollowUser(db, userId, targetUserId, now);
    if followed.Ok? {
      FollowUnfollowRoundTrip(old(db.following), old(db.follower), old(db.stats), userId, targetUserId, now);
      PairRowsAppend(old(db.following), Link(targetUserId, userId, now), targetUserId, userId);
    }
    unfollowed := UnfollowUser(db, userId, targetUserId);
  }

  /** `isFollowing`: whether u has an edge to t. Under the invariant the `follower`
      table agrees. */
  function IsFollowing(db: Db, userId: UserId, targetUserId: UserId): (r: bool)
    reads db
    ensures r <==> PairRows(db.following, targetUserId, userId) > 0
    ensures db.GraphValid() ==> (r <==> PairRows(db.follower, userId, targetUserId) > 0)
  {
    HasPair(db.following, targetUserId, userId)
  }

  // ---------------------------------------------------------------------------
  // Listings.
  // ---------------------------------------------------------------------------

  /** A user as the follow listings show them, with the time of the edge. `fullName`
      is absent only for an edge to a missing account. */
  datatype UserCard = UserCard(id: UserId, fullName: Option<string>, username: Option<string>,
                               profileImage: Option<string>, bio: Option<string>, followedAt: nat)

  function Card(users: seq<User>, profiles: seq<Profile>, l: Link<UserId>): UserCard
  {
    var u := UserIndex(users, l.subject);
    var p := ProfileOf(profiles, l.subject);
    UserCard(l.subject,
             if u.Some? then Some(users[u.value].fullName) else None,
             if p.Some? then Some(profiles[p.value].username) else None,
             if p.Some? then profiles[p.value].profileImage else None,
             if p.Some? && "bio" in profiles[p.value].fields then Some(profiles[p.value].fields["bio"]) else None,
             l.createdAt)
  }

  /** The user's rows of an edge table, newest first, cut to the window, as cards. */
  function EdgePage(users: seq<User>, profiles: seq<Profile>, edges: seq<Link<UserId>>,
                    userId: UserId, skip: nat, take: nat): (r: Page<UserCard>)
    ensures r.total == UserRows(edges, userId) && r.skip == skip && r.take == take
    ensures |r.data| <= take
    ensures forall c :: c in r.data ==> Link(c.id, userId, c.followedAt) in edges
    ensures forall i, j :: 0 <= i < j < |r.data| ==> r.data[i].followedAt >= r.data[j].followedAt
  {
    var rows := Query(edges, OfUser(userId), NewestFirst(), skip, take);
    SortedByColumn(rows, NewestFirst(), (l: Link<UserId>) => l.createdAt);
    var data := seq(|rows|, i requires 0 <= i < |rows| => Card(users, profiles, rows[i]));
    assert forall c :: c in data ==> Link(c.id, userId, c.followedAt) in edges by {
      forall c | c in data ensures Link(c.id, userId, c.followedAt) in edges {
        var i :| 0 <= i < |data| && data[i] == c;
        assert rows[i] in rows && OfUser(userId)(rows[i]);
        assert Link(c.id, userId, c.followedAt) == rows[i];
      }
    }
    Page(data, UserRows(edges, userId), skip, take)
  }

  /** `getFollowers`: the accounts following the user, newest edge first; `total` counts
      all of them and equals the user's `totalFollowers` under the invariant. */
  function GetFollowers(db: Db, userId: UserId, skip: nat, take: nat): (r: Page<UserCard>)
    reads db
    ensures r.total == UserRows(db.follower, userId) && |r.data| <= take
    ensures forall c :: c in r.data ==> Link(c.id, userId, c.followedAt) in db.follower
    ensures forall i, j :: 0 <= i < j < |r.data| ==> r.data[i].followedAt >= r.data[j].followedAt
    ensures db.GraphValid() && userId in db.stats ==> r.total == db.stats[userId].totalFollowers
  {
    EdgePage(db.users, db.profiles, db.follower, userId, skip, take)
  }

  /** `getFollowing`: the accounts the user follows, newest edge first; `total` equals
      the user's `totalFollowing` under the invariant. */
  function GetFollowing(db: Db, userId: UserId, skip: nat, take: nat): (r: Page<UserCard>)
    reads db
    ensures r.total == UserRows(db.following, userId) && |r.data| <= take
    ensures forall c :: c in r.data ==> Link(c.id, userId, c.followedAt) in db.following
    ensures forall i, j :: 0 <= i < j < |r.data| ==> r.data[i].followedAt >= r.data[j].followedAt
    ensures db.GraphValid() && userId in db.stats ==> r.total == db.stats[userId].totalFollowing
  {
    EdgePage(db.users, db.profiles, db.following, userId, skip, take)
  }

  /** With a window from 0 that holds all the user's rows, every row of the user is
      listed, as the card of its subject with the row's date. */
  lemma EdgePageComplete(users: seq<User>, profiles: seq<Profile>, edges: seq<Link<UserId>>,
                         userId: UserId, take: nat, l: Link<UserId>)
    requires UserRows(edges, userId) <= take && l in edges && l.userId == userId
    ensures exists c :: c in EdgePage(users, profiles, edges, userId, 0, take).data
                        && c.id == l.subject && c.followedAt == l.createdAt
  {
    UserRowsCount(edges, userId);
    QueryHas(edges, OfUser(userId), NewestFirst(), take, l);
    var rows := Query(edges, OfUser(userId), NewestFirst(), 0, take);
    var k :| 0 <= k < |rows| && rows[k] == l;
    assert EdgePage(users, profiles, edges, userId, 0, take).data[k] == Card(users, profiles, l);
  }

  /** Under the invariant, with a window from 0 that holds all of them, everyone who
      follows the user is among `getFollowers`. */
  lemma FollowersComplete(db: Db, userId: UserId, take: nat, u: UserId)
    requires db.GraphValid() && UserRows(db.follower, userId) <= take && IsFollowing(db, u, userId)
    ensures exists c :: c in GetFollowers(db, userId, 0, take).data && c.id == u
  {
    PairRowsIndex(db.follower, u, userId);
    var i :| 0 <= i < |db.follower| && db.follower[i].subject == u && db.follower[i].userId == userId;
    EdgePageComplete(db.users, db.profiles, db.follower, userId, take, db.follower[i]);
  }

  /** With a window from 0 that holds all of them, everyone the user follows is among
      `getFollowing`. */
  lemma FollowingComplete(db: Db, userId: UserId, take: nat, t: UserId)
    requires UserRows(db.following, userId) <= take && IsFollowing(db, userId, t)
    ensures exists c :: c in GetFollowing(db, userId, 0, take).data && c.id == t
  {
    PairRowsIndex(db.following, t, userId);
    var i :| 0 <= i < |db.following| && db.following[i].subject == t && db.following[i].userId == userId;
    EdgePageComplete(db.users, db.profiles, db.following, userId, take, db.following[i]);
  }

  /** Everyone `getFollowers` lists does follow the user, and everyone `getFollowing`
      lists is followed by them, by the mirror half of the invariant. */
  lemma ListedEdgesAreFollows(db: Db, userId: UserId, skip: nat, take: nat)
    requires db.GraphValid()
    ensures forall c :: c in GetFollowers(db, userId, skip, take).data ==> IsFollowing(db, c.id, userId)
    ensures forall c :: c in GetFollowing(db, userId, skip, take).data ==> IsFollowing(db, userId, c.id)
  {
    forall c | c in GetFollowers(db, userId, skip, take).data
      ensures IsFollowing(db, c.id, userId)
    {
      var i :| 0 <= i < |db.follower| && db.follower[i] == Link(c.id, userId, c.followedAt);
      PairRowsIndex(db.follower, c.id, userId);
    }
    forall c | c in GetFollowing(db, userId, skip, take).data
      ensures IsFollowing(db, userId, c.id)
    {
      var i :| 0 <= i < |db.following| && db.following[i] == Link(c.id, userId, c.followedAt);
      PairRowsIndex(db.following, c.id, userId);
    }
  }

  /** The users `getSuggestedUsers` may offer to `userId`: someone else, not banned,
      whose account settings allow suggestions, and with no follower row from `userId`. */
  predicate Suggestible(settings: map<UserId, Row>, follower: seq<Link<UserId>>, userId: UserId, u: User)
  {
    && u.id != userId
    && !u.banned
    && u.id in settings && FlagSet(settings[u.id], "suggestAccount")
    && !HasPair(follower, userId, u.id)
  }

  function SuggestibleFilter(settings: map<UserId, Row>, follower: seq<Link<UserId>>, userId: UserId): User -> bool
  {
    (u: User) => Suggestible(settings, follower, userId, u)
  }

  /** A user's follower count; a user without a statistics row sorts as 0. */
  function FollowerCount(stats: map<UserId, Stats>, id: UserId): int
  {
    if id in stats then stats[id].totalFollowers else 0
  }

  function MostFollowedFirst(stats: map<UserId, Stats>): User -> seq<int>
  {
    (u: User) => [FollowerCount(stats, u.id)]
  }

  /** The accounts suggested, most followed first, at most `take` of them. */
  function Suggestions(users: seq<User>, settings: map<UserId, Row>, follower: seq<Link<UserId>>,
                       stats: map<UserId, Stats>, userId: UserId, take: nat): (r: seq<User>)
    ensures |r| <= take
    ensures forall u :: u in r ==> u in users && Suggestible(settings, follower, userId, u)
    ensures forall i, j :: 0 <= i < j < |r| ==> FollowerCount(stats, r[i].id) >= FollowerCount(stats, r[j].id)
  {
    var r := Query(users, SuggestibleFilter(settings, follower, userId), MostFollowedFirst(stats), 0, take);
    SortedByColumn(r, MostFollowedFirst(stats), (u: User) => FollowerCount(stats, u.id));
    r
  }

  /** When no more than `take` users qualify, every one of them is suggested. */
  lemma SuggestionsComplete(users: seq<User>, settings: map<UserId, Row>, follower: seq<Link<UserId>>,
                            stats: map<UserId, Stats>, userId: UserId, take: nat, u: User)
    requires Count(users, SuggestibleFilter(settings, follower, userId)) <= take
    requires u in users && Suggestible(settings, follower, userId, u)
    ensures u in Suggestions(users, settings, follower, stats, userId, take)
  {
    var p := SuggestibleFilter(settings, follower, userId);
    QueryComplete(users, p, MostFollowedFirst(stats), take);
    assert u in Filter(users, p);
    assert u in multiset(Filter(users, p));
  }

  /** A suggested user as `getSuggestedUsers` selects them. */
  datatype Suggestion = Suggestion(id: UserId, fullName: string, username: Option<string>,
                                   profileImage: Option<string>, bio: Option<string>,
                                   totalFollowers: Option<int>, totalPosts: Option<int>)

  function SuggestionOf(profiles: seq<Profile>, stats: map<UserId, Stats>, u: User): (s: Suggestion)
    ensures s.id == u.id
  {
    var p := ProfileOf(profiles, u.id);
    var st := if u.id in stats then Some(stats[u.id]) else None;
    Suggestion(u.id, u.fullName,
               if p.Some? then Some(profiles[p.value].username) else None,
               if p.Some? then profiles[p.value].profileImage else None,
               if p.Some? && "bio" in profiles[p.value].fields then Some(profiles[p.value].fields["bio"]) else None,
               if st.Some? then Some(st.value.totalFollowers) else None,
               if st.Some? then Some(st.value.totalPosts) else None)
  }

  /** `getSuggestedUsers`: existing accounts other than the caller's, none with a
      follower row from the caller. */
  function GetSuggestedUsers(db: Db, userId: UserId, take: nat): (r: seq<Suggestion>)
    reads db`users, db`accountSettings, db`follower, db`stats, db`profiles
    ensures |r| <= take
    ensures forall s :: s in r ==> s.id != userId && db.UserExists(s.id)
    ensures forall s :: s in r ==> PairRows(db.follower, userId, s.id) == 0
  {
    var us := Suggestions(db.users, db.accountSettings, db.follower, db.stats, userId, take);
    var profiles, stats := db.profiles, db.stats;
    var r := seq(|us|, i requires 0 <= i < |us| => SuggestionOf(profiles, stats, us[i]));
    assert forall s :: s in r ==> s.id != userId && db.UserExists(s.id) && PairRows(db.follower, userId, s.id) == 0 by {
      forall s | s in r
        ensures s.id != userId && db.UserExists(s.id) && PairRows(db.follower, userId, s.id) == 0
      {
        var i :| 0 <= i < |r| && r[i] == s;
        var u := us[i];
        assert u in us && u.id == s.id;
        assert Suggestible(db.accountSettings, db.follower, userId, u);
      }
    }
    r
  }

  /** Under the invariant nobody the caller already follows is suggested. */
  lemma SuggestedNotFollowed(db: Db, userId: UserId, take: nat)
    requires db.GraphValid()
    ensures forall s :: s in GetSuggestedUsers(db, userId, take) ==> !IsFollowing(db, userId, s.id)
  {
  }
}
