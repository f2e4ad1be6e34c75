/** Administration (src/admin/services/admin.service.ts): the dashboard counts and
    engagement sums, the user list, the moderation queue, and the moderation flips:
    ban and unban, approve and reject (a soft delete) of posts, approve and delete of
    itineraries. */
module Admin {
  import opened Common
  import opened Store
  import Discover
  import Itineraries

  // ---------------------------------------------------------------------------
  // Counting and summing columns.
  // ---------------------------------------------------------------------------

  /** `_sum` of a column over every row; no rows sum to 0 (`|| 0`). */
  function Sum<T>(s: seq<T>, f: T -> int): int
  {
    if s == [] then 0 else Sum(s[..|s| - 1], f) + f(s[|s| - 1])
  }

  /** Rewriting one row changes a count by what the row contributed before and after. */
  lemma {:induction false} CountUpdate<T>(s: seq<T>, i: nat, x: T, p: T -> bool)
    requires i < |s|
    ensures Count(s[i := x], p) == Count(s, p) - (if p(s[i]) then 1 else 0) + (if p(x) then 1 else 0)
  {
    var n := |s| - 1;
    if i < n {
      CountUpdate(s[..n], i, x, p);
      assert s[i := x][..n] == s[..n][i := x];
    } else {
      assert s[i := x][..n] == s[..n];
    }
  }

  /** Rewriting one row changes a sum by the difference of the row's values. */
  lemma {:induction false} SumUpdate<T>(s: seq<T>, i: nat, x: T, f: T -> int)
    requires i < |s|
    ensures Sum(s[i := x], f) == Sum(s, f) - f(s[i]) + f(x)
  {
    var n := |s| - 1;
    if i < n {
      SumUpdate(s[..n], i, x, f);
      assert s[i := x][..n] == s[..n][i := x];
    } else {
      assert s[i := x][..n] == s[..n];
    }
  }

  // ---------------------------------------------------------------------------
  // The dashboard.
  // ---------------------------------------------------------------------------

  datatype DashboardStats = DashboardStats(totalUsers: nat, activeUsers: nat, totalPosts: nat,
                                           totalItineraries: nat, pendingPosts: nat,
                                           pendingItineraries: nat, totalLikes: int,
                                           totalComments: int, totalShares: int, totalViews: int)

  function NotBanned(): User -> bool { (u: User) => !u.banned }
  function ActivePost(): Post -> bool { (p: Post) => p.status == Active }
  function PendingPost(): Post -> bool { (p: Post) => !p.approvedByAdmin && p.status == Active }
  function PendingItinerary(): Itinerary -> bool { (t: Itinerary) => !t.approvedByAdmin }

  function Likes(): Post -> int { (p: Post) => p.likeCount }
  function Comments(): Post -> int { (p: Post) => p.commentCount }
  function Shares(): Post -> int { (p: Post) => p.shareCount }
  function Views(): Post -> int { (p: Post) => p.viewCount }

  /** `getDashboardStats`. The users not banned are among all users, the pending
      posts among the active posts, the pending itineraries among all itineraries;
      the engagement sums run over every post, deleted ones included. */
  function GetDashboardStats(db: Db): (r: DashboardStats)
    reads db
    ensures r.totalUsers == |db.users| && r.totalItineraries == |db.itineraries|
    ensures r.activeUsers == Count(db.users, NotBanned()) && r.totalPosts == Count(db.posts, ActivePost())
    ensures r.pendingPosts == Count(db.posts, PendingPost())
    ensures r.pendingItineraries == Count(db.itineraries, PendingItinerary())
    ensures r.activeUsers <= r.totalUsers
    ensures r.pendingPosts <= r.totalPosts <= |db.posts|
    ensures r.pendingItineraries <= r.totalItineraries
    ensures r.totalLikes == Sum(db.posts, Likes()) && r.totalComments == Sum(db.posts, Comments())
    ensures r.totalShares == Sum(db.posts, Shares()) && r.totalViews == Sum(db.posts, Views())
    ensures db.posts == [] ==> r.totalLikes == 0 && r.totalComments == 0 && r.totalShares == 0 && r.totalViews == 0
  {
    FilterCount(db.users, NotBanned());
    FilterCount(db.posts, ActivePost());
    FilterCount(db.itineraries, PendingItinerary());
    CountMonotone(db.posts, PendingPost(), ActivePost());
    DashboardStats(|db.users|, Count(db.users, NotBanned()), Count(db.posts, ActivePost()),
                   |db.itineraries|, Count(db.posts, PendingPost()),
                   Count(db.itineraries, PendingItinerary()),
                   Sum(db.posts, Likes()), Sum(db.posts, Comments()),
                   Sum(db.posts, Shares()), Sum(db.posts, Views()))
  }

  // ---------------------------------------------------------------------------
  // The user list and the moderation queue.
  // ---------------------------------------------------------------------------

  /** The `where` of `getUsers`: every user without a search; with a non-empty one,
      those whose e-mail, name or username contains it. Banned users are listed. */
  function UserFilter(profiles: seq<Profile>, search: Option<string>): User -> bool
  {
    (u: User) => search.None? || search.value == ""
                 || Discover.Contains(Some(u.email), search.value)
                 || Discover.Contains(Some(u.fullName), search.value)
                 || Discover.Contains(Discover.UsernameOf(profiles, u.id), search.value)
  }

  function NewestUser(): User -> seq<int> { (u: User) => [u.createdAt] }

  /** `getUsers`: newest accounts first, in the window, with the total of the same
      filter; without a search every account counts. */
  function GetUsers(db: Db, skip: nat, take: nat, search: Option<string>): (r: Page<User>)
    reads db
    ensures r.total == Count(db.users, UserFilter(db.profiles, search)) && r.skip == skip && r.take == take
    ensures |r.data| <= take && |r.data| <= r.total
    ensures forall u :: u in r.data ==> u in db.users && UserFilter(db.profiles, search)(u)
    ensures forall i, j :: 0 <= i < j < |r.data| ==> r.data[i].createdAt >= r.data[j].createdAt
    ensures search.None? ==> r.total == |db.users|
  {
    var rows := Query(db.users, UserFilter(db.profiles, search), NewestUser(), skip, take);
    SortedByColumn(rows, NewestUser(), (u: User) => u.createdAt);
    FilterCount(db.users, UserFilter(db.profiles, search));
    assert search.None? ==> Filter(db.users, UserFilter(db.profiles, search)) == db.users by {
      if search.None? {
        FilterAll(db.users, UserFilter(db.profiles, search));
      }
    }
    Page(rows, Count(db.users, UserFilter(db.profiles, search)), skip, take)
  }

  /** With a window from 0 that holds every account the filter keeps, each of them is
      listed; without a search that is every account. */
  lemma GetUsersComplete(db: Db, take: nat, search: Option<string>, u: User)
    requires Count(db.users, UserFilter(db.profiles, search)) <= take
    requires u in db.users && UserFilter(db.profiles, search)(u)
    ensures u in GetUsers(db, 0, take, search).data
  {
    QueryHas(db.users, UserFilter(db.profiles, search), NewestUser(), take, u);
  }

  /** A filter every row passes keeps the table as it is. */
  lemma {:induction false} FilterAll<T(!new)>(s: seq<T>, p: T -> bool)
    requires forall x :: x in s ==> p(x)
    ensures Filter(s, p) == s
  {
    if s != [] {
      assert forall x :: x in s[..|s| - 1] ==> x in s;
      FilterAll(s[..|s| - 1], p);
      assert s[..|s| - 1] + [s[|s| - 1]] == s;
    }
  }

  datatype ContentKind = PendingPosts | PendingItineraries

  /** What `getPendingContent` answers for each kind. */
  datatype PendingContent = PostQueue(posts: Page<Post>) | ItineraryQueue(itineraries: Page<Itinerary>)

  function NewestPost(): Post -> seq<int> { (p: Post) => [p.createdAt] }
  function NewestItinerary(): Itinerary -> seq<int> { (t: Itinerary) => [t.createdAt] }

  /** `getPendingContent`: the unapproved active posts, or the unapproved itineraries,
      newest first, in the window, with the total of the same filter. */
  function GetPendingContent(db: Db, kind: ContentKind, skip: nat, take: nat): (r: PendingContent)
    reads db
    ensures r.PostQueue? <==> kind == PendingPosts
    ensures r.PostQueue? ==>
      && r.posts.total == Count(db.posts, PendingPost()) && |r.posts.data| <= take
      && r.posts.skip == skip && r.posts.take == take
      && (forall p :: p in r.posts.data ==> p in db.posts && !p.approvedByAdmin && p.status == Active)
      && (forall i, j :: 0 <= i < j < |r.posts.data| ==> r.posts.data[i].createdAt >= r.posts.data[j].createdAt)
    ensures r.ItineraryQueue? ==>
      && r.itineraries.total == Count(db.itineraries, PendingItinerary()) && |r.itineraries.data| <= take
      && r.itineraries.skip == skip && r.itineraries.take == take
      && (forall t :: t in r.itineraries.data ==> t in db.itineraries && !t.approvedByAdmin)
      && (forall i, j :: 0 <= i < j < |r.itineraries.data| ==>
            r.itineraries.data[i].createdAt >= r.itineraries.data[j].createdAt)
  {
    if kind == PendingPosts then
      var rows := Query(db.posts, PendingPost(), NewestPost(), skip, take);
      SortedByColumn(rows, NewestPost(), (p: Post) => p.createdAt);
      PostQueue(Page(rows, Count(db.posts, PendingPost()), skip, take))
    else
      var rows := Query(db.itineraries, PendingItinerary(), NewestItinerary(), skip, take);
      SortedByColumn(rows, NewestItinerary(), (t: Itinerary) => t.createdAt);
      ItineraryQueue(Page(rows, Count(db.itineraries, PendingItinerary()), skip, take))
  }

  /** With a window from 0 that holds the whole queue, every unapproved active post is
      in the post queue and every unapproved itinerary in the itinerary queue. */
  lemma PendingContentComplete(db: Db, take: nat)
    ensures Count(db.posts, PendingPost()) <= take ==>
      forall p :: p in db.posts && !p.approvedByAdmin && p.status == Active ==>
        p in GetPendingContent(db, PendingPosts, 0, take).posts.data
    ensures Count(db.itineraries, PendingItinerary()) <= take ==>
      forall t :: t in db.itineraries && !t.approvedByAdmin ==>
        t in GetPendingContent(db, PendingItineraries, 0, take).itineraries.data
  {
    if Count(db.posts, PendingPost()) <= take {
      forall p | p in db.posts && !p.approvedByAdmin && p.status == Active
        ensures p in GetPendingContent(db, PendingPosts, 0, take).posts.data
      {
        QueryHas(db.posts, PendingPost(), NewestPost(), take, p);
      }
    }
    if Count(db.itineraries, PendingItinerary()) <= take {
      forall t | t in db.itineraries && !t.approvedByAdmin
        ensures t in GetPendingContent(db, PendingItineraries, 0, take).itineraries.data
      {
        QueryHas(db.itineraries, PendingItinerary(), NewestItinerary(), take, t);
      }
    }
  }

  // ---------------------------------------------------------------------------
  // Moderation. Each is one `update` or `delete` by id, which the store rejects for a
  // missing row.
  // ---------------------------------------------------------------------------

  /** `banUser` (`banned` true) and `unbanUser` (`banned` false): only that column of
      that account changes, and setting it to what it already is changes nothing. */
  method SetBanned(db: Db, userId: UserId, banned: bool) returns (r: Result<string>)
    modifies db`users
    ensures UserIndex(old(db.users), userId).None? ==> r == Err(StoreError) && unchanged(db)
    ensures UserIndex(old(db.users), userId).Some? ==>
      var i := UserIndex(old(db.users), userId).value;
      && db.users == old(db.users)[i := old(db.users)[i].(banned := banned)]
      && r == Ok(if banned then "User banned successfully" else "User unbanned successfully")
      && (old(db.users)[i].banned == banned ==> db.users == old(db.users))
  {
    var ui := UserIndex(db.users, userId);
    if ui.None? {
      return Err(StoreError);
    }
    db.users := db.users[ui.value := db.users[ui.value].(banned := banned)];
    r := Ok(if banned then "User banned successfully" else "User unbanned successfully");
  }

  /** Banning takes an account out of the active count and changes no other figure
      of the dashboard. */
  lemma BanLowersActiveUsers(db: Db, i: nat)
    requires i < |db.users| && !db.users[i].banned
    ensures Count(db.users[i := db.users[i].(banned := true)], NotBanned()) == Count(db.users, NotBanned()) - 1
  {
    CountUpdate(db.users, i, db.users[i].(banned := true), NotBanned());
  }

  /** `approvePost`: only `approvedByAdmin` of that post, set to true. */
  method ApprovePost(db: Db, postId: RowId) returns (r: Result<string>)
    modifies db`posts
    ensures PostIndex(old(db.posts), postId).None? ==> r == Err(StoreError) && unchanged(db)
    ensures PostIndex(old(db.posts), postId).Some? ==>
      var i := PostIndex(old(db.posts), postId).value;
      && db.posts == old(db.posts)[i := old(db.posts)[i].(approvedByAdmin := true)]
      && r == Ok("Post approved successfully")
    ensures old(db.PostIdsValid()) ==> db.PostIdsValid()
  {
    var pi := PostIndex(db.posts, postId);
    if pi.None? {
      return Err(StoreError);
    }
    var p := db.posts[pi.value];
    db.posts := db.posts[pi.value := p.(approvedByAdmin := true)];
    assert forall k :: 0 <= k < |db.posts| ==> PostId(db.posts[k]) == PostId(old(db.posts)[k]);
    return Ok("Post approved successfully");
  }

  /** `rejectPost`: a soft delete; only `status` of that post, set to DELETED. */
  method RejectPost(db: Db, postId: RowId) returns (r: Result<string>)
    modifies db`posts
    ensures PostIndex(old(db.posts), postId).None? ==> r == Err(StoreError) && unchanged(db)
    ensures PostIndex(old(db.posts), postId).Some? ==>
      var i := PostIndex(old(db.posts), postId).value;
      && db.posts == old(db.posts)[i := old(db.posts)[i].(status := Deleted)]
      && r == Ok("Post rejected successfully")
    ensures old(db.PostIdsValid()) ==> db.PostIdsValid()
  {
    var pi := PostIndex(db.posts, postId);
    if pi.None? {
      return Err(StoreError);
    }
    var p := db.posts[pi.value];
    db.posts := db.posts[pi.value := p.(status := Deleted)];
    assert forall k :: 0 <= k < |db.posts| ==> PostId(db.posts[k]) == PostId(old(db.posts)[k]);
    return Ok("Post rejected successfully");
  }

  /** Rejecting an active post lowers the dashboard's post count by one, takes it off
      the pending count if it was pending, and leaves the engagement sums as they
      were: the sums still cover the deleted post. */
  lemma RejectKeepsEngagement(posts: seq<Post>, i: nat)
    requires i < |posts| && posts[i].status == Active
    ensures Count(posts[i := posts[i].(status := Deleted)], ActivePost()) == Count(posts, ActivePost()) - 1
    ensures Count(posts[i := posts[i].(status := Deleted)], PendingPost())
            == Count(posts, PendingPost()) - (if posts[i].approvedByAdmin then 0 else 1)
    ensures Sum(posts[i := posts[i].(status := Deleted)], Likes()) == Sum(posts, Likes())
    ensures Sum(posts[i := posts[i].(status := Deleted)], Comments()) == Sum(posts, Comments())
    ensures Sum(posts[i := posts[i].(status := Deleted)], Shares()) == Sum(posts, Shares())
    ensures Sum(posts[i := posts[i].(status := Deleted)], Views()) == Sum(posts, Views())
  {
    var x := posts[i].(status := Deleted);
    CountUpdate(posts, i, x, ActivePost());
    CountUpdate(posts, i, x, PendingPost());
    SumUpdate(posts, i, x, Likes());
    SumUpdate(posts, i, x, Comments());
    SumUpdate(posts, i, x, Shares());
    SumUpdate(posts, i, x, Views());
  }

  /** `approveItinerary`: only `approvedByAdmin` of that itinerary, set to true. */
  method ApproveItinerary(db: Db, itineraryId: RowId) returns (r: Result<string>)
    modifies db`itineraries
    ensures ItineraryIndex(old(db.itineraries), itineraryId).None? ==> r == Err(StoreError) && unchanged(db)
    ensures ItineraryIndex(old(db.itineraries), itineraryId).Some? ==>
      var i := ItineraryIndex(old(db.itineraries), itineraryId).value;
      && db.itineraries == old(db.itineraries)[i := old(db.itineraries)[i].(approvedByAdmin := true)]
      && r == Ok("Itinerary approved successfully")
    ensures old(db.ItineraryIdsValid()) ==> db.ItineraryIdsValid()
  {
    var ti := ItineraryIndex(db.itineraries, itineraryId);
    if ti.None? {
      return Err(StoreError);
    }
    var t := db.itineraries[ti.value];
    db.itineraries := db.itineraries[ti.value := t.(approvedByAdmin := true)];
    assert forall k :: 0 <= k < |db.itineraries| ==> ItineraryId(db.itineraries[k]) == ItineraryId(old(db.itineraries)[k]);
    return Ok("Itinerary approved successfully");
  }

  /** `deleteItinerary`: the row is removed, whoever owns it; the owner's travel
      statistics are not recomputed. */
  method DeleteItinerary(db: Db, itineraryId: RowId) returns (r: Result<string>)
    modifies db`itineraries
    ensures ItineraryIndex(old(db.itineraries), itineraryId).None? ==> r == Err(StoreError) && unchanged(db)
    ensures ItineraryIndex(old(db.itineraries), itineraryId).Some? ==>
      && db.itineraries == RemoveAt(old(db.itineraries), ItineraryIndex(old(db.itineraries), itineraryId).value)
      && r == Ok("Itinerary deleted successfully")
    ensures old(db.ItineraryIdsValid()) ==> db.ItineraryIdsValid()
    ensures old(db.ItineraryIdsValid()) ==> forall t :: t in db.itineraries ==> t.id != itineraryId
  {
    var ti := ItineraryIndex(db.itineraries, itineraryId);
    if ti.None? {
      return Err(StoreError);
    }
    RemoveAtKeepsIds(db.itineraries, ItineraryId, db.nextItineraryId, ti.value);
    if db.ItineraryIdsValid() {
      Itineraries.RemoveDeletesTheRow(db.itineraries, ti.value);
    }
    db.itineraries := RemoveAt(db.itineraries, ti.value);
    return Ok("Itinerary deleted successfully");
  }
}
