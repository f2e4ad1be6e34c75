/** Posts and their engagement (src/posts/services/posts.service.ts): creating, editing
    and soft-deleting posts under an owner guard, likes, saves, shares, comments,
    comment likes and replies with their counters and notifications, and the feed,
    comment and reply listings. */
module Posts {
  import opened Common
  import opened Store
  import opened Text
  import opened Counters

  /** The post columns a create or update DTO carries; `None` is a field left out. */
  datatype PostFields = PostFields(imageLinks: Option<seq<string>>, caption: Option<string>,
                                   details: Option<string>, location: Option<string>,
                                   visibility: Option<Visibility>)

  function OrElse<T>(o: Option<T>, d: T): T
  {
    if o.Some? then o.value else d
  }

  /** The row `post.create` inserts. */
  function NewPost(id: RowId, userId: UserId, f: PostFields, now: nat): Post
  {
    Post(id, userId, f.caption, f.details, f.location, OrElse(f.imageLinks, []),
         OrElse(f.visibility, DefaultVisibility), Active, DefaultApproved, 0, 0, 0, 0, now)
  }

  /** `post.update({ data: dto })`: each column the DTO carries is overwritten; all
      other columns, the id, the owner, the status and the counters, are kept. */
  function ApplyFields(p: Post, f: PostFields): (r: Post)
    ensures r.(imageLinks := p.imageLinks, caption := p.caption, details := p.details,
               location := p.location, visibility := p.visibility) == p
    ensures f.caption.Some? ==> r.caption == f.caption
    ensures f.details.Some? ==> r.details == f.details
    ensures f.location.Some? ==> r.location == f.location
    ensures f.imageLinks.Some? ==> r.imageLinks == f.imageLinks.value
    ensures f.visibility.Some? ==> r.visibility == f.visibility.value
  {
    p.(imageLinks := OrElse(f.imageLinks, p.imageLinks),
       caption := if f.caption.Some? then f.caption else p.caption,
       details := if f.details.Some? then f.details else p.details,
       location := if f.location.Some? then f.location else p.location,
       visibility := OrElse(f.visibility, p.visibility))
  }

  /** Applying the same update twice is applying it once. */
  lemma ApplyFieldsIdempotent(p: Post, f: PostFields)
    ensures ApplyFields(ApplyFields(p, f), f) == ApplyFields(p, f)
  {
  }

  function PostLikeCount(p: Post): int { p.likeCount }
  function CommentLikeCount(c: Comment): int { c.likeCount }

  // ---------------------------------------------------------------------------
  // Reading one post.
  // ---------------------------------------------------------------------------

  /** The tags a post's `postTags` rows point to, in row order. */
  function TagsOf(tags: seq<Tag>, postTags: seq<PostTag>, postId: RowId): (r: seq<Tag>)
    ensures forall t :: t in r ==> t in tags && PostTag(postId, t.id) in postTags
  {
    if postTags == [] then []
    else
      var rest := TagsOf(tags, postTags[..|postTags| - 1], postId);
      var pt := postTags[|postTags| - 1];
      var ti := IndexOf(tags, (t: Tag) => t.id == pt.tagId);
      assert forall x :: x in postTags[..|postTags| - 1] ==> x in postTags;
      if pt.postId == postId && ti.Some? then rest + [tags[ti.value]] else rest
  }

  datatype PostView = PostView(post: Post, tags: seq<Tag>, isLiked: bool, isSaved: bool)

  /** `findOne`: NotFound for a missing post; otherwise the view count goes up by one
      and the post is returned as it was read before that increment, with whether the
      signed-in viewer liked and saved it. */
  method FindOne(db: Db, id: RowId, viewer: Option<UserId>) returns (r: Result<PostView>)
    modifies db`posts
    ensures PostIndex(old(db.posts), id).None? ==> r == Err(NotFound) && db.posts == old(db.posts)
    ensures PostIndex(old(db.posts), id).Some? ==>
      var i := PostIndex(old(db.posts), id).value;
      && db.posts == old(db.posts)[i := old(db.posts)[i].(viewCount := old(db.posts)[i].viewCount + 1)]
      && r.Ok? && r.value.post == old(db.posts)[i]
      && r.value.tags == TagsOf(db.tags, db.postTags, id)
      && (r.value.isLiked <==> Signed(viewer) && PairRows(db.postLikes, id, viewer.value) > 0)
      && (r.value.isSaved <==> Signed(viewer) && PairRows(db.postSaves, id, viewer.value) > 0)
    ensures old(db.PostIdsValid()) ==> db.PostIdsValid()
  {
    var pi := PostIndex(db.posts, id);
    if pi.None? {
      return Err(NotFound);
    }
    var i := pi.value;
    var post := db.posts[i];
    SameIdUpdate(db.posts, PostId, db.nextPostId, i, post.(viewCount := post.viewCount + 1));
    db.posts := db.posts[i := post.(viewCount := post.viewCount + 1)];
    var isLiked, isSaved := false, false;
    if Signed(viewer) {
      isLiked := HasPair(db.postLikes, id, viewer.value);
      isSaved := HasPair(db.postSaves, id, viewer.value);
    }
    return Ok(PostView(post, TagsOf(db.tags, db.postTags, id), isLiked, isSaved));
  }

  // ---------------------------------------------------------------------------
  // Tags.
  // ---------------------------------------------------------------------------

  /** The post is linked to a tag of this name. */
  ghost predicate Tagged(tags: seq<Tag>, postTags: seq<PostTag>, postId: RowId, name: string)
  {
    exists t :: t in tags && t.name == name && PostTag(postId, t.id) in postTags
  }

  ghost predicate DistinctTagNames(tags: seq<Tag>)
  {
    forall i, j :: 0 <= i < j < |tags| ==> tags[i].name != tags[j].name
  }

  function TagByName(tags: seq<Tag>, name: string): (r: Option<nat>)
    ensures r.Some? ==> r.value < |tags| && tags[r.value].name == name
    ensures r.None? ==> forall t :: t in tags ==> t.name != name
  {
    IndexOf(tags, (t: Tag) => t.name == name)
  }

  /** Every tag after the first `from` is named after one of `names`. */
  ghost predicate NamedAfter(tags: seq<Tag>, from: nat, names: seq<string>)
  {
    forall i :: from <= i < |tags| ==> exists n :: n in names && tags[i].name == ToLower(n)
  }

  /** Links stay links when rows are added to both tables. */
  lemma TaggedGrow(tags: seq<Tag>, postTags: seq<PostTag>, tags': seq<Tag>, postTags': seq<PostTag>,
                   postId: RowId, names: seq<string>)
    requires tags <= tags' && postTags <= postTags'
    requires forall n :: n in names ==> Tagged(tags, postTags, postId, ToLower(n))
    ensures forall n :: n in names ==> Tagged(tags', postTags', postId, ToLower(n))
  {
    forall n | n in names ensures Tagged(tags', postTags', postId, ToLower(n)) {
      var t :| t in tags && t.name == ToLower(n) && PostTag(postId, t.id) in postTags;
      assert t in tags' && PostTag(postId, t.id) in postTags';
    }
  }

  /** One name of `addTagsToPost`: the tag named `name` is found, or created with the
      next tag id, and the post is linked to it unless already linked. */
  method AddTag(db: Db, postId: RowId, name: string)
    requires db.TagIdsValid()
    modifies db`tags, db`postTags, db`nextTagId
    ensures db.TagIdsValid() && old(db.nextTagId) <= db.nextTagId
    ensures TagByName(old(db.tags), name).Some? ==> db.tags == old(db.tags)
    ensures TagByName(old(db.tags), name).None? ==> db.tags == old(db.tags) + [Tag(old(db.nextTagId), name)]
    ensures old(db.postTags) <= db.postTags && |db.postTags| <= |old(db.postTags)| + 1
    ensures forall i :: |old(db.postTags)| <= i < |db.postTags| ==> db.postTags[i].postId == postId
    ensures Tagged(db.tags, db.postTags, postId, name)
    ensures DistinctTagNames(old(db.tags)) ==> DistinctTagNames(db.tags)
  {
    var tag: Tag;
    var ti := TagByName(db.tags, name);
    if ti.None? {
      tag := Tag(db.nextTagId, name);
      db.tags := db.tags + [tag];
      db.nextTagId := db.nextTagId + 1;
    } else {
      tag := db.tags[ti.value];
    }
    if PostTag(postId, tag.id) !in db.postTags {
      db.postTags := db.postTags + [PostTag(postId, tag.id)];
    }
    assert tag in db.tags;
  }

  /** `addTagsToPost`: for each name, the lower-cased tag is found or created, and the
      post is linked to it unless already linked. Tags and links are only added, the
      new links are all the post's, and tag names stay distinct. */
  method AddTagsToPost(db: Db, postId: RowId, names: seq<string>)
    requires db.TagIdsValid()
    modifies db`tags, db`postTags, db`nextTagId
    ensures db.TagIdsValid() && old(db.nextTagId) <= db.nextTagId
    ensures old(db.tags) <= db.tags && old(db.postTags) <= db.postTags
    ensures forall n :: n in names ==> Tagged(db.tags, db.postTags, postId, ToLower(n))
    ensures forall i :: |old(db.postTags)| <= i < |db.postTags| ==> db.postTags[i].postId == postId
    ensures NamedAfter(db.tags, |old(db.tags)|, names)
    ensures DistinctTagNames(old(db.tags)) ==> DistinctTagNames(db.tags)
  {
    var k := 0;
    while k < |names|
      invariant 0 <= k <= |names|
      invariant db.TagIdsValid() && old(db.nextTagId) <= db.nextTagId
      invariant old(db.tags) <= db.tags && old(db.postTags) <= db.postTags
      invariant forall n :: n in names[..k] ==> Tagged(db.tags, db.postTags, postId, ToLower(n))
      invariant forall i :: |old(db.postTags)| <= i < |db.postTags| ==> db.postTags[i].postId == postId
      invariant NamedAfter(db.tags, |old(db.tags)|, names)
      invariant DistinctTagNames(old(db.tags)) ==> DistinctTagNames(db.tags)
    {
      ghost var tags0, postTags0 := db.tags, db.postTags;
      AddTag(db, postId, ToLower(names[k]));
      TaggedGrow(tags0, postTags0, db.tags, db.postTags, postId, names[..k]);
      assert names[..k + 1] == names[..k] + [names[k]];
      k := k + 1;
    }
    assert names[..k] == names;
  }

  // ---------------------------------------------------------------------------
  // Creating, editing and removing posts.
  // ---------------------------------------------------------------------------

  /** The statistics after a change of `totalPosts` by `delta`. */
  function AddPosts(stats: map<UserId, Stats>, u: UserId, delta: int): (r: map<UserId, Stats>)
    requires u in stats
    ensures SameFollowCounters(stats, r)
    ensures r[u].totalPosts == stats[u].totalPosts + delta
    ensures forall x :: x in stats && x != u ==> r[x] == stats[x]
  {
    stats[u := stats[u].(totalPosts := stats[u].totalPosts + delta)]
  }

  /** `post.create`: the new row goes last, with the next id, and a lookup of that id
      finds it. */
  method InsertPost(db: Db, userId: UserId, fields: PostFields, now: nat) returns (post: Post)
    requires db.PostIdsValid()
    modifies db`posts, db`nextPostId
    ensures db.PostIdsValid()
    ensures post == NewPost(old(db.nextPostId), userId, fields, now) && db.nextPostId == old(db.nextPostId) + 1
    ensures db.posts == old(db.posts) + [post]
    ensures PostIndex(db.posts, post.id) == Some(|old(db.posts)|)
  {
    post := NewPost(db.nextPostId, userId, fields, now);
    FreshIdAppend(db.posts, PostId, db.nextPostId, post);
    assert IdsBelow(db.posts, PostId, post.id);
    db.posts := db.posts + [post];
    db.nextPostId := db.nextPostId + 1;
    var pi := PostIndex(db.posts, post.id);
    assert db.posts[|db.posts| - 1].id == post.id;
  }

  /** `userStatistics.update` of `totalPosts` by `delta`, for a user with a row. */
  method BumpPosts(db: Db, userId: UserId, delta: int)
    requires userId in db.stats
    modifies db`stats
    ensures db.stats == AddPosts(old(db.stats), userId, delta)
    ensures old(db.GraphValid()) ==> db.GraphValid()
  {
    GraphInvariantOtherColumns(db.following, db.follower, db.stats, AddPosts(db.stats, userId, delta));
    db.stats := AddPosts(db.stats, userId, delta);
  }

  /** `create`: inserts the post, links its tags, raises the author's `totalPosts`
      and returns the post through `findOne`, which counts one view. These steps are
      not one transaction: without a statistics row the store rejects the last
      update, and the post and its tags stay. */
  method Create(db: Db, userId: UserId, fields: PostFields, tagNames: seq<string>, now: nat)
    returns (r: Result<PostView>)
    requires db.PostIdsValid() && db.TagIdsValid()
    modifies db`posts, db`tags, db`postTags, db`stats, db`nextPostId, db`nextTagId
    ensures db.PostIdsValid() && db.TagIdsValid()
    ensures old(db.GraphValid()) ==> db.GraphValid()
    ensures r.Ok? <==> userId in old(db.stats)
    ensures var p := NewPost(old(db.nextPostId), userId, fields, now);
      && |db.posts| == |old(db.posts)| + 1 && db.posts[..|old(db.posts)|] == old(db.posts)
      && (r.Ok? ==> db.posts[|old(db.posts)|] == p.(viewCount := 1) && r.value.post == p
                    && db.stats == AddPosts(old(db.stats), userId, 1))
      && (r.Err? ==> r.error == StoreError && db.posts[|old(db.posts)|] == p && db.stats == old(db.stats))
    ensures forall n :: n in tagNames ==> Tagged(db.tags, db.postTags, old(db.nextPostId), ToLower(n))
  {
    var post := InsertPost(db, userId, fields, now);
    if |tagNames| > 0 {
      AddTagsToPost(db, post.id, tagNames);
    }
    if userId !in db.stats {
      return Err(StoreError);
    }
    BumpPosts(db, userId, 1);
    r := FindOne(db, post.id, Some(userId));
  }

  /** The owner guard of `update` and `remove`: NotFound, then Forbidden. */
  function OwnedPost(posts: seq<Post>, id: RowId, userId: UserId): (r: Result<nat>)
    ensures PostIndex(posts, id).None? <==> r == Err(NotFound)
    ensures r.Ok? <==> PostIndex(posts, id).Some? && posts[PostIndex(posts, id).value].userId == userId
    ensures r.Ok? ==> r.value == PostIndex(posts, id).value
    ensures r.Err? ==> r.error in {NotFound, Forbidden}
  {
    match PostIndex(posts, id)
    case None => Err(NotFound)
    case Some(i) => if posts[i].userId != userId then Err(Forbidden) else Ok(i)
  }

  /** `update`: only the owner may edit; the DTO's columns are written and the post
      is returned through `findOne`, which counts one view. */
  method Update(db: Db, id: RowId, userId: UserId, fields: PostFields) returns (r: Result<PostView>)
    modifies db`posts
    ensures OwnedPost(old(db.posts), id, userId).Err? ==>
      r == Err(OwnedPost(old(db.posts), id, userId).error) && db.posts == old(db.posts)
    ensures OwnedPost(old(db.posts), id, userId).Ok? ==>
      var i := OwnedPost(old(db.posts), id, userId).value;
      && r.Ok? && r.value.post == ApplyFields(old(db.posts)[i], fields)
      && db.posts == old(db.posts)[i := ApplyFields(old(db.posts)[i], fields).(viewCount := old(db.posts)[i].viewCount + 1)]
    ensures old(db.PostIdsValid()) ==> db.PostIdsValid()
  {
    var owned := OwnedPost(db.posts, id, userId);
    if owned.Err? {
      return Err(owned.error);
    }
    var i := owned.value;
    SameIdUpdate(db.posts, PostId, db.nextPostId, i, ApplyFields(db.posts[i], fields));
    PostIndexUpdate(db.posts, id, ApplyFields(db.posts[i], fields));
    db.posts := db.posts[i := ApplyFields(db.posts[i], fields)];
    r := FindOne(db, id, Some(userId));
  }

  /** `remove`: only the owner may delete; the post is marked DELETED and the
      author's `totalPosts` goes down by one. The status is not checked first, so a
      second removal lowers the counter again; the two writes are not one
      transaction, so a missing statistics row fails after the status write. */
  method Remove(db: Db, id: RowId, userId: UserId) returns (r: Result<string>)
    modifies db`posts, db`stats
    ensures OwnedPost(old(db.posts), id, userId).Err? ==>
      r == Err(OwnedPost(old(db.posts), id, userId).error) && unchanged(db)
    ensures OwnedPost(old(db.posts), id, userId).Ok? ==>
      var i := OwnedPost(old(db.posts), id, userId).value;
      && db.posts == old(db.posts)[i := old(db.posts)[i].(status := Deleted)]
      && (userId in old(db.stats) ==> r == Ok("Post deleted successfully") && db.stats == AddPosts(old(db.stats), userId, -1))
      && (userId !in old(db.stats) ==> r == Err(StoreError) && db.stats == old(db.stats))
    ensures old(db.PostIdsValid()) ==> db.PostIdsValid()
    ensures old(db.GraphValid()) ==> db.GraphValid()
  {
    var owned := OwnedPost(db.posts, id, userId);
    if owned.Err? {
      return Err(owned.error);
    }
    var i := owned.value;
    SameIdUpdate(db.posts, PostId, db.nextPostId, i, db.posts[i].(status := Deleted));
    db.posts := db.posts[i := db.posts[i].(status := Deleted)];
    if userId !in db.stats {
      return Err(StoreError);
    }
    GraphInvariantOtherColumns(db.following, db.follower, db.stats, AddPosts(db.stats, userId, -1));
    db.stats := AddPosts(db.stats, userId, -1);
    return Ok("Post deleted successfully");
  }

  // ---------------------------------------------------------------------------
  // Likes, saves and shares of posts.
  // ---------------------------------------------------------------------------

  /** `likePost`: NotFound for a missing post, 'Already liked' with nothing changed for
      a repeated like; otherwise one transaction adds the like row, raises `likeCount`
      and notifies the post's owner, the liker included. */
  method LikePost(db: Db, postId: RowId, userId: UserId, now: nat) returns (r: Result<string>)
    requires db.NotificationsValid()
    modifies db`posts, db`postLikes, db`notifications, db`nextNotificationId
    ensures db.NotificationsValid()
    ensures old(db.PostIdsValid()) ==> db.PostIdsValid()
    ensures PostIndex(old(db.posts), postId).None? ==> r == Err(NotFound) && unchanged(db)
    ensures PostIndex(old(db.posts), postId).Some? && old(PairRows(db.postLikes, postId, userId)) > 0 ==>
      r == Ok("Already liked") && unchanged(db)
    ensures PostIndex(old(db.posts), postId).Some? && old(PairRows(db.postLikes, postId, userId)) == 0 ==>
      var i := PostIndex(old(db.posts), postId).value;
      && r == Ok("Post liked successfully")
      && db.postLikes == old(db.postLikes) + [Link(postId, userId, now)]
      && db.posts == old(db.posts)[i := old(db.posts)[i].(likeCount := old(db.posts)[i].likeCount + 1)]
      && db.notifications == old(db.notifications) +
           [Notification(old(db.nextNotificationId), old(db.posts)[i].userId, "like", "liked your post", Some(userId), Some(postId), None, false, now)]
    ensures |db.posts| == |old(db.posts)| && PostIndex(db.posts, postId) == PostIndex(old(db.posts), postId)
    ensures old(AtMostOnePerPair(db.postLikes)) ==> AtMostOnePerPair(db.postLikes)
    ensures old(db.PostIdsValid() && Counted(db.posts, PostId, PostLikeCount, db.postLikes)) ==>
      Counted(db.posts, PostId, PostLikeCount, db.postLikes)
  {
    var pi := PostIndex(db.posts, postId);
    if pi.None? {
      return Err(NotFound);
    }
    if HasPair(db.postLikes, postId, userId) {
      return Ok("Already liked");
    }
    var owner := db.posts[pi.value].userId;
    AddPostLike(db, pi.value, userId, now);
    Notify(db, owner, "like", "liked your post", Some(userId), Some(postId), None, now);
    return Ok("Post liked successfully");
  }

  /** The two writes of a like: the row for (post, user) and the post's `likeCount`
      one higher. */
  method AddPostLike(db: Db, i: nat, userId: UserId, now: nat)
    requires i < |db.posts| && PostIndex(db.posts, db.posts[i].id) == Some(i)
    requires PairRows(db.postLikes, db.posts[i].id, userId) == 0
    modifies db`posts, db`postLikes
    ensures db.postLikes == old(db.postLikes) + [Link(old(db.posts)[i].id, userId, now)]
    ensures db.posts == old(db.posts)[i := old(db.posts)[i].(likeCount := old(db.posts)[i].likeCount + 1)]
    ensures PostIndex(db.posts, old(db.posts)[i].id) == Some(i)
    ensures old(db.PostIdsValid()) ==> db.PostIdsValid()
    ensures old(AtMostOnePerPair(db.postLikes)) ==> AtMostOnePerPair(db.postLikes)
    ensures old(db.PostIdsValid() && Counted(db.posts, PostId, PostLikeCount, db.postLikes)) ==>
      Counted(db.posts, PostId, PostLikeCount, db.postLikes)
  {
    var post := db.posts[i];
    var liked := post.(likeCount := post.likeCount + 1);
    if db.PostIdsValid() && Counted(db.posts, PostId, PostLikeCount, db.postLikes) {
      CountedAfterLike(db.posts, PostId, PostLikeCount, db.postLikes, i, liked, userId, now);
    }
    if AtMostOnePerPair(db.postLikes) {
      AtMostOneAfterAdd(db.postLikes, post.id, userId, now);
    }
    SameIdUpdate(db.posts, PostId, db.nextPostId, i, liked);
    PostIndexUpdate(db.posts, post.id, liked);
    db.postLikes := db.postLikes + [Link(post.id, userId, now)];
    db.posts := db.posts[i := liked];
  }

  /** Liking twice: the second call reports 'Already liked', and the like row and the
      counter are added once. */
  method LikeTwice(db: Db, postId: RowId, userId: UserId, now: nat) returns (first: Result<string>, second: Result<string>)
    requires db.NotificationsValid()
    modifies db`posts, db`postLikes, db`notifications, db`nextNotificationId
    ensures |db.posts| == |old(db.posts)|
    ensures PostIndex(old(db.posts), postId).Some? ==>
      var i := PostIndex(old(db.posts), postId).value;
      && second == Ok("Already liked")
      && PairRows(db.postLikes, postId, userId) == old(PairRows(db.postLikes, postId, userId)) + (if first == Ok("Post liked successfully") then 1 else 0)
      && db.posts[i].likeCount == old(db.posts)[i].likeCount + (if first == Ok("Post liked successfully") then 1 else 0)
  {
    first := LikePost(db, postId, userId, now);
    if PostIndex(old(db.posts), postId).Some? && first == Ok("Post liked successfully") {
      PairRowsAppend(old(db.postLikes), Link(postId, userId, now), postId, userId);
    }
    second := LikePost(db, postId, userId, now);
  }

  /** `unlikePost`: one transaction deletes the pair's like rows and lowers
      `likeCount` by one whether or not a row existed; for a missing post the store
      rejects the update and the transaction changes nothing. The counter stays exact
      exactly when a like row was there. */
  method UnlikePost(db: Db, postId: RowId, userId: UserId) returns (r: Result<string>)
    modifies db`posts, db`postLikes
    ensures PostIndex(old(db.posts), postId).None? ==> r == Err(StoreError) && unchanged(db)
    ensures PostIndex(old(db.posts), postId).Some? ==>
      var i := PostIndex(old(db.posts), postId).value;
      && r == Ok("Post unliked successfully")
      && db.postLikes == WithoutPair(old(db.postLikes), postId, userId)
      && db.posts == old(db.posts)[i := old(db.posts)[i].(likeCount := old(db.posts)[i].likeCount - 1)]
    ensures old(db.PostIdsValid()) ==> db.PostIdsValid()
    ensures old(AtMostOnePerPair(db.postLikes)) ==> AtMostOnePerPair(db.postLikes)
    ensures PostIndex(old(db.posts), postId).Some? && old(AtMostOnePerPair(db.postLikes)) ==> PairRows(db.postLikes, postId, userId) == 0
    ensures old(db.PostIdsValid() && AtMostOnePerPair(db.postLikes) && Counted(db.posts, PostId, PostLikeCount, db.postLikes))
            && PostIndex(old(db.posts), postId).Some? ==>
      (Counted(db.posts, PostId, PostLikeCount, db.postLikes) <==> old(PairRows(db.postLikes, postId, userId)) > 0)
  {
    var pi := PostIndex(db.posts, postId);
    if pi.None? {
      return Err(StoreError);
    }
    var i := pi.value;
    var unliked := db.posts[i].(likeCount := db.posts[i].likeCount - 1);
    if AtMostOnePerPair(db.postLikes) {
      AtMostOneAfterDelete(db.postLikes, postId, userId);
      if db.PostIdsValid() && Counted(db.posts, PostId, PostLikeCount, db.postLikes) {
        if PairRows(db.postLikes, postId, userId) > 0 {
          CountedAfterUnlike(db.posts, PostId, PostLikeCount, db.postLikes, i, unliked, userId);
        } else {
          UnlikeWithoutRowMiscounts(db.posts, PostId, PostLikeCount, db.postLikes, i, unliked, userId);
        }
      }
    }
    SameIdUpdate(db.posts, PostId, db.nextPostId, i, unliked);
    db.postLikes := WithoutPair(db.postLikes, postId, userId);
    db.posts := db.posts[i := unliked];
    return Ok("Post unliked successfully");
  }

  /** `savePost`: NotFound for a missing post, 'Already saved' for a repeated save;
      otherwise one save row. No counter changes. */
  method SavePost(db: Db, postId: RowId, userId: UserId, now: nat) returns (r: Result<string>)
    modifies db`postSaves
    ensures PostIndex(db.posts, postId).None? ==> r == Err(NotFound) && unchanged(db)
    ensures PostIndex(db.posts, postId).Some? && old(PairRows(db.postSaves, postId, userId)) > 0 ==>
      r == Ok("Already saved") && unchanged(db)
    ensures PostIndex(db.posts, postId).Some? && old(PairRows(db.postSaves, postId, userId)) == 0 ==>
      r == Ok("Post saved successfully") && db.postSaves == old(db.postSaves) + [Link(postId, userId, now)]
    ensures PairRows(db.postSaves, postId, userId) <= 1 || unchanged(db)
    ensures old(AtMostOnePerPair(db.postSaves)) ==> AtMostOnePerPair(db.postSaves)
  {
    if PostIndex(db.posts, postId).None? {
      return Err(NotFound);
    }
    if HasPair(db.postSaves, postId, userId) {
      return Ok("Already saved");
    }
    if AtMostOnePerPair(db.postSaves) {
      AtMostOneAfterAdd(db.postSaves, postId, userId, now);
    }
    PairRowsAppend(db.postSaves, Link(postId, userId, now), postId, userId);
    db.postSaves := db.postSaves + [Link(postId, userId, now)];
    return Ok("Post saved successfully");
  }

  /** `unsavePost`: deletes the pair's save rows, with no existence check. */
  method UnsavePost(db: Db, postId: RowId, userId: UserId) returns (r: Result<string>)
    modifies db`postSaves
    ensures r == Ok("Post unsaved successfully")
    ensures db.postSaves == WithoutPair(old(db.postSaves), postId, userId)
    ensures PairRows(db.postSaves, postId, userId) == 0
    ensures old(AtMostOnePerPair(db.postSaves)) ==> AtMostOnePerPair(db.postSaves)
  {
    WithoutPairCounts(db.postSaves, postId, userId, postId, userId);
    if AtMostOnePerPair(db.postSaves) {
      AtMostOneAfterDelete(db.postSaves, postId, userId);
    }
    db.postSaves := WithoutPair(db.postSaves, postId, userId);
    return Ok("Post unsaved successfully");
  }

  /** `sharePost`: NotFound for a missing post; otherwise a share row is always
      appended and `shareCount` goes up by one, in one transaction. */
  method SharePost(db: Db, postId: RowId, userId: UserId, sharedTo: Option<string>, now: nat)
    returns (r: Result<string>)
    modifies db`posts, db`postShares
    ensures PostIndex(old(db.posts), postId).None? ==> r == Err(NotFound) && unchanged(db)
    ensures PostIndex(old(db.posts), postId).Some? ==>
      var i := PostIndex(old(db.posts), postId).value;
      && r == Ok("Post shared successfully")
      && db.postShares == old(db.postShares) + [Share(postId, userId, sharedTo, now)]
      && db.posts == old(db.posts)[i := old(db.posts)[i].(shareCount := old(db.posts)[i].shareCount + 1)]
    ensures old(db.PostIdsValid()) ==> db.PostIdsValid()
  {
    var pi := PostIndex(db.posts, postId);
    if pi.None? {
      return Err(NotFound);
    }
    var i := pi.value;
    SameIdUpdate(db.posts, PostId, db.nextPostId, i, db.posts[i].(shareCount := db.posts[i].shareCount + 1));
    db.postShares := db.postShares + [Share(postId, userId, sharedTo, now)];
    db.posts := db.posts[i := db.posts[i].(shareCount := db.posts[i].shareCount + 1)];
    return Ok("Post shared successfully");
  }

  // ---------------------------------------------------------------------------
  // Comments and replies.
  // ---------------------------------------------------------------------------

  function OnPost(postId: RowId): Comment -> bool
  {
    (c: Comment) => c.postId == postId
  }

  /** Each post's `commentCount` equals its number of comments. */
  ghost predicate CommentsCounted(posts: seq<Post>, comments: seq<Comment>)
  {
    forall i :: 0 <= i < |posts| ==> posts[i].commentCount == Count(comments, OnPost(posts[i].id))
  }

  lemma CommentsCountedAfterComment(posts: seq<Post>, comments: seq<Comment>, i: nat, c: Comment)
    requires CommentsCounted(posts, comments) && DistinctIds(posts, PostId)
    requires i < |posts| && c.postId == posts[i].id
    ensures CommentsCounted(posts[i := posts[i].(commentCount := posts[i].commentCount + 1)], comments + [c])
  {
    var posts' := posts[i := posts[i].(commentCount := posts[i].commentCount + 1)];
    forall j | 0 <= j < |posts'|
      ensures posts'[j].commentCount == Count(comments + [c], OnPost(posts'[j].id))
    {
      CountAppend(comments, c, OnPost(posts[j].id));
      assert j != i ==> PostId(posts[j]) != PostId(posts[i]);
    }
  }

  /** `createComment`: NotFound for a missing post; otherwise one transaction adds the
      comment, raises `commentCount` and notifies the post's owner unless the
      commenter is the owner. */
  method CreateComment(db: Db, postId: RowId, userId: UserId, text: string, now: nat)
    returns (r: Result<Comment>)
    requires db.NotificationsValid() && db.PostIdsValid() && db.CommentIdsValid()
    modifies db`posts, db`comments, db`notifications, db`nextCommentId, db`nextNotificationId
    ensures db.NotificationsValid() && db.PostIdsValid() && db.CommentIdsValid()
    ensures PostIndex(old(db.posts), postId).None? ==> r == Err(NotFound) && unchanged(db)
    ensures PostIndex(old(db.posts), postId).Some? ==>
      var i := PostIndex(old(db.posts), postId).value;
      var owner := old(db.posts)[i].userId;
      && r == Ok(Comment(old(db.nextCommentId), postId, userId, text, 0, now))
      && db.comments == old(db.comments) + [r.value]
      && db.posts == old(db.posts)[i := old(db.posts)[i].(commentCount := old(db.posts)[i].commentCount + 1)]
      && db.notifications == old(db.notifications) +
           (if owner != userId
            then [Notification(old(db.nextNotificationId), owner, "comment", "commented on your post", Some(userId), Some(postId), None, false, now)]
            else [])
    ensures old(CommentsCounted(db.posts, db.comments)) ==> CommentsCounted(db.posts, db.comments)
  {
    var pi := PostIndex(db.posts, postId);
    if pi.None? {
      return Err(NotFound);
    }
    var i := pi.value;
    var post := db.posts[i];
    var comment := InsertComment(db, i, userId, text, now);
    if post.userId != userId {
      Notify(db, post.userId, "comment", "commented on your post", Some(userId), Some(postId), None, now);
    }
    return Ok(comment);
  }

  /** The transaction of `createComment` before the notification: the comment row with
      the next id, and one more on the post's `commentCount`. */
  method InsertComment(db: Db, i: nat, userId: UserId, text: string, now: nat) returns (comment: Comment)
    requires i < |db.posts| && db.PostIdsValid() && db.CommentIdsValid()
    modifies db`posts, db`comments, db`nextCommentId
    ensures comment == Comment(old(db.nextCommentId), old(db.posts)[i].id, userId, text, 0, now)
    ensures db.comments == old(db.comments) + [comment]
    ensures db.posts == old(db.posts)[i := old(db.posts)[i].(commentCount := old(db.posts)[i].commentCount + 1)]
    ensures db.PostIdsValid() && db.CommentIdsValid()
    ensures old(CommentsCounted(db.posts, db.comments)) ==> CommentsCounted(db.posts, db.comments)
  {
    var post := db.posts[i];
    comment := Comment(db.nextCommentId, post.id, userId, text, 0, now);
    if CommentsCounted(db.posts, db.comments) {
      CommentsCountedAfterComment(db.posts, db.comments, i, comment);
    }
    FreshIdAppend(db.comments, CommentId, db.nextCommentId, comment);
    SameIdUpdate(db.posts, PostId, db.nextPostId, i, post.(commentCount := post.commentCount + 1));
    db.comments := db.comments + [comment];
    db.nextCommentId := db.nextCommentId + 1;
    db.posts := db.posts[i := post.(commentCount := post.commentCount + 1)];
  }

  /** `likeComment`: NotFound for a missing comment, 'Already liked' for a repeated
      like; otherwise one transaction adds the row and raises `likeCount`. */
  method LikeComment(db: Db, commentId: RowId, userId: UserId, now: nat) returns (r: Result<string>)
    modifies db`comments, db`commentLikes
    ensures CommentIndex(old(db.comments), commentId).None? ==> r == Err(NotFound) && unchanged(db)
    ensures CommentIndex(old(db.comments), commentId).Some? && old(PairRows(db.commentLikes, commentId, userId)) > 0 ==>
      r == Ok("Already liked") && unchanged(db)
    ensures CommentIndex(old(db.comments), commentId).Some? && old(PairRows(db.commentLikes, commentId, userId)) == 0 ==>
      var i := CommentIndex(old(db.comments), commentId).value;
      && r == Ok("Comment liked successfully")
      && db.commentLikes == old(db.commentLikes) + [Link(commentId, userId, now)]
      && db.comments == old(db.comments)[i := old(db.comments)[i].(likeCount := old(db.comments)[i].likeCount + 1)]
    ensures old(db.CommentIdsValid()) ==> db.CommentIdsValid()
    ensures old(AtMostOnePerPair(db.commentLikes)) ==> AtMostOnePerPair(db.commentLikes)
    ensures old(db.CommentIdsValid() && Counted(db.comments, CommentId, CommentLikeCount, db.commentLikes)) ==>
      Counted(db.comments, CommentId, CommentLikeCount, db.commentLikes)
  {
    var ci := CommentIndex(db.comments, commentId);
    if ci.None? {
      return Err(NotFound);
    }
    if HasPair(db.commentLikes, commentId, userId) {
      return Ok("Already liked");
    }
    var i := ci.value;
    var liked := db.comments[i].(likeCount := db.comments[i].likeCount + 1);
    if db.CommentIdsValid() && Counted(db.comments, CommentId, CommentLikeCount, db.commentLikes) {
      CountedAfterLike(db.comments, CommentId, CommentLikeCount, db.commentLikes, i, liked, userId, now);
    }
    if AtMostOnePerPair(db.commentLikes) {
      AtMostOneAfterAdd(db.commentLikes, commentId, userId, now);
    }
    SameIdUpdate(db.comments, CommentId, db.nextCommentId, i, liked);
    db.commentLikes := db.commentLikes + [Link(commentId, userId, now)];
    db.comments := db.comments[i := liked];
    return Ok("Comment liked successfully");
  }

  /** `unlikeComment`: deletes the pair's rows and lowers `likeCount` by one whether or
      not a row existed; a missing comment makes the transaction fail unchanged. */
  method UnlikeComment(db: Db, commentId: RowId, userId: UserId) returns (r: Result<string>)
    modifies db`comments, db`commentLikes
    ensures CommentIndex(old(db.comments), commentId).None? ==> r == Err(StoreError) && unchanged(db)
    ensures CommentIndex(old(db.comments), commentId).Some? ==>
      var i := CommentIndex(old(db.comments), commentId).value;
      && r == Ok("Comment unliked successfully")
      && db.commentLikes == WithoutPair(old(db.commentLikes), commentId, userId)
      && db.comments == old(db.comments)[i := old(db.comments)[i].(likeCount := old(db.comments)[i].likeCount - 1)]
    ensures old(db.CommentIdsValid()) ==> db.CommentIdsValid()
    ensures old(AtMostOnePerPair(db.commentLikes)) ==> AtMostOnePerPair(db.commentLikes)
    ensures old(db.CommentIdsValid() && AtMostOnePerPair(db.commentLikes) && Counted(db.comments, CommentId, CommentLikeCount, db.commentLikes))
            && CommentIndex(old(db.comments), commentId).Some? ==>
      (Counted(db.comments, CommentId, CommentLikeCount, db.commentLikes) <==> old(PairRows(db.commentLikes, commentId, userId)) > 0)
  {
    var ci := CommentIndex(db.comments, commentId);
    if ci.None? {
      return Err(StoreError);
    }
    var i := ci.value;
    var unliked := db.comments[i].(likeCount := db.comments[i].likeCount - 1);
    if AtMostOnePerPair(db.commentLikes) {
      AtMostOneAfterDelete(db.commentLikes, commentId, userId);
      if db.CommentIdsValid() && Counted(db.comments, CommentId, CommentLikeCount, db.commentLikes) {
        if PairRows(db.commentLikes, commentId, userId) > 0 {
          CountedAfterUnlike(db.comments, CommentId, CommentLikeCount, db.commentLikes, i, unliked, userId);
        } else {
          UnlikeWithoutRowMiscounts(db.comments, CommentId, CommentLikeCount, db.commentLikes, i, unliked, userId);
        }
      }
    }
    SameIdUpdate(db.comments, CommentId, db.nextCommentId, i, unliked);
    db.commentLikes := WithoutPair(db.commentLikes, commentId, userId);
    db.comments := db.comments[i := unliked];
    return Ok("Comment unliked successfully");
  }

  /** `createReply`: NotFound for a missing comment; otherwise the reply is added and
      the comment's owner is notified unless they replied themself. No counter of a
      post or comment changes (neither table is in the frame). */
  method CreateReply(db: Db, commentId: RowId, userId: UserId, text: string, now: nat)
    returns (r: Result<Reply>)
    requires db.NotificationsValid()
    modifies db`replies, db`notifications, db`nextReplyId, db`nextNotificationId
    ensures db.NotificationsValid()
    ensures CommentIndex(db.comments, commentId).None? ==> r == Err(NotFound) && unchanged(db)
    ensures CommentIndex(db.comments, commentId).Some? ==>
      var c := db.comments[CommentIndex(db.comments, commentId).value];
      && r == Ok(Reply(old(db.nextReplyId), commentId, userId, text, now))
      && db.replies == old(db.replies) + [r.value]
      && db.notifications == old(db.notifications) +
           (if c.userId != userId
            then [Notification(old(db.nextNotificationId), c.userId, "comment", "replied to your comment", Some(userId), Some(c.postId), None, false, now)]
            else [])
  {
    var ci := CommentIndex(db.comments, commentId);
    if ci.None? {
      return Err(NotFound);
    }
    var comment := db.comments[ci.value];
    var reply := Reply(db.nextReplyId, commentId, userId, text, now);
    db.replies := db.replies + [reply];
    db.nextReplyId := db.nextReplyId + 1;
    if comment.userId != userId {
      Notify(db, comment.userId, "comment", "replied to your comment", Some(userId), Some(comment.postId), None, now);
    }
    return Ok(reply);
  }

  function CommentNewestFirst(): Comment -> seq<int>
  {
    (c: Comment) => [c.createdAt]
  }

  function OfComment(commentId: RowId): Reply -> bool
  {
    (x: Reply) => x.commentId == commentId
  }

  /** A comment with its `_count` of replies and likes. */
  datatype CommentView = CommentView(comment: Comment, replies: nat, likes: nat)

  /** `getComments`: the post's comments, newest first, in the window, with their
      reply and like counts; `total` counts all the post's comments. */
  function GetComments(db: Db, postId: RowId, skip: nat, take: nat): (r: Page<CommentView>)
    reads db
    ensures r.total == Count(db.comments, OnPost(postId)) && r.skip == skip && r.take == take
    ensures |r.data| <= take
    ensures forall v :: v in r.data ==> v.comment in db.comments && v.comment.postId == postId
    ensures forall v :: v in r.data ==>
      v.likes == SubjectRows(db.commentLikes, v.comment.id) && v.replies == Count(db.replies, OfComment(v.comment.id))
    ensures forall i, j :: 0 <= i < j < |r.data| ==> r.data[i].comment.createdAt >= r.data[j].comment.createdAt
  {
    var rows := Query(db.comments, OnPost(postId), CommentNewestFirst(), skip, take);
    SortedByColumn(rows, CommentNewestFirst(), (c: Comment) => c.createdAt);
    var likes, replies := db.commentLikes, db.replies;
    var data := seq(|rows|, i requires 0 <= i < |rows| =>
                      CommentView(rows[i], Count(replies, OfComment(rows[i].id)), SubjectRows(likes, rows[i].id)));
    assert forall v :: v in data ==> v.comment in db.comments && v.comment.postId == postId by {
      forall v | v in data ensures v.comment in db.comments && v.comment.postId == postId {
        var i :| 0 <= i < |data| && data[i] == v;
        assert rows[i] in rows && v.comment == rows[i];
      }
    }
    Page(data, Count(db.comments, OnPost(postId)), skip, take)
  }

  function ReplyOldestFirst(): Reply -> seq<int>
  {
    (x: Reply) => [-(x.createdAt as int)]
  }

  /** `getReplies`: the comment's replies, oldest first, in the window; `total` counts
      all of them. */
  function GetReplies(db: Db, commentId: RowId, skip: nat, take: nat): (r: Page<Reply>)
    reads db
    ensures r.total == Count(db.replies, OfComment(commentId)) && r.skip == skip && r.take == take
    ensures |r.data| <= take
    ensures forall x :: x in r.data ==> x in db.replies && x.commentId == commentId
    ensures forall i, j :: 0 <= i < j < |r.data| ==> r.data[i].createdAt <= r.data[j].createdAt
  {
    var rows := Query(db.replies, OfComment(commentId), ReplyOldestFirst(), skip, take);
    SortedByColumn(rows, ReplyOldestFirst(), (x: Reply) => -(x.createdAt as int));
    Page(rows, Count(db.replies, OfComment(commentId)), skip, take)
  }

  /** With a window from 0 that holds them all, every comment of the post is listed. */
  lemma GetCommentsComplete(db: Db, postId: RowId, take: nat, c: Comment)
    requires Count(db.comments, OnPost(postId)) <= take && c in db.comments && c.postId == postId
    ensures exists v :: v in GetComments(db, postId, 0, take).data && v.comment == c
  {
    QueryHas(db.comments, OnPost(postId), CommentNewestFirst(), take, c);
    var rows := Query(db.comments, OnPost(postId), CommentNewestFirst(), 0, take);
    var k :| 0 <= k < |rows| && rows[k] == c;
    assert GetComments(db, postId, 0, take).data[k].comment == c;
  }

  /** With a window from 0 that holds them all, every reply to the comment is listed. */
  lemma GetRepliesComplete(db: Db, commentId: RowId, take: nat, x: Reply)
    requires Count(db.replies, OfComment(commentId)) <= take && x in db.replies && x.commentId == commentId
    ensures x in GetReplies(db, commentId, 0, take).data
  {
    QueryHas(db.replies, OfComment(commentId), ReplyOldestFirst(), take, x);
  }

  // ---------------------------------------------------------------------------
  // The feed.
  // ---------------------------------------------------------------------------

  /** The `where` of `findAll`: ACTIVE, and for a signed-in viewer their own posts,
      posts for all, and follower-only posts by authors they follow; for anyone else
      posts for all only. */
  predicate InFeed(following: seq<Link<UserId>>, viewer: Option<UserId>, p: Post)
  {
    && p.status == Active
    && if Signed(viewer) then
         || p.userId == viewer.value
         || p.visibility == All
         || (p.visibility == Followers && HasPair(following, p.userId, viewer.value))
       else p.visibility == All
  }

  function FeedFilter(following: seq<Link<UserId>>, viewer: Option<UserId>): Post -> bool
  {
    (p: Post) => InFeed(following, viewer, p)
  }

  function PostNewestFirst(): Post -> seq<int>
  {
    (p: Post) => [p.createdAt]
  }

  /** A feed entry: the post, its tags, its `_count`s, and the liked / saved flags,
      which `findAll` always reports as false. */
  datatype FeedItem = FeedItem(post: Post, tags: seq<Tag>, likes: nat, comments: nat, saves: nat,
                               shares: nat, isLiked: bool, isSaved: bool)

  function SharesOf(postId: RowId): Share -> bool
  {
    (s: Share) => s.postId == postId
  }

  /** `findAll`: the feed for a viewer, newest first, in the window; `total` counts the
      same filter. Anonymous viewers see only active posts for all. */
  function FindAll(db: Db, viewer: Option<UserId>, skip: nat, take: nat): (r: Page<FeedItem>)
    reads db`posts, db`following, db`tags, db`postTags, db`postLikes, db`comments, db`postSaves, db`postShares
    ensures r.total == Count(db.posts, FeedFilter(db.following, viewer)) && r.skip == skip && r.take == take
    ensures |r.data| <= take
    ensures forall x :: x in r.data ==> x.post in db.posts && InFeed(db.following, viewer, x.post)
    ensures forall x :: x in r.data ==> x.post.status == Active && !x.isLiked && !x.isSaved
    ensures !Signed(viewer) ==> forall x :: x in r.data ==> x.post.visibility == All
    ensures forall i, j :: 0 <= i < j < |r.data| ==> r.data[i].post.createdAt >= r.data[j].post.createdAt
  {
    var rows := Query(db.posts, FeedFilter(db.following, viewer), PostNewestFirst(), skip, take);
    SortedByColumn(rows, PostNewestFirst(), (p: Post) => p.createdAt);
    var tags, postTags, likes, comments, saves, shares :=
      db.tags, db.postTags, db.postLikes, db.comments, db.postSaves, db.postShares;
    var data := seq(|rows|, i requires 0 <= i < |rows| =>
                      FeedItem(rows[i], TagsOf(tags, postTags, rows[i].id), SubjectRows(likes, rows[i].id),
                               Count(comments, OnPost(rows[i].id)), SubjectRows(saves, rows[i].id),
                               Count(shares, SharesOf(rows[i].id)), false, false));
    assert forall x :: x in data ==> x.post in db.posts && InFeed(db.following, viewer, x.post) by {
      forall x | x in data ensures x.post in db.posts && InFeed(db.following, viewer, x.post) {
        var i :| 0 <= i < |data| && data[i] == x;
        assert rows[i] in rows && x.post == rows[i];
      }
    }
    Page(data, Count(db.posts, FeedFilter(db.following, viewer)), skip, take)
  }

  /** A follower-only post in a signed-in viewer's feed is their own or by an author
      they follow, which under the graph invariant the `follower` table confirms. */
  lemma FeedFollowersOnly(db: Db, viewer: UserId, skip: nat, take: nat)
    requires db.GraphValid() && viewer != ""
    ensures forall x :: x in FindAll(db, Some(viewer), skip, take).data && x.post.visibility == Followers ==>
      x.post.userId == viewer || PairRows(db.follower, viewer, x.post.userId) > 0
  {
  }

  /** With a window from 0 that holds them all, every post that passes the filter is
      in the feed. */
  lemma FindAllComplete(db: Db, viewer: Option<UserId>, take: nat, p: Post)
    requires Count(db.posts, FeedFilter(db.following, viewer)) <= take
    requires p in db.posts && InFeed(db.following, viewer, p)
    ensures exists x :: x in FindAll(db, viewer, 0, take).data && x.post == p
  {
    QueryHas(db.posts, FeedFilter(db.following, viewer), PostNewestFirst(), take, p);
    var rows := Query(db.posts, FeedFilter(db.following, viewer), PostNewestFirst(), 0, take);
    var k :| 0 <= k < |rows| && rows[k] == p;
    assert FindAll(db, viewer, 0, take).data[k].post == p;
  }
}
