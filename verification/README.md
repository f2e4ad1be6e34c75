# travel-nova core, modelled in Dafny

travel-nova is a NestJS/Prisma backend for a travel social network. This project models its
service layer over an in-memory store. Users follow each other and publish posts and
itineraries. Other users like, save, share and comment on them. The server also keeps:

- denormalised counters: `likeCount`, `commentCount`, `shareCount`, `totalPosts`,
  `totalFollowers` and `totalFollowing`;
- travel statistics: trips, countries and continents;
- a notification inbox for each user.

Administrators moderate accounts and content. A discovery service filters, orders and
pages what is public.

The store is one class, `Store.Db`, with one field per database table:

- tables that are listed or ordered are sequences of rows;
- per-user rows (statistics, settings, social links) are maps keyed by user id;
- every table whose ids the database generates has its own id counter.

Each service operation becomes one of two things:

- a top-level method that changes only the fields it names (one Prisma `$transaction` is
  one method body);
- a function over the store, for read-only queries.

The proofs are about the invariants the services are meant to keep:

- `Store.GraphInvariant`: the two follow tables mirror each other, and each follow counter
  equals the number of its edges.
- `Counters.Counted`: each like counter equals the number of its like rows.
- `Counters.AtMostOnePerPair`: at most one like or save row per (item, user).
- `Store.NotificationIds`, `DistinctIds` and `IdsBelow`: row ids are fresh and distinct.

The model reproduces the code's quirks rather than fixing them:

- `unlikePost`, `unlikeComment` and `unlikeItinerary` decrement the counter even when no
  like row existed. `Counters.UnlikeWithoutRowMiscounts` shows that the counter invariant
  breaks there.
- `likePost` notifies the owner even on a self-like.
- `findOne` bumps `viewCount`, and so do `create` and `update`, which return through it.
- The profile service's copy of `extractCountry` keeps the empty country of a destination
  such as "Paris,"; the itinerary service's copy drops it.

Two filters are narrower than their names suggest:

- the posts feed (`findAll`) filters on status, visibility and following only; it checks
  neither `approvedByAdmin` nor banned authors;
- `getTopItineraries` filters on visibility and approval only; it has no status filter.

## Model

| member | source | states |
|---|---|---|
| Text.Split | src/posts/dto/create-post.dto.ts:35 | `split(',')` gives at least one piece, no piece contains the separator, and there is exactly one piece iff the separator is absent |
| Text.SplitJoin | src/posts/dto/create-post.dto.ts:35 | joining the pieces with the separator gives back the input (split loses nothing) |
| Text.SplitConcat | src/posts/dto/create-post.dto.ts:35 | splitting `s + sep + t` gives the pieces of `s` followed by those of `t` |
| Text.Trim | src/posts/dto/create-post.dto.ts:35 | `trim()` is the part of its input that starts after the leading white space and has only white space after it, with no white space at either end; it is empty iff the input is all white space. White space is ECMAScript's: tab, line tabulation, form feed, byte order mark, Unicode space separators and line terminators |
| Text.TrimPadded | src/posts/dto/create-post.dto.ts:35 | white space put around a trimmed string is exactly what `trim()` removes |
| Text.TrimIdempotent | src/posts/dto/create-post.dto.ts:35 | trimming twice is trimming once |
| Text.ToLower | src/posts/services/posts.service.ts:606-610 | `toLowerCase()` keeps the length and lowers each character |
| Text.ToLowerIdempotent | src/discover/services/discover.service.ts:200-249 | lowering twice is lowering once, so a tag name lowered by the caller finds the same tag |
| Store.Notify | client-project/src/social/services/social.service.ts:57-64 | `notification.create` appends exactly one unread notification with a fresh id and keeps the notification ids distinct |
| Store.WithoutPair | src/posts/services/posts.service.ts:256-258 | `deleteMany` on an (item, user) pair keeps only rows of the old table, and none for that pair |
| Store.WithoutPairCounts | client-project/src/social/services/social.service.ts:83-94 | deleting a pair removes exactly that pair's rows from every count: pair, per-user and per-item |
| Store.WithoutPairUndoesAppend | client-project/src/social/services/social.service.ts:34-104 | deleting a pair that was absent before it was created restores the table exactly |
| Store.HasPair | client-project/src/social/services/social.service.ts:22-27 | the `findFirst` existence check is true iff the pair has a row |
| Store.PostIndex | src/posts/services/posts.service.ts:218 | `findUnique` by id: the first row with that id, or none when no row has it |
| Store.ProfileByUsername | src/profile/services/profile.service.ts:171-173 | lookup by username: a row with that username, or none when no row has it |
| Counters.CountedAfterLike | src/posts/services/posts.service.ts:232-239 | one new like row together with the counter raised by one keeps "counter = number of rows" |
| Counters.CountedAfterUnlike | src/posts/services/posts.service.ts:255-263 | deleting a pair's rows and lowering the counter by that many keeps the counter invariant |
| Counters.UnlikeWithoutRowMiscounts | src/posts/services/posts.service.ts:254-266 | unlike with no like row still lowers the counter, so the counter ends one below the row count and the invariant fails |
| Counters.AtMostOneAfterAdd | src/posts/services/posts.service.ts:224-235 | creating a row only when the pair has none keeps at most one row per pair |
| Counters.AtMostOneAfterDelete | src/posts/services/posts.service.ts:256-258 | after `deleteMany` a pair has no row, and every pair still has at most one |
| Social.FollowStats | client-project/src/social/services/social.service.ts:48-55 | follow raises the follower's `totalFollowing` and the target's `totalFollowers` and changes no other column or key |
| Social.UnfollowStats | client-project/src/social/services/social.service.ts:96-103 | unfollow lowers the same two counters and changes no other column or key |
| Social.UnfollowStatsUndoesFollow | client-project/src/social/services/social.service.ts:34-104 | the unfollow counter update undoes the follow counter update exactly |
| Social.FollowKeepsGraph | client-project/src/social/services/social.service.ts:34-65 | a follow of a new edge keeps the mirror between `following` and `follower` and keeps each counter equal to its edge count |
| Social.UnfollowKeepsGraph | client-project/src/social/services/social.service.ts:82-104 | an unfollow of an existing edge keeps the same invariant |
| Social.EdgeTablesAfterUnfollow | client-project/src/social/services/social.service.ts:83-94 | after both `deleteMany` calls the edge tables still mirror each other, with one fewer edge for exactly the two users involved |
| Social.UnfollowStatsCounters | client-project/src/social/services/social.service.ts:96-103 | the unfollow counter update lowers exactly the two affected counters by one |
| Social.FollowUnfollowRoundTrip | client-project/src/social/services/social.service.ts:34-104 | follow then unfollow restores both edge tables and the statistics exactly |
| Social.FollowUser | client-project/src/social/services/social.service.ts:8-68 | self-follow gives BadRequest; a missing target gives NotFound; an existing edge gives BadRequest; no error path changes anything; success appends both edges, bumps both counters and appends one 'follow' notification to the target; the graph invariant holds afterwards |
| Social.UnfollowUser | client-project/src/social/services/social.service.ts:70-107 | succeeds iff the edge exists (otherwise BadRequest and no change), removes both edges, lowers both counters, sends no notification, and keeps the graph invariant |
| Social.FollowThenUnfollow | client-project/src/social/services/social.service.ts:8-107 | after a successful follow the unfollow succeeds, and both edge tables and the statistics are as before the follow |
| Social.IsFollowing | client-project/src/social/services/social.service.ts:193-202 | true iff the `following` edge exists, and, under the invariant, iff the mirrored `follower` edge exists |
| Social.GetFollowers | client-project/src/social/services/social.service.ts:109-149 | at most `take` followers, each with a real edge, newest first; `total` is the edge count and equals `totalFollowers` under the invariant |
| Social.GetFollowing | client-project/src/social/services/social.service.ts:151-191 | the same for followed users and `totalFollowing` |
| Social.FollowersComplete | client-project/src/social/services/social.service.ts:109-149 | under the invariant, with a window from 0 that holds them all, everyone following the user is listed |
| Social.FollowingComplete | client-project/src/social/services/social.service.ts:151-191 | with a window from 0 that holds them all, everyone the user follows is listed |
| Social.EdgePage | client-project/src/social/services/social.service.ts:109-149 | one page of an edge table: only the user's edges, newest first, in the window, with the total count |
| Social.EdgePageComplete | client-project/src/social/services/social.service.ts:109-149 | with a window from 0 that holds all the user's edges, every edge is listed as its subject's card with its date |
| Social.ListedEdgesAreFollows | client-project/src/social/services/social.service.ts:109-202 | everyone listed as a follower follows the user, and everyone listed as followed is followed, by `isFollowing` |
| Social.Suggestions | client-project/src/social/services/social.service.ts:204-242 | at most `take` users, none the caller, none banned, all with `suggestAccount`, none already followed, ordered by `totalFollowers` descending |
| Social.SuggestionsComplete | client-project/src/social/services/social.service.ts:204-242 | when every eligible user fits in `take`, each eligible user is suggested |
| Social.GetSuggestedUsers | client-project/src/social/services/social.service.ts:204-245 | suggested users exist, are not the caller and are not followed by the caller |
| Social.SuggestedNotFollowed | client-project/src/social/services/social.service.ts:204-245 | under the invariant `isFollowing` is false for every suggestion |
| Posts.ApplyFields | src/posts/services/posts.service.ts:184-187 | `update` writes exactly the given fields and keeps every other column |
| Posts.ApplyFieldsIdempotent | src/posts/services/posts.service.ts:184-187 | applying the same update twice equals applying it once |
| Posts.TagsOf | src/posts/services/posts.service.ts:166 | the tags shown with a post are tags linked to that post |
| Posts.FindOne | src/posts/services/posts.service.ts:113-171 | NotFound for a missing post; otherwise the post with its tags and the viewer's like and save flags, and `viewCount` raised by one |
| Posts.TagByName | src/posts/services/posts.service.ts:606-610 | the tag upsert's lookup finds a tag with that name, or reports that none has it |
| Posts.AddTag | src/posts/services/posts.service.ts:604-626 | one loop step: the tag is found or created once (tag names stay distinct), and the post is linked to it at most once |
| Posts.AddTagsToPost | src/posts/services/posts.service.ts:603-627 | after the loop every given name, lower-cased, tags the post; only tags and links are added, and all new links are to this post |
| Posts.AddPosts | src/posts/services/posts.service.ts:29-32 | the `totalPosts` change touches only that user's `totalPosts` |
| Posts.InsertPost | src/posts/services/posts.service.ts:16-21 | the new post is appended with a fresh id and is found by that id |
| Posts.Create | src/posts/services/posts.service.ts:12-35 | appends the post, raises the author's `totalPosts` by one, tags it with every given name and keeps the graph invariant; fails iff the author has no statistics row |
| Posts.OwnedPost | src/posts/services/posts.service.ts:174-182 | the owner guard: NotFound for a missing post, Forbidden for another user's, otherwise the post's index |
| Posts.Update | src/posts/services/posts.service.ts:173-190 | fails with the guard's error before any change; otherwise writes the fields and returns the updated post |
| Posts.Remove | src/posts/services/posts.service.ts:192-215 | fails with the guard's error before any change; otherwise sets status DELETED and lowers `totalPosts` by one, keeping the graph invariant |
| Posts.LikePost | src/posts/services/posts.service.ts:217-252 | NotFound on a missing post; 'Already liked' with no change when a like exists; otherwise one like row, `likeCount` + 1 and one 'like' notification to the owner, even on a self-like; keeps at most one like per pair and the like counter invariant |
| Posts.AddPostLike | src/posts/services/posts.service.ts:232-249 | the like transaction appends the row and raises only that post's counter, keeping the invariants |
| Posts.LikeTwice | src/posts/services/posts.service.ts:224-230 | liking twice raises `likeCount` by one in total and creates one row |
| Posts.UnlikePost | src/posts/services/posts.service.ts:254-266 | deletes the pair's rows and always lowers `likeCount` by one (an update on a missing post fails); the counter invariant survives iff a like row existed |
| Posts.SavePost | src/posts/services/posts.service.ts:268-288 | NotFound on a missing post; 'Already saved' with no change; otherwise one save row; at most one save per pair; no counter changes |
| Posts.UnsavePost | src/posts/services/posts.service.ts:290-296 | removes every save row of the pair and keeps at most one save per pair |
| Posts.SharePost | src/posts/services/posts.service.ts:298-316 | NotFound on a missing post; otherwise always appends a share row and raises `shareCount` by one |
| Posts.CommentsCountedAfterComment | src/posts/services/posts.service.ts:325-351 | one new comment together with `commentCount` + 1 keeps "commentCount = number of comments" |
| Posts.InsertComment | src/posts/services/posts.service.ts:325-351 | the comment transaction appends the comment with a fresh id, raises that post's `commentCount` and keeps the comment counter invariant |
| Posts.CreateComment | src/posts/services/posts.service.ts:318-369 | NotFound on a missing post; otherwise one comment, `commentCount` + 1, and a 'comment' notification iff the commenter is not the owner |
| Posts.LikeComment | src/posts/services/posts.service.ts:404-432 | as for posts: NotFound, 'Already liked', or one row and `likeCount` + 1, keeping the comment like invariants; no notification |
| Posts.UnlikeComment | src/posts/services/posts.service.ts:434-446 | deletes the pair's rows and always lowers the comment's `likeCount`; the invariant survives iff a row existed |
| Posts.CreateReply | src/posts/services/posts.service.ts:448-491 | NotFound on a missing comment; otherwise one reply and a notification to the comment owner iff the replier is not the owner; no counter changes |
| Posts.GetComments | src/posts/services/posts.service.ts:371-402 | at most `take` comments of that post, newest first, with `total` their full count |
| Posts.GetCommentsComplete | src/posts/services/posts.service.ts:371-402 | when all of a post's comments fit in `take`, each one is listed |
| Posts.GetReplies | src/posts/services/posts.service.ts:494-521 | at most `take` replies of that comment, oldest first, with `total` their full count |
| Posts.GetRepliesComplete | src/posts/services/posts.service.ts:494-521 | with a window from 0 that holds them all, every reply of the comment is listed |
| Posts.FindAll | src/posts/services/posts.service.ts:37-110 | every feed post is ACTIVE and is the viewer's own, or ALL, or FOLLOWERS by someone the viewer follows; anonymous viewers get ALL posts only; at most `take`, newest first, `total` under the same filter |
| Posts.FeedFollowersOnly | src/posts/services/posts.service.ts:50-57 | a FOLLOWERS post in a signed-in feed is the viewer's own or by someone the viewer follows |
| Posts.FindAllComplete | src/posts/services/posts.service.ts:37-110 | when the whole feed fits in `take`, every eligible post is in it |
| Itineraries.ExtractCountry | src/itineraries/services/itineraries.service.ts:351-355 | the result is trimmed and contains no comma; without a comma it is the trimmed whole string |
| Itineraries.ExtractCountryOfPair | src/itineraries/services/itineraries.service.ts:351-355 | "city, country" gives the trimmed country |
| Itineraries.ExtractCountryPadded | src/itineraries/services/itineraries.service.ts:351-355 | a destination without a comma is its own country once the white space around it is dropped ("  Iceland " gives "Iceland") |
| Itineraries.TripCountriesMembers | src/itineraries/services/itineraries.service.ts:307-316 | a country is collected iff some itinerary has a non-empty destination whose extracted country is that non-empty country |
| Itineraries.CollectTripCountries | src/itineraries/services/itineraries.service.ts:308-316 | the loop collects exactly the set of non-empty extracted countries |
| Itineraries.ContinentsAdd | src/itineraries/services/itineraries.service.ts:326-332 | adding a country adds its mapped continent, if any, to the continents |
| Itineraries.ContinentsBound | src/itineraries/services/itineraries.service.ts:319-340 | there are never more continents than countries |
| Itineraries.UnmappedCountryAddsNoContinent | src/itineraries/services/itineraries.service.ts:328-331 | an unmapped country adds no continent |
| Itineraries.CollectContinents | src/itineraries/services/itineraries.service.ts:326-332 | the loop collects exactly the mapped continents of the countries |
| Itineraries.AllCountries | src/itineraries/services/itineraries.service.ts:318-323 | every profile country and every trip country is counted |
| Itineraries.Figures | src/itineraries/services/itineraries.service.ts:335-347 | `totalTrips` is the user's itinerary count, `countriesVisited` the size of the union, and `continentsVisited <= countriesVisited` |
| Itineraries.WithFigures | src/itineraries/services/itineraries.service.ts:335-348 | the upsert writes the three figures, creates the row with zero follow counters if absent, and keeps every other row and column |
| Itineraries.WithFiguresIdempotent | src/itineraries/services/itineraries.service.ts:335-348 | upserting the same figures twice writes identical values |
| Itineraries.WithFiguresKeepsGraph | src/itineraries/services/itineraries.service.ts:335-348 | the upsert keeps the follow graph invariant |
| Itineraries.UserItineraries | src/itineraries/services/itineraries.service.ts:292-299 | the loop selects exactly the user's itineraries |
| Itineraries.UpdateUserTravelStatistics | src/itineraries/services/itineraries.service.ts:290-349 | the statistics row becomes the upsert of the recomputed figures, keeping the graph invariant |
| Itineraries.RecomputeTwice | src/itineraries/services/itineraries.service.ts:290-349 | two recomputes on unchanged inputs leave the same row as one |
| Itineraries.ApplyFields | src/itineraries/services/itineraries.service.ts:160-163 | `update` writes exactly the given fields and keeps the rest |
| Itineraries.ApplyFieldsIdempotent | src/itineraries/services/itineraries.service.ts:160-163 | applying the same update twice equals applying it once |
| Itineraries.FindOne | src/itineraries/services/itineraries.service.ts:96-145 | NotFound iff the id is missing; otherwise the itinerary with the viewer's like and save flags |
| Itineraries.InsertItinerary | src/itineraries/services/itineraries.service.ts:14-19 | the new itinerary is appended with a fresh id and is found by that id |
| Itineraries.RecomputeAndFind | src/itineraries/services/itineraries.service.ts:57-59 | the statistics are recomputed and the stored itinerary is returned |
| Itineraries.Create | src/itineraries/services/itineraries.service.ts:11-60 | appends the itinerary, recomputes the owner's statistics and returns it, keeping the graph invariant |
| Itineraries.OwnedItinerary | src/itineraries/services/itineraries.service.ts:148-158 | the owner guard: NotFound, Forbidden or the itinerary's index |
| Itineraries.Update | src/itineraries/services/itineraries.service.ts:147-169 | the guard's error with no change, or the fields written and the statistics recomputed |
| Itineraries.Remove | src/itineraries/services/itineraries.service.ts:171-187 | the guard's error with no change, or the row removed without recomputing the statistics |
| Itineraries.RemoveDeletesTheRow | src/itineraries/services/itineraries.service.ts:184 | with distinct ids, no row with the removed id is left |
| Itineraries.LikeItinerary | src/itineraries/services/itineraries.service.ts:189-217 | NotFound, 'Already liked' with no change, or one like row and `likeCount` + 1 with no notification; keeps the like invariants |
| Itineraries.UnlikeItinerary | src/itineraries/services/itineraries.service.ts:219-231 | deletes the pair's rows and always lowers `likeCount`; the invariant survives iff a row existed |
| Itineraries.SaveItinerary | src/itineraries/services/itineraries.service.ts:233-247 | 'Already saved' with no change; for a missing itinerary, which the service does not look up, the save row's foreign key makes the store refuse the row and nothing changes; otherwise one save row; at most one save per pair |
| Itineraries.UnsaveItinerary | src/itineraries/services/itineraries.service.ts:249-255 | removes the pair's save rows |
| Profiles.BaseUrl | src/profile/services/profile.service.ts:14 | `BASE_URL` when set and non-empty, otherwise a default starting with "http" |
| Profiles.FormatImageUrl | src/profile/services/profile.service.ts:18-22 | null or empty gives null; an "http" URL is kept; anything else is prefixed with the base URL |
| Profiles.FormatImageUrlIdempotent | src/profile/services/profile.service.ts:14-22 | formatting is idempotent when the base URL starts with "http" |
| Profiles.FormatProfile | src/profile/services/profile.service.ts:24-30 | only the two image URLs are formatted; every other field is kept |
| Profiles.Dedup | src/profile/services/profile.service.ts:224-232 | `[...new Set(xs)]` has the same elements as `xs`, no duplicates, and is no longer |
| Profiles.DedupFirstOccurrence | src/profile/services/profile.service.ts:224-232 | the elements appear in the order of their first occurrence |
| Profiles.DedupOfDistinct | src/profile/services/profile.service.ts:328-336 | a list without duplicates is returned unchanged |
| Profiles.DedupIdempotent | src/profile/services/profile.service.ts:328-336 | de-duplicating twice is de-duplicating once |
| Profiles.ProfileGate | src/profile/services/profile.service.ts:170-209 | the privacy gate gives a profile with the asked username, or NotFound |
| Profiles.ProfileGateCases | src/profile/services/profile.service.ts:187-206 | missing profile: NotFound; the owner and anyone on a public profile see it; a private profile is shown to anyone else iff they follow the owner (anonymous counts as '') |
| Profiles.GetProfileByUsername | src/profile/services/profile.service.ts:170-209 | the gate's answer, with the image URLs formatted |
| Profiles.InfoOf | src/profile/services/profile.service.ts:33-43 | the user part of the response keeps id, email and role and has no password field |
| Profiles.LatestActiveDevice | src/profile/services/profile.service.ts:113-121 | `activeSession` is the most recently updated active device of the user, or none iff there is none |
| Profiles.Shown | src/profile/services/profile.service.ts:89-111 | a settings row is shown restricted to the listed fields |
| Profiles.GetProfile | src/profile/services/profile.service.ts:32-168 | NotFound for a missing user; an ADMIN sees only the admin notification flags plus `adminSettings`, created with defaults if absent; others see push/email flags plus account, privacy and statistics |
| Profiles.Upsert | client-project/src/profile/services/profile.service.ts:155-195 | a settings upsert creates the row from the DTO if absent, otherwise overwrites the given fields and keeps the rest; other users' rows are kept |
| Profiles.UpsertIdempotent | client-project/src/profile/services/profile.service.ts:155-195 | applying the same DTO twice gives the same row |
| Profiles.Without | src/profile/services/profile.service.ts:466-477 | a row with some fields removed keeps all the others |
| Profiles.AdminUpsert | src/profile/services/profile.service.ts:480-493 | the admin settings upsert writes only admin fields and defaults the missing ones on creation |
| Profiles.UpdateAccountSettings | src/profile/services/profile.service.ts:452-496 | NotFound for a missing user; admin fields go to `adminSettings` only for an ADMIN; a non-admin leaves `adminSettings` unchanged |
| Profiles.NotificationFieldsFor | src/profile/services/profile.service.ts:513-543 | a non-admin can write no admin notification field |
| Profiles.NewNotificationRow | src/profile/services/profile.service.ts:513-543 | a row created for a non-admin has both admin flags at their default true |
| Profiles.UpdateNotificationSettings | src/profile/services/profile.service.ts:498-546 | NotFound for a missing user; a non-admin never changes `adminAdminNotification` or `adminSecurityAlerts` |
| Profiles.UpdatePrivacySecuritySettings | src/profile/services/profile.service.ts:548-562 | the privacy row is upserted from the DTO |
| Profiles.UpdateSocialLinks | client-project/src/profile/services/profile.service.ts:129-153 | NotFound with no change when the user has no profile; otherwise the single links row is created or updated |
| Profiles.TextColumns | src/profile/services/profile.service.ts:238-240 | the written text columns are the DTO's, with an empty birthday left out |
| Profiles.Truthy | src/profile/services/profile.service.ts:346-347 | `...(x && { x })`: an image is written exactly when it is present and non-empty, and then as given |
| Profiles.UpdatedProfile | src/profile/services/profile.service.ts:223-245 | the profile after an update: the text columns written over the old ones, the username and the lists when given, the lists de-duplicated in first-occurrence order when asked and written as given otherwise, each image that is present written, id and owner kept |
| Profiles.WriteProfile | src/profile/services/profile.service.ts:234-245 | an update of a missing profile fails and writes nothing; otherwise only that profile changes |
| Profiles.UpdateProfile | src/profile/services/profile.service.ts:211-248 | Conflict with no change iff the username is held by another user; otherwise the de-duplicated update is written; travel statistics are not recomputed |
| Profiles.OwnUsernameNoConflict | src/profile/services/profile.service.ts:213-221 | re-submitting your own username is never a conflict |
| Profiles.ProfileUpdateCheck | src/profile/services/profile.service.ts:267-307 | the checks before any write: a username or e-mail held by another user, a password change without `currentPassword`, or one with a wrong current password, give Conflict; a password change for a missing user gives NotFound (and only that does); no error iff none of these holds |
| Profiles.UpdatedUser | src/profile/services/profile.service.ts:309-325 | the account update hashes a new password and keeps id, role, ban and active flags |
| Profiles.LinkColumns | src/profile/services/profile.service.ts:355-362 | a link column is written iff it was given |
| Profiles.WriteAccount | src/profile/services/profile.service.ts:309-325 | the account is updated iff it exists, and nothing else changes |
| Profiles.ExtractCountry | src/profile/services/profile.service.ts:615-620 | null or empty gives none; otherwise the same country as the itinerary service's copy |
| Profiles.TripCountriesDiffer | src/profile/services/profile.service.ts:588-595 | the two services' trip countries differ exactly by the empty country |
| Profiles.TrailingCommaCountsEmptyCountry | src/profile/services/profile.service.ts:590-592 | "Paris," contributes the country "" here |
| Profiles.AllCountries | src/profile/services/profile.service.ts:589-595 | every profile country is counted |
| Profiles.Figures | src/profile/services/profile.service.ts:570-613 | `totalTrips` is the itinerary count, `countriesVisited` the size of the union, `continentsVisited <= countriesVisited` |
| Profiles.UpdateTravelStatistics | src/profile/services/profile.service.ts:397-408 | the statistics row becomes the upsert of these figures, keeping the graph invariant |
| Profiles.UsersAfter | src/profile/services/profile.service.ts:309-325 | without account fields the users table is unchanged |
| Profiles.ProfilesAfter | src/profile/services/profile.service.ts:338-352 | the profile update keeps the number of profiles |
| Profiles.LinksAfter | src/profile/services/profile.service.ts:354-370 | without any link given the links table is unchanged |
| Profiles.WriteProfileWithImages | src/profile/services/profile.service.ts:309-377 | the writes of `updateProfileWithImages`: account, profile (images only when non-empty) and links as above; they succeed iff the profile exists and, when account columns are given, the account exists; a store error leaves the account update behind and the profile and links unchanged |
| Profiles.UpdateProfileWithImages | src/profile/services/profile.service.ts:250-395 | a failed check gives its error before any write; once the checks pass it succeeds iff the profile exists and, when account columns are given, the account exists; on success the statistics are recomputed on both return paths and the formatted profile is returned; a store error leaves only the account update behind, with no recompute; the graph invariant holds |
| ClientProfile.GetProfile | client-project/src/profile/services/profile.service.ts:14-45 | NotFound iff the user is missing; the user part carries no password; the profile, if any, is the user's own |
| ClientProfile.GetProfileByUsername | client-project/src/profile/services/profile.service.ts:47-85 | the privacy gate: a profile with that username, or NotFound |
| ClientProfile.SameGateAsMainService | client-project/src/profile/services/profile.service.ts:63-82 | the two services let through exactly the same requests; the main service only formats the image URLs of what it returns |
| ClientProfile.UpdateProfile | client-project/src/profile/services/profile.service.ts:87-113 | Conflict only if the username belongs to another user; otherwise the update is written as given, the DTO's `profileImage` and `coverImage` included even when empty |
| ClientProfile.KeepsDuplicates | client-project/src/profile/services/profile.service.ts:99-106 | this copy writes `countriesExplored` as given, duplicates included |
| ClientProfile.UpdateAccountSettings | client-project/src/profile/services/profile.service.ts:155-167 | the account row is upserted from the DTO and returned |
| ClientProfile.UpdateNotificationSettings | client-project/src/profile/services/profile.service.ts:169-181 | the notification row is upserted from the DTO and returned |
| ClientProfile.UpdatePrivacySecuritySettings | client-project/src/profile/services/profile.service.ts:183-195 | the privacy row is upserted from the DTO and returned |
| ClientProfile.AdminFlagsOpenToAll | client-project/src/profile/services/profile.service.ts:169-181 | this copy lets any user write the admin notification flags |
| Discover.GetTopPosts | src/discover/services/discover.service.ts:17-53 | only ACTIVE, visibility ALL, approved posts, ordered by likes, then views, then date, all descending, in the window |
| Discover.TopPostsComplete | src/discover/services/discover.service.ts:17-53 | the first page holds every top post when they fit in `take` |
| Discover.GetTopItineraries | src/discover/services/discover.service.ts:55-85 | only visibility ALL, approved itineraries (no status filter), ordered by rating, then likes, then date, all descending |
| Discover.TopItinerariesComplete | src/discover/services/discover.service.ts:55-85 | every eligible itinerary is on the first page when they fit |
| Discover.EmptyQueryMatches | src/discover/services/discover.service.ts:93-95 | an empty query matches any present column |
| Discover.ContainsIgnoresQueryCase | src/discover/services/discover.service.ts:93-95 | `mode: 'insensitive'`: the query's case does not matter |
| Discover.SearchPosts | src/discover/services/discover.service.ts:88-120 | ACTIVE posts whose caption, details or location contains the query, newest first, at most `take` |
| Discover.SearchPostsComplete | src/discover/services/discover.service.ts:88-120 | with a window from 0 that holds every hit, every matching ACTIVE post is found |
| Discover.SearchItineraries | src/discover/services/discover.service.ts:122-154 | itineraries whose title, description, destination or country contains the query, whatever their visibility and approval, newest first, at most `take` |
| Discover.SearchItinerariesComplete | src/discover/services/discover.service.ts:122-154 | with a window from 0 that holds every hit, every matching itinerary is found |
| Discover.SearchUsers | src/discover/services/discover.service.ts:156-195 | matching non-banned users, ordered by `totalFollowers` descending, at most `take` |
| Discover.SearchUsersComplete | src/discover/services/discover.service.ts:156-195 | with a window from 0 that holds every hit, every matching non-banned user is found |
| Discover.Search | src/discover/services/discover.service.ts:87-198 | with a type, exactly the hits `SearchPosts`, `SearchItineraries` or `SearchUsers` give for that kind, with the window; without one, only 'Search complete' |
| Discover.GetPostsByTag | src/discover/services/discover.service.ts:200-250 | ACTIVE posts with the lower-cased tag, newest first, with `total` counted under the same filter |
| Discover.PostsByTagComplete | src/discover/services/discover.service.ts:200-250 | with a window from 0 that holds them all, every ACTIVE post carrying the lower-cased tag is listed |
| Discover.PostsByTagIgnoresCase | src/discover/services/discover.service.ts:200-250 | the tag's case does not change the answer |
| Admin.GetDashboardStats | src/admin/services/admin.service.ts:8-48 | `activeUsers`, `totalPosts`, `pendingPosts` and `pendingItineraries` are the counts of non-banned users, ACTIVE posts, unapproved ACTIVE posts and unapproved itineraries, so `activeUsers <= totalUsers`, `pendingPosts <= totalPosts`, `pendingItineraries <= totalItineraries`; engagement sums over all posts, DELETED included, and 0 with no posts |
| Admin.GetUsers | src/admin/services/admin.service.ts:50-91 | matching users, newest first, at most `take`, with `total` under the same filter; without a search, every user |
| Admin.GetUsersComplete | src/admin/services/admin.service.ts:50-91 | with a window from 0 that holds every account the filter keeps, each is listed |
| Admin.GetPendingContent | src/admin/services/admin.service.ts:111-165 | only unapproved items (ACTIVE ones for posts), newest first, with `total` matching the filter |
| Admin.PendingContentComplete | src/admin/services/admin.service.ts:111-165 | with a window from 0 that holds the whole queue, every unapproved ACTIVE post and every unapproved itinerary is listed |
| Admin.SetBanned | src/admin/services/admin.service.ts:93-109 | ban and unban set only `accountBanned` and are idempotent; a missing user fails with no change |
| Admin.BanLowersActiveUsers | src/admin/services/admin.service.ts:18 | banning an active user lowers the dashboard's `activeUsers` by one |
| Admin.ApprovePost | src/admin/services/admin.service.ts:167-174 | sets only `approvedByAdmin` |
| Admin.RejectPost | src/admin/services/admin.service.ts:176-183 | sets only status DELETED (a soft delete) |
| Admin.RejectKeepsEngagement | src/admin/services/admin.service.ts:19-34 | rejecting a post lowers the active count by one and leaves every engagement sum unchanged |
| Admin.ApproveItinerary | src/admin/services/admin.service.ts:185-192 | sets only `approvedByAdmin` |
| Admin.DeleteItinerary | src/admin/services/admin.service.ts:194-200 | removes the row; with distinct ids no row with that id is left |
| Notifications.MarkRead | client-project/src/notifications/services/notifications.service.ts:44-52 | `updateMany` sets `isRead` on exactly the matching rows and keeps the rest |
| Notifications.CountMarkRead | client-project/src/notifications/services/notifications.service.ts:43-65 | marking never changes a count blind to the read flag, such as a user's total |
| Notifications.MarkAllLeavesNoneUnread | client-project/src/notifications/services/notifications.service.ts:55-65 | after marking a user's unread notifications, none is unread |
| Notifications.MarkReadIdempotent | client-project/src/notifications/services/notifications.service.ts:43-53 | marking twice is marking once |
| Notifications.GetNotifications | client-project/src/notifications/services/notifications.service.ts:8-41 | only the caller's notifications, newest first, with `unreadCount <= total` |
| Notifications.GetNotificationsComplete | client-project/src/notifications/services/notifications.service.ts:8-41 | with a window from 0 that holds them all, every notification of the caller is listed |
| Notifications.MarkAsRead | client-project/src/notifications/services/notifications.service.ts:43-53 | only the caller's notification with that id changes, and no user's total changes |
| Notifications.MarkAllAsRead | client-project/src/notifications/services/notifications.service.ts:55-65 | the caller's unread count becomes 0 and other users' notifications are unchanged |
| Notifications.DeleteNotification | client-project/src/notifications/services/notifications.service.ts:67-76 | removes only the caller's notification with that id, which is at most one row |
| PostTags.CleanTags | src/posts/dto/create-post.dto.ts:35 | every output tag is non-empty, trimmed and the trim of some piece |
| PostTags.CleanTagsAppend | src/posts/dto/create-post.dto.ts:35 | the pieces are cleaned in order |
| PostTags.TransformTags | src/posts/dto/create-post.dto.ts:32-39 | a list passes through unchanged; from a string, no tag is empty, untrimmed or holds a comma |
| PostTags.TransformTagsConcat | src/posts/dto/create-post.dto.ts:33-35 | "a,b" gives the tags of "a" followed by the tags of "b", so the order is kept |
| PostTags.TransformOneTag | src/posts/dto/create-post.dto.ts:33-35 | a piece without a comma gives its trimmed self, or nothing when that is empty |
| FileUpload.ValidateFile | src/file-upload/services/file-upload.service.ts:61-80 | accepted iff one of the five image types and at most 10 MiB; the type is checked first |
| FileUpload.SizeBoundary | src/file-upload/services/file-upload.service.ts:76-79 | exactly 10 MiB passes and one byte more fails |
| FileUpload.UrlOf | src/file-upload/services/file-upload.service.ts:30 | the URL is "/uploads/" followed by the file name |
| FileUpload.FirstInvalid | src/file-upload/services/file-upload.service.ts:40-47 | the first file that fails validation, every earlier one passing |
| FileUpload.UploadDir.UploadSingle | src/file-upload/services/file-upload.service.ts:17-31 | a missing or refused file gives BadRequest before any write; otherwise one write and its URL |
| FileUpload.UploadDir.UploadMultiple | src/file-upload/services/file-upload.service.ts:33-50 | a missing or empty list gives BadRequest before any write; on success one URL per file, in order; when file k is refused, files 0 to k-1 have already been written |

## Left out

- Prisma `include`/`select` projection shapes. Responses carry the modelled rows and the
  fields the properties talk about, not every nested object.
- Concurrency between requests. Each Prisma `$transaction` is modelled as one atomic
  method, and a check followed by a write (for example "already liked?") is one step. The
  race between two such requests is not modelled.
- Partial failure of non-transactional sequences. Where the code issues several writes
  outside a transaction, the model performs them all or stops at the first missing row;
  other store failures (a lost connection, a constraint the model does not name) are not
  modelled.
- Itineraries.Remove and Admin.DeleteItinerary: referential integrity on delete is not
  modelled. Both remove the itinerary row only and keep the like and save rows that point
  at it, where the database schema (not part of this model) either cascades the delete or
  refuses it. Itineraries.SaveItinerary does model the foreign key of a new save row.
- Authentication: bcrypt, JWT and OAuth. A password check's outcome (`passwordMatches`)
  and the new hash are parameters. Every user is assumed to get a statistics row at
  registration (src/auth/services/auth.service.ts:50).
- Mail (src/mail/mail.service.ts): SMTP I/O.
- The clock and generated ids. `now` is a parameter, and ids come from per-table counters.
- The contents of `country-continent-mapping.json`, which is not part of this model. The
  mapping is a parameter.
- Controllers and modules (routing and `parseInt` query parsing). The missing
  `getAdminSettings`/`updateAdminSettings` are called by
  src/admin/controllers/admin.controller.ts:110,119.
- The DTOs' class-validator decorators. The `JSON.parse` transforms of
  src/profile/dto/update-profile.dto.ts:60-84 are a library call; their parsed arrays are
  the model's input.
- The legacy users repository and service, which are unused.
- `getTrendingDestinations`: it reads a table no modelled operation writes.
- `getUserPosts`, `getSavedPosts`, itinerary `findAll` and `getSavedItineraries`: pagings of
  the same shape as `getComments`, which is modelled.
- `uploadProfileImage`, `uploadCoverImage`, `deactivateAccount`, `reactivateAccount`,
  `deleteAccount` and `getStatistics` in both profile services: single-column updates or
  reads.
- Itinerary `addTags`, and the `bestTimeToVisit`, `mostVisitAttraction` and `whereToStay` child
  rows written by itinerary `create`.
- `deleteFile`, `generateFileName` and `getFilePath`: the file system, the clock and
  `Math.random()`. The upload directory is a log of written files, and the file names are
  parameters.
- Text.ToLower: lowers ASCII letters only. JavaScript's `toLowerCase` and the database's
  case-insensitive `contains` fold all of Unicode.
- Discover.SearchPosts, Discover.SearchItineraries, Discover.SearchUsers and Admin.GetUsers:
  "contains, ignoring case" is ASCII lower-casing of both sides followed by a substring
  test, not the database collation.
- Social.GetSuggestedUsers: the order of users with equal `totalFollowers` is stated only as
  the sort's, not as the database's tie order.
- Integer widths. Counters are unbounded integers. A decrement below zero, which the
  unlike quirk can cause, is kept as a negative number, as Prisma's `Int` would.
