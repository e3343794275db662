# A verified model of simple-blog

simple-blog is a blogging service: posts with moderated categories, threaded
comments, likes and shares, uploaded media, private messages, accounts with
rotating refresh sessions, a rate limiter and a realtime channel between server
processes. These Dafny files model the state machines and algorithms underneath
its HTTP layer and prove what they promise, for every input and every run.

Tables are maps and sets; identifiers and times are integers in the order the
database gives them. A service call is one atomic step that either commits or
leaves the tables alone. Clocks, drawn identifiers and tokens, the text search,
SHA-256, HMAC, token signatures, and the outcome of a send or an insert are
parameters. Services that change rows are classes whose methods are proved to
take the tables exactly from one specified state to the next; the properties are
then proved of the specification, over all runs. The `*Effects` files say of each
request, by rows and fields alone, when it is accepted, with which error it is
refused, and every row it leaves. The table below gives the theorems first and
the methods after them.

| file | models |
|---|---|
| `Text.dfy`, `Json.dfy`, `Base64Url.dfy`, `Cursor.dfy`, `TextForms.dfy` | the text forms a cursor is made of, and the signed cursor |
| `Keyset.dfy`, `Feed.dfy`, `FeedEffects.dfy` | keyset pagination, and the listings of posts, comments and messages built on it |
| `Content.dfy`, `ContentEffects.dfy` | categories, category requests, posts and drafts |
| `Comments.dfy`, `CommentEffects.dfy`, `CommentTree.dfy`, `Interactions.dfy`, `InteractionEffects.dfy`, `PostCounters.dfy` | the comment forest, the client's comment list, likes and shares, the counters |
| `Accounts.dfy`, `AccountEffects.dfy`, `AccountService.dfy` | accounts, sessions, reset and verification tokens |
| `MediaStore.dfy`, `MediaEffects.dfy`, `MediaService.dfy` | media rows, the objects in the bucket, holders and quota |
| `Messaging.dfy`, `MessagingEffects.dfy` | conversations, members, read markers, unread counts, blocks |
| `RateLimit.dfy`, `Realtime.dfy`, `RealtimeEffects.dfy` | the two rate limiters; the socket hub and the bridge between processes |
| `Wrappers.dfy`, `Finite.dfy` | result types; counting over finite sets |

What the code does that one might not expect. Each comes with a run that shows
it and with the exact condition under which it happens:

- A draft saved against a category request that is then decided cannot be
  published, even when the request was approved, until a category is chosen again
  (`ApprovedDraftStranded`, `PublishExactly`, `StrandedDraftStaysUnpublished`).
- `update_post` also reaches drafts, so a blank draft can be published through it
  (`BlankPostPublished`, `TitledExactly`).
- `delete_user` changes the address of an account and leaves both its verified
  flag and its verification tokens. An account verified before is verified under
  its tombstone address at once, and an unused token can still verify it later. A
  run keeps "verified means a token mailed to the present address was redeemed"
  exactly when each of its erasures finds neither, save for an account whose
  address already is that tombstone or that redeemed a token mailed to it
  (`ErasedStaysVerified`, `ErasedAccountVerifies`, `ErasureExactly`,
  `BoundExactly`).
- Purging messages and erasing an account leave media marked attached that
  nobody holds, and nothing ever frees them: in every run attached means held or
  stranded in one of these two ways (`PurgedMediumStranded`,
  `ErasedAvatarStranded`, `PurgeStrands`, `EraseStrands`, `AttachedExactly`).
- Hiding and restoring comments moves no counter, and an erased account's likes
  and shares stay counted (`HiddenStillCounted`, `RestoredNotCounted`,
  `CounterExactly`; `ErasedStillCounted`, `CountersExactly`).
- The fixed window in Redis lets up to 2 * limit - 1 requests into one window's
  length, and no more (`FixedBoundMet`, `FixedBound`).

## Model

| member | source | states |
|---|---|---|
| Keyset.PageExact | src/modules/posts/service.py:291-300 | a page is exactly the rows between its cursor and the next, and the next is null exactly when nothing is left |
| Keyset.WalkAscends | src/modules/posts/service.py:291-300 | all pages of a walk together are strictly in order, although the table changes between requests |
| Keyset.WalkMissesNothing | src/modules/posts/service.py:291-300 | a finished walk has every row that was there at each of its requests |
| Keyset.WalkInventsNothing | src/modules/posts/service.py:291-300 | a page holds only rows selected at its own request |
| Keyset.ExactlyOnce | src/modules/posts/service.py:291-300 | under arbitrary inserts and deletes, any limits and a deleted cursor row: each row at most once, and exactly once if it was there throughout |
| Keyset.NoIdTwice | src/modules/posts/service.py:291-300 | not even an id comes twice, given that a row keeps its timestamp |
| Keyset.StaticWalk | src/modules/posts/service.py:289-300 | over an unchanging table the concatenated pages equal the sorted rows, in both orders |
| Keyset.Remaining | src/modules/posts/service.py:298-300 | the rows beyond the next cursor are exactly `limit` fewer |
| Keyset.StaticWalkLength | src/modules/posts/service.py:298-300 | such a walk ends after exactly max(1, ceil(n / limit)) pages |
| Keyset.CeilDivRoundsUp | src/modules/posts/service.py:298-300 | the page count used there is n / limit rounded up |
| Feed.FollowIsWalk | src/modules/posts/service.py:293-299 | sending back cursor texts never fails and is the walk over keys |
| Feed.FollowSeesEachOnce | src/modules/posts/service.py:291-300 | the exactly-once property for any listing that signs its cursors |
| Feed.ScopeTextInjective | src/modules/posts/service.py:22-24 | two queries have the same scope text only if every filter and the sort agree |
| Feed.PostsSeenOnce | src/modules/posts/service.py:270-300 | a client following the post feed while posts come, go and change sees no post twice, none that did not match, and misses none that matched all along |
| Feed.PostsInOrder | src/modules/posts/service.py:270-300 | over an unchanged database the client gets the sorted matching posts, in max(1, ceil(n / limit)) pages |
| FeedEffects.PostsOrdered | src/modules/posts/service.py:289-300 | over any run, all pages of a walk together go by time and then id, down for "newest" and up for "oldest" |
| FeedEffects.PostsShown | src/modules/posts/service.py:271-289 | over an unchanged database a finished walk shows exactly the published, undeleted posts the viewer may see that fit every filter given |
| FeedEffects.PostErrors | src/modules/posts/service.py:280-295 | exactly which requests are refused, and with which error |
| FeedEffects.PostPages | src/modules/posts/service.py:298-300 | a page is never longer than the limit held between 1 and 100, and one that points on is exactly as long and points at its last row |
| FeedEffects.ScopeExactly | src/modules/posts/service.py:22-24 | the scope is the digest of these six fields under sorted names |
| FeedEffects.CommentsOrdered | src/modules/comments/service.py:94-112 | one level of comments goes by time and then id |
| FeedEffects.CommentsShown | src/modules/comments/service.py:94-112 | a finished walk shows exactly the comments of that post under that parent, tombstones included |
| FeedEffects.CommentErrors | src/modules/comments/service.py:94-112 | exactly which requests are refused, and how long a page is |
| FeedEffects.MessagesOrdered | src/modules/messaging/service.py:280-289 | a conversation goes by time and then id |
| FeedEffects.MessagesShown | src/modules/messaging/service.py:280-289 | a finished walk shows exactly the messages of that conversation |
| FeedEffects.MessageErrors | src/modules/messaging/service.py:280-289 | exactly which requests are refused, and how long a page is |
| Feed.OtherQueryRefused | src/modules/posts/service.py:292-294 | a cursor of one query is refused by a query with another filter or sort, unless SHA-256 collides on the two |
| Feed.CommentsSeenOnce | src/modules/comments/service.py:94-112 | the same for each level of a post's comments |
| Feed.MessagesSeenOnce | src/modules/messaging/service.py:280-289 | the same for a conversation's messages, the purge included |
| Cursor.RoundTrip | src/modules/posts/service.py:27-46 | a cursor decodes to its timestamp and id under the same resource and scope, and under any other it is refused |
| Cursor.AcceptedIsSigned | src/modules/posts/service.py:36-39 | whatever is accepted carries the server's signature of its own first part |
| Cursor.AcceptedWasIssued | src/modules/posts/service.py:34-46 | an accepted value whose first part was issued is that issued cursor, of this resource and scope, and yields its key |
| TextForms.AcceptedExactly | src/modules/posts/service.py:34-46 | of all signed objects exactly those are accepted that carry version 1, this resource and scope, and a readable time and id |
| TextForms.PayloadFields | src/modules/posts/service.py:28 | a cursor carries these five fields in this order |
| TextForms.FiveFieldsText | src/modules/posts/service.py:28-29 | such an object as text: in order, without spaces |
| Content.StepKeepsInv | src/modules/categories/service.py:35-70 | every operation keeps posts, requests and categories in agreement |
| Content.EveryRunAgrees | src/modules/categories/service.py:133-151 | in every run: published means an approved category; waiting means a pending request for that category; needing a change means no category and a rejected request; a category is pending exactly while it has one pending request, and never two |
| Content.ApprovedForever | src/modules/categories/service.py:133-151 | no run changes an approved category |
| Content.DecidedForever | src/modules/categories/service.py:133-151 | no run changes a decided request |
| Content.SelectOk | src/modules/categories/service.py:53-70 | a selection yields an approved category without a request, or a pending one with its own pending request |
| Content.CreateExactly | src/modules/posts/service.py:75-96 | when a post can be created, what is stored, and that the category's state alone decides whether it goes up or waits |
| Content.OnlyAuthorized | src/modules/posts/service.py:99-180 | no operation removes a post or changes its author; a post changes only by its author, a moderator's mark, or the decision it waits for |
| Content.BecomesPublished | src/modules/posts/service.py:75-221 | the only ways a post goes up, always under an approved category |
| Content.PublishNeverUnapproved | src/modules/posts/service.py:144-161 | the last branch of `publish_draft`, "no longer approved", is unreachable in every run |
| Content.PublishExactly | src/modules/posts/service.py:144-161 | exactly when publishing succeeds, what it stores, and when it is a conflict |
| Content.StrandedDraftStaysUnpublished | src/modules/posts/service.py:153-157 | a draft whose request was decided stays unpublished in every run that does not choose its category again |
| Content.ApprovedDraftStranded | src/modules/posts/service.py:144-161 | a three-step run from empty tables: the request is approved, its category too, and publishing the draft is a conflict |
| Content.ResolveSettles | src/modules/categories/service.py:133-151 | a decision moves exactly the posts waiting for it, all of them, to published or needing a change, and leaves none waiting |
| ContentEffects.ResolveEffect | src/modules/categories/service.py:133-151 | when a decision is accepted, and that request, category and waiting posts all follow it while nothing else moves |
| ContentEffects.ApprovedExactly | src/modules/categories/service.py:133-151 | in every run a category is approved if and only if it was seeded or a step of the run approved a request for it |
| ContentEffects.RequestEffect | src/modules/categories/service.py:35-50 | when a request is accepted, and the category and request rows it leaves |
| ContentEffects.SelectionExactly | src/modules/categories/service.py:53-70 | what each kind of selection chooses, and when it is refused |
| ContentEffects.CreateEffect | src/modules/posts/service.py:75-96 | when a post or draft is created, with which error it is refused, and the row stored |
| ContentEffects.UpdateDraftEffect | src/modules/posts/service.py:123-141 | who may update a draft, and which field gets which value |
| ContentEffects.UpdatePostEffect | src/modules/posts/service.py:202-221 | who may update a post, and which field gets which value |
| ContentEffects.PublishEffect | src/modules/posts/service.py:144-161 | every outcome of publishing, and that only the status changes |
| ContentEffects.DeletionEffects | src/modules/posts/service.py:164-168 | who may delete, hide and restore, and that only the mark changes |
| ContentEffects.StripExactly | src/modules/posts/service.py:75-80 | stripping takes white space off both ends and nothing else |
| ContentEffects.BlankExactly | src/modules/posts/service.py:145-148 | a text is blank if and only if it is white space throughout |
| ContentEffects.SpacesExactly | src/modules/posts/service.py:75-80 | which characters are white space |
| Content.TitledExactly | src/modules/posts/service.py:202-221 | a step lets a blank post up if and only if `update_post` is asked to choose a category and leaves a blank title or text blank |
| Content.BlankPostPublished | src/modules/posts/service.py:171-221 | a two-step run from a fresh database that publishes a blank post |
| Accounts.RunKeepsInv | src/modules/auth/service.py:52-163 | in every run accounts, sessions and both token tables agree: active exactly when not disabled, no live session for a disabled account, only the newest session of a login live, at most one unused token of each kind |
| Accounts.OneLivePerLogin | src/modules/auth/service.py:108-132 | in every run each login's chain of rotations has at most one live session |
| Accounts.LiveBounded | src/modules/auth/service.py:73-79 | a user's live sessions never exceed the user's logins |
| Accounts.LiveSessionsBounded | src/modules/auth/service.py:73-132 | over any run from empty tables: live sessions never exceed the successful logins and registrations of that run |
| Accounts.DeadForever | src/modules/auth/service.py:127-138 | `revoked_at` is never cleared: a session once not live is never live again |
| Accounts.RotateExactly | src/modules/auth/service.py:108-132 | exactly when a genuine refresh token is accepted, and that acceptance swaps the old session for one new live one of the same login |
| Accounts.TokenAcceptedOnce | src/modules/auth/service.py:108-132 | no refresh token is accepted twice, whatever happens in between |
| Accounts.ReplayCutsOff | src/modules/auth/service.py:108-132 | replaying any genuine, unexpired refresh token whose session was revoked, by rotation, logout, ban, reset or an earlier replay, leaves the user without a live session although the request fails; every other refused rotation changes nothing |
| Accounts.RotatedIsReplay | src/api/auth.py:102-114 | a token once accepted is such a replay at any later time, as long as it is unexpired and its row is there |
| Accounts.AccessExactly | src/modules/auth/dependencies.py:48-64 | in every run an access token works exactly when it is genuine, unexpired and names a live, unexpired session of its user, who is then active |
| Accounts.NothingRevives | src/modules/moderation/service.py:170-196 | once a user has no live session, no run (unban included) makes an earlier session's access token work again |
| Accounts.CutOff | src/modules/moderation/service.py:170-226 | ban, deletion, password reset and replay each leave the user without a live session |
| Accounts.CutOffForGood | src/modules/moderation/service.py:170-226 | so, in every run, no session opened before a ban, deletion, reset or replay is ever let in again by anything that follows |
| AccountEffects.LiveWasLetIn | src/modules/auth/service.py:64-79 | in every run the chain of a live session began with a registration of its user or a login of its user with a valid password |
| AccountEffects.LoginEffect | src/modules/auth/service.py:64-79 | a login succeeds if and only if the account is in use, the password valid and the session new; every other leaves the tables alone |
| AccountEffects.RegisterEffect | src/api/auth.py:44-60 | when a registration succeeds, and the account, token and session it leaves |
| AccountEffects.RotateEffect | src/modules/auth/service.py:108-132 | every outcome of a rotation, with its error and its rows |
| AccountEffects.LogoutEffect | src/modules/auth/service.py:135-138 | logging out revokes that session of that user alone, and no access token of it works in any run that follows |
| AccountEffects.RequestResetEffect | src/modules/auth/service.py:141-150 | for an account in use the new token is the one unused one, for any other nothing happens |
| AccountEffects.ResetPasswordEffect | src/modules/auth/service.py:153-163 | when a reset succeeds, and the password, token and sessions it leaves |
| AccountEffects.ResendEffect | src/api/auth.py:77-88 | who gets another verification token, and what becomes of older ones |
| AccountEffects.VerifyEffect | src/modules/auth/service.py:90-105 | when a token verifies, and the account and token it leaves |
| AccountEffects.ChangeEmailEffect | src/modules/users/service.py:36-47 | when an address changes, that it is then unverified, and that no older token stays unused |
| AccountEffects.ModerateEffect | src/modules/moderation/service.py:170-196 | who may moderate whom, and what each action leaves |
| AccountEffects.DeleteEffect | src/modules/moderation/service.py:199-226 | who may be erased, and exactly what goes, stays and changes |
| AccountEffects.ChangeRoleEffect | src/modules/moderation/service.py:229-239 | whose role may change to what |
| AccountEffects.AuthenticateEffect | src/modules/auth/dependencies.py:48-64 | which access tokens are let in, as whom, and with which error the others are refused |
| Accounts.ResetTokenOnce | src/modules/auth/service.py:141-163 | a reset token changes a password at most once, and never after a newer one was issued |
| Accounts.VerifiedMeansRedeemed | src/modules/auth/service.py:82-105 | in every run a verified account that was not erased redeemed a token mailed to its present address |
| Accounts.UnusedTokenFitsAddress | src/modules/users/service.py:36-47 | in every run an unused verification token was mailed to the present address, and there is at most one unused token of each kind per user |
| Accounts.ErasedAccountVerifies | src/modules/moderation/service.py:199-226 | one way it fails: a token unused at the erasure still verifies the erased account |
| Accounts.ErasedStaysVerified | src/modules/moderation/service.py:199-226 | the other way: a three-step run after which an erased account is verified under its tombstone address with no token left and none redeemed for it |
| Accounts.ErasureExactly | src/modules/moderation/service.py:199-226 | an erasure keeps the promise for all accounts if and only if the account is under the tombstone already, or has no unused token and is unverified or redeemed one mailed to the tombstone |
| Accounts.FreshErasureExactly | src/modules/moderation/service.py:199-226 | under an address nothing was mailed to: if and only if the account is unverified and has no unused token |
| Accounts.StepKeepsBound | src/modules/auth/service.py:82-105 | no step but an erasure can break the promise |
| Accounts.BoundExactly | src/modules/moderation/service.py:199-226 | a run from empty tables keeps the promise throughout, no account excepted, if and only if each of its erasures is harmless in that sense |
| MediaStore.RunKeepsInv | src/modules/media/service.py:24-112 | from any state in order, every run stays in order: every held medium is attached, not deleted, its holder's owner's, and held once; each owner is within both quotas; the stored objects are exactly the keys of kept rows |
| MediaStore.EveryRunAgrees | src/modules/media/service.py:24-112 | and so every run that starts from no media at all, for any users |
| MediaStore.DeletionSparesHeld | src/modules/media/service.py:97-112 | deletion and cleanup never touch a held medium or its object |
| MediaStore.ReferencedObjectsStored | src/modules/media/service.py:97-112 | in every run the object of every held medium is in the bucket |
| MediaStore.AttachedExactlyHeld | src/modules/media/service.py:78-94 | without purges and erasures, attached and held are the same in every run |
| MediaStore.AttachedExactly | src/modules/media/service.py:78-112 | in every run, purges and erasures included, a medium is attached if and only if it is held or was stranded by a purge or an erasure of the run, and never both |
| MediaStore.PurgeStrands | src/modules/messaging/service.py:369-375 | a purge strands exactly the media of the messages it removes |
| MediaStore.EraseStrands | src/modules/moderation/service.py:199-226 | an erasure strands exactly the user's avatar and cover |
| MediaStore.PurgedMediumStranded | src/modules/messaging/service.py:369-375 | a run from no media that ends with a stranded message medium |
| MediaStore.ErasedAvatarStranded | src/modules/moderation/service.py:216-217 | a run from no media that ends with a stranded avatar |
| MediaEffects.HeldForPurpose | src/modules/media/service.py:78-94 | in every run a medium is held only by the kind of holder it was uploaded for |
| MediaEffects.CleanupEffect | src/modules/media/service.py:105-112 | cleanup deletes exactly the unattached rows created before the time, with their objects; all else stays |
| MediaEffects.DeleteEffect | src/modules/media/service.py:71-102 | deletion is of one's own unattached medium, that row and its object alone |
| MediaEffects.UploadEffect | src/modules/media/service.py:24-50 | every outcome of an upload, with the size limits, the quota, the row and the object |
| MediaEffects.SetPostMediaEffect | src/modules/media/service.py:78-94 | which media a post can take, and that the old ones go free |
| MediaEffects.CreatePostEffect | src/modules/posts/service.py:75-84 | the same for a new post |
| MediaEffects.CreateMessageEffect | src/modules/messaging/service.py:323-332 | which media a message can take |
| MediaEffects.UpdateUserEffect | src/modules/users/service.py:48-75 | which pictures a user can take, that the old ones go free, and that both change or neither |
| MediaEffects.ForgettingEffects | src/modules/messaging/service.py:369-375 | purges and erasures take references and leave every medium and object |
| MediaStore.StrandedForever | src/modules/media/service.py:97-112 | a stranded medium stays so in every run: it is never attached, released or deleted again |
| MediaStore.UploadExactly | src/modules/media/service.py:24-50 | exactly when an upload is accepted, what it adds, and that a refused one changes no row |
| MediaStore.UploadUsage | src/modules/media/service.py:35-40 | an upload adds its size and one file to its owner's usage and nothing to anyone else's |
| MediaStore.FailedUploadExactly | src/modules/media/service.py:41-50 | a failed insert leaves the bucket right if and only if the drawn key was not that of a kept row |
| Comments.RunKeepsForest | src/modules/comments/service.py:46-57 | in every run a parent is an earlier comment of the same post |
| Comments.NoCycles | src/modules/comments/service.py:46-57 | in every run no comment is its own ancestor, and all ancestors are on its post |
| Comments.GapIsDrift | src/modules/moderation/service.py:263-292 | a post's counter less its live comments changes by exactly the effective hides, less the effective restores, plus the deletions stopped at zero |
| Comments.CounterExactly | src/modules/moderation/service.py:263-292 | in every run a counter is its live comments if and only if hides, restores and stopped deletions cancel out |
| Comments.HiddenStillCounted | src/modules/moderation/service.py:263-271 | a run that leaves the counter above the live comments |
| Comments.RestoredNotCounted | src/modules/posts/service.py:183-190 | a run that leaves it below, after which the zero guard stops a decrement |
| Comments.CounterExact | src/modules/posts/service.py:183-190 | without moderation every counter equals its live comments in every run, and the zero guard never acts |
| Comments.RepliesAddUp | src/modules/comments/service.py:85-91 | a post's live comments are its live roots plus the reply counts of all its comments, tombstones included |
| Comments.CounterAddsUp | src/modules/comments/service.py:46-91 | so without moderation the counter adds up level by level in every run |
| CommentEffects.CreateEffect | src/modules/comments/service.py:46-57 | when a comment is created, that it is stored with the given post, author and parent, live, and counted |
| CommentEffects.CreateCounts | src/modules/comments/service.py:46-57 | a reply adds one to its parent's reply count and to no other, a root adds itself to the live roots |
| CommentEffects.CountsExactly | src/modules/comments/service.py:85-91 | which comments a reply count and the live roots are |
| CommentEffects.DeleteEffect | src/modules/comments/service.py:78-82 | only the author deletes a live comment; the mark and the counter that change |
| CommentEffects.ModerationEffects | src/modules/moderation/service.py:263-292 | hiding and restoring change the mark alone |
| CommentEffects.CounterExactly | src/modules/posts/service.py:183-199 | the counter moves by the delta unless a decrement finds it at zero |
| CommentTree.LastVersionWins | src/frontend/src/lib/commentTree.js:1-5 | a merged list holds a row if and only if it is the last with its id |
| CommentTree.FirstPlaceKept | src/frontend/src/lib/commentTree.js:1-5 | ids keep the order in which they first appeared |
| CommentTree.SameIds | src/frontend/src/lib/commentTree.js:1-5 | merging neither loses nor invents an id |
| CommentTree.MergedUnique | src/frontend/src/lib/commentTree.js:1-5 | every id is there once |
| CommentTree.ThreadCount | src/frontend/src/pages/PostPage.jsx:57-58 | walking the groups down from a comment shows each comment below it once, exactly when everything in between is loaded and expanded |
| CommentTree.ShownExactlyOnce | src/frontend/src/pages/PostPage.jsx:57-58 | whatever is loaded and expanded, the page shows a comment once if all its ancestors are open, and otherwise not at all |
| CommentTree.AllShown | src/frontend/src/pages/PostPage.jsx:247-260 | with everything open it shows exactly the list |
| CommentTree.ThreadInOrder | src/frontend/src/pages/PostPage.jsx:57-58 | siblings are shown in list order, each followed at once by what is below it |
| CommentTree.ChildrenExactly | src/frontend/src/lib/commentTree.js:7-13 | the group of a parent is the rows that name it |
| CommentTree.ChildrenInOrder | src/frontend/src/lib/commentTree.js:7-13 | and keeps the list's order |
| CommentTree.PostShownExactlyOnce | src/frontend/src/pages/PostPage.jsx:247-260 | both hold for the list of a post's comments after any run of the server |
| Interactions.Conservation | src/modules/interactions/service.py:20-58 | in every run the like and share counters equal their rows plus the rows erasures took |
| Interactions.CountersExactly | src/modules/moderation/service.py:208-210 | in every run a counter is its rows if and only if no erasure took one |
| Interactions.ErasedStillCounted | src/modules/moderation/service.py:208-210 | a run that leaves a like and a share counted without a row |
| Interactions.RunSurplus | src/modules/moderation/service.py:208-210 | from any covered state a counter's surplus over its rows grows by exactly the rows erased |
| Interactions.RemoveSurplus | src/modules/posts/service.py:183-190 | the guard `field > 0` never holds back an unlike |
| Interactions.Idempotent | src/modules/interactions/service.py:20-58 | in every run repeating a like, unlike or share changes nothing, and unlike undoes like |
| Interactions.LikeUnlike | src/modules/interactions/service.py:20-42 | like then unlike, and unlike then like, restore rows and counter |
| InteractionEffects.LikeEffect | src/modules/interactions/service.py:20-35 | when a like adds its row and counts |
| InteractionEffects.UnlikeEffect | src/modules/interactions/service.py:38-42 | when an unlike takes its row and counts |
| InteractionEffects.ShareEffect | src/modules/interactions/service.py:45-58 | when a share adds its row and counts |
| InteractionEffects.EraseEffect | src/modules/moderation/service.py:208-210 | an erasure takes all rows of one user and no counter |
| Messaging.KeySymmetric | src/modules/messaging/service.py:36-37 | the key of a pair does not depend on who asks |
| Messaging.KeyInjective | src/modules/messaging/service.py:36-37 | two keys are equal if and only if the unordered pairs are |
| Messaging.RunKeepsInv | src/modules/messaging/service.py:147-224 | in every run direct conversations have their key's two members and unique keys, groups are led by their creator alone, and markers point into their own conversation |
| Messaging.AtMostOneDirect | src/modules/messaging/service.py:147-164 | in every run a pair of users has at most one direct conversation |
| Messaging.ConversationForever | src/modules/messaging/service.py:187-224 | no run removes a conversation, changes its kind, or changes the two members of a direct one |
| Messaging.FoundAgain | src/modules/messaging/service.py:147-164 | after any run either user gets the same direct conversation again, and no second is made |
| Messaging.MembershipChanges | src/modules/messaging/service.py:187-224 | a group gains members only by its creator, and loses one only by its creator or by that member, never the creator |
| Messaging.CreatorLeads | src/modules/messaging/service.py:167-224 | in every run a group still has its creator, its one admin |
| Messaging.UnreadExact | src/modules/messaging/service.py:227-262 | in a direct conversation the unread messages are exactly the other's live messages that `_read_by_recipient` calls unread |
| Messaging.UnreadInEveryRun | src/modules/messaging/service.py:227-262 | so in every run, purges included |
| Messaging.PurgeUnread | src/modules/messaging/service.py:369-375 | a purge that takes the marked message makes all of the others' live messages unread; any other purge changes nothing |
| Messaging.MarkUnread | src/modules/messaging/service.py:336-342 | marking leaves unread exactly the live messages of others that are later than the marked one, by time and then id |
| Messaging.SendUnread | src/modules/messaging/service.py:313-333 | a new message adds itself to what the others have unread, unless their marker is later, and nothing for its sender |
| Messaging.TombstoneUnread | src/modules/messaging/service.py:363-366 | deleting or hiding a message takes it alone out of what is unread |
| Messaging.PurgeProgress | src/modules/messaging/service.py:369-375 | a purge takes its batch out of what is left, all of it if and only if one batch is enough |
| Messaging.BatchUnique | src/modules/messaging/service.py:369-371 | there is only one batch the query can select |
| Messaging.PurgesRemaining | src/modules/messaging/service.py:369-375 | after k purges the n messages deleted before the time are gone if and only if n <= k * size, otherwise n - k * size are left, and no other message goes |
| Messaging.BlockedSilent | src/modules/messaging/policy.py:17-26 | while either of two users blocks the other, no run adds a message to their direct conversation |
| MessagingEffects.SentStaysUnread | src/modules/messaging/service.py:257-262 | a message sent later than all before it is unread for every other member, and stays so through every run in which that member marks neither it nor a later one |
| MessagingEffects.UnreadByTime | src/modules/messaging/service.py:257-262 | unread are exactly the live messages of others later than the marked one, by time and then id |
| MessagingEffects.ReadByTime | src/modules/messaging/service.py:227-232 | read by a member is exactly what its marker is on or later than |
| MessagingEffects.MarkReads | src/modules/messaging/service.py:336-342 | marking a message reads exactly it and everything before it |
| MessagingEffects.RecipientsExactly | src/modules/messaging/service.py:228 | whose marker the flag can ask for |
| MessagingEffects.UuidOrder | src/modules/messaging/service.py:37 | the texts of two UUIDs sort as the UUIDs do |
| MessagingEffects.KeyText | src/modules/messaging/service.py:36-37 | so the key is the smaller id's text, a colon, and the larger one's |
| MessagingEffects.ObstacleExactly | src/modules/messaging/policy.py:17-26 | the reasons against writing to somebody, in order |
| MessagingEffects.DirectEffect | src/modules/messaging/service.py:147-164 | a direct conversation is made if and only if nothing stands against it and the two have none |
| MessagingEffects.GroupEffect | src/modules/messaging/service.py:167-184 | when a group is made, and its rows |
| MessagingEffects.AddEffect | src/modules/messaging/service.py:187-207 | who adds whom, with every error, and the one row added |
| MessagingEffects.RemoveEffect | src/modules/messaging/service.py:210-224 | who removes whom, with every error, and the one row that goes |
| MessagingEffects.SendEffect | src/modules/messaging/service.py:313-333 | when a message is stored, and as what |
| MessagingEffects.MarkEffect | src/modules/messaging/service.py:336-342 | when a marker moves, and that nothing else does |
| MessagingEffects.DeletionEffects | src/modules/messaging/service.py:363-366 | whose message deleting and hiding mark |
| MessagingEffects.PurgeEffect | src/modules/messaging/service.py:369-375 | what a purge takes, and that it leaves everything else |
| MessagingEffects.BatchExactly | src/modules/messaging/service.py:370 | the batch is of messages deleted before the time, as many as fit, the longest deleted first |
| MessagingEffects.BlockEffects | src/modules/messaging/service.py:378-390 | blocking and unblocking change that one pair |
| RateLimit.DequeExact | src/core/rate_limit.py:24-31 | with a clock that does not run backwards a key's deque is exactly its accepted hits of the last window, in order |
| RateLimit.DecisionExact | src/core/rate_limit.py:26-31 | a call is let through if and only if fewer than `limit` hits were accepted in (now - window, now] |
| RateLimit.SlidingBound | src/core/rate_limit.py:24-31 | under one limit no interval of the window's length, wherever it lies, holds more than `limit` accepted hits |
| RateLimit.KeysIndependent | src/core/rate_limit.py:18-31 | a key's deque is what its own calls alone make of it |
| RateLimit.FixedRunKeepsInv | src/core/rate_limit.py:33-43 | windows never overlap, every accepted request lies in its window, and no window accepts more than `limit` |
| RateLimit.FixedBound | src/core/rate_limit.py:33-43 | no half-open interval of the window's length ever holds more than 2 * limit - 1 accepted requests |
| RateLimit.FixedBoundMet | src/core/rate_limit.py:33-43 | for every limit and window some orderly run reaches 2 * limit - 1, so the bound is exact |
| RateLimit.ZeroAcceptsNothing | src/core/rate_limit.py:42-43 | with a limit of zero nothing is let through |
| RateLimit.CountersIndependent | src/core/rate_limit.py:33-43 | a key's counter is what its own requests alone make of it |
| RealtimeHub.RegisteredExactly | src/core/realtime.py:18-30 | in every run a socket is registered if and only if it was last connected, and no user is kept without sockets |
| RealtimeHub.Canonical | src/core/realtime.py:22-30 | without empty entries the map is determined by the sockets of each user |
| RealtimeBridge.InflowExact | src/core/realtime.py:77-101 | as long as a process listens without a fault, what its hub was given from others and what still waits is exactly what the others put on the channel since, each once and in order |
| RealtimeBridge.DeliveredOrWaiting | src/core/realtime.py:77-101 | an event that went out while a process listened is delivered to it or waiting for it, one in all, until a fault |
| RealtimeBridge.DeliveredAtMostOnce | src/core/realtime.py:77-101 | with distinct ids, in every run with any faults: each event reaches each hub at most once, and its publisher's own hub exactly once, so never as an echo |
| RealtimeBridge.ReachesExactly | src/core/realtime.py:94-96 | an event reaches a listening process if and only if the two ids differ |
| RealtimeBridge.RunKeepsInv | src/core/realtime.py:53-101 | what each hub was given stays genuine and in publishing order in every run |
| RealtimeEffects.StartCloseEffect | src/core/realtime.py:53-75 | what a start and a close leave of a process |
| RealtimeEffects.PublishEffect | src/core/realtime.py:77-85 | what a publish leaves of every process and the channel |
| RealtimeEffects.ListenEffect | src/core/realtime.py:87-101 | what receiving and failing leave of a process |
| RealtimeBridge.DrainsForeign | src/core/realtime.py:94-96 | without faults that is exactly everything from other processes |
| MediaService.FoundAll | src/modules/media/service.py:80-83 | finding as many usable rows as ids means: all usable and none repeated |
| Base64Url.StripEncode | src/modules/posts/service.py:29-40 | `-len % 4` restores exactly the padding that was stripped, and what is left holds neither `.` nor `=` (sections 3.2 and 5 of RFC 4648) |
| Base64Url.RoundTrip | src/modules/posts/service.py:29-40 | unpadded base64url decodes to the bytes it came from, for every length |
| TextForms.AlphabetExactly | src/modules/posts/service.py:29 | the alphabet is that of RFC 4648, section 5 |
| TextForms.GroupBits | src/modules/posts/service.py:29 | four symbols hold the 24 bits of three bytes, the first byte highest |
| TextForms.EncodeForm | src/modules/posts/service.py:29 | the text by the number of bytes left over |
| TextForms.Fooba | src/modules/posts/service.py:29 | a test vector of RFC 4648, section 10 |
| Json.RoundTrip | src/modules/posts/service.py:28-40 | reading a dumped object gives back its fields, whatever characters their text holds (escapes and surrogate pairs included) |
| Json.DumpsIsAscii | src/modules/posts/service.py:28-29 | a dumped object is ASCII, so encoding it to bytes loses nothing |
| TextForms.PlainText | src/modules/posts/service.py:28-29 | plain text is written as it is, between quotes |
| TextForms.EscapesExactly | src/modules/posts/service.py:28-29 | the short escapes |
| TextForms.UnitsExactly | src/modules/posts/service.py:28-29 | everything else as UTF-16 units |
| Text.UuidRoundTrip | src/modules/posts/service.py:28-43 | the text of a UUID reads back as that UUID |
| Text.IsoRoundTrip | src/modules/posts/service.py:28-43 | the text of a timestamp reads back as that timestamp |
| TextForms.UuidForm | src/modules/posts/service.py:28 | a UUID is 8-4-4-4-12 lower-case hexadecimal digits, which are its number |
| TextForms.IsoForm | src/modules/posts/service.py:28 | a timestamp is date, T, time, the microseconds unless zero, and the offset |
| Content.ContentService.constructor | src/modules/categories/service.py:30-32 | a deployment starts from its seeded categories, in agreement |
| Content.ContentService.CreateCategoryRequest | src/modules/categories/service.py:35-50 | the method commits the specified request, putting a rejected category of the same name up again, or fails and changes nothing |
| Content.ContentService.ResolveCategorySelection | src/modules/categories/service.py:53-70 | the method returns the selected category and request, or the specified error |
| Content.ContentService.ResolveCategoryRequest | src/modules/categories/service.py:133-151 | the method commits the specified decision over all three tables, and keeps the agreement |
| Content.ContentService.CreatePost | src/modules/posts/service.py:75-96 | the method stores the specified post or draft, and keeps the agreement |
| Content.ContentService.UpdateDraftPost | src/modules/posts/service.py:123-141 | the method commits the specified change of a draft, and keeps the agreement |
| Content.ContentService.UpdatePublishedPost | src/modules/posts/service.py:202-221 | the method commits the specified change of a post, and keeps the agreement |
| Content.ContentService.Publish | src/modules/posts/service.py:144-161 | the method publishes or queues as specified, and keeps the agreement |
| AccountService.Service.CreateSession | src/modules/auth/service.py:73-79 | the method adds the specified session and nothing else |
| AccountService.Service.CreateEmailVerification | src/modules/auth/service.py:82-87 | the method burns the user's unused tokens and adds the one specified |
| AccountService.Service.InsertAccount | src/api/auth.py:44-60 | registration's three inserts succeed together or not at all |
| AccountService.Service.RegisterAccount | src/modules/auth/service.py:52-61 | registration is the specified step and keeps the invariant |
| AccountService.Service.LoginAccount | src/modules/auth/service.py:64-79 | login is the specified step and keeps the invariant |
| AccountService.Service.RotateSession | src/modules/auth/service.py:108-132 | rotation is the specified step; on success the new session is live, and a replay leaves the user without one although it fails |
| AccountService.Service.RevokeSession | src/modules/auth/service.py:135-138 | logout revokes that session of that user alone |
| AccountService.Service.CreatePasswordReset | src/modules/auth/service.py:141-150 | a token is issued exactly for an enabled account, and older ones are burned |
| AccountService.Service.ConfirmReset | src/modules/auth/service.py:153-163 | a reset is the specified step and leaves the user without a live session |
| AccountService.Service.Verify | src/modules/auth/service.py:90-105 | verification is the specified step and keeps the invariant |
| AccountService.Service.UpdateEmail | src/modules/users/service.py:36-47 | a new address takes verification away and burns the user's tokens |
| AccountService.Service.ModerateUser | src/modules/moderation/service.py:170-196 | moderation is the specified step, and a ban leaves the user without a live session |
| AccountService.Service.EraseUser | src/modules/moderation/service.py:199-226 | erasure is the specified step, leaves no live session, and keeps the e-mail promise exactly when harmless |
| MediaService.Service.UsageOf | src/modules/media/service.py:35-40 | the three aggregates are the sum and counts over the owner's kept rows |
| MediaService.Service.constructor | src/modules/media/service.py:24-50 | the service starts with no media, in order |
| MediaService.Service.Upload | src/modules/media/service.py:24-50 | upload is the specified step and keeps the invariant |
| MediaService.Service.UploadRow | src/modules/media/service.py:41-50 | the object is written, then taken back when the row is refused |
| MediaService.Service.Release | src/modules/media/service.py:86-88 | the loop releases exactly the given media |
| MediaService.Service.Attach | src/modules/media/service.py:92-94 | the loop attaches exactly the given media |
| MediaService.Service.ReplaceMedia | src/modules/media/service.py:78-94 | replacing a post's media is the specified step and keeps the invariant |
| MediaService.Service.AddMessage | src/modules/messaging/service.py:313-333 | attaching media to a message is the specified step and keeps the invariant |
| MediaService.Service.DeleteOwned | src/modules/media/service.py:97-102 | deletion takes an unattached medium of the owner and its object, and nothing else |
| MediaService.Service.CleanupOrphans | src/modules/media/service.py:105-112 | cleanup is the specified step, and counts the unattached rows created before the time |
| MediaService.Service.RemoveRows | src/modules/media/service.py:107-111 | the loop deletes each row with its object |
| MediaService.Service.ChangePicture | src/modules/users/service.py:48-75 | changing one picture is the specified step and keeps the invariant |
| MediaService.Service.UpdatePictures | src/modules/users/service.py:29-75 | avatar, cover and the rest change together or not at all |
| Comments.CommentService.CreateComment | src/modules/comments/service.py:46-57 | the method adds the specified comment and one to its post's counter, or changes nothing |
| Comments.CommentService.DeleteComment | src/modules/comments/service.py:78-82 | the method marks the comment and takes one off the counter, as specified |
| Comments.CommentService.HideComment | src/modules/moderation/service.py:263-271 | the method marks the comment and leaves the counters |
| Comments.CommentService.RestoreComment | src/modules/moderation/service.py:285-292 | the method clears the mark and leaves the counters |
| CommentTree.MergeComments | src/frontend/src/lib/commentTree.js:1-5 | merging is the ordered map of both lists, with unique ids |
| CommentTree.GroupComments | src/frontend/src/lib/commentTree.js:7-13 | each group holds the comments of one parent in list order, and there are no empty groups |
| Interactions.InteractionService.Like | src/modules/interactions/service.py:20-35 | the method is the specified like and returns the new count |
| Interactions.InteractionService.Unlike | src/modules/interactions/service.py:38-42 | the method is the specified unlike |
| Interactions.InteractionService.RecordShare | src/modules/interactions/service.py:45-58 | the method is the specified share, counted once per user and post |
| Interactions.InteractionService.EraseUser | src/modules/moderation/service.py:208-210 | erasure takes the user's rows and leaves the counters |
| Messaging.MessagingService.GetOrCreateDirect | src/modules/messaging/service.py:147-164 | the method returns a direct conversation of exactly these two, new or found, or the first obstacle |
| Messaging.MessagingService.CreateGroup | src/modules/messaging/service.py:167-184 | a group is made exactly when everyone named can be reached, with exactly them and the creator |
| Messaging.MessagingService.AddMember | src/modules/messaging/service.py:187-207 | adding is the specified step, with the specified error |
| Messaging.MessagingService.RemoveMember | src/modules/messaging/service.py:210-224 | removing is the specified step, with the specified error |
| Messaging.MessagingService.CreateMessage | src/modules/messaging/service.py:313-333 | a message is stored exactly when every other member can be reached and it is valid |
| Messaging.MessagingService.MarkAsRead | src/modules/messaging/service.py:336-342 | the marker moves to a message of the same conversation, or nothing changes |
| Messaging.MessagingService.DeleteMessage | src/modules/messaging/service.py:363-366 | only the sender's own live message is marked deleted |
| Messaging.MessagingService.HideMessage | src/modules/moderation/service.py:274-282 | hiding marks a live message and leaves an earlier mark |
| Messaging.MessagingService.PurgeDeleted | src/modules/messaging/service.py:369-375 | the method selects the longest deleted messages up to the batch size, removes them, makes markers on them null, and counts them |
| Messaging.SelectBatch | src/modules/messaging/service.py:370 | the longest deleted first, ties by id, as many as the batch size allows |
| Messaging.MessagingService.BlockUser | src/modules/messaging/service.py:378-386 | a block is stored at most once, with the specified errors |
| Messaging.MessagingService.UnblockUser | src/modules/messaging/service.py:389-390 | the one block is taken away |
| Messaging.MessagingService.UnreadCount | src/modules/messaging/service.py:250-262 | the count is that of the unread messages, and in a direct conversation of those not shown as read |
| Messaging.MessagingService.ReadByRecipient | src/modules/messaging/service.py:227-232 | the flag answers for some other member; with one other member, for that one |
| Messaging.FirstObstacle | src/modules/messaging/service.py:178-179 | asking each target in turn finds an obstacle exactly when someone cannot be reached |
| RateLimit.RateLimiter.CheckLocal | src/core/rate_limit.py:24-31 | the loop of pops and the append are the specified hit, for that key alone |
| RateLimit.RateLimiter.CheckRedis | src/core/rate_limit.py:33-47 | the counter is the specified one, also for a refused request; without Redis nothing is let through |
| RealtimeHub.Hub.Disconnect | src/core/realtime.py:22-30 | the socket leaves, and the last one takes the entry with it |
| RealtimeHub.Hub.Publish | src/core/realtime.py:32-40 | every socket of the user is sent the event; exactly the failing ones leave, and no other user is touched |
| RealtimeBridge.Bridge.Publish | src/core/realtime.py:77-85 | the own hub comes first, and the event goes out if and only if there is a client and Redis is up |
| RealtimeBridge.Bridge.Drain | src/core/realtime.py:87-101 | the loop delivers, in order, everything waiting except echoes and what raised |

## Left out

- The index-slice branches for databases other than PostgreSQL: their pages do not agree with the keyset pages beyond the first ones.
- Walks over drafts and conversations: they sort on a column that changes, so exactly-once does not hold by design.
- Cryptography: token signatures, SHA-256, HMAC and password hashing are parameters; where a statement needs two digests to differ it says so.
- Races between unlocked reads of different transactions: every service call is one step. So also the retry of `get_or_create_direct` after a concurrent insert.
- HTTP routes, cookies, middleware, e-mail, the S3 client, image optimisation, full-text search, push, migrations and settings.
- Request schema limits, role checks outside moderation, the audit log, tags, bookmarks, reports and the admin listings.
- Reading documents the server never writes: other JSON, foreign characters in base64, other spellings of UUIDs and times. None of them gets past the signature.
- Freshness of drawn values: uuid4 and token draws that repeat are refused by the specification, and the service methods require them not to repeat; storage keys are assumed fresh over a run.
- AccountService.Service: usernames and password changes through `update_user` are not part of the tables.
- Posts from before migration 0009 without a category: runs start with approved categories and no posts.
- RateLimit.FixedBound: INCR and EXPIRE are one step; a process that dies between them leaves a counter that never expires.
- RateLimit.RateLimiter: times are reals, so rounding of floating-point clocks is not modelled.
- RealtimeBridge.Bridge: the processes together, and the channel between them, are modelled on values; the class is one process with its hub reduced to the list of events given to it. A lost Redis connection is a fault that loses the message in hand.
- RealtimeHub.Hub.Publish: one step; what other connects and disconnects may fall between its sends is covered by `RegisteredExactly`, which takes steps in any order.
- MediaService.Service: a commit that fails after objects were deleted, and media failures inside post creation beyond their rollback.
- Modification times of rows, mute times of conversations, devices and envelope contents; whether an envelope is valid is a parameter.
- The status `pending` of media: no code path sets it, so the pending limit decides only when it is zero.
