/**
 What the listings show, told by rows, times and ids alone: which rows, in which
 order, how many to a page, and which requests are refused.
 */
module FeedEffects {
  import opened Wrappers
  import opened Text
  import opened Cursor
  import opened Keyset
  import opened Feed
  import Json

  /* ---- the part all listings share ---- */

  lemma FollowOrdered(list: Listing, sign: Sign, resource: string, scope: string, o: Order, rows: seq<set<Key>>, limits: seq<int>)
    requires Serves(list, sign, resource, scope, o, rows, limits)
    ensures var r := Follow(list, 0, |rows|, None); r.Ok? && Ascending(o, Concat(r.value.pages))
  {
    FollowIsWalk(list, sign, resource, scope, o, rows, limits, 0, None);
    assert Requests(rows, limits)[0..] == Requests(rows, limits);
    WalkAscends(o, Requests(rows, limits), None);
  }

  lemma FollowShows(list: Listing, sign: Sign, resource: string, scope: string, o: Order, rows: seq<set<Key>>, limits: seq<int>, all: set<Key>)
    requires Serves(list, sign, resource, scope, o, rows, limits) && forall i :: 0 <= i < |rows| ==> rows[i] == all
    ensures var r := Follow(list, 0, |rows|, None); r.Ok? && (r.value.complete ==> forall k :: k in Concat(r.value.pages) <==> k in all)
  {
    FollowIsWalk(list, sign, resource, scope, o, rows, limits, 0, None);
    var reqs := Requests(rows, limits);
    assert reqs[0..] == reqs;
    if Walk(o, reqs, None).complete {
      StaticWalk(o, reqs, all, None);
      assert After(o, all, None) == all;
    }
  }

  /** A limit is held between 1 and 100. */
  function Held(limit: int): nat { if limit < 1 then 1 else if 100 < limit then 100 else limit }

  lemma ServeSizes(sign: Sign, resource: string, scope: string, o: Order, rows: set<Key>, cursor: Option<string>, limit: int)
    ensures var r := Serve(sign, resource, scope, o, rows, cursor, limit);
      && (r.Err? <==> cursor.Some? && cursor.value != "" && Decode(sign, resource, scope, cursor.value).None?)
      && (r.Err? ==> r.error == InvalidCursor)
      && (r.Ok? ==>
            && |r.value.items| <= Held(limit)
            && (r.value.nextCursor.Some? ==>
                  && |r.value.items| == Held(limit)
                  && r.value.nextCursor == Some(Encode(sign, resource, scope, r.value.items[Held(limit) - 1]))))
  {
    assert Clamp(limit) == Held(limit);
    if Given(cursor) {
      PageSizes(o, rows, Decode(sign, resource, scope, cursor.value), Held(limit));
    } else {
      PageSizes(o, rows, None, Held(limit));
    }
  }

  lemma PageSizes(o: Order, rows: set<Key>, cursor: Option<Key>, limit: nat)
    requires limit >= 1
    ensures var p := PageOf(o, rows, cursor, limit);
      |p.items| <= limit && (p.next.Some? ==> |p.items| == limit && p.next == Some(p.items[limit - 1]))
  {
  }

  /** `a` is listed before `b` when newest come first. */
  predicate NewerFirst(a: Key, b: Key) { b.at < a.at || (b.at == a.at && b.id < a.id) }
  predicate OlderFirst(a: Key, b: Key) { a.at < b.at || (a.at == b.at && a.id < b.id) }

  lemma BeforeExactly(a: Key, b: Key)
    ensures Before(Newest, a, b) <==> NewerFirst(a, b)
    ensures Before(Oldest, a, b) <==> OlderFirst(a, b)
  {
  }

  lemma AscendingExactly(o: Order, all: seq<Key>)
    requires Ascending(o, all)
    ensures forall i, j :: 0 <= i < j < |all| ==> if o.Newest? then NewerFirst(all[i], all[j]) else OlderFirst(all[i], all[j])
  {
    forall i, j | 0 <= i < j < |all| ensures if o.Newest? then NewerFirst(all[i], all[j]) else OlderFirst(all[i], all[j]) {
      BeforeExactly(all[i], all[j]);
    }
  }

  /* ---- posts ---- */

  /** A request that names a known sort, and a known field if it searches. */
  predicate Understood(q: Query) {
    && (q.sort == "newest" || q.sort == "oldest")
    && (q.text.Some? && q.text.value != "" ==> q.searchIn == "all" || q.searchIn == "title" || q.searchIn == "content")
  }

  function SortOrder(q: Query): Order { if q.sort == "newest" then Newest else Oldest }

  lemma PostServes(s: Services, run: seq<Moment>, q: Query)
    requires Understood(q)
    ensures Serves(PostListing(s, run, q), s.sign, "posts", s.digest(ScopeText(q)), SortOrder(q), PostRows(s, run, q), Limits(run))
  {
    assert Acceptable(q) && OrderOf(q) == SortOrder(q);
  }

  lemma PostsAscend(s: Services, run: seq<Moment>, q: Query)
    requires Understood(q)
    ensures var r := Follow(PostListing(s, run, q), 0, |run|, None);
      r.Ok? && Ascending(SortOrder(q), Concat(r.value.pages))
  {
    PostServes(s, run, q);
    FollowOrdered(PostListing(s, run, q), s.sign, "posts", s.digest(ScopeText(q)), SortOrder(q), PostRows(s, run, q), Limits(run));
  }

  /** Whatever changes meanwhile: all the pages of a walk together run from newest to oldest, or the other way, by time and then by id. */
  lemma PostsOrdered(s: Services, run: seq<Moment>, q: Query)
    requires Understood(q)
    ensures var r := Follow(PostListing(s, run, q), 0, |run|, None);
      && r.Ok?
      && var all := Concat(r.value.pages);
         forall i, j :: 0 <= i < j < |all| ==>
           && (q.sort == "newest" ==> all[j].at < all[i].at || (all[j].at == all[i].at && all[j].id < all[i].id))
           && (q.sort == "oldest" ==> all[i].at < all[j].at || (all[i].at == all[j].at && all[i].id < all[j].id))
  {
    PostsAscend(s, run, q);
    AscendingExactly(SortOrder(q), Concat(Follow(PostListing(s, run, q), 0, |run|, None).value.pages));
  }

  /** Which posts a query is about. */
  predicate Wanted(s: Services, db: Database, q: Query, id: Uuid) {
    && id in db.posts
    && var p := db.posts[id];
       && p.published && !p.deleted && p.author in db.authors
       && (db.authors[p.author].postsPublic || q.viewer == Some(p.author))
       && (q.author.Some? && q.author.value != "" ==> db.authors[p.author].username == s.casefold(q.author.value))
       && (q.category.Some? && q.category.value != "" ==> p.category == q.category)
       && (q.tag.Some? && q.tag.value != "" ==> s.casefold(q.tag.value) in p.tags)
       && (q.text.Some? && q.text.value != "" ==> s.found(p, q.text.value, q.searchIn))
  }

  lemma MatchingExactly(s: Services, db: Database, q: Query, k: Key)
    ensures k in Matching(s, db, q) <==> Wanted(s, db, q, k.id) && k.at == db.posts[k.id].createdAt
  {
  }

  lemma FirstAnswered(s: Services, run: seq<Moment>, q: Query)
    requires run != [] && Follow(PostListing(s, run, q), 0, |run|, None).Ok?
    ensures Understood(q)
  {
    PostErrors(s, run[0].db, q, None, run[0].limit);
    assert PostListing(s, run, q)(0, None) == ListPosts(s, run[0].db, q, None, run[0].limit);
  }

  /** Over an unchanged database a finished walk shows exactly the posts the query is about. */
  lemma PostsShown(s: Services, db: Database, q: Query, limit: int, requests: nat, k: Key)
    requires requests > 0
    requires var r := Follow(PostListing(s, seq(requests, i => Moment(db, limit)), q), 0, requests, None); r.Ok? && r.value.complete
    ensures var r := Follow(PostListing(s, seq(requests, i => Moment(db, limit)), q), 0, requests, None);
      k in Concat(r.value.pages) <==> Wanted(s, db, q, k.id) && k.at == db.posts[k.id].createdAt
  {
    var run := seq(requests, i => Moment(db, limit));
    assert Understood(q) by { FirstAnswered(s, run, q); }
    PostServes(s, run, q);
    FollowShows(PostListing(s, run, q), s.sign, "posts", s.digest(ScopeText(q)), SortOrder(q), PostRows(s, run, q), Limits(run), Matching(s, db, q));
    MatchingExactly(s, db, q, k);
  }

  /** Which requests are refused, and why. */
  lemma PostErrors(s: Services, db: Database, q: Query, cursor: Option<string>, limit: int)
    ensures var r := ListPosts(s, db, q, cursor, limit);
      && (r == Err(ValidationError) <==> !Understood(q))
      && (r == Err(InvalidCursor) <==>
            Understood(q) && cursor.Some? && cursor.value != "" && Decode(s.sign, "posts", s.digest(ScopeText(q)), cursor.value).None?)
      && r != Err(NotFound)
  {
  }

  /** No page is longer than the limit, and one that points on is exactly as long, and points at its last row. */
  lemma PostPages(s: Services, db: Database, q: Query, cursor: Option<string>, limit: int)
    ensures var r := ListPosts(s, db, q, cursor, limit);
      r.Ok? ==>
        && |r.value.items| <= Held(limit)
        && (r.value.nextCursor.Some? ==>
              && |r.value.items| == Held(limit)
              && r.value.nextCursor == Some(Encode(s.sign, "posts", s.digest(ScopeText(q)), r.value.items[Held(limit) - 1])))
  {
    ServeSizes(s.sign, "posts", s.digest(ScopeText(q)), OrderOf(q), Matching(s, db, q), cursor, limit);
  }

  /** What a scope is a digest of: the filters and the sort, under sorted names. */
  lemma ScopeExactly(q: Query)
    ensures var f := ScopeFields(q);
      && ScopeText(q) == Json.Dumps(f) && |f| == 6
      && f[0] == ("author", if q.author.Some? then Json.String(q.author.value) else Json.Null)
      && f[1] == ("category", if q.category.Some? then Json.String(q.category.value) else Json.Null)
      && f[2] == ("query", if q.text.Some? then Json.String(q.text.value) else Json.Null)
      && f[3] == ("search_in", Json.String(q.searchIn)) && f[4] == ("sort", Json.String(q.sort))
      && f[5] == ("tag", if q.tag.Some? then Json.String(q.tag.value) else Json.Null)
  {
  }

  /* ---- comments and messages ---- */

  /** Who may read the comments of a post. */
  predicate Readable(db: Database, post: Uuid, viewer: Option<Uuid>) {
    && post in db.posts && db.posts[post].published && !db.posts[post].deleted && db.posts[post].author in db.authors
    && (db.authors[db.posts[post].author].postsPublic || viewer == Some(db.posts[post].author))
  }

  lemma CommentErrors(s: Services, db: Database, post: Uuid, parent: Option<Uuid>, viewer: Option<Uuid>, cursor: Option<string>, limit: int)
    ensures var r := ListComments(s, db, post, parent, viewer, cursor, limit);
      var scope := s.digest(UuidText(post) + ":" + (if parent.Some? then UuidText(parent.value) else "None"));
      && (r == Err(NotFound) <==> !Readable(db, post, viewer))
      && (r == Err(InvalidCursor) <==>
            Readable(db, post, viewer) && cursor.Some? && cursor.value != "" && Decode(s.sign, "comments", scope, cursor.value).None?)
      && r != Err(ValidationError)
      && (r.Ok? ==>
            && |r.value.items| <= Held(limit)
            && (r.value.nextCursor.Some? ==>
                  |r.value.items| == Held(limit) && r.value.nextCursor == Some(Encode(s.sign, "comments", scope, r.value.items[Held(limit) - 1]))))
  {
    ServeSizes(s.sign, "comments", CommentScope(s, post, parent), Oldest, Replies(db, post, parent), cursor, limit);
  }

  lemma CommentServes(s: Services, run: seq<Moment>, post: Uuid, parent: Option<Uuid>, viewer: Option<Uuid>)
    requires forall n | 0 <= n < |run| :: Readable(run[n].db, post, viewer)
    ensures Serves(CommentListing(s, run, post, parent, viewer), s.sign, "comments", CommentScope(s, post, parent), Oldest,
                   ReplyRows(run, post, parent), Limits(run))
  {
    assert forall n | 0 <= n < |run| :: CanRead(run[n].db, post, viewer);
  }

  /** One level of comments, oldest first. */
  lemma CommentsOrdered(s: Services, run: seq<Moment>, post: Uuid, parent: Option<Uuid>, viewer: Option<Uuid>)
    requires forall n | 0 <= n < |run| :: Readable(run[n].db, post, viewer)
    ensures var r := Follow(CommentListing(s, run, post, parent, viewer), 0, |run|, None);
      && r.Ok?
      && var all := Concat(r.value.pages);
         forall i, j :: 0 <= i < j < |all| ==> all[i].at < all[j].at || (all[i].at == all[j].at && all[i].id < all[j].id)
  {
    CommentServes(s, run, post, parent, viewer);
    FollowOrdered(CommentListing(s, run, post, parent, viewer), s.sign, "comments", CommentScope(s, post, parent), Oldest,
                  ReplyRows(run, post, parent), Limits(run));
    AscendingExactly(Oldest, Concat(Follow(CommentListing(s, run, post, parent, viewer), 0, |run|, None).value.pages));
  }

  lemma CommentsShown(s: Services, db: Database, post: Uuid, parent: Option<Uuid>, viewer: Option<Uuid>, limit: int, requests: nat, k: Key)
    requires requests > 0 && Readable(db, post, viewer)
    requires var r := Follow(CommentListing(s, seq(requests, i => Moment(db, limit)), post, parent, viewer), 0, requests, None); r.Ok? && r.value.complete
    ensures var r := Follow(CommentListing(s, seq(requests, i => Moment(db, limit)), post, parent, viewer), 0, requests, None);
      k in Concat(r.value.pages) <==>
        k.id in db.comments && db.comments[k.id].post == post && db.comments[k.id].parent == parent && k.at == db.comments[k.id].createdAt
  {
    var run := seq(requests, i => Moment(db, limit));
    CommentServes(s, run, post, parent, viewer);
    FollowShows(CommentListing(s, run, post, parent, viewer), s.sign, "comments", CommentScope(s, post, parent), Oldest,
                ReplyRows(run, post, parent), Limits(run), Replies(db, post, parent));
  }

  lemma MessageErrors(s: Services, db: Database, conversation: Uuid, user: Uuid, cursor: Option<string>, limit: int)
    ensures var r := ListMessages(s, db, conversation, user, cursor, limit);
      var scope := s.digest("conversation:" + UuidText(conversation));
      && (r == Err(NotFound) <==> (conversation, user) !in db.members)
      && (r == Err(InvalidCursor) <==>
            (conversation, user) in db.members && cursor.Some? && cursor.value != "" && Decode(s.sign, "messages", scope, cursor.value).None?)
      && r != Err(ValidationError)
      && (r.Ok? ==>
            && |r.value.items| <= Held(limit)
            && (r.value.nextCursor.Some? ==>
                  |r.value.items| == Held(limit) && r.value.nextCursor == Some(Encode(s.sign, "messages", scope, r.value.items[Held(limit) - 1]))))
  {
    ServeSizes(s.sign, "messages", MessageScope(s, conversation), Oldest, Messages(db, conversation), cursor, limit);
  }

  /** A conversation's messages, oldest first. */
  lemma MessagesOrdered(s: Services, run: seq<Moment>, conversation: Uuid, user: Uuid)
    requires forall n | 0 <= n < |run| :: (conversation, user) in run[n].db.members
    ensures var r := Follow(MessageListing(s, run, conversation, user), 0, |run|, None);
      && r.Ok?
      && var all := Concat(r.value.pages);
         forall i, j :: 0 <= i < j < |all| ==> all[i].at < all[j].at || (all[i].at == all[j].at && all[i].id < all[j].id)
  {
    FollowOrdered(MessageListing(s, run, conversation, user), s.sign, "messages", MessageScope(s, conversation), Oldest,
                  MessageRows(run, conversation), Limits(run));
    AscendingExactly(Oldest, Concat(Follow(MessageListing(s, run, conversation, user), 0, |run|, None).value.pages));
  }

  lemma MessagesShown(s: Services, db: Database, conversation: Uuid, user: Uuid, limit: int, requests: nat, k: Key)
    requires requests > 0 && (conversation, user) in db.members
    requires var r := Follow(MessageListing(s, seq(requests, i => Moment(db, limit)), conversation, user), 0, requests, None); r.Ok? && r.value.complete
    ensures var r := Follow(MessageListing(s, seq(requests, i => Moment(db, limit)), conversation, user), 0, requests, None);
      k in Concat(r.value.pages) <==>
        k.id in db.messages && db.messages[k.id].conversation == conversation && k.at == db.messages[k.id].createdAt
  {
    var run := seq(requests, i => Moment(db, limit));
    FollowShows(MessageListing(s, run, conversation, user), s.sign, "messages", MessageScope(s, conversation), Oldest,
                MessageRows(run, conversation), Limits(run), Messages(db, conversation));
  }
}
