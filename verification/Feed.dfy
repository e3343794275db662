/**
 The listings that hand out signed cursors: posts, the comments of a post, the
 messages of a conversation. Each reads its tables as they are at the moment of
 the request; a client walks a listing by sending back the `next_cursor` text of
 the page before, until it is null.
 */
module Feed {
  import opened Wrappers
  import opened Text
  import opened Cursor
  import opened Keyset
  import Json

  /** What the listings call and this model does not look into. */
  datatype Services = Services(
    sign: Sign,                              // HMAC-SHA256 under the server's key, in hexadecimal
    digest: string -> string,                // SHA-256 in hexadecimal
    casefold: string -> string,
    found: (PostRow, string, string) -> bool // the text search: row, text, search_in
  )

  datatype PostRow = PostRow(author: Uuid, published: bool, deleted: bool, createdAt: Timestamp,
                             category: Option<string>, tags: set<string>, title: string, content: string)
  datatype Author = Author(username: string, postsPublic: bool)
  datatype CommentRow = CommentRow(post: Uuid, parent: Option<Uuid>, createdAt: Timestamp)
  datatype MessageRow = MessageRow(conversation: Uuid, createdAt: Timestamp)

  datatype Database = Database(posts: map<Uuid, PostRow>, authors: map<Uuid, Author>,
                               comments: map<Uuid, CommentRow>, messages: map<Uuid, MessageRow>,
                               members: set<(Uuid, Uuid)>)

  datatype Error = ValidationError | InvalidCursor | NotFound

  datatype FeedPage = FeedPage(items: seq<Key>, nextCursor: Option<string>)

  /** An optional text parameter counts only when it is not empty. */
  predicate Given(text: Option<string>) { text.Some? && text.value != "" }

  function Clamp(limit: int): (n: nat)
    ensures 1 <= n <= 100
  {
    if limit < 1 then 1 else if limit > 100 then 100 else limit
  }

  /* ---- the part all listings share ---- */

  ghost function Serve(sign: Sign, resource: string, scope: string, o: Order, rows: set<Key>,
                       cursor: Option<string>, limit: int): Result<FeedPage, Error>
  {
    if Given(cursor) then
      match Decode(sign, resource, scope, cursor.value)
      case None => Err(InvalidCursor)
      case Some(key) => Ok(Publish(sign, resource, scope, PageOf(o, rows, Some(key), Clamp(limit))))
    else Ok(Publish(sign, resource, scope, PageOf(o, rows, None, Clamp(limit))))
  }

  function Publish(sign: Sign, resource: string, scope: string, p: Page): FeedPage {
    FeedPage(p.items, if p.next.Some? then Some(Encode(sign, resource, scope, p.next.value)) else None)
  }

  /** A listing as a client sees it: request number and cursor text to page or error. */
  type Listing = (nat, Option<string>) --> Result<FeedPage, Error>

  /** Requests i, i + 1, ... up to n, each with the cursor of the page before. */
  ghost function Follow(list: Listing, i: nat, n: nat, cursor: Option<string>): Result<Trace, Error>
    requires i <= n && forall k: nat, c: Option<string> | k < n :: list.requires(k, c)
    decreases n - i
  {
    if i == n then Ok(Trace([], false))
    else
      var page :- list(i, cursor);
      if page.nextCursor.None? then Ok(Trace([page.items], true))
      else
        var rest :- Follow(list, i + 1, n, page.nextCursor);
        Ok(Trace([page.items] + rest.pages, rest.complete))
  }

  /** The listing answers request k as `Serve` does over the rows of that moment. */
  ghost predicate Serves(list: Listing, sign: Sign, resource: string, scope: string, o: Order, rows: seq<set<Key>>, limits: seq<int>) {
    && |rows| == |limits|
    && forall k: nat, c: Option<string> | k < |rows| ::
      list.requires(k, c) && list(k, c) == Serve(sign, resource, scope, o, rows[k], c, limits[k])
  }

  ghost function Requests(rows: seq<set<Key>>, limits: seq<int>): (reqs: seq<Request>)
    requires |rows| == |limits|
    ensures ValidRequests(reqs) && |reqs| == |rows|
  {
    seq(|rows|, i requires 0 <= i < |rows| => Request(rows[i], Clamp(limits[i])))
  }

  function CursorText(sign: Sign, resource: string, scope: string, cursor: Option<Key>): Option<string> {
    if cursor.Some? then Some(Encode(sign, resource, scope, cursor.value)) else None
  }

  lemma ServeDecodes(sign: Sign, resource: string, scope: string, o: Order, rows: set<Key>, cursor: Option<Key>, limit: int)
    ensures Serve(sign, resource, scope, o, rows, CursorText(sign, resource, scope, cursor), limit)
         == Ok(Publish(sign, resource, scope, PageOf(o, rows, cursor, Clamp(limit))))
  {
    if cursor.Some? {
      RoundTrip(sign, resource, scope, cursor.value, resource, scope);
    }
  }

  /** Following cursor texts never fails, and is the walk over keys. */
  lemma {:induction false} FollowIsWalk(list: Listing, sign: Sign, resource: string, scope: string, o: Order,
                                        rows: seq<set<Key>>, limits: seq<int>, i: nat, cursor: Option<Key>)
    requires Serves(list, sign, resource, scope, o, rows, limits) && i <= |rows|
    ensures Follow(list, i, |rows|, CursorText(sign, resource, scope, cursor))
         == Ok(Walk(o, Requests(rows, limits)[i..], cursor))
    decreases |rows| - i
  {
    if i < |rows| {
      var reqs := Requests(rows, limits)[i..];
      var p := PageOf(o, rows[i], cursor, Clamp(limits[i]));
      ServeDecodes(sign, resource, scope, o, rows[i], cursor, limits[i]);
      if p.next.Some? {
        FollowIsWalk(list, sign, resource, scope, o, rows, limits, i + 1, p.next);
        assert reqs[1..] == Requests(rows, limits)[i + 1..];
      }
    }
  }

  /** The ids a walk returned, in order. */
  function Ids(keys: seq<Key>): (ids: seq<Uuid>)
    ensures |ids| == |keys|
    ensures forall i :: 0 <= i < |ids| ==> ids[i] == keys[i].id
  {
    if keys == [] then [] else [keys[0].id] + Ids(keys[1..])
  }

  predicate NoRepeats(ids: seq<Uuid>) {
    forall i, j :: 0 <= i < j < |ids| ==> ids[i] != ids[j]
  }

  /** One row keeps one timestamp at every moment it is selected. */
  ghost predicate Stable(rows: seq<set<Key>>) {
    forall i, j, k, k' | 0 <= i < |rows| && 0 <= j < |rows| && k in rows[i] && k' in rows[j] :: k.id == k'.id ==> k == k'
  }

  /** What a client that follows a listing from the start to the null cursor sees. */
  ghost predicate SeesEachOnce(list: Listing, rows: seq<set<Key>>)
    requires forall k: nat, c: Option<string> | k < |rows| :: list.requires(k, c)
  {
    var r := Follow(list, 0, |rows|, None);
    && r.Ok?
    && |r.value.pages| <= |rows|
    && NoRepeats(Ids(Concat(r.value.pages)))
    && (forall i | 0 <= i < |r.value.pages| :: AllIn(r.value.pages[i], rows[i]))
    && (r.value.complete ==>
          forall k | (forall i | 0 <= i < |r.value.pages| :: k in rows[i]) :: k in Concat(r.value.pages))
  }

  lemma FollowSeesEachOnce(list: Listing, sign: Sign, resource: string, scope: string, o: Order, rows: seq<set<Key>>, limits: seq<int>)
    requires Serves(list, sign, resource, scope, o, rows, limits) && Stable(rows)
    ensures SeesEachOnce(list, rows)
  {
    var reqs := Requests(rows, limits);
    FollowIsWalk(list, sign, resource, scope, o, rows, limits, 0, None);
    assert reqs[0..] == reqs;
    var t := Walk(o, reqs, None);
    forall i | 0 <= i < |t.pages| ensures AllIn(t.pages[i], rows[i]) { WalkInventsNothing(o, reqs, None, i); }
    IdsDiffer(o, reqs, rows);
    if t.complete {
      forall k | (forall i | 0 <= i < |t.pages| :: k in rows[i]) ensures k in Concat(t.pages) {
        WalkMissesNothing(o, reqs, None, k);
      }
    }
  }

  lemma IdsDiffer(o: Order, reqs: seq<Request>, rows: seq<set<Key>>)
    requires ValidRequests(reqs) && |reqs| == |rows| && Stable(rows)
    requires forall i :: 0 <= i < |rows| ==> reqs[i].rows == rows[i]
    ensures NoRepeats(Ids(Concat(Walk(o, reqs, None).pages)))
  {
    var pages := Walk(o, reqs, None).pages;
    var all := Concat(pages);
    forall k, k' | k in all && k' in all ensures k.id == k'.id ==> k == k' {
      var i := PageWith(pages, k);
      var j := PageWith(pages, k');
      WalkInventsNothing(o, reqs, None, i);
      WalkInventsNothing(o, reqs, None, j);
      assert k in rows[i] && k' in rows[j];
    }
    forall i, j | 0 <= i < j < |all| ensures Ids(all)[i] != Ids(all)[j] {
      NoIdTwice(o, reqs, i, j);
    }
  }

  /** Over tables that do not change, a client sees the sorted selection, once through, in max(1, ceil(n / limit)) pages. */
  ghost predicate SeesAllInOrder(list: Listing, o: Order, requests: nat, rows: set<Key>, limit: nat)
    requires limit >= 1 && forall k: nat, c: Option<string> | k < requests :: list.requires(k, c)
  {
    var r := Follow(list, 0, requests, None);
    && r.Ok? && r.value.complete
    && |r.value.pages| == PagesFor(|rows|, limit)
    && Concat(r.value.pages) == Sorted(o, rows)
  }

  lemma FollowStatic(list: Listing, sign: Sign, resource: string, scope: string, o: Order, rows: seq<set<Key>>, limits: seq<int>,
                     all: set<Key>, limit: int)
    requires Serves(list, sign, resource, scope, o, rows, limits)
    requires forall i :: 0 <= i < |rows| ==> rows[i] == all && limits[i] == limit
    requires |rows| >= PagesFor(|all|, Clamp(limit))
    ensures SeesAllInOrder(list, o, |rows|, all, Clamp(limit))
  {
    var reqs := Requests(rows, limits);
    FollowIsWalk(list, sign, resource, scope, o, rows, limits, 0, None);
    assert reqs[0..] == reqs;
    assert After(o, all, None) == all;
    StaticWalkLength(o, reqs, all, None, Clamp(limit));
    StaticWalk(o, reqs, all, None);
  }

  /* ---- posts ---- */

  datatype Query = Query(author: Option<string>, category: Option<string>, tag: Option<string>, text: Option<string>,
                         searchIn: string, sort: string, viewer: Option<Uuid>)

  function ScopeText(q: Query): string {
    Json.Dumps(ScopeFields(q))
  }

  function Nullable(text: Option<string>): Json.Value {
    if text.Some? then Json.String(text.value) else Json.Null
  }

  function ScopeFields(q: Query): (fields: seq<Json.Field>)
    ensures fields != []
  {
    [("author", Nullable(q.author)), ("category", Nullable(q.category)), ("query", Nullable(q.text)),
     ("search_in", Json.String(q.searchIn)), ("sort", Json.String(q.sort)), ("tag", Nullable(q.tag))]
  }

  /** Two queries share a fingerprint text only if they agree on every filter and the sort. */
  lemma ScopeTextInjective(q: Query, q': Query)
    requires ScopeText(q) == ScopeText(q')
    ensures q.(viewer := None) == q'.(viewer := None)
  {
    var f, f' := ScopeFields(q), ScopeFields(q');
    Json.RoundTrip(f);
    Json.RoundTrip(f');
    assert f == f';
    assert f[0].1 == f'[0].1 && f[1].1 == f'[1].1 && f[2].1 == f'[2].1;
    assert f[3].1 == f'[3].1 && f[4].1 == f'[4].1 && f[5].1 == f'[5].1;
  }

  predicate Selects(s: Services, db: Database, q: Query, p: PostRow) {
    && p.published && !p.deleted
    && p.author in db.authors
    && (db.authors[p.author].postsPublic || Some(p.author) == q.viewer)
    && (Given(q.author) ==> db.authors[p.author].username == s.casefold(q.author.value))
    && (Given(q.category) ==> p.category == q.category)
    && (Given(q.tag) ==> s.casefold(q.tag.value) in p.tags)
    && (Given(q.text) ==> s.found(p, q.text.value, q.searchIn))
  }

  function Matching(s: Services, db: Database, q: Query): set<Key> {
    set id | id in db.posts && Selects(s, db, q, db.posts[id]) :: Key(db.posts[id].createdAt, id)
  }

  predicate Acceptable(q: Query) {
    (Given(q.text) ==> q.searchIn in {"all", "title", "content"}) && q.sort in {"newest", "oldest"}
  }

  function OrderOf(q: Query): Order { if q.sort == "newest" then Newest else Oldest }

  ghost function ListPosts(s: Services, db: Database, q: Query, cursor: Option<string>, limit: int): Result<FeedPage, Error> {
    if !Acceptable(q) then Err(ValidationError)
    else Serve(s.sign, "posts", s.digest(ScopeText(q)), OrderOf(q), Matching(s, db, q), cursor, limit)
  }

  /** The tables and the limit at each request. */
  datatype Moment = Moment(db: Database, limit: int)

  /** No table ever changes the creation time of a row it still holds. */
  ghost predicate TimesFixed(run: seq<Moment>) {
    forall i, j | 0 <= i < |run| && 0 <= j < |run| ::
      var a, b := run[i].db, run[j].db;
      && (forall id | id in a.posts && id in b.posts :: a.posts[id].createdAt == b.posts[id].createdAt)
      && (forall id | id in a.comments && id in b.comments :: a.comments[id].createdAt == b.comments[id].createdAt)
      && (forall id | id in a.messages && id in b.messages :: a.messages[id].createdAt == b.messages[id].createdAt)
  }

  ghost function PostListing(s: Services, run: seq<Moment>, q: Query): Listing {
    (i: nat, c: Option<string>) requires i < |run| => ListPosts(s, run[i].db, q, c, run[i].limit)
  }

  ghost function PostRows(s: Services, run: seq<Moment>, q: Query): seq<set<Key>> {
    seq(|run|, i requires 0 <= i < |run| => Matching(s, run[i].db, q))
  }

  function Limits(run: seq<Moment>): seq<int> {
    seq(|run|, i requires 0 <= i < |run| => run[i].limit)
  }

  /**
   The post feed under change: whatever is published, edited, hidden or deleted
   between its requests, a walk shows no post twice, shows only posts that matched
   at the request that showed them, and misses none that matched all along.
   */
  lemma PostsSeenOnce(s: Services, run: seq<Moment>, q: Query)
    requires Acceptable(q) && TimesFixed(run)
    ensures SeesEachOnce(PostListing(s, run, q), PostRows(s, run, q))
  {
    FollowSeesEachOnce(PostListing(s, run, q), s.sign, "posts", s.digest(ScopeText(q)), OrderOf(q), PostRows(s, run, q), Limits(run));
  }

  /** The post feed at rest: both sort orders, any limit, enough requests. */
  lemma PostsInOrder(s: Services, db: Database, q: Query, limit: int, requests: nat)
    requires Acceptable(q) && requests >= PagesFor(|Matching(s, db, q)|, Clamp(limit))
    ensures var run := seq(requests, i => Moment(db, limit));
      SeesAllInOrder(PostListing(s, run, q), OrderOf(q), requests, Matching(s, db, q), Clamp(limit))
  {
    var run := seq(requests, i => Moment(db, limit));
    FollowStatic(PostListing(s, run, q), s.sign, "posts", s.digest(ScopeText(q)), OrderOf(q), PostRows(s, run, q), Limits(run),
                 Matching(s, db, q), limit);
  }

  /** A cursor of one query is refused by every query with another filter or sort. */
  lemma OtherQueryRefused(s: Services, db: Database, q: Query, q': Query, key: Key, limit: int)
    requires q.(viewer := None) != q'.(viewer := None)
    requires s.digest(ScopeText(q)) == s.digest(ScopeText(q')) ==> ScopeText(q) == ScopeText(q')
    ensures ListPosts(s, db, q', Some(Encode(s.sign, "posts", s.digest(ScopeText(q)), key)), limit).Err?
  {
    RoundTrip(s.sign, "posts", s.digest(ScopeText(q)), key, "posts", s.digest(ScopeText(q')));
    if ScopeText(q) == ScopeText(q') { ScopeTextInjective(q, q'); }
  }

  /* ---- comments of a post, one level at a time ---- */

  function CommentScope(s: Services, post: Uuid, parent: Option<Uuid>): string {
    s.digest(UuidText(post) + ":" + if parent.Some? then UuidText(parent.value) else "None")
  }

  /** Deleted comments stay in the listing as tombstones. */
  function Replies(db: Database, post: Uuid, parent: Option<Uuid>): set<Key> {
    set id | id in db.comments && db.comments[id].post == post && db.comments[id].parent == parent :: Key(db.comments[id].createdAt, id)
  }

  predicate CanRead(db: Database, post: Uuid, viewer: Option<Uuid>) {
    && post in db.posts
    && var p := db.posts[post];
       && p.published && !p.deleted && p.author in db.authors
       && (db.authors[p.author].postsPublic || Some(p.author) == viewer)
  }

  ghost function ListComments(s: Services, db: Database, post: Uuid, parent: Option<Uuid>, viewer: Option<Uuid>,
                              cursor: Option<string>, limit: int): Result<FeedPage, Error>
  {
    if !CanRead(db, post, viewer) then Err(NotFound)
    else Serve(s.sign, "comments", CommentScope(s, post, parent), Oldest, Replies(db, post, parent), cursor, limit)
  }

  ghost function CommentListing(s: Services, run: seq<Moment>, post: Uuid, parent: Option<Uuid>, viewer: Option<Uuid>): Listing {
    (i: nat, c: Option<string>) requires i < |run| => ListComments(s, run[i].db, post, parent, viewer, c, run[i].limit)
  }

  ghost function ReplyRows(run: seq<Moment>, post: Uuid, parent: Option<Uuid>): seq<set<Key>> {
    seq(|run|, i requires 0 <= i < |run| => Replies(run[i].db, post, parent))
  }

  lemma CommentsSeenOnce(s: Services, run: seq<Moment>, post: Uuid, parent: Option<Uuid>, viewer: Option<Uuid>)
    requires TimesFixed(run) && forall i | 0 <= i < |run| :: CanRead(run[i].db, post, viewer)
    ensures SeesEachOnce(CommentListing(s, run, post, parent, viewer), ReplyRows(run, post, parent))
  {
    FollowSeesEachOnce(CommentListing(s, run, post, parent, viewer), s.sign, "comments", CommentScope(s, post, parent), Oldest,
                       ReplyRows(run, post, parent), Limits(run));
  }

  /* ---- messages of a conversation ---- */

  function MessageScope(s: Services, conversation: Uuid): string {
    s.digest("conversation:" + UuidText(conversation))
  }

  function Messages(db: Database, conversation: Uuid): set<Key> {
    set id | id in db.messages && db.messages[id].conversation == conversation :: Key(db.messages[id].createdAt, id)
  }

  ghost function ListMessages(s: Services, db: Database, conversation: Uuid, user: Uuid,
                              cursor: Option<string>, limit: int): Result<FeedPage, Error>
  {
    if (conversation, user) !in db.members then Err(NotFound)
    else Serve(s.sign, "messages", MessageScope(s, conversation), Oldest, Messages(db, conversation), cursor, limit)
  }

  ghost function MessageListing(s: Services, run: seq<Moment>, conversation: Uuid, user: Uuid): Listing {
    (i: nat, c: Option<string>) requires i < |run| => ListMessages(s, run[i].db, conversation, user, c, run[i].limit)
  }

  ghost function MessageRows(run: seq<Moment>, conversation: Uuid): seq<set<Key>> {
    seq(|run|, i requires 0 <= i < |run| => Messages(run[i].db, conversation))
  }

  /** The reader stays a member; messages come and, by the retention purge, go. */
  lemma MessagesSeenOnce(s: Services, run: seq<Moment>, conversation: Uuid, user: Uuid)
    requires TimesFixed(run) && forall i | 0 <= i < |run| :: (conversation, user) in run[i].db.members
    ensures SeesEachOnce(MessageListing(s, run, conversation, user), MessageRows(run, conversation))
  {
    FollowSeesEachOnce(MessageListing(s, run, conversation, user), s.sign, "messages", MessageScope(s, conversation), Oldest,
                       MessageRows(run, conversation), Limits(run));
  }
}
