/**
 Uploaded media: rows, the objects in the bucket, the four kinds of holder that
 can reference a medium, and the owner's quota. A step is one request; the rows
 of a failed request are rolled back, the bucket is not.
 */
module MediaStore {
  import opened Wrappers
  import opened Finite

  type Id = int
  type Time = int

  datatype Purpose = ForPost | ForMessage | ForAvatar | ForCover
  datatype Kind = Image | Video
  datatype Status = Pending | Uploaded | Attached | Deleted

  datatype Medium = Medium(owner: Id, purpose: Purpose, kind: Kind, size: nat, key: string, status: Status,
                           createdAt: Time, attachedAt: Option<Time>, deletedAt: Option<Time>)

  /** posts and messages: who wrote each; the rest: what each holder references. */
  datatype State = State(
    users: set<Id>, media: map<Id, Medium>, objects: set<string>,
    authors: map<Id, Id>, postMedia: map<Id, seq<Id>>,
    senders: map<Id, Id>, messageMedia: map<Id, seq<Id>>,
    avatars: map<Id, Id>, covers: map<Id, Id>)

  datatype Error = Unsupported | TooLarge | QuotaExceeded | AuthInvalid | ValidationError | NotFound | Conflict | InternalError

  datatype Outcome = Outcome(after: State, error: Option<Error>)

  function Fail(s: State, e: Error): Outcome { Outcome(s, Some(e)) }
  function Done(s: State): Outcome { Outcome(s, None) }

  /* ---- holders ---- */

  datatype Holder = Post(id: Id) | Message(id: Id) | Avatar(user: Id) | Cover(user: Id)

  function Held(s: State, h: Holder): set<Id> {
    match h
    case Post(p) => if p in s.postMedia then set m | m in s.postMedia[p] else {}
    case Message(x) => if x in s.messageMedia then set m | m in s.messageMedia[x] else {}
    case Avatar(u) => if u in s.avatars then {s.avatars[u]} else {}
    case Cover(u) => if u in s.covers then {s.covers[u]} else {}
  }

  function OwnerOf(s: State, h: Holder): Option<Id> {
    match h
    case Post(p) => if p in s.authors then Some(s.authors[p]) else None
    case Message(x) => if x in s.senders then Some(s.senders[x]) else None
    case Avatar(u) => Some(u)
    case Cover(u) => Some(u)
  }

  /* ---- quota ---- */

  datatype Limits = Limits(bytes: nat, files: nat, pending: nat)

  function Sizes(media: map<Id, Medium>): map<Id, nat> {
    map m | m in media :: media[m].size
  }

  function Kept(media: map<Id, Medium>, owner: Id): set<Id> {
    set m | m in media && media[m].owner == owner && media[m].deletedAt.None?
  }

  function PendingOf(media: map<Id, Medium>, owner: Id): set<Id> {
    set m | m in Kept(media, owner) && media[m].status == Pending
  }

  ghost function Usage(media: map<Id, Medium>, owner: Id): nat {
    Sum(Sizes(media), Kept(media, owner))
  }

  function KeptKeys(media: map<Id, Medium>): set<string> {
    set m | m in media && media[m].deletedAt.None? :: media[m].key
  }

  /* ---- upload ---- */

  const MIB := 1024 * 1024

  function SizeLimit(purpose: Purpose, kind: Kind): nat {
    if purpose == ForAvatar then 5 * MIB else if kind == Image then 10 * MIB else 100 * MIB
  }

  /**
   `kind` is what the MIME type stands for, `size` the size after an image was
   re-encoded, `key` the storage key drawn, `saved` whether the insert succeeds.
   */
  datatype Upload = Upload(owner: Id, purpose: Purpose, kind: Option<Kind>, size: nat, id: Id, key: string, saved: bool, now: Time)

  ghost predicate OverQuota(s: State, limits: Limits, q: Upload) {
    || Usage(s.media, q.owner) + q.size > limits.bytes
    || |Kept(s.media, q.owner)| >= limits.files
    || |PendingOf(s.media, q.owner)| >= limits.pending
  }

  /** The database refuses the row: something failed, or the id or key is not unique. */
  predicate RowRefused(s: State, q: Upload) {
    !q.saved || q.id in s.media || exists m | m in s.media :: s.media[m].key == q.key
  }

  ghost function UploadMedia(s: State, limits: Limits, q: Upload): (o: Outcome)
    ensures o.error.Some? ==> o.after == s.(objects := o.after.objects)
    ensures o.error.None? ==> q.id !in s.media && q.id in o.after.media && o.after.media[q.id].status == Uploaded
    ensures o.error.None? ==> o.after == s.(objects := o.after.objects, media := s.media[q.id := o.after.media[q.id]])
  {
    if q.kind.None? then Fail(s, Unsupported)
    else if q.purpose in {ForAvatar, ForCover} && q.kind.value != Image then Fail(s, Unsupported)
    else if q.size > SizeLimit(q.purpose, q.kind.value) then Fail(s, TooLarge)
    else if q.owner !in s.users then Fail(s, AuthInvalid)
    else if OverQuota(s, limits, q) then Fail(s, QuotaExceeded)
    else if RowRefused(s, q) then Fail(s.(objects := s.objects - {q.key}), InternalError) // put, then taken back
    else
      Done(s.(objects := s.objects + {q.key},
              media := s.media[q.id := Medium(q.owner, q.purpose, q.kind.value, q.size, q.key, Uploaded, q.now, None, None)]))
  }

  /* ---- attaching and releasing ---- */

  predicate Available(s: State, m: Id, owner: Id, purpose: Purpose) {
    && m in s.media && s.media[m].owner == owner && s.media[m].purpose == purpose
    && s.media[m].status == Uploaded && s.media[m].deletedAt.None?
  }

  /** Released media go back to `uploaded`, then the new ones become `attached`. */
  function Reassign(media: map<Id, Medium>, released: set<Id>, attached: set<Id>, now: Time): map<Id, Medium> {
    map m | m in media ::
      if m in attached then media[m].(status := Attached, attachedAt := Some(now))
      else if m in released then media[m].(status := Uploaded, attachedAt := None)
      else media[m]
  }

  predicate AtMostOneVideo(s: State, ids: set<Id>) {
    |set m | m in ids && m in s.media && s.media[m].kind == Video| <= 1
  }

  function Elements(ids: seq<Id>): set<Id> { set m | m in ids }

  /** replace_post_media for a post whose author is `owner`. */
  function ReplacePostMedia(s: State, post: Id, owner: Id, ids: seq<Id>, now: Time): Outcome {
    if !(Distinct(ids) && (forall m | m in ids :: Available(s, m, owner, ForPost)) && AtMostOneVideo(s, Elements(ids)))
    then Fail(s, ValidationError)
    else Done(s.(media := Reassign(s.media, Held(s, Post(post)), Elements(ids), now), postMedia := s.postMedia[post := ids]))
  }

  /** create_post and create_draft: the row, then its media. */
  function CreatePost(s: State, post: Id, author: Id, ids: seq<Id>, now: Time): Outcome {
    if post in s.authors || post in s.postMedia then Fail(s, Conflict)
    else
      var o := ReplacePostMedia(s.(authors := s.authors[post := author]), post, author, ids, now);
      if o.error.Some? then Fail(s, o.error.value) else o
  }

  /** update_post and update_draft with media; delete_draft with none. */
  function SetPostMedia(s: State, post: Id, owner: Id, ids: seq<Id>, now: Time): Outcome {
    if post !in s.authors || s.authors[post] != owner then Fail(s, NotFound)
    else ReplacePostMedia(s, post, owner, ids, now)
  }

  /** create_message lets a repeated id through; the primary key of its table does not. */
  function CreateMessage(s: State, message: Id, sender: Id, ids: seq<Id>, now: Time): Outcome {
    if message in s.senders || message in s.messageMedia then Fail(s, Conflict)
    else if !((forall m | m in ids :: Available(s, m, sender, ForMessage)) && AtMostOneVideo(s, Elements(ids))) then Fail(s, ValidationError)
    else if !Distinct(ids) then Fail(s, InternalError)
    else Done(s.(senders := s.senders[message := sender], messageMedia := s.messageMedia[message := ids],
                 media := Reassign(s.media, {}, Elements(ids), now)))
  }

  /** purge_deleted_messages: the rows go, and their media rows with them. */
  function Purge(s: State, messages: set<Id>): Outcome {
    Done(s.(senders := s.senders - messages, messageMedia := s.messageMedia - messages))
  }

  /** The avatar or cover part of update_user; `choice` is None when the picture is removed. */
  function SetPicture(s: State, user: Id, cover: bool, choice: Option<Id>, now: Time): Outcome {
    var h := if cover then Cover(user) else Avatar(user);
    if choice.Some? && !(Available(s, choice.value, user, if cover then ForCover else ForAvatar) && s.media[choice.value].kind == Image)
    then Fail(s, ValidationError)
    else
      var ids := if choice.Some? then {choice.value} else {};
      var slots := if cover then s.covers else s.avatars;
      var slots' := if choice.Some? then slots[user := choice.value] else slots - {user};
      var s' := s.(media := Reassign(s.media, Held(s, h), ids, now));
      Done(if cover then s'.(covers := slots') else s'.(avatars := slots'))
  }

  /** update_user: avatar first, then cover, then what may still fail; all or nothing. */
  function UpdateUser(s: State, user: Id, avatar: Option<Option<Id>>, cover: Option<Option<Id>>, restOk: bool, now: Time): Outcome {
    var o := if avatar.Some? then SetPicture(s, user, false, avatar.value, now) else Done(s);
    if o.error.Some? then Fail(s, o.error.value)
    else
      var o2 := if cover.Some? then SetPicture(o.after, user, true, cover.value, now) else o;
      if o2.error.Some? then Fail(s, o2.error.value)
      else if !restOk then Fail(s, ValidationError) else o2
  }

  /** delete_user forgets both pictures and leaves their rows as they are. */
  function EraseUser(s: State, user: Id): Outcome {
    Done(s.(avatars := s.avatars - {user}, covers := s.covers - {user}))
  }

  /* ---- deleting ---- */

  function Remove(media: map<Id, Medium>, gone: set<Id>, now: Time): map<Id, Medium> {
    map m | m in media :: if m in gone then media[m].(status := Deleted, deletedAt := Some(now)) else media[m]
  }

  function KeysOf(media: map<Id, Medium>, ids: set<Id>): set<string> {
    set m | m in ids && m in media :: media[m].key
  }

  /** owned_media and delete_media */
  function DeleteMedia(s: State, m: Id, owner: Id, now: Time): Outcome {
    if m !in s.media || s.media[m].owner != owner || s.media[m].deletedAt.Some? then Fail(s, NotFound)
    else if s.media[m].status == Attached then Fail(s, Conflict)
    else Done(s.(objects := s.objects - {s.media[m].key}, media := Remove(s.media, {m}, now)))
  }

  function Orphans(s: State, olderThan: Time): set<Id> {
    set m | m in s.media && s.media[m].status == Uploaded && s.media[m].createdAt < olderThan && s.media[m].deletedAt.None?
  }

  function Cleanup(s: State, olderThan: Time, now: Time): Outcome {
    var gone := Orphans(s, olderThan);
    Done(s.(objects := s.objects - KeysOf(s.media, gone), media := Remove(s.media, gone, now)))
  }

  datatype Op =
    | DoUpload(q: Upload)
    | DoCreatePost(post: Id, author: Id, ids: seq<Id>, now: Time)
    | DoSetPostMedia(post: Id, owner: Id, ids: seq<Id>, now: Time)
    | DoCreateMessage(message: Id, sender: Id, ids: seq<Id>, now: Time)
    | DoPurge(messages: set<Id>)
    | DoUpdateUser(user: Id, avatar: Option<Option<Id>>, cover: Option<Option<Id>>, restOk: bool, now: Time)
    | DoErase(user: Id)
    | DoDelete(medium: Id, owner: Id, now: Time)
    | DoCleanup(olderThan: Time, now: Time)

  ghost function Attempt(s: State, limits: Limits, op: Op): Outcome {
    match op
    case DoUpload(q) => UploadMedia(s, limits, q)
    case DoCreatePost(p, author, ids, now) => CreatePost(s, p, author, ids, now)
    case DoSetPostMedia(p, owner, ids, now) => SetPostMedia(s, p, owner, ids, now)
    case DoCreateMessage(x, sender, ids, now) => CreateMessage(s, x, sender, ids, now)
    case DoPurge(xs) => Purge(s, xs)
    case DoUpdateUser(u, avatar, cover, restOk, now) => UpdateUser(s, u, avatar, cover, restOk, now)
    case DoErase(u) => EraseUser(s, u)
    case DoDelete(m, owner, now) => DeleteMedia(s, m, owner, now)
    case DoCleanup(olderThan, now) => Cleanup(s, olderThan, now)
  }

  ghost function Step(s: State, limits: Limits, op: Op): State { Attempt(s, limits, op).after }

  ghost function Run(s: State, limits: Limits, ops: seq<Op>): State
    decreases |ops|
  {
    if ops == [] then s else Run(Step(s, limits, ops[0]), limits, ops[1..])
  }

  /** uuid4 never draws a storage key twice. */
  predicate FreshKey(s: State, op: Op) {
    op.DoUpload? ==> forall m | m in s.media :: s.media[m].key != op.q.key
  }

  ghost predicate FreshKeys(s: State, limits: Limits, ops: seq<Op>)
    decreases |ops|
  {
    ops != [] ==> FreshKey(s, ops[0]) && FreshKeys(Step(s, limits, ops[0]), limits, ops[1..])
  }

  /* ---- invariants ---- */

  predicate Attaches(s: State, h: Holder, m: Id) {
    m in s.media && s.media[m].status == Attached && OwnerOf(s, h) == Some(s.media[m].owner)
  }

  /** Whatever is held is attached, not deleted, its holder's own, and held once. */
  ghost predicate References(s: State) {
    && (forall h, m | m in Held(s, h) :: Attaches(s, h, m))
    && (forall h, h', m | m in Held(s, h) && m in Held(s, h') :: h == h')
  }

  ghost predicate Rows(media: map<Id, Medium>) {
    && (forall m | m in media :: media[m].status != Pending && (media[m].status == Deleted <==> media[m].deletedAt.Some?))
    && (forall m, n | m in media && n in media && media[m].key == media[n].key :: m == n)
  }

  ghost predicate WithinQuota(media: map<Id, Medium>, limits: Limits) {
    forall u :: Usage(media, u) <= limits.bytes && |Kept(media, u)| <= limits.files
  }

  /** The bucket holds exactly the objects of the rows that are not deleted. */
  ghost predicate Stored(s: State) { s.objects == KeptKeys(s.media) }

  ghost predicate Inv(s: State, limits: Limits) {
    References(s) && Rows(s.media) && WithinQuota(s.media, limits) && Stored(s)
  }

  /** Media may change status and nothing else that quota, keys or storage look at. */
  ghost predicate SameFiles(media: map<Id, Medium>, media': map<Id, Medium>) {
    && (forall m :: m in media' <==> m in media)
    && forall m | m in media :: SameFile(media[m], media'[m])
  }

  predicate SameFile(a: Medium, b: Medium) {
    b.owner == a.owner && b.size == a.size && b.key == a.key && b.deletedAt == a.deletedAt
  }

  lemma SameFilesKeep(media: map<Id, Medium>, media': map<Id, Medium>, limits: Limits)
    requires SameFiles(media, media') && WithinQuota(media, limits)
    ensures WithinQuota(media', limits) && KeptKeys(media') == KeptKeys(media)
  {
    forall u ensures Usage(media', u) <= limits.bytes && |Kept(media', u)| <= limits.files {
      assert Kept(media', u) == Kept(media, u) by {
        forall m ensures m in Kept(media', u) <==> m in Kept(media, u) { if m in media { assert SameFile(media[m], media'[m]); } }
      }
      forall m | m in Kept(media, u) ensures Sizes(media')[m] == Sizes(media)[m] { assert SameFile(media[m], media'[m]); }
      SumSame(Sizes(media'), Sizes(media), Kept(media, u));
    }
    forall k ensures k in KeptKeys(media') <==> k in KeptKeys(media) { SameKeptKey(media, media', k); }
  }

  lemma SameKeptKey(media: map<Id, Medium>, media': map<Id, Medium>, k: string)
    requires SameFiles(media, media')
    ensures k in KeptKeys(media') <==> k in KeptKeys(media)
  {
    if k in KeptKeys(media) {
      var m :| m in media && media[m].deletedAt.None? && media[m].key == k;
      assert m in media' && media'[m].key == k;
    }
    if k in KeptKeys(media') {
      var m :| m in media' && media'[m].deletedAt.None? && media'[m].key == k;
      assert m in media && media[m].key == k;
    }
  }

  /** One holder lets go of what it held and takes `ids` instead. */
  ghost predicate Hands(s: State, s': State, h: Holder, ids: set<Id>) {
    && Held(s', h) == ids
    && (forall h' | h' != h :: Held(s', h') == Held(s, h'))
    && (forall h' | Held(s', h') != {} :: OwnerOf(s', h') == OwnerOf(s, h') || h' == h)
  }

  lemma HandingKeepsReferences(s: State, s': State, h: Holder, ids: set<Id>, now: Time)
    requires References(s) && Hands(s, s', h, ids)
    requires s'.media == Reassign(s.media, Held(s, h), ids, now)
    requires forall m | m in ids :: m in s.media && s.media[m].status == Uploaded && OwnerOf(s', h) == Some(s.media[m].owner)
    ensures References(s')
  {
    forall g, m | m in Held(s', g) ensures Attaches(s', g, m) {
      HeldStaysAttached(s, s', h, ids, now, g, m);
    }
    OneHolderEach(s, s', h, ids);
  }

  lemma HeldStaysAttached(s: State, s': State, h: Holder, ids: set<Id>, now: Time, g: Holder, m: Id)
    requires References(s) && Hands(s, s', h, ids) && m in Held(s', g)
    requires s'.media == Reassign(s.media, Held(s, h), ids, now)
    requires m in ids ==> m in s.media && OwnerOf(s', h) == Some(s.media[m].owner)
    ensures Attaches(s', g, m)
  {
    if g != h {
      assert m in Held(s, g) && Attaches(s, g, m) && OwnerOf(s', g) == OwnerOf(s, g);
      assert m !in Held(s, h);
    }
  }

  lemma OneHolderEach(s: State, s': State, h: Holder, ids: set<Id>)
    requires References(s) && Hands(s, s', h, ids)
    requires forall m | m in ids :: m in s.media && s.media[m].status == Uploaded
    ensures forall g, g', m | m in Held(s', g) && m in Held(s', g') :: g == g'
  {
    forall g, g', m | m in Held(s', g) && m in Held(s', g') ensures g == g' {
      assert g == h || m in Held(s, g);
      assert g' == h || m in Held(s, g');
    }
  }

  lemma HandingKeepsInv(s: State, s': State, h: Holder, ids: set<Id>, now: Time, limits: Limits)
    requires Inv(s, limits) && Hands(s, s', h, ids) && s'.objects == s.objects
    requires s'.media == Reassign(s.media, Held(s, h), ids, now)
    requires forall m | m in ids :: m in s.media && s.media[m].status == Uploaded && OwnerOf(s', h) == Some(s.media[m].owner)
    ensures Inv(s', limits)
  {
    HandingKeepsReferences(s, s', h, ids, now);
    assert forall m | m in Held(s, h) :: s.media[m].status == Attached;
    SameFilesKeep(s.media, s'.media, limits);
  }

  /** What the attaching operations do when they succeed: one holder's media are exchanged. */
  lemma ReplaceHands(s: State, post: Id, owner: Id, ids: seq<Id>, now: Time)
    requires ReplacePostMedia(s, post, owner, ids, now).error.None?
    ensures var s' := ReplacePostMedia(s, post, owner, ids, now).after;
      && Hands(s, s', Post(post), Elements(ids)) && s'.objects == s.objects
      && s'.media == Reassign(s.media, Held(s, Post(post)), Elements(ids), now)
    ensures forall m | m in Elements(ids) :: Available(s, m, owner, ForPost)
  {
  }

  lemma SetPictureHands(s: State, user: Id, cover: bool, choice: Option<Id>, now: Time)
    requires SetPicture(s, user, cover, choice, now).error.None?
    ensures var s' := SetPicture(s, user, cover, choice, now).after;
      var h := if cover then Cover(user) else Avatar(user);
      var ids := if choice.Some? then {choice.value} else {};
      && Hands(s, s', h, ids) && s'.objects == s.objects
      && s'.media == Reassign(s.media, Held(s, h), ids, now)
      && forall m | m in ids :: Available(s, m, user, if cover then ForCover else ForAvatar)
  {
  }

  lemma CreateMessageHands(s: State, message: Id, sender: Id, ids: seq<Id>, now: Time)
    requires CreateMessage(s, message, sender, ids, now).error.None?
    ensures var s' := CreateMessage(s, message, sender, ids, now).after;
      && Hands(s, s', Message(message), Elements(ids)) && s'.objects == s.objects
      && s'.media == Reassign(s.media, Held(s, Message(message)), Elements(ids), now)
    ensures forall m | m in Elements(ids) :: Available(s, m, sender, ForMessage)
  {
  }

  lemma ReplaceKeepsInv(s: State, post: Id, owner: Id, ids: seq<Id>, now: Time, limits: Limits)
    requires Inv(s, limits) && post in s.authors && s.authors[post] == owner
    ensures Inv(ReplacePostMedia(s, post, owner, ids, now).after, limits)
  {
    var o := ReplacePostMedia(s, post, owner, ids, now);
    if o.error.None? {
      ReplaceHands(s, post, owner, ids, now);
      HandingKeepsInv(s, o.after, Post(post), Elements(ids), now, limits);
    }
  }

  lemma SetPictureKeepsInv(s: State, user: Id, cover: bool, choice: Option<Id>, now: Time, limits: Limits)
    requires Inv(s, limits)
    ensures Inv(SetPicture(s, user, cover, choice, now).after, limits)
  {
    var o := SetPicture(s, user, cover, choice, now);
    if o.error.None? {
      SetPictureHands(s, user, cover, choice, now);
      var h := if cover then Cover(user) else Avatar(user);
      HandingKeepsInv(s, o.after, h, if choice.Some? then {choice.value} else {}, now, limits);
    }
  }

  lemma CreateMessageKeepsInv(s: State, message: Id, sender: Id, ids: seq<Id>, now: Time, limits: Limits)
    requires Inv(s, limits)
    ensures Inv(CreateMessage(s, message, sender, ids, now).after, limits)
  {
    var o := CreateMessage(s, message, sender, ids, now);
    if o.error.None? {
      CreateMessageHands(s, message, sender, ids, now);
      HandingKeepsInv(s, o.after, Message(message), Elements(ids), now, limits);
    }
  }

  /** Forgetting references alone does no harm. */
  lemma LettingGoKeepsInv(s: State, s': State, limits: Limits)
    requires Inv(s, limits) && s'.media == s.media && s'.objects == s.objects
    requires forall h | Held(s', h) != {} :: Held(s', h) == Held(s, h) && OwnerOf(s', h) == OwnerOf(s, h)
    ensures Inv(s', limits)
  {
  }

  lemma RemovedKey(media: map<Id, Medium>, gone: set<Id>, now: Time, k: string)
    requires Rows(media) && forall m | m in gone :: m in media
    ensures k in KeptKeys(Remove(media, gone, now)) <==> k in KeptKeys(media) && k !in KeysOf(media, gone)
  {
    var media' := Remove(media, gone, now);
    if k in KeptKeys(media) {
      var m :| m in media && media[m].deletedAt.None? && media[m].key == k;
      assert m in gone ==> k in KeysOf(media, gone);
      assert m !in gone ==> m in media' && media'[m] == media[m];
    }
    if k in KeptKeys(media') {
      var m :| m in media' && media'[m].deletedAt.None? && media'[m].key == k;
      assert m in media && m !in gone && media[m] == media'[m];
    }
  }

  /** Deleting rows that nobody holds takes exactly their objects. */
  lemma RemovingKeepsInv(s: State, gone: set<Id>, now: Time, limits: Limits)
    requires Inv(s, limits)
    requires forall m | m in gone :: m in s.media && s.media[m].status == Uploaded
    ensures Inv(s.(objects := s.objects - KeysOf(s.media, gone), media := Remove(s.media, gone, now)), limits)
  {
    var media' := Remove(s.media, gone, now);
    var s' := s.(objects := s.objects - KeysOf(s.media, gone), media := media');
    assert forall h :: Held(s', h) == Held(s, h) && OwnerOf(s', h) == OwnerOf(s, h);
    assert Stored(s') by {
      forall k ensures k in s'.objects <==> k in KeptKeys(media') { RemovedKey(s.media, gone, now, k); }
    }
    assert Sizes(media') == Sizes(s.media);
    forall u ensures Usage(media', u) <= limits.bytes && |Kept(media', u)| <= limits.files {
      SumSubset(Sizes(s.media), Kept(media', u), Kept(s.media, u));
    }
  }

  lemma UploadKept(media: map<Id, Medium>, id: Id, row: Medium, u: Id)
    requires id !in media && row.deletedAt.None?
    ensures Kept(media[id := row], u) == Kept(media, u) + if u == row.owner then {id} else {}
    ensures id !in Kept(media, u)
  {
  }

  /** An upload adds its size and one file to its owner's usage, and nothing to anyone else's. */
  lemma UploadUsage(media: map<Id, Medium>, id: Id, row: Medium, u: Id)
    requires id !in media && row.deletedAt.None?
    ensures Usage(media[id := row], u) == Usage(media, u) + if u == row.owner then row.size else 0
    ensures |Kept(media[id := row], u)| == |Kept(media, u)| + if u == row.owner then 1 else 0
  {
    var before, f := Kept(media, u), Sizes(media);
    assert Sizes(media[id := row]) == f[id := row.size];
    SumNewKey(f, before, id, row.size);
    UploadKept(media, id, row, u);
    if u == row.owner {
      assert Kept(media[id := row], u) == before + {id};
    } else {
      assert Kept(media[id := row], u) == before;
    }
  }

  lemma UploadKeepsQuota(media: map<Id, Medium>, id: Id, row: Medium, limits: Limits)
    requires WithinQuota(media, limits) && id !in media && row.deletedAt.None?
    requires Usage(media, row.owner) + row.size <= limits.bytes && |Kept(media, row.owner)| < limits.files
    ensures WithinQuota(media[id := row], limits)
  {
    var media' := media[id := row];
    forall u ensures Usage(media', u) <= limits.bytes && |Kept(media', u)| <= limits.files {
      UploadUsage(media, id, row, u);
    }
  }

  lemma UploadKeepsInv(s: State, limits: Limits, q: Upload)
    requires Inv(s, limits) && FreshKey(s, DoUpload(q))
    ensures Inv(UploadMedia(s, limits, q).after, limits)
  {
    var o := UploadMedia(s, limits, q);
    if o.error.None? {
      assert WithinQuota(o.after.media, limits) by { UploadKeepsQuota(s.media, q.id, o.after.media[q.id], limits); }
      assert References(o.after) by { UploadKeepsReferences(s, o.after, q.id); }
      forall k ensures k in o.after.objects <==> k in KeptKeys(o.after.media) { UploadedKeys(s, o.after, q.id, k); }
    } else {
      assert q.key !in KeptKeys(s.media);
      assert o.after == s;
    }
  }

  lemma UploadKeepsReferences(s: State, s': State, id: Id)
    requires References(s) && id !in s.media && id in s'.media
    requires s' == s.(media := s.media[id := s'.media[id]], objects := s'.objects)
    ensures References(s')
  {
    assert forall h :: Held(s', h) == Held(s, h) && OwnerOf(s', h) == OwnerOf(s, h);
  }

  lemma UploadedKeys(s: State, s': State, id: Id, k: string)
    requires Stored(s) && id !in s.media && id in s'.media && s'.media == s.media[id := s'.media[id]]
    requires s'.objects == s.objects + {s'.media[id].key} && s'.media[id].deletedAt.None?
    ensures k in s'.objects <==> k in KeptKeys(s'.media)
  {
    if k in s.objects {
      var m :| m in s.media && s.media[m].deletedAt.None? && s.media[m].key == k;
      assert m in s'.media && s'.media[m] == s.media[m];
    }
  }

  lemma CreatePostKeepsInv(s: State, post: Id, author: Id, ids: seq<Id>, now: Time, limits: Limits)
    requires Inv(s, limits)
    ensures Inv(CreatePost(s, post, author, ids, now).after, limits)
  {
    if post !in s.authors && post !in s.postMedia {
      var s1 := s.(authors := s.authors[post := author]);
      LettingGoKeepsInv(s, s1, limits);
      ReplaceKeepsInv(s1, post, author, ids, now, limits);
    }
  }

  lemma UpdateUserKeepsInv(s: State, u: Id, avatar: Option<Option<Id>>, cover: Option<Option<Id>>, restOk: bool, now: Time, limits: Limits)
    requires Inv(s, limits)
    ensures Inv(UpdateUser(s, u, avatar, cover, restOk, now).after, limits)
  {
    if avatar.Some? { SetPictureKeepsInv(s, u, false, avatar.value, now, limits); }
    var o := if avatar.Some? then SetPicture(s, u, false, avatar.value, now) else Done(s);
    if cover.Some? { SetPictureKeepsInv(o.after, u, true, cover.value, now, limits); }
  }

  lemma DeleteKeepsInv(s: State, m: Id, owner: Id, now: Time, limits: Limits)
    requires Inv(s, limits)
    ensures Inv(DeleteMedia(s, m, owner, now).after, limits)
  {
    if DeleteMedia(s, m, owner, now).error.None? {
      assert KeysOf(s.media, {m}) == {s.media[m].key};
      RemovingKeepsInv(s, {m}, now, limits);
    }
  }

  lemma ForgettingKeepsInv(s: State, op: Op, limits: Limits)
    requires Inv(s, limits) && (op.DoPurge? || op.DoErase?)
    ensures Inv(Step(s, limits, op), limits)
  {
    LettingGoKeepsInv(s, Step(s, limits, op), limits);
  }

  lemma StepKeepsInv(s: State, limits: Limits, op: Op)
    requires Inv(s, limits) && FreshKey(s, op)
    ensures Inv(Step(s, limits, op), limits)
  {
    match op
    case DoUpload(q) => UploadKeepsInv(s, limits, q);
    case DoCreatePost(p, author, ids, now) => CreatePostKeepsInv(s, p, author, ids, now, limits);
    case DoSetPostMedia(p, owner, ids, now) =>
      if p in s.authors && s.authors[p] == owner { ReplaceKeepsInv(s, p, owner, ids, now, limits); }
    case DoCreateMessage(x, sender, ids, now) => CreateMessageKeepsInv(s, x, sender, ids, now, limits);
    case DoUpdateUser(u, avatar, cover, restOk, now) => UpdateUserKeepsInv(s, u, avatar, cover, restOk, now, limits);
    case DoDelete(m, owner, now) => DeleteKeepsInv(s, m, owner, now, limits);
    case DoCleanup(olderThan, now) => RemovingKeepsInv(s, Orphans(s, olderThan), now, limits);
    case _ => ForgettingKeepsInv(s, op, limits);
  }

  /** The tables and the bucket before the first upload, for any users. */
  function Empty(users: set<Id>): State {
    State(users, map[], {}, map[], map[], map[], map[], map[], map[])
  }

  lemma EmptyInv(users: set<Id>, limits: Limits)
    ensures Inv(Empty(users), limits)
  {
  }

  lemma {:induction false} RunKeepsInv(s: State, limits: Limits, ops: seq<Op>)
    requires Inv(s, limits) && FreshKeys(s, limits, ops)
    ensures Inv(Run(s, limits, ops), limits)
    decreases |ops|
  {
    if ops != [] {
      StepKeepsInv(s, limits, ops[0]);
      RunKeepsInv(Step(s, limits, ops[0]), limits, ops[1..]);
    }
  }

  /** References, quota and storage hold in every run. */
  lemma EveryRunAgrees(users: set<Id>, limits: Limits, ops: seq<Op>)
    requires FreshKeys(Empty(users), limits, ops)
    ensures Inv(Run(Empty(users), limits, ops), limits)
  {
    EmptyInv(users, limits);
    RunKeepsInv(Empty(users), limits, ops);
  }

  /* ---- what deletion can reach ---- */

  /** Deleting and the orphan cleanup never touch a medium somebody references, nor its object. */
  lemma DeletionSparesHeld(s: State, limits: Limits, op: Op, h: Holder, m: Id)
    requires Inv(s, limits) && (op.DoDelete? || op.DoCleanup?) && m in Held(s, h)
    ensures var s' := Step(s, limits, op);
      m in Held(s', h) && m in s'.media && s'.media[m] == s.media[m] && s.media[m].key in s'.objects
  {
    assert Attaches(s, h, m);
    StepKeepsInv(s, limits, op);
    var s' := Step(s, limits, op);
    assert s'.media[m].deletedAt.None?;
  }

  /** So in every run the object of every referenced medium is in the bucket. */
  lemma ReferencedObjectsStored(users: set<Id>, limits: Limits, ops: seq<Op>, h: Holder, m: Id)
    requires FreshKeys(Empty(users), limits, ops) && m in Held(Run(Empty(users), limits, ops), h)
    ensures var t := Run(Empty(users), limits, ops);
      m in t.media && t.media[m].key in t.objects && OwnerOf(t, h) == Some(t.media[m].owner)
  {
    EveryRunAgrees(users, limits, ops);
    assert Attaches(Run(Empty(users), limits, ops), h, m);
  }

  /* ---- attached means held, unless a purge or an erasure took the holder ---- */

  ghost predicate IsHeld(s: State, m: Id) { exists h :: m in Held(s, h) }

  /** Attached to nothing. */
  ghost predicate Stranded(s: State, m: Id) {
    m in s.media && s.media[m].status == Attached && s.media[m].deletedAt.None? && !IsHeld(s, m)
  }

  ghost predicate Loose(s: State, m: Id) { m in s.media && s.media[m].status == Attached && !IsHeld(s, m) }

  ghost predicate StrandsNothing(s: State, s': State) { forall m | Loose(s', m) :: Loose(s, m) }

  lemma HandingStrandsNothing(s: State, s': State, h: Holder, ids: set<Id>, now: Time)
    requires Hands(s, s', h, ids)
    requires s'.media == Reassign(s.media, Held(s, h), ids, now)
    ensures StrandsNothing(s, s')
  {
    forall m | Loose(s', m) ensures Loose(s, m) {
      forall g ensures m !in Held(s, g) { assert m !in Held(s', g) && m !in Held(s', h); }
    }
  }

  /** Steps that change no reference and attach nothing. */
  lemma QuietStrandsNothing(s: State, s': State)
    requires s'.postMedia == s.postMedia && s'.messageMedia == s.messageMedia && s'.avatars == s.avatars && s'.covers == s.covers
    requires forall m | m in s'.media && s'.media[m].status == Attached :: m in s.media && s.media[m].status == Attached
    ensures StrandsNothing(s, s')
  {
    assert forall h :: Held(s', h) == Held(s, h);
  }

  lemma ReplaceStrandsNothing(s: State, post: Id, owner: Id, ids: seq<Id>, now: Time)
    ensures StrandsNothing(s, ReplacePostMedia(s, post, owner, ids, now).after)
  {
    var o := ReplacePostMedia(s, post, owner, ids, now);
    if o.error.None? {
      ReplaceHands(s, post, owner, ids, now);
      HandingStrandsNothing(s, o.after, Post(post), Elements(ids), now);
    }
  }

  lemma SetPictureStrandsNothing(s: State, user: Id, cover: bool, choice: Option<Id>, now: Time)
    ensures StrandsNothing(s, SetPicture(s, user, cover, choice, now).after)
  {
    var o := SetPicture(s, user, cover, choice, now);
    if o.error.None? {
      SetPictureHands(s, user, cover, choice, now);
      HandingStrandsNothing(s, o.after, if cover then Cover(user) else Avatar(user), if choice.Some? then {choice.value} else {}, now);
    }
  }

  lemma UpdateUserStrandsNothing(s: State, u: Id, avatar: Option<Option<Id>>, cover: Option<Option<Id>>, restOk: bool, now: Time)
    ensures StrandsNothing(s, UpdateUser(s, u, avatar, cover, restOk, now).after)
  {
    if avatar.Some? { SetPictureStrandsNothing(s, u, false, avatar.value, now); }
    var o := if avatar.Some? then SetPicture(s, u, false, avatar.value, now) else Done(s);
    if cover.Some? { SetPictureStrandsNothing(o.after, u, true, cover.value, now); }
  }

  lemma CreateStrandsNothing(s: State, limits: Limits, op: Op)
    requires op.DoCreatePost? || op.DoCreateMessage?
    ensures StrandsNothing(s, Step(s, limits, op))
  {
    if op.DoCreatePost? {
      var s1 := s.(authors := s.authors[op.post := op.author]);
      QuietStrandsNothing(s, s1);
      ReplaceStrandsNothing(s1, op.post, op.author, op.ids, op.now);
    } else {
      var o := CreateMessage(s, op.message, op.sender, op.ids, op.now);
      if o.error.None? {
        CreateMessageHands(s, op.message, op.sender, op.ids, op.now);
        HandingStrandsNothing(s, o.after, Message(op.message), Elements(op.ids), op.now);
      }
    }
  }

  /** Same references, and every attached row that is not deleted stays as it is. */
  ghost predicate Quiet(s: State, s': State) {
    && s' == s.(objects := s'.objects, media := s'.media)
    && (forall m | m in s'.media && s'.media[m].status == Attached :: m in s.media && s.media[m].status == Attached)
    && (forall m | m in s.media && s.media[m].status == Attached && s.media[m].deletedAt.None? ::
          m in s'.media && s'.media[m] == s.media[m])
  }

  lemma NewRowIsQuiet(s: State, id: Id, row: Medium, objects: set<string>)
    requires id !in s.media && row.status == Uploaded
    ensures Quiet(s, s.(objects := objects, media := s.media[id := row]))
  {
  }

  lemma UploadIsQuiet(s: State, limits: Limits, q: Upload)
    ensures Quiet(s, UploadMedia(s, limits, q).after)
  {
    var o := UploadMedia(s, limits, q);
    if o.error.None? { NewRowIsQuiet(s, q.id, o.after.media[q.id], o.after.objects); }
  }

  lemma DeleteIsQuiet(s: State, m: Id, owner: Id, now: Time)
    ensures Quiet(s, DeleteMedia(s, m, owner, now).after)
  {
  }

  lemma CleanupIsQuiet(s: State, olderThan: Time, now: Time)
    ensures Quiet(s, Cleanup(s, olderThan, now).after)
  {
  }

  lemma StorageIsQuiet(s: State, limits: Limits, op: Op)
    requires op.DoUpload? || op.DoDelete? || op.DoCleanup?
    ensures Quiet(s, Step(s, limits, op))
  {
    if op.DoUpload? { UploadIsQuiet(s, limits, op.q); }
    else if op.DoDelete? { DeleteIsQuiet(s, op.medium, op.owner, op.now); }
    else { CleanupIsQuiet(s, op.olderThan, op.now); }
  }

  lemma StepStrandsNothing(s: State, limits: Limits, op: Op)
    requires !op.DoPurge? && !op.DoErase?
    ensures StrandsNothing(s, Step(s, limits, op))
  {
    if op.DoSetPostMedia? { ReplaceStrandsNothing(s, op.post, op.owner, op.ids, op.now); }
    else if op.DoUpdateUser? { UpdateUserStrandsNothing(s, op.user, op.avatar, op.cover, op.restOk, op.now); }
    else if op.DoCreatePost? || op.DoCreateMessage? { CreateStrandsNothing(s, limits, op); }
    else {
      StorageIsQuiet(s, limits, op);
      QuietStrandsNothing(s, Step(s, limits, op));
    }
  }

  /** A purge strands exactly the media of the messages it removes. */
  lemma PurgeStrands(s: State, limits: Limits, messages: set<Id>, m: Id)
    requires Inv(s, limits)
    ensures Stranded(Purge(s, messages).after, m) <==> Stranded(s, m) || exists x :: x in messages && m in Held(s, Message(x))
  {
    var t := Purge(s, messages).after;
    assert forall h: Holder | !(h.Message? && h.id in messages) :: Held(t, h) == Held(s, h);
    assert forall h: Holder | h.Message? && h.id in messages :: Held(t, h) == {};
    if IsHeld(s, m) {
      var h :| m in Held(s, h);
      assert Attaches(s, h, m);
      if h.Message? && h.id in messages {
        assert forall g | m in Held(t, g) :: m in Held(s, g);
      } else {
        assert m in Held(t, h);
      }
    }
  }

  /** An erasure strands exactly the user's pictures. */
  lemma EraseStrands(s: State, limits: Limits, user: Id, m: Id)
    requires Inv(s, limits)
    ensures Stranded(EraseUser(s, user).after, m) <==> Stranded(s, m) || m in Held(s, Avatar(user)) || m in Held(s, Cover(user))
  {
    var t := EraseUser(s, user).after;
    assert Held(t, Avatar(user)) == {} && Held(t, Cover(user)) == {};
    assert forall h: Holder | h != Avatar(user) && h != Cover(user) :: Held(t, h) == Held(s, h);
    if IsHeld(s, m) {
      var h :| m in Held(s, h);
      assert Attaches(s, h, m);
      if h == Avatar(user) || h == Cover(user) {
        assert forall g | m in Held(t, g) :: m in Held(s, g);
      } else {
        assert m in Held(t, h);
      }
    }
  }

  lemma HandingKeepsStranded(s: State, s': State, h: Holder, ids: set<Id>, now: Time, m: Id)
    requires Stranded(s, m) && Hands(s, s', h, ids) && m !in ids
    requires s'.media == Reassign(s.media, Held(s, h), ids, now)
    ensures Stranded(s', m)
  {
    assert m !in Held(s, h);
    forall g ensures m !in Held(s', g) { assert m !in Held(s, g); }
  }

  /** Steps that take no reference to the medium and do not touch its row. */
  lemma QuietKeepsStranded(s: State, s': State, m: Id)
    requires Stranded(s, m) && m in s'.media && s'.media[m] == s.media[m]
    requires forall h :: Held(s', h) <= Held(s, h)
    ensures Stranded(s', m)
  {
    forall g ensures m !in Held(s', g) { assert m !in Held(s, g); }
  }

  lemma ReplaceKeepsStranded(s: State, post: Id, owner: Id, ids: seq<Id>, now: Time, m: Id)
    requires Stranded(s, m)
    ensures Stranded(ReplacePostMedia(s, post, owner, ids, now).after, m)
  {
    var o := ReplacePostMedia(s, post, owner, ids, now);
    if o.error.None? {
      ReplaceHands(s, post, owner, ids, now);
      assert m !in Elements(ids);
      HandingKeepsStranded(s, o.after, Post(post), Elements(ids), now, m);
    }
  }

  lemma SetPictureKeepsStranded(s: State, user: Id, cover: bool, choice: Option<Id>, now: Time, m: Id)
    requires Stranded(s, m)
    ensures Stranded(SetPicture(s, user, cover, choice, now).after, m)
  {
    var o := SetPicture(s, user, cover, choice, now);
    if o.error.None? {
      SetPictureHands(s, user, cover, choice, now);
      HandingKeepsStranded(s, o.after, if cover then Cover(user) else Avatar(user), if choice.Some? then {choice.value} else {}, now, m);
    }
  }

  lemma UpdateUserKeepsStranded(s: State, u: Id, avatar: Option<Option<Id>>, cover: Option<Option<Id>>, restOk: bool, now: Time, m: Id)
    requires Stranded(s, m)
    ensures Stranded(UpdateUser(s, u, avatar, cover, restOk, now).after, m)
  {
    if avatar.Some? { SetPictureKeepsStranded(s, u, false, avatar.value, now, m); }
    var o := if avatar.Some? then SetPicture(s, u, false, avatar.value, now) else Done(s);
    if cover.Some? { SetPictureKeepsStranded(o.after, u, true, cover.value, now, m); }
  }

  lemma CreateKeepsStranded(s: State, limits: Limits, op: Op, m: Id)
    requires Stranded(s, m) && (op.DoCreatePost? || op.DoCreateMessage?)
    ensures Stranded(Step(s, limits, op), m)
  {
    if op.DoCreatePost? {
      var s1 := s.(authors := s.authors[op.post := op.author]);
      QuietKeepsStranded(s, s1, m);
      ReplaceKeepsStranded(s1, op.post, op.author, op.ids, op.now, m);
    } else {
      var o := CreateMessage(s, op.message, op.sender, op.ids, op.now);
      if o.error.None? {
        CreateMessageHands(s, op.message, op.sender, op.ids, op.now);
        HandingKeepsStranded(s, o.after, Message(op.message), Elements(op.ids), op.now, m);
      }
    }
  }

  lemma StorageKeepsStranded(s: State, limits: Limits, op: Op, m: Id)
    requires Stranded(s, m) && (op.DoUpload? || op.DoDelete? || op.DoCleanup?)
    ensures Stranded(Step(s, limits, op), m)
  {
    StorageIsQuiet(s, limits, op);
    QuietKeepsStranded(s, Step(s, limits, op), m);
  }

  lemma ForgettingKeepsStranded(s: State, limits: Limits, op: Op, m: Id)
    requires Stranded(s, m) && (op.DoPurge? || op.DoErase?)
    ensures Stranded(Step(s, limits, op), m)
  {
    QuietKeepsStranded(s, Step(s, limits, op), m);
  }

  lemma StepKeepsStranded(s: State, limits: Limits, op: Op, m: Id)
    requires Stranded(s, m)
    ensures Stranded(Step(s, limits, op), m)
  {
    if op.DoSetPostMedia? { ReplaceKeepsStranded(s, op.post, op.owner, op.ids, op.now, m); }
    else if op.DoUpdateUser? { UpdateUserKeepsStranded(s, op.user, op.avatar, op.cover, op.restOk, op.now, m); }
    else if op.DoCreatePost? || op.DoCreateMessage? { CreateKeepsStranded(s, limits, op, m); }
    else if op.DoPurge? || op.DoErase? { ForgettingKeepsStranded(s, limits, op, m); }
    else { StorageKeepsStranded(s, limits, op, m); }
  }

  /**
   A stranded medium is out of every operation's reach: whatever the run, it stays
   attached to nothing, undeletable, and counted in its owner's quota.
   */
  lemma {:induction false} StrandedForever(s: State, limits: Limits, ops: seq<Op>, m: Id)
    requires Stranded(s, m)
    ensures Stranded(Run(s, limits, ops), m)
    decreases |ops|
  {
    if ops != [] {
      StepKeepsStranded(s, limits, ops[0], m);
      StrandedForever(Step(s, limits, ops[0]), limits, ops[1..], m);
    }
  }

  /** Whether a step takes the holder of a medium and leaves the medium. */
  predicate Strands(s: State, op: Op, m: Id) {
    || (op.DoPurge? && exists x | x in op.messages :: m in Held(s, Message(x)))
    || (op.DoErase? && (m in Held(s, Avatar(op.user)) || m in Held(s, Cover(op.user))))
  }

  ghost predicate StrandedDuring(s: State, limits: Limits, ops: seq<Op>, m: Id)
    decreases |ops|
  {
    ops != [] && (Strands(s, ops[0], m) || StrandedDuring(Step(s, limits, ops[0]), limits, ops[1..], m))
  }

  lemma StepStrandsExactly(s: State, limits: Limits, op: Op, m: Id)
    requires Inv(s, limits) && FreshKey(s, op)
    ensures Stranded(Step(s, limits, op), m) <==> Stranded(s, m) || Strands(s, op, m)
  {
    if op.DoPurge? { PurgeStrands(s, limits, op.messages, m); }
    else if op.DoErase? { EraseStrands(s, limits, op.user, m); }
    else {
      if Stranded(s, m) { StepKeepsStranded(s, limits, op, m); }
      StepStrandsNothing(s, limits, op);
      assert Stranded(Step(s, limits, op), m) ==> Loose(s, m);
      assert Rows(s.media);
    }
  }

  lemma {:induction false} RunStrandsExactly(s: State, limits: Limits, ops: seq<Op>, m: Id)
    requires Inv(s, limits) && FreshKeys(s, limits, ops)
    ensures Stranded(Run(s, limits, ops), m) <==> Stranded(s, m) || StrandedDuring(s, limits, ops, m)
    decreases |ops|
  {
    if ops != [] {
      StepStrandsExactly(s, limits, ops[0], m);
      StepKeepsInv(s, limits, ops[0]);
      RunStrandsExactly(Step(s, limits, ops[0]), limits, ops[1..], m);
    }
  }

  /** In every run: attached is held, or stranded by a purge or an erasure of the run, and never both. */
  lemma AttachedExactly(users: set<Id>, limits: Limits, ops: seq<Op>, m: Id)
    requires FreshKeys(Empty(users), limits, ops)
    ensures var t := Run(Empty(users), limits, ops);
      var stranded := StrandedDuring(Empty(users), limits, ops, m);
      && (m in t.media && t.media[m].status == Attached <==> IsHeld(t, m) || stranded)
      && !(IsHeld(t, m) && stranded)
  {
    var t := Run(Empty(users), limits, ops);
    EmptyInv(users, limits);
    EveryRunAgrees(users, limits, ops);
    RunStrandsExactly(Empty(users), limits, ops, m);
    assert Rows(t.media);
    if IsHeld(t, m) {
      var h :| m in Held(t, h);
      assert Attaches(t, h, m);
    }
  }

  /** Without purges and erasures, attached and referenced are the same in every run. */
  lemma AttachedExactlyHeld(users: set<Id>, limits: Limits, ops: seq<Op>, m: Id)
    requires FreshKeys(Empty(users), limits, ops)
    requires forall i :: 0 <= i < |ops| ==> !ops[i].DoPurge? && !ops[i].DoErase?
    ensures var t := Run(Empty(users), limits, ops);
      (m in t.media && t.media[m].status == Attached) <==> IsHeld(t, m)
  {
    AttachedExactly(users, limits, ops, m);
    NothingStrands(Empty(users), limits, ops, m);
  }

  lemma {:induction false} NothingStrands(s: State, limits: Limits, ops: seq<Op>, m: Id)
    requires forall i :: 0 <= i < |ops| ==> !ops[i].DoPurge? && !ops[i].DoErase?
    ensures !StrandedDuring(s, limits, ops, m)
    decreases |ops|
  {
    if ops != [] { NothingStrands(Step(s, limits, ops[0]), limits, ops[1..], m); }
  }

  lemma RunOneMore(s: State, limits: Limits, op: Op, rest: seq<Op>)
    ensures Run(s, limits, [op] + rest) == Run(Step(s, limits, op), limits, rest)
  {
    assert ([op] + rest)[1..] == rest;
  }

  lemma FirstUpload(limits: Limits, q: Upload)
    requires q.kind == Some(Image) && q.size <= SizeLimit(q.purpose, Image) && q.saved
    requires q.size <= limits.bytes && limits.files > 0 && limits.pending > 0
    ensures UploadMedia(Empty({q.owner}), limits, q).after
         == Empty({q.owner}).(objects := {q.key}, media := map[q.id := Medium(q.owner, q.purpose, Image, q.size, q.key, Uploaded, q.now, None, None)])
  {
    var s := Empty({q.owner});
    assert Kept(s.media, q.owner) == {} && PendingOf(s.media, q.owner) == {} && Usage(s.media, q.owner) == 0;
  }

  /** It happens: a message with a medium is purged. */
  lemma PurgedMediumStranded(limits: Limits, q: Upload, x: Id, now: Time)
    requires q.kind == Some(Image) && q.purpose == ForMessage && q.size <= SizeLimit(ForMessage, Image) && q.saved
    requires q.size <= limits.bytes && limits.files > 0 && limits.pending > 0
    ensures Stranded(Run(Empty({q.owner}), limits, [DoUpload(q), DoCreateMessage(x, q.owner, [q.id], now), DoPurge({x})]), q.id)
  {
    FirstUpload(limits, q);
    var create, purge := DoCreateMessage(x, q.owner, [q.id], now), DoPurge({x});
    var s1 := Step(Empty({q.owner}), limits, DoUpload(q));
    var s2 := Step(s1, limits, create);
    var s3 := Step(s2, limits, purge);
    OneUsable(s1, q.id);
    assert s2.media[q.id].status == Attached && s2.messageMedia == map[x := [q.id]];
    assert s3.messageMedia == map[] && s3.postMedia == map[] && s3.avatars == map[] && s3.covers == map[];
    assert [DoUpload(q), create, purge] == [DoUpload(q)] + ([create] + ([purge] + []));
    RunOneMore(Empty({q.owner}), limits, DoUpload(q), [create] + ([purge] + []));
    RunOneMore(s1, limits, create, [purge] + []);
    RunOneMore(s2, limits, purge, []);
  }

  /** And so: the account whose avatar it is gets erased. */
  lemma ErasedAvatarStranded(limits: Limits, q: Upload, now: Time)
    requires q.kind == Some(Image) && q.purpose == ForAvatar && q.size <= SizeLimit(ForAvatar, Image) && q.saved
    requires q.size <= limits.bytes && limits.files > 0 && limits.pending > 0
    ensures Stranded(Run(Empty({q.owner}), limits, [DoUpload(q), DoUpdateUser(q.owner, Some(Some(q.id)), None, true, now), DoErase(q.owner)]), q.id)
  {
    FirstUpload(limits, q);
    var update, erase := DoUpdateUser(q.owner, Some(Some(q.id)), None, true, now), DoErase(q.owner);
    var s1 := Step(Empty({q.owner}), limits, DoUpload(q));
    var s2 := Step(s1, limits, update);
    var s3 := Step(s2, limits, erase);
    assert s2.media[q.id].status == Attached && s2.avatars == map[q.owner := q.id];
    assert s3.avatars == map[] && s3.messageMedia == map[] && s3.postMedia == map[] && s3.covers == map[];
    assert [DoUpload(q), update, erase] == [DoUpload(q)] + ([update] + ([erase] + []));
    RunOneMore(Empty({q.owner}), limits, DoUpload(q), [update] + ([erase] + []));
    RunOneMore(s1, limits, update, [erase] + []);
    RunOneMore(s2, limits, erase, []);
  }

  lemma OneUsable(s: State, m: Id)
    ensures AtMostOneVideo(s, Elements([m]))
  {
    var videos := set n | n in Elements([m]) && n in s.media && s.media[n].kind == Video;
    assert videos <= {m};
    SubsetSize(videos, {m});
  }

  /* ---- upload ---- */

  /** Exactly when an upload is accepted; the pending limit never decides unless it is zero. */
  lemma UploadExactly(s: State, limits: Limits, q: Upload)
    requires Inv(s, limits) && limits.pending > 0
    ensures var o := UploadMedia(s, limits, q);
      && (o.error.None? <==>
            && q.kind.Some? && (q.purpose in {ForAvatar, ForCover} ==> q.kind.value == Image)
            && q.size <= SizeLimit(q.purpose, q.kind.value) && q.owner in s.users
            && Usage(s.media, q.owner) + q.size <= limits.bytes && |Kept(s.media, q.owner)| < limits.files
            && q.saved && q.id !in s.media && (forall m | m in s.media :: s.media[m].key != q.key))
      && (o.error.None? ==> Usage(o.after.media, q.owner) == Usage(s.media, q.owner) + q.size && q.key in o.after.objects)
      && (o.error.Some? ==> o.after.media == s.media)
  {
    assert PendingOf(s.media, q.owner) == {} by {
      forall m | m in Kept(s.media, q.owner) ensures s.media[m].status != Pending {}
    }
    var o := UploadMedia(s, limits, q);
    if o.error.None? { UploadUsage(s.media, q.id, o.after.media[q.id], q.owner); }
  }

  /** A failed insert leaves the bucket right unless the drawn key was that of a kept row. */
  lemma FailedUploadExactly(s: State, limits: Limits, q: Upload)
    requires Inv(s, limits) && UploadMedia(s, limits, q).error == Some(InternalError)
    ensures Stored(UploadMedia(s, limits, q).after) <==> q.key !in KeptKeys(s.media)
  {
  }
}
