/**
 What each request on media does, told by rows, fields and storage keys alone:
 when it is accepted, with which error it is refused, and what it leaves behind.
 */
module MediaEffects {
  import opened Wrappers
  import opened Finite
  import opened MediaStore

  /* ---- upload ---- */

  /** How large an upload may be, in bytes. */
  predicate SizeOk(purpose: Purpose, kind: Kind, size: nat) {
    match (purpose, kind)
    case (ForAvatar, _) => size <= 5_242_880
    case (_, Image) => size <= 10_485_760
    case (_, Video) => size <= 104_857_600
  }

  ghost function BytesOf(s: State, owner: Id): nat {
    Sum(map m | m in s.media :: s.media[m].size, set m | m in s.media && s.media[m].owner == owner && s.media[m].deletedAt.None?)
  }

  function FilesOf(s: State, owner: Id): nat {
    |set m | m in s.media && s.media[m].owner == owner && s.media[m].deletedAt.None?|
  }

  function WaitingOf(s: State, owner: Id): nat {
    |set m | m in s.media && s.media[m].owner == owner && s.media[m].deletedAt.None? && s.media[m].status == Pending|
  }

  lemma UsageExactly(s: State, owner: Id)
    ensures Usage(s.media, owner) == BytesOf(s, owner) && |Kept(s.media, owner)| == FilesOf(s, owner)
    ensures |PendingOf(s.media, owner)| == WaitingOf(s, owner)
  {
    assert Sizes(s.media) == map m | m in s.media :: s.media[m].size;
    assert Kept(s.media, owner) == set m | m in s.media && s.media[m].owner == owner && s.media[m].deletedAt.None?;
    assert PendingOf(s.media, owner)
        == set m | m in s.media && s.media[m].owner == owner && s.media[m].deletedAt.None? && s.media[m].status == Pending;
  }

  predicate KindOk(q: Upload) { q.kind.Some? && (q.purpose == ForAvatar || q.purpose == ForCover ==> q.kind.value == Image) }

  ghost predicate QuotaOk(s: State, limits: Limits, q: Upload) {
    BytesOf(s, q.owner) + q.size <= limits.bytes && FilesOf(s, q.owner) < limits.files && WaitingOf(s, q.owner) < limits.pending
  }

  /** Every way an upload can end. */
  lemma UploadEffect(s: State, limits: Limits, q: Upload)
    ensures var o, t := Attempt(s, limits, DoUpload(q)), Step(s, limits, DoUpload(q));
      if !KindOk(q) then o.error == Some(Unsupported) && t == s
      else if !SizeOk(q.purpose, q.kind.value, q.size) then o.error == Some(TooLarge) && t == s
      else if q.owner !in s.users then o.error == Some(AuthInvalid) && t == s
      else if !QuotaOk(s, limits, q) then o.error == Some(QuotaExceeded) && t == s
      else if !q.saved || q.id in s.media || exists m | m in s.media :: s.media[m].key == q.key
      then o.error == Some(InternalError) && t == s.(objects := s.objects - {q.key})
      else
        && o.error.None? && t == s.(objects := s.objects + {q.key}, media := t.media)
        && t.media == s.media[q.id := Medium(q.owner, q.purpose, q.kind.value, q.size, q.key, Uploaded, q.now, None, None)]
  {
    UsageExactly(s, q.owner);
  }

  /* ---- attaching and releasing ---- */

  /** Uploaded by this owner for this purpose, and neither attached nor deleted. */
  predicate Usable(s: State, m: Id, owner: Id, purpose: Purpose) {
    && m in s.media && s.media[m].owner == owner && s.media[m].purpose == purpose
    && s.media[m].status == Uploaded && s.media[m].deletedAt.None?
  }

  predicate TwoVideos(s: State, ids: seq<Id>) {
    exists i, j | 0 <= i < j < |ids| :: ids[i] != ids[j] && IsVideo(s, ids[i]) && IsVideo(s, ids[j])
  }

  predicate IsVideo(s: State, m: Id) { m in s.media && s.media[m].kind == Video }

  lemma OneVideoExactly(s: State, ids: seq<Id>)
    ensures AtMostOneVideo(s, Elements(ids)) <==> !TwoVideos(s, ids)
  {
    var videos := set m | m in Elements(ids) && m in s.media && s.media[m].kind == Video;
    if TwoVideos(s, ids) {
      var i, j :| 0 <= i < j < |ids| && ids[i] != ids[j] && IsVideo(s, ids[i]) && IsVideo(s, ids[j]);
      assert {ids[i], ids[j]} <= videos;
      SubsetSize({ids[i], ids[j]}, videos);
    } else {
      forall a, b | a in videos && b in videos ensures a == b {
        var i :| 0 <= i < |ids| && ids[i] == a;
        var j :| 0 <= j < |ids| && ids[j] == b;
        assert IsVideo(s, ids[i]) && IsVideo(s, ids[j]);
      }
      if videos != {} {
        var a :| a in videos;
        assert videos == {a};
      }
    }
  }

  /** A medium as attaching at `now`, or letting go, leaves it; anything else of it stays. */
  function Handled(m: Medium, attached: bool, released: bool, now: Time): Medium {
    if attached then Medium(m.owner, m.purpose, m.kind, m.size, m.key, Attached, m.createdAt, Some(now), m.deletedAt)
    else if released then Medium(m.owner, m.purpose, m.kind, m.size, m.key, Uploaded, m.createdAt, None, m.deletedAt)
    else m
  }

  ghost predicate Exchanged(s: State, t: State, before: seq<Id>, after: seq<Id>, now: Time) {
    && t.media.Keys == s.media.Keys
    && forall m | m in s.media :: t.media[m] == Handled(s.media[m], m in after, m in before, now)
  }

  predicate PostMediaOk(s: State, owner: Id, ids: seq<Id>) {
    && (forall i, j | 0 <= i < j < |ids| :: ids[i] != ids[j])
    && (forall m <- ids :: Usable(s, m, owner, ForPost))
    && !TwoVideos(s, ids)
  }

  function MediaOf(s: State, post: Id): seq<Id> { if post in s.postMedia then s.postMedia[post] else [] }

  lemma PostMediaExactly(s: State, owner: Id, ids: seq<Id>)
    ensures PostMediaOk(s, owner, ids)
      <==> Distinct(ids) && (forall m | m in ids :: Available(s, m, owner, ForPost)) && AtMostOneVideo(s, Elements(ids))
  {
    OneVideoExactly(s, ids);
    assert forall m :: Available(s, m, owner, ForPost) <==> Usable(s, m, owner, ForPost);
  }

  /** Replacing a post's media: the author's own usable uploads, none twice, at most one video; the old ones go free. */
  lemma SetPostMediaEffect(s: State, limits: Limits, post: Id, owner: Id, ids: seq<Id>, now: Time)
    ensures var o, t := Attempt(s, limits, DoSetPostMedia(post, owner, ids, now)), Step(s, limits, DoSetPostMedia(post, owner, ids, now));
      var mine := post in s.authors && s.authors[post] == owner;
      && (o.error.None? <==> mine && PostMediaOk(s, owner, ids))
      && (o.error.Some? ==> t == s && o.error == Some(if mine then ValidationError else NotFound))
      && (o.error.None? ==>
            t == s.(media := t.media, postMedia := s.postMedia[post := ids]) && Exchanged(s, t, MediaOf(s, post), ids, now))
  {
    PostMediaExactly(s, owner, ids);
  }

  lemma CreatePostEffect(s: State, limits: Limits, post: Id, author: Id, ids: seq<Id>, now: Time)
    ensures var o, t := Attempt(s, limits, DoCreatePost(post, author, ids, now)), Step(s, limits, DoCreatePost(post, author, ids, now));
      var unknown := post !in s.authors && post !in s.postMedia;
      && (o.error.None? <==> unknown && PostMediaOk(s, author, ids))
      && (o.error.Some? ==> t == s && o.error == Some(if unknown then ValidationError else Conflict))
      && (o.error.None? ==>
            && t == s.(media := t.media, authors := s.authors[post := author], postMedia := s.postMedia[post := ids])
            && Exchanged(s, t, [], ids, now))
  {
    PostMediaExactly(s, author, ids);
    var s1 := s.(authors := s.authors[post := author]);
    assert forall m :: Available(s1, m, author, ForPost) <==> Available(s, m, author, ForPost);
    assert AtMostOneVideo(s1, Elements(ids)) <==> AtMostOneVideo(s, Elements(ids));
  }

  /** A message's media: the sender's own usable uploads, at most one video; an id given twice is refused last. */
  lemma CreateMessageEffect(s: State, limits: Limits, message: Id, sender: Id, ids: seq<Id>, now: Time)
    ensures var o, t := Attempt(s, limits, DoCreateMessage(message, sender, ids, now)), Step(s, limits, DoCreateMessage(message, sender, ids, now));
      var unknown := message !in s.senders && message !in s.messageMedia;
      var usable := (forall m <- ids :: Usable(s, m, sender, ForMessage)) && !TwoVideos(s, ids);
      var distinct := forall i, j | 0 <= i < j < |ids| :: ids[i] != ids[j];
      && (o.error.None? <==> unknown && usable && distinct)
      && (o.error.Some? ==> t == s && o.error == Some(if !unknown then Conflict else if !usable then ValidationError else InternalError))
      && (o.error.None? ==>
            && t == s.(media := t.media, senders := s.senders[message := sender], messageMedia := s.messageMedia[message := ids])
            && Exchanged(s, t, [], ids, now))
  {
    OneVideoExactly(s, ids);
    assert forall m :: Available(s, m, sender, ForMessage) <==> Usable(s, m, sender, ForMessage);
  }

  /* ---- avatars and covers ---- */

  predicate PictureOk(s: State, user: Id, purpose: Purpose, choice: Option<Option<Id>>) {
    choice.Some? && choice.value.Some? ==> Usable(s, choice.value.value, user, purpose) && s.media[choice.value.value].kind == Image
  }

  /** The pictures a user has after a change; an absent field changes nothing, a null removes. */
  function Picked(slots: map<Id, Id>, user: Id, choice: Option<Option<Id>>): map<Id, Id> {
    if choice.None? then slots else if choice.value.None? then slots - {user} else slots[user := choice.value.value]
  }

  predicate Freed(slots: map<Id, Id>, user: Id, choice: Option<Option<Id>>, m: Id) {
    choice.Some? && user in slots && slots[user] == m
  }

  function PurposeOf(h: Holder): Purpose {
    match h
    case Post(_) => ForPost
    case Message(_) => ForMessage
    case Avatar(_) => ForAvatar
    case Cover(_) => ForCover
  }

  /** Whatever is held was uploaded for that kind of holder. */
  ghost predicate Purposed(s: State) {
    forall h, m | m in Held(s, h) :: m in s.media && s.media[m].purpose == PurposeOf(h)
  }

  lemma SetPictureEffect(s: State, user: Id, cover: bool, choice: Option<Id>, now: Time)
    ensures var o, t := SetPicture(s, user, cover, choice, now), SetPicture(s, user, cover, choice, now).after;
      var slots := if cover then s.covers else s.avatars;
      && (o.error.None? <==> PictureOk(s, user, if cover then ForCover else ForAvatar, Some(choice)))
      && (o.error.Some? ==> t == s && o.error == Some(ValidationError))
      && (o.error.None? ==>
            && t == s.(media := t.media, avatars := if cover then s.avatars else Picked(slots, user, Some(choice)),
                       covers := if cover then Picked(slots, user, Some(choice)) else s.covers)
            && t.media.Keys == s.media.Keys
            && forall m | m in s.media :: t.media[m] == Handled(s.media[m], choice == Some(m), Freed(slots, user, Some(choice), m), now))
  {
  }

  /** Changing both pictures at once: each the user's own image uploaded for it, old ones go free, and all of it or nothing. */
  lemma UpdateUserEffect(s: State, limits: Limits, user: Id, avatar: Option<Option<Id>>, cover: Option<Option<Id>>, restOk: bool, now: Time)
    requires Inv(s, limits) && Purposed(s)
    ensures var o, t := Attempt(s, limits, DoUpdateUser(user, avatar, cover, restOk, now)), Step(s, limits, DoUpdateUser(user, avatar, cover, restOk, now));
      && (o.error.None? <==> PictureOk(s, user, ForAvatar, avatar) && PictureOk(s, user, ForCover, cover) && restOk)
      && (o.error.Some? ==> t == s && o.error == Some(ValidationError))
      && (o.error.None? ==>
            && t == s.(media := t.media, avatars := Picked(s.avatars, user, avatar), covers := Picked(s.covers, user, cover))
            && t.media.Keys == s.media.Keys
            && forall m | m in s.media :: t.media[m] ==
                 Handled(s.media[m], avatar == Some(Some(m)) || cover == Some(Some(m)),
                         Freed(s.avatars, user, avatar, m) || Freed(s.covers, user, cover, m), now))
  {
    var o := if avatar.Some? then SetPicture(s, user, false, avatar.value, now) else Done(s);
    if avatar.Some? { SetPictureEffect(s, user, false, avatar.value, now); }
    if o.error.None? {
      if cover.Some? { SetPictureEffect(o.after, user, true, cover.value, now); }
      CoverAfterAvatar(s, o.after, limits, user, avatar, cover, now);
    }
  }

  /** Whether a cover can be picked does not depend on an avatar picked before it, and no medium is handled twice. */
  lemma CoverAfterAvatar(s: State, t: State, limits: Limits, user: Id, avatar: Option<Option<Id>>, cover: Option<Option<Id>>, now: Time)
    requires Inv(s, limits) && Purposed(s) && PictureOk(s, user, ForAvatar, avatar)
    requires t.media.Keys == s.media.Keys
    requires forall m | m in s.media :: t.media[m] == Handled(s.media[m], avatar == Some(Some(m)), Freed(s.avatars, user, avatar, m), now)
    ensures PictureOk(t, user, ForCover, cover) <==> PictureOk(s, user, ForCover, cover)
    ensures PictureOk(s, user, ForCover, cover) ==> forall m | m in s.media ::
      !((avatar == Some(Some(m)) || Freed(s.avatars, user, avatar, m)) && (cover == Some(Some(m)) || Freed(s.covers, user, cover, m)))
  {
    if user in s.avatars {
      assert s.avatars[user] in Held(s, Avatar(user)) && Attaches(s, Avatar(user), s.avatars[user]);
    }
    if user in s.covers {
      assert s.covers[user] in Held(s, Cover(user)) && Attaches(s, Cover(user), s.covers[user]);
    }
  }

  lemma HandingKeepsPurposed(s: State, t: State, h: Holder, ids: set<Id>, now: Time)
    requires Purposed(s) && Hands(s, t, h, ids) && t.media == Reassign(s.media, Held(s, h), ids, now)
    requires forall m | m in ids :: m in s.media && s.media[m].purpose == PurposeOf(h)
    ensures Purposed(t)
  {
  }

  lemma SetPictureKeepsPurposed(s: State, user: Id, cover: bool, choice: Option<Id>, now: Time)
    requires Purposed(s)
    ensures Purposed(SetPicture(s, user, cover, choice, now).after)
  {
    var o := SetPicture(s, user, cover, choice, now);
    if o.error.None? {
      SetPictureHands(s, user, cover, choice, now);
      HandingKeepsPurposed(s, o.after, if cover then Cover(user) else Avatar(user), if choice.Some? then {choice.value} else {}, now);
    }
  }

  lemma ReplaceKeepsPurposed(s: State, post: Id, owner: Id, ids: seq<Id>, now: Time)
    requires Purposed(s)
    ensures Purposed(ReplacePostMedia(s, post, owner, ids, now).after)
  {
    var o := ReplacePostMedia(s, post, owner, ids, now);
    if o.error.None? {
      ReplaceHands(s, post, owner, ids, now);
      HandingKeepsPurposed(s, o.after, Post(post), Elements(ids), now);
    }
  }

  lemma CreateKeepsPurposed(s: State, limits: Limits, op: Op)
    requires Purposed(s) && (op.DoCreatePost? || op.DoCreateMessage?)
    ensures Purposed(Step(s, limits, op))
  {
    if op.DoCreatePost? {
      var s1 := s.(authors := s.authors[op.post := op.author]);
      assert forall h :: Held(s1, h) == Held(s, h);
      ReplaceKeepsPurposed(s1, op.post, op.author, op.ids, op.now);
    } else {
      var o := CreateMessage(s, op.message, op.sender, op.ids, op.now);
      if o.error.None? {
        CreateMessageHands(s, op.message, op.sender, op.ids, op.now);
        HandingKeepsPurposed(s, o.after, Message(op.message), Elements(op.ids), op.now);
      }
    }
  }

  lemma FewerKeepsPurposed(s: State, t: State)
    requires Purposed(s) && (forall h :: Held(t, h) <= Held(s, h))
    requires forall m | m in s.media :: m in t.media && t.media[m].purpose == s.media[m].purpose
    ensures Purposed(t)
  {
    forall h, m | m in Held(t, h) ensures m in t.media && t.media[m].purpose == PurposeOf(h) { assert m in Held(s, h); }
  }

  lemma UpdateUserKeepsPurposed(s: State, u: Id, avatar: Option<Option<Id>>, cover: Option<Option<Id>>, restOk: bool, now: Time)
    requires Purposed(s)
    ensures Purposed(UpdateUser(s, u, avatar, cover, restOk, now).after)
  {
    if avatar.Some? { SetPictureKeepsPurposed(s, u, false, avatar.value, now); }
    var o := if avatar.Some? then SetPicture(s, u, false, avatar.value, now) else Done(s);
    if cover.Some? { SetPictureKeepsPurposed(o.after, u, true, cover.value, now); }
  }

  lemma OthersKeepPurposed(s: State, limits: Limits, op: Op)
    requires Purposed(s) && (op.DoUpload? || op.DoPurge? || op.DoErase? || op.DoDelete? || op.DoCleanup?)
    ensures Purposed(Step(s, limits, op))
  {
    var t := Step(s, limits, op);
    if op.DoPurge? { FewerMessages(s, t, op.messages); }
    else if op.DoErase? { FewerPictures(s, t, op.user); }
    else if op.DoUpload? { UploadKeepsPurposes(s, limits, op.q); }
    else if op.DoDelete? { assert forall h :: Held(t, h) == Held(s, h); }
    else { assert forall h :: Held(t, h) == Held(s, h); }
    FewerKeepsPurposed(s, t);
  }

  lemma FewerMessages(s: State, t: State, messages: set<Id>)
    requires t == s.(senders := t.senders, messageMedia := s.messageMedia - messages)
    ensures forall h :: Held(t, h) <= Held(s, h)
  {
  }

  lemma FewerPictures(s: State, t: State, user: Id)
    requires t == s.(avatars := s.avatars - {user}, covers := s.covers - {user})
    ensures forall h :: Held(t, h) <= Held(s, h)
  {
  }

  lemma UploadKeepsPurposes(s: State, limits: Limits, q: Upload)
    ensures var t := UploadMedia(s, limits, q).after;
      && (forall h :: Held(t, h) <= Held(s, h))
      && (forall m | m in s.media :: m in t.media && t.media[m].purpose == s.media[m].purpose)
  {
    var t := UploadMedia(s, limits, q).after;
    assert forall h :: Held(t, h) == Held(s, h);
  }

  lemma StepKeepsPurposed(s: State, limits: Limits, op: Op)
    requires Purposed(s)
    ensures Purposed(Step(s, limits, op))
  {
    match op
    case DoSetPostMedia(post, owner, ids, now) => ReplaceKeepsPurposed(s, post, owner, ids, now);
    case DoUpdateUser(u, avatar, cover, restOk, now) => UpdateUserKeepsPurposed(s, u, avatar, cover, restOk, now);
    case DoCreatePost(_, _, _, _) => CreateKeepsPurposed(s, limits, op);
    case DoCreateMessage(_, _, _, _) => CreateKeepsPurposed(s, limits, op);
    case _ => OthersKeepPurposed(s, limits, op);
  }

  lemma {:induction false} RunKeepsPurposed(s: State, limits: Limits, ops: seq<Op>)
    requires Purposed(s)
    ensures Purposed(Run(s, limits, ops))
    decreases |ops|
  {
    if ops != [] {
      StepKeepsPurposed(s, limits, ops[0]);
      RunKeepsPurposed(Step(s, limits, ops[0]), limits, ops[1..]);
    }
  }

  /** In every run a medium is held only by the kind of holder it was uploaded for. */
  lemma HeldForPurpose(users: set<Id>, limits: Limits, ops: seq<Op>, h: Holder, m: Id)
    requires m in Held(Run(Empty(users), limits, ops), h)
    ensures var t := Run(Empty(users), limits, ops);
      && m in t.media
      && t.media[m].purpose == match h case Post(_) => ForPost case Message(_) => ForMessage case Avatar(_) => ForAvatar case Cover(_) => ForCover
  {
    var t := Run(Empty(users), limits, ops);
    assert Purposed(Empty(users)) by { assert forall h :: Held(Empty(users), h) == {}; }
    RunKeepsPurposed(Empty(users), limits, ops);
    assert t.media[m].purpose == PurposeOf(h);
  }

  /* ---- letting go and deleting ---- */

  /** Purges and erasures take references and leave every medium and object. */
  lemma ForgettingEffects(s: State, limits: Limits, messages: set<Id>, user: Id)
    ensures var t := Step(s, limits, DoPurge(messages));
      && t == s.(senders := t.senders, messageMedia := t.messageMedia)
      && (forall x :: x in t.senders <==> x in s.senders && x !in messages)
      && (forall x :: x in t.messageMedia <==> x in s.messageMedia && x !in messages)
      && (forall x | x in t.senders :: t.senders[x] == s.senders[x]) && (forall x | x in t.messageMedia :: t.messageMedia[x] == s.messageMedia[x])
    ensures var t := Step(s, limits, DoErase(user));
      && t == s.(avatars := t.avatars, covers := t.covers)
      && (forall u :: u in t.avatars <==> u in s.avatars && u != user) && (forall u :: u in t.covers <==> u in s.covers && u != user)
      && (forall u | u in t.avatars :: t.avatars[u] == s.avatars[u]) && (forall u | u in t.covers :: t.covers[u] == s.covers[u])
    ensures Attempt(s, limits, DoPurge(messages)).error.None? && Attempt(s, limits, DoErase(user)).error.None?
  {
  }

  /** A medium with its deletion marked at `now`. */
  function Gone(m: Medium, now: Time): Medium {
    Medium(m.owner, m.purpose, m.kind, m.size, m.key, Deleted, m.createdAt, m.attachedAt, Some(now))
  }

  /** Deleting: only one's own, only while it is not attached; that row and its object, and no other. */
  lemma DeleteEffect(s: State, limits: Limits, m: Id, owner: Id, now: Time)
    ensures var o, t := Attempt(s, limits, DoDelete(m, owner, now)), Step(s, limits, DoDelete(m, owner, now));
      var mine := m in s.media && s.media[m].owner == owner && s.media[m].deletedAt.None?;
      && (o.error == Some(NotFound) <==> !mine)
      && (o.error == Some(Conflict) <==> mine && s.media[m].status == Attached)
      && (o.error.None? <==> mine && s.media[m].status != Attached)
      && (o.error.Some? ==> t == s)
      && (o.error.None? ==> t == s.(media := s.media[m := Gone(s.media[m], now)], objects := s.objects - {s.media[m].key}))
  {
    if m in s.media { assert Remove(s.media, {m}, now) == s.media[m := Gone(s.media[m], now)]; }
  }

  predicate Stale(m: Medium, olderThan: Time) { m.status == Uploaded && m.deletedAt.None? && m.createdAt < olderThan }

  /** Cleanup takes exactly the unattached, undeleted rows created before the time, with their objects; all else stays. */
  lemma CleanupEffect(s: State, limits: Limits, olderThan: Time, now: Time)
    requires Inv(s, limits)
    ensures var t := Step(s, limits, DoCleanup(olderThan, now));
      && t == s.(media := t.media, objects := t.objects) && t.media.Keys == s.media.Keys
      && (forall m | m in s.media :: t.media[m] == if Stale(s.media[m], olderThan) then Gone(s.media[m], now) else s.media[m])
      && (forall m | m in s.media && s.media[m].deletedAt.None? :: s.media[m].key in t.objects <==> !Stale(s.media[m], olderThan))
      && t.objects <= s.objects
    ensures |Orphans(s, olderThan)| == |set m | m in s.media && Stale(s.media[m], olderThan)|
  {
    assert Orphans(s, olderThan) == set m | m in s.media && Stale(s.media[m], olderThan);
    forall m | m in s.media && s.media[m].deletedAt.None?
      ensures s.media[m].key in Step(s, limits, DoCleanup(olderThan, now)).objects <==> !Stale(s.media[m], olderThan)
    {
      assert s.media[m].key in KeptKeys(s.media);
    }
  }
}
