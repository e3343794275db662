/**
 The media service as it runs: mutable rows, a bucket, and loops over the media
 of a request. Each method is proved to do the step of `MediaStore` it stands for.
 */
module MediaService {
  import opened Wrappers
  import opened Finite
  import opened MediaStore

  class Service {
    const limits: Limits
    var users: set<Id>
    var media: map<Id, Medium>
    var objects: set<string>
    var authors: map<Id, Id>
    var postMedia: map<Id, seq<Id>>
    var senders: map<Id, Id>
    var messageMedia: map<Id, seq<Id>>
    var avatars: map<Id, Id>
    var covers: map<Id, Id>

    function View(): State
      reads this
    {
      State(users, media, objects, authors, postMedia, senders, messageMedia, avatars, covers)
    }

    ghost predicate Valid()
      reads this
    {
      Inv(View(), limits)
    }

    ghost predicate Answers(o: Outcome, failure: Option<Error>)
      reads this
    {
      View() == o.after && failure == o.error
    }

    constructor (limits: Limits, users: set<Id>)
      ensures Valid() && View() == Empty(users) && this.limits == limits
    {
      this.limits, this.users := limits, users;
      media, objects := map[], {};
      authors, postMedia, senders, messageMedia := map[], map[], map[], map[];
      avatars, covers := map[], map[];
      new;
      EmptyInv(users, limits);
    }

    /** The aggregate query of upload_media: bytes, files and pending uploads of an owner. */
    method UsageOf(owner: Id) returns (bytes: nat, files: nat, pending: nat)
      ensures bytes == Usage(media, owner) && files == |Kept(media, owner)| && pending == |PendingOf(media, owner)|
    {
      bytes := SumOver(Sizes(media), Kept(media, owner));
      files := |Kept(media, owner)|;
      pending := |PendingOf(media, owner)|;
    }

    method Upload(q: MediaStore.Upload) returns (failure: Option<Error>)
      requires Valid() && FreshKey(View(), DoUpload(q))
      modifies this`media, this`objects
      ensures Valid() && Answers(UploadMedia(old(View()), limits, q), failure)
    {
      UploadKeepsInv(View(), limits, q);
      failure := UploadRow(q);
    }

    /** The object is written first; a refused row takes it back out. */
    method UploadRow(q: MediaStore.Upload) returns (failure: Option<Error>)
      modifies this`media, this`objects
      ensures Answers(UploadMedia(old(View()), limits, q), failure)
    {
      if q.kind.None? { return Some(Unsupported); }
      if q.purpose in {ForAvatar, ForCover} && q.kind.value != Image { return Some(Unsupported); }
      if q.size > SizeLimit(q.purpose, q.kind.value) { return Some(TooLarge); }
      if q.owner !in users { return Some(AuthInvalid); }
      var bytes, files, pending := UsageOf(q.owner);
      if bytes + q.size > limits.bytes || files >= limits.files || pending >= limits.pending { return Some(QuotaExceeded); }
      objects := objects + {q.key};
      if !q.saved || q.id in media || exists m | m in media :: media[m].key == q.key {
        objects := objects - {q.key};
        return Some(InternalError);
      }
      media := media[q.id := Medium(q.owner, q.purpose, q.kind.value, q.size, q.key, Uploaded, q.now, None, None)];
      failure := None;
    }

    /** `for item in previous: item.status = "uploaded"; item.attached_at = None` */
    method Release(items: set<Id>, now: Time)
      requires forall m | m in items :: m in media
      modifies this`media
      ensures media == Reassign(old(media), items, {}, now)
    {
      ghost var before, done: set<Id> := media, {};
      var todo := items;
      while todo != {}
        invariant todo <= items && done == items - todo
        invariant media == Reassign(before, done, {}, now)
        decreases |todo|
      {
        var m := Pick(todo);
        media := media[m := media[m].(status := Uploaded, attachedAt := None)];
        todo, done := todo - {m}, done + {m};
      }
      assert done == items;
    }

    /** `for item in media: item.status = "attached"; item.attached_at = now` */
    method Attach(items: set<Id>, now: Time)
      requires forall m | m in items :: m in media
      modifies this`media
      ensures media == Reassign(old(media), {}, items, now)
    {
      ghost var before, done: set<Id> := media, {};
      var todo := items;
      while todo != {}
        invariant todo <= items && done == items - todo
        invariant media == Reassign(before, {}, done, now)
        decreases |todo|
      {
        var m := Pick(todo);
        media := media[m := media[m].(status := Attached, attachedAt := Some(now))];
        todo, done := todo - {m}, done + {m};
      }
      assert done == items;
    }

    /** replace_post_media: the query finds the usable ids; fewer rows than ids is an error. */
    method ReplaceMedia(post: Id, owner: Id, ids: seq<Id>, now: Time) returns (failure: Option<Error>)
      requires Valid() && post in authors && authors[post] == owner
      modifies this`media, this`postMedia
      ensures Valid() && Answers(ReplacePostMedia(old(View()), post, owner, ids, now), failure)
    {
      ReplaceKeepsInv(View(), post, owner, ids, now, limits);
      assert forall m | m in Held(View(), Post(post)) :: Attaches(View(), Post(post), m);
      failure := ReplaceRows(post, owner, ids, now);
    }

    method UsableForPost(ids: seq<Id>, owner: Id) returns (ok: bool)
      ensures ok <==> Distinct(ids) && (forall m | m in ids :: Available(View(), m, owner, ForPost)) && AtMostOneVideo(View(), Elements(ids))
    {
      var rows := set m | m in ids && Available(View(), m, owner, ForPost);
      FoundAll(View(), ids, rows, owner);
      VideosAmong(View(), ids, rows);
      ok := !(|rows| != |ids| || |set m | m in rows && media[m].kind == Video| > 1);
    }

    method UsableForMessage(ids: seq<Id>, owner: Id) returns (ok: bool)
      ensures ok <==> (forall m | m in ids :: Available(View(), m, owner, ForMessage)) && AtMostOneVideo(View(), Elements(ids))
    {
      var rows := set m | m in ids && Available(View(), m, owner, ForMessage);
      FoundDistinct(View(), ids, rows, owner);
      VideosAmong(View(), ids, rows);
      ok := !(|rows| != |Elements(ids)| || |set m | m in rows && media[m].kind == Video| > 1);
    }

    method ReplaceRows(post: Id, owner: Id, ids: seq<Id>, now: Time) returns (failure: Option<Error>)
      requires forall m | m in Held(View(), Post(post)) :: m in media
      modifies this`media, this`postMedia
      ensures Answers(ReplacePostMedia(old(View()), post, owner, ids, now), failure)
    {
      var usable := UsableForPost(ids, owner);
      if !usable { return Some(ValidationError); }
      ghost var before := media;
      var previous := if post in postMedia then set m | m in postMedia[post] else {};
      postMedia := postMedia - {post};
      Release(previous, now);
      postMedia := postMedia[post := ids];
      Attach(Elements(ids), now);
      assert media == Reassign(before, previous, Elements(ids), now);
      failure := None;
    }

    /** The media part of create_message; a repeated id violates the primary key. */
    method AddMessage(message: Id, sender: Id, ids: seq<Id>, now: Time) returns (failure: Option<Error>)
      requires Valid()
      modifies this`media, this`senders, this`messageMedia
      ensures Valid() && Answers(CreateMessage(old(View()), message, sender, ids, now), failure)
    {
      CreateMessageKeepsInv(View(), message, sender, ids, now, limits);
      failure := MessageRows(message, sender, ids, now);
    }

    method MessageRows(message: Id, sender: Id, ids: seq<Id>, now: Time) returns (failure: Option<Error>)
      modifies this`media, this`senders, this`messageMedia
      ensures Answers(CreateMessage(old(View()), message, sender, ids, now), failure)
    {
      if message in senders || message in messageMedia { return Some(Conflict); }
      var usable := UsableForMessage(ids, sender);
      if !usable { return Some(ValidationError); }
      DistinctExactly(ids);
      assert Elements(ids) == set m | m in ids;
      if |Elements(ids)| != |ids| { return Some(InternalError); }
      senders := senders[message := sender];
      messageMedia := messageMedia[message := ids];
      ghost var before := media;
      Attach(Elements(ids), now);
      assert media == Reassign(before, {}, Elements(ids), now);
      failure := None;
    }

    method DeleteOwned(m: Id, owner: Id, now: Time) returns (failure: Option<Error>)
      requires Valid()
      modifies this`media, this`objects
      ensures Valid() && Answers(DeleteMedia(old(View()), m, owner, now), failure)
    {
      DeleteKeepsInv(View(), m, owner, now, limits);
      if m !in media || media[m].owner != owner || media[m].deletedAt.Some? { return Some(NotFound); }
      if media[m].status == Attached { return Some(Conflict); }
      objects := objects - {media[m].key};
      media := media[m := media[m].(status := Deleted, deletedAt := Some(now))];
      assert media == Remove(old(media), {m}, now);
      failure := None;
    }

    /** cleanup_orphan_media: one object and one row at a time. */
    method CleanupOrphans(olderThan: Time, now: Time) returns (count: nat)
      requires Valid()
      modifies this`media, this`objects
      ensures Valid() && View() == Cleanup(old(View()), olderThan, now).after
      ensures count == |set m | m in old(media) && old(media)[m].status == Uploaded && old(media)[m].deletedAt.None? && old(media)[m].createdAt < olderThan|
    {
      assert Orphans(View(), olderThan)
          == set m | m in media && media[m].status == Uploaded && media[m].deletedAt.None? && media[m].createdAt < olderThan;
      RemovingKeepsInv(View(), Orphans(View(), olderThan), now, limits);
      var candidates := Orphans(View(), olderThan);
      RemoveRows(candidates, now);
      count := |candidates|;
    }

    method RemoveRows(candidates: set<Id>, now: Time)
      requires forall m | m in candidates :: m in media
      modifies this`media, this`objects
      ensures media == Remove(old(media), candidates, now)
      ensures objects == old(objects) - KeysOf(old(media), candidates)
    {
      ghost var before, stored := media, objects;
      var todo := candidates;
      ghost var done: set<Id> := {};
      while todo != {}
        invariant todo <= candidates && done == candidates - todo
        invariant media == Remove(before, done, now)
        invariant objects == stored - KeysOf(before, done)
        decreases |todo|
      {
        var m := Pick(todo);
        assert KeysOf(before, done + {m}) == KeysOf(before, done) + {before[m].key};
        objects := objects - {media[m].key};
        media := media[m := media[m].(status := Deleted, deletedAt := Some(now))];
        todo, done := todo - {m}, done + {m};
      }
      assert done == candidates;
    }

    /** The avatar or cover part of update_user. */
    method ChangePicture(user: Id, cover: bool, choice: Option<Id>, now: Time) returns (failure: Option<Error>)
      requires Valid()
      modifies this`media, this`avatars, this`covers
      ensures Valid() && Answers(SetPicture(old(View()), user, cover, choice, now), failure)
    {
      SetPictureKeepsInv(View(), user, cover, choice, now, limits);
      assert user in avatars ==> avatars[user] in Held(View(), Avatar(user)) && Attaches(View(), Avatar(user), avatars[user]);
      assert user in covers ==> covers[user] in Held(View(), Cover(user)) && Attaches(View(), Cover(user), covers[user]);
      failure := PictureRows(user, cover, choice, now);
    }

    /** update_user's pictures: avatar, then cover, then the rest; a failure rolls all of it back. */
    method UpdatePictures(user: Id, avatar: Option<Option<Id>>, cover: Option<Option<Id>>, restOk: bool, now: Time) returns (failure: Option<Error>)
      requires Valid()
      modifies this`media, this`avatars, this`covers
      ensures Valid() && Answers(UpdateUser(old(View()), user, avatar, cover, restOk, now), failure)
    {
      var media0, avatars0, covers0 := media, avatars, covers;
      failure := None;
      if avatar.Some? { failure := ChangePicture(user, false, avatar.value, now); }
      if failure.None? && cover.Some? { failure := ChangePicture(user, true, cover.value, now); }
      if failure.None? && !restOk { failure := Some(ValidationError); }
      if failure.Some? { media, avatars, covers := media0, avatars0, covers0; }
    }

    method PictureRows(user: Id, cover: bool, choice: Option<Id>, now: Time) returns (failure: Option<Error>)
      requires user in avatars ==> avatars[user] in media && media[avatars[user]].status == Attached
      requires user in covers ==> covers[user] in media && media[covers[user]].status == Attached
      modifies this`media, this`avatars, this`covers
      ensures Answers(SetPicture(old(View()), user, cover, choice, now), failure)
    {
      ghost var before := View();
      var slots := if cover then covers else avatars;
      var previous := if user in slots then Some(slots[user]) else None;
      if choice.Some? {
        if !Available(View(), choice.value, user, if cover then ForCover else ForAvatar) || media[choice.value].kind != Image {
          return Some(ValidationError);
        }
        media := media[choice.value := media[choice.value].(status := Attached, attachedAt := Some(now))];
        slots := slots[user := choice.value];
      } else {
        slots := slots - {user};
      }
      if previous.Some? && previous != choice {
        media := media[previous.value := media[previous.value].(status := Uploaded, attachedAt := None)];
      }
      if cover { covers := slots; } else { avatars := slots; }
      assert media == Reassign(before.media, Held(before, if cover then Cover(user) else Avatar(user)),
                               if choice.Some? then {choice.value} else {}, now);
      failure := None;
    }
  }

  /** Finding as many usable rows as ids means: all usable, none repeated. */
  lemma FoundAll(s: State, ids: seq<Id>, rows: set<Id>, owner: Id)
    requires rows == set m | m in ids && Available(s, m, owner, ForPost)
    ensures |rows| == |ids| <==> Distinct(ids) && forall m | m in ids :: Available(s, m, owner, ForPost)
    ensures |rows| == |ids| ==> rows == Elements(ids)
  {
    DistinctExactly(ids);
    SubsetSize(rows, Elements(ids));
    assert Elements(ids) == set m | m in ids;
    assert forall m | m in ids :: m in Elements(ids);
  }

  lemma FoundDistinct(s: State, ids: seq<Id>, rows: set<Id>, owner: Id)
    requires rows == set m | m in ids && Available(s, m, owner, ForMessage)
    ensures |rows| == |Elements(ids)| <==> forall m | m in ids :: Available(s, m, owner, ForMessage)
    ensures |rows| == |Elements(ids)| ==> rows == Elements(ids)
  {
    SubsetSize(rows, Elements(ids));
    assert forall m | m in ids :: m in Elements(ids);
  }

  lemma VideosAmong(s: State, ids: seq<Id>, rows: set<Id>)
    requires forall m | m in rows :: m in s.media
    ensures rows == Elements(ids) ==> (|set m | m in rows && s.media[m].kind == Video| <= 1 <==> AtMostOneVideo(s, Elements(ids)))
  {
    if rows == Elements(ids) {
      var found := set m | m in rows && s.media[m].kind == Video;
      var wanted := set m | m in Elements(ids) && m in s.media && s.media[m].kind == Video;
      assert forall m :: m in found <==> m in wanted;
      assert found == wanted;
    }
  }
}
