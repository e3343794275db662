/**
 What each request on comments does, told by rows and fields alone, and what it
 does to the reply counts and the live roots a page is built from.
 */
module CommentEffects {
  import opened Wrappers
  import opened Comments
  import PostCounters

  predicate ParentFits(s: State, parent: Option<Id>, post: Id) {
    parent.None? || (parent.value in s.comments && s.comments[parent.value].post == post && !s.comments[parent.value].deleted)
  }

  /** Creating: on a visible post, below a live comment of it if at all; stores what was given, live, and counts it. */
  lemma CreateEffect(s: State, id: Id, post: Id, author: Id, parent: Option<Id>, visible: bool)
    ensures var a, t := Attempt(s, DoCreate(id, post, author, parent, visible)), Step(s, DoCreate(id, post, author, parent, visible));
      var there := visible && post in s.counts;
      && (a.Ok? <==> there && ParentFits(s, parent, post) && id !in s.comments)
      && (a.Err? ==> t == s && a.error == if !there then NotFound else if !ParentFits(s, parent, post) then ValidationError else Conflict)
      && (a.Ok? ==>
            && t.comments == s.comments[id := Comment(post, author, parent, false)]
            && t.counts == s.counts[post := s.counts[post] + 1]
            && t.order == s.order[id := |s.comments|])
  {
  }

  /** The live comments that name `c` as their parent, and those of a post that name none. */
  function LiveRepliesTo(comments: map<Id, Comment>, c: Id): set<Id> {
    set d | d in comments && comments[d].parent == Some(c) && !comments[d].deleted
  }

  function LiveTops(comments: map<Id, Comment>, post: Id): set<Id> {
    set d | d in comments && comments[d].post == post && comments[d].parent.None? && !comments[d].deleted
  }

  lemma CountsExactly(s: State, c: Id, post: Id)
    ensures ReplyCount(s, c) == |LiveRepliesTo(s.comments, c)|
    ensures LiveRoots(s, post) == LiveTops(s.comments, post)
  {
    assert LiveRepliesTo(s.comments, c) == set d | d in s.comments && s.comments[d].parent == Some(c) && !s.comments[d].deleted;
    forall d ensures d in LiveRoots(s, post) <==> d in LiveTops(s.comments, post) {}
  }

  lemma OneMoreReply(comments: map<Id, Comment>, id: Id, row: Comment, c: Id)
    requires id !in comments && !row.deleted
    ensures |LiveRepliesTo(comments[id := row], c)| == |LiveRepliesTo(comments, c)| + if row.parent == Some(c) then 1 else 0
  {
    var before, after := LiveRepliesTo(comments, c), LiveRepliesTo(comments[id := row], c);
    assert id !in before;
    if row.parent == Some(c) {
      forall d ensures d in after <==> d in before + {id} {}
      assert after == before + {id};
    } else {
      forall d ensures d in after <==> d in before {}
      assert after == before;
    }
  }

  lemma OneMoreTop(comments: map<Id, Comment>, id: Id, row: Comment, post: Id)
    requires id !in comments && !row.deleted
    ensures LiveTops(comments[id := row], post) == LiveTops(comments, post) + if row.parent.None? && row.post == post then {id} else {}
  {
    var added := if row.parent.None? && row.post == post then {id} else {};
    forall d ensures d in LiveTops(comments[id := row], post) <==> d in LiveTops(comments, post) + added {}
  }

  /** A new reply adds one to the reply count of its parent and to no other, and no root; a new root adds itself and no reply. */
  lemma CreateCounts(s: State, id: Id, post: Id, author: Id, parent: Option<Id>, visible: bool, c: Id, p: Id)
    requires Attempt(s, DoCreate(id, post, author, parent, visible)).Ok?
    ensures var t := Step(s, DoCreate(id, post, author, parent, visible));
      && ReplyCount(t, c) == ReplyCount(s, c) + (if parent == Some(c) then 1 else 0)
      && LiveRoots(t, p) == LiveRoots(s, p) + (if parent.None? && p == post then {id} else {})
  {
    var t := Step(s, DoCreate(id, post, author, parent, visible));
    CreateEffect(s, id, post, author, parent, visible);
    OneMoreReply(s.comments, id, Comment(post, author, parent, false), c);
    OneMoreTop(s.comments, id, Comment(post, author, parent, false), p);
    CountsExactly(s, c, p);
    CountsExactly(t, c, p);
  }

  /** Deleting: only the author's own live comment on a visible post; it is marked, and the counter goes down unless it is at zero. */
  lemma DeleteEffect(s: State, id: Id, author: Id, visible: bool)
    ensures var a, t := Attempt(s, DoDelete(id, author, visible)), Step(s, DoDelete(id, author, visible));
      && (a.Ok? <==> id in s.comments && !s.comments[id].deleted && s.comments[id].author == author && visible)
      && (a.Err? ==> t == s && a.error == NotFound)
      && (a.Ok? ==>
            var c := s.comments[id];
            && t.comments == s.comments[id := Comment(c.post, c.author, c.parent, true)] && t.order == s.order
            && t.counts == if c.post in s.counts && s.counts[c.post] > 0 then s.counts[c.post := s.counts[c.post] - 1] else s.counts)
  {
  }

  /** Hiding and restoring: any comment there is; only its mark changes. A new post starts at zero. */
  lemma ModerationEffects(s: State, id: Id, post: Id)
    ensures var a, t := Attempt(s, DoHide(id)), Step(s, DoHide(id));
      if id in s.comments then a.Ok? && t == s.(comments := s.comments[id := s.comments[id].(deleted := true)]) else a == Err(NotFound) && t == s
    ensures var a, t := Attempt(s, DoRestore(id)), Step(s, DoRestore(id));
      if id in s.comments then a.Ok? && t == s.(comments := s.comments[id := s.comments[id].(deleted := false)]) else a == Err(NotFound) && t == s
    ensures Step(s, AddPost(post)) == if post in s.counts then s else s.(counts := s.counts[post := 0])
  {
  }

  /** The counter: every post's own, moved by the delta, never below zero by a decrement. */
  lemma CounterExactly(counts: map<Id, int>, post: Id, delta: int)
    ensures PostCounters.Change(counts, post, delta)
      == if post in counts && (delta >= 0 || counts[post] > 0) then counts[post := counts[post] + delta] else counts
    ensures PostCounters.Read(counts, post) == if post in counts then counts[post] else 0
  {
  }
}
