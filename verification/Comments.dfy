/**
 Comments, their parent links, and the comment counter kept on each post. The
 counter is moved by creating and deleting; hiding and restoring by a moderator
 leave it alone.
 */
module Comments {
  import opened Wrappers
  import opened Finite
  import PostCounters

  type Id = int

  datatype Comment = Comment(post: Id, author: Id, parent: Option<Id>, deleted: bool)

  /** `order` numbers the comments as they were created. */
  datatype State = State(counts: map<Id, int>, comments: map<Id, Comment>, order: map<Id, nat>)

  datatype Error = NotFound | ValidationError | Conflict

  /** `visible` stands for the outcome of get_post, the visibility check on the post. */
  datatype Op =
    | AddPost(post: Id)
    | DoCreate(id: Id, post: Id, author: Id, parent: Option<Id>, visible: bool)
    | DoDelete(id: Id, author: Id, visible: bool)
    | DoHide(id: Id)
    | DoRestore(id: Id)

  function LiveIn(s: State, post: Id): set<Id> {
    set c | c in s.comments && s.comments[c].post == post && !s.comments[c].deleted
  }

  predicate ParentOk(s: State, parent: Option<Id>, post: Id) {
    parent.Some? ==> parent.value in s.comments && s.comments[parent.value].post == post && !s.comments[parent.value].deleted
  }

  function Create(s: State, id: Id, post: Id, author: Id, parent: Option<Id>, visible: bool): Result<State, Error> {
    if !visible || post !in s.counts then Err(NotFound)
    else if !ParentOk(s, parent, post) then Err(ValidationError)
    else if id in s.comments then Err(Conflict)
    else Ok(State(PostCounters.Change(s.counts, post, 1), s.comments[id := Comment(post, author, parent, false)], s.order[id := |s.comments|]))
  }

  function Delete(s: State, id: Id, author: Id, visible: bool): Result<State, Error> {
    if id !in s.comments || s.comments[id].deleted || s.comments[id].author != author || !visible then Err(NotFound)
    else Ok(s.(comments := s.comments[id := s.comments[id].(deleted := true)],
               counts := PostCounters.Change(s.counts, s.comments[id].post, -1)))
  }

  /** hide_comment and restore_comment */
  function Mark(s: State, id: Id, deleted: bool): Result<State, Error> {
    if id !in s.comments then Err(NotFound)
    else Ok(s.(comments := s.comments[id := s.comments[id].(deleted := deleted)]))
  }

  function Attempt(s: State, op: Op): Result<State, Error> {
    match op
    case AddPost(p) => if p in s.counts then Err(Conflict) else Ok(s.(counts := s.counts[p := 0]))
    case DoCreate(id, post, author, parent, visible) => Create(s, id, post, author, parent, visible)
    case DoDelete(id, author, visible) => Delete(s, id, author, visible)
    case DoHide(id) => Mark(s, id, true)
    case DoRestore(id) => Mark(s, id, false)
  }

  function Step(s: State, op: Op): State {
    var r := Attempt(s, op);
    if r.Ok? then r.value else s
  }

  function Run(s: State, ops: seq<Op>): State
    decreases |ops|
  {
    if ops == [] then s else Run(Step(s, ops[0]), ops[1..])
  }

  const EMPTY := State(map[], map[], map[])

  /* ---- the forest ---- */

  /** Parents are comments of the same post, created earlier. */
  ghost predicate Forest(s: State) {
    && s.order.Keys == s.comments.Keys
    && (forall c | c in s.order :: s.order[c] < |s.comments|)
    && (forall c | c in s.comments :: s.comments[c].post in s.counts)
    && (forall c | c in s.comments && s.comments[c].parent.Some? ::
          var p := s.comments[c].parent.value;
          p in s.comments && s.comments[p].post == s.comments[c].post && s.order[p] < s.order[c])
  }

  lemma StepKeepsForest(s: State, op: Op)
    requires Forest(s)
    ensures Forest(Step(s, op))
  {
    var s' := Step(s, op);
    if op.DoCreate? && Attempt(s, op).Ok? {
      AddedKeepsForest(s, s', op.id, Comment(op.post, op.author, op.parent, false));
    } else {
      assert s'.comments.Keys == s.comments.Keys;
      assert |s'.comments| == |s.comments|;
    }
  }

  lemma AddedKeepsForest(s: State, s': State, id: Id, c: Comment)
    requires Forest(s) && id !in s.comments && c.post in s.counts && ParentOk(s, c.parent, c.post)
    requires s'.comments == s.comments[id := c] && s'.order == s.order[id := |s.comments|]
    requires forall p | p in s.counts :: p in s'.counts
    ensures Forest(s')
  {
    assert |s'.comments| == |s.comments| + 1;
  }

  lemma {:induction false} RunKeepsForest(s: State, ops: seq<Op>)
    requires Forest(s)
    ensures Forest(Run(s, ops))
    decreases |ops|
  {
    if ops != [] {
      StepKeepsForest(s, ops[0]);
      RunKeepsForest(Step(s, ops[0]), ops[1..]);
    }
  }

  /** A path that climbs parent links. */
  predicate Climbs(s: State, path: seq<Id>) {
    && (forall i :: 0 <= i < |path| ==> path[i] in s.comments)
    && (forall i :: 0 <= i < |path| - 1 ==> s.comments[path[i]].parent == Some(path[i + 1]))
  }

  lemma ParentIsOlder(s: State, c: Id, p: Id)
    requires Forest(s) && c in s.comments && s.comments[c].parent == Some(p)
    ensures p in s.order && c in s.order && p in s.comments
    ensures s.order[p] < s.order[c] && s.comments[p].post == s.comments[c].post
  {
  }

  lemma {:induction false} ClimbingAges(s: State, path: seq<Id>)
    requires Forest(s) && Climbs(s, path) && |path| >= 2
    ensures s.order[path[|path| - 1]] < s.order[path[0]]
    ensures s.comments[path[|path| - 1]].post == s.comments[path[0]].post
  {
    assert path[0] in s.comments && s.comments[path[0]].parent == Some(path[0 + 1]);
    ParentIsOlder(s, path[0], path[1]);
    if |path| > 2 {
      assert Climbs(s, path[1..]);
      ClimbingAges(s, path[1..]);
      assert path[1..][|path| - 2] == path[|path| - 1];
    }
  }

  /** In every run no comment is its own ancestor, and all its ancestors are on its post. */
  lemma NoCycles(ops: seq<Op>, path: seq<Id>)
    requires Climbs(Run(EMPTY, ops), path) && |path| >= 2
    ensures path[0] != path[|path| - 1]
    ensures Run(EMPTY, ops).comments[path[|path| - 1]].post == Run(EMPTY, ops).comments[path[0]].post
  {
    RunKeepsForest(EMPTY, ops);
    ClimbingAges(Run(EMPTY, ops), path);
  }

  /* ---- the counter ---- */

  function Gap(s: State, post: Id): int {
    PostCounters.Read(s.counts, post) - |LiveIn(s, post)|
  }

  /** A deletion whose decrement the zero guard skips. */
  predicate Stopped(s: State, op: Op, post: Id) {
    op.DoDelete? && Delete(s, op.id, op.author, op.visible).Ok? && s.comments[op.id].post == post && PostCounters.Read(s.counts, post) <= 0
  }

  predicate Hides(s: State, op: Op, post: Id) {
    op.DoHide? && op.id in s.comments && s.comments[op.id].post == post && !s.comments[op.id].deleted
  }

  predicate Restores(s: State, op: Op, post: Id) {
    op.DoRestore? && op.id in s.comments && s.comments[op.id].post == post && s.comments[op.id].deleted
  }

  function Count(b: bool): nat { if b then 1 else 0 }

  /** Effective hides, less effective restores, plus deletions the guard stopped, over a run. */
  function Drift(s: State, ops: seq<Op>, post: Id): int
    decreases |ops|
  {
    if ops == [] then 0
    else
      Count(Hides(s, ops[0], post)) - Count(Restores(s, ops[0], post)) + Count(Stopped(s, ops[0], post))
      + Drift(Step(s, ops[0]), ops[1..], post)
  }

  lemma MarkedLive(s: State, id: Id, deleted: bool, post: Id)
    requires id in s.comments
    ensures var s' := s.(comments := s.comments[id := s.comments[id].(deleted := deleted)]);
      |LiveIn(s', post)| == |LiveIn(s, post)|
        + if s.comments[id].post != post then 0 else Count(s.comments[id].deleted && !deleted) - Count(!s.comments[id].deleted && deleted)
  {
    var s' := s.(comments := s.comments[id := s.comments[id].(deleted := deleted)]);
    if s.comments[id].post != post || s.comments[id].deleted == deleted {
      assert LiveIn(s', post) == LiveIn(s, post);
    } else if deleted {
      assert LiveIn(s', post) == LiveIn(s, post) - {id};
    } else {
      assert LiveIn(s', post) == LiveIn(s, post) + {id};
    }
  }

  lemma AddedLive(s: State, s': State, id: Id, c: Comment, post: Id)
    requires id !in s.comments && !c.deleted && s'.comments == s.comments[id := c]
    ensures |LiveIn(s', post)| == |LiveIn(s, post)| + Count(c.post == post)
  {
    var before, after := LiveIn(s, post), LiveIn(s', post);
    if c.post == post {
      forall d ensures d in after <==> d in before + {id} {}
      assert after == before + {id};
    } else {
      forall d ensures d in after <==> d in before {}
      assert after == before;
    }
  }

  lemma StepGap(s: State, op: Op, post: Id)
    requires Forest(s)
    ensures Gap(Step(s, op), post) == Gap(s, post)
      + Count(Hides(s, op, post)) - Count(Restores(s, op, post)) + Count(Stopped(s, op, post))
  {
    var s' := Step(s, op);
    if Attempt(s, op).Err? {
    } else if op.DoCreate? {
      AddedLive(s, s', op.id, Comment(op.post, op.author, op.parent, false), post);
    } else if op.AddPost? {
      assert LiveIn(s', post) == LiveIn(s, post);
    } else {
      MarkedLive(s, op.id, !op.DoRestore?, post);
      var t := s.(comments := s'.comments);
      assert LiveIn(s', post) == LiveIn(t, post);
    }
  }

  /** The gap between a post's counter and its live comments is exactly the drift of the run. */
  lemma {:induction false} GapIsDrift(s: State, ops: seq<Op>, post: Id)
    requires Forest(s)
    ensures Gap(Run(s, ops), post) == Gap(s, post) + Drift(s, ops, post)
    decreases |ops|
  {
    if ops != [] {
      StepGap(s, ops[0], post);
      StepKeepsForest(s, ops[0]);
      GapIsDrift(Step(s, ops[0]), ops[1..], post);
    }
  }

  /** In every run a post's counter is its live comments exactly when hides, restores and stopped deletions cancel out. */
  lemma CounterExactly(ops: seq<Op>, post: Id)
    ensures var s := Run(EMPTY, ops);
      PostCounters.Read(s.counts, post) == |LiveIn(s, post)| <==> Drift(EMPTY, ops, post) == 0
  {
    assert LiveIn(EMPTY, post) == {};
    GapIsDrift(EMPTY, ops, post);
  }

  lemma RunOneMore(s: State, op: Op, rest: seq<Op>)
    ensures Run(s, [op] + rest) == Run(Step(s, op), rest)
  {
    assert ([op] + rest)[1..] == rest;
  }

  lemma FirstComment(post: Id, id: Id, author: Id)
    ensures var s := State(map[post := 1], map[id := Comment(post, author, None, false)], map[id := 0]);
      forall rest :: Run(EMPTY, [AddPost(post)] + ([DoCreate(id, post, author, None, true)] + rest)) == Run(s, rest)
  {
    var add, create := AddPost(post), DoCreate(id, post, author, None, true);
    var s1, s2 := Step(EMPTY, add), Step(Step(EMPTY, add), create);
    assert s1 == State(map[post := 0], map[], map[]);
    assert s2 == State(map[post := 1], map[id := Comment(post, author, None, false)], map[id := 0]);
    forall rest ensures Run(EMPTY, [add] + ([create] + rest)) == Run(s2, rest) {
      RunOneMore(EMPTY, add, [create] + rest);
      RunOneMore(s1, create, rest);
    }
  }

  /** It does drift: after a hide the counter is above the live comments. */
  lemma HiddenStillCounted(post: Id, id: Id, author: Id)
    ensures var s := Run(EMPTY, [AddPost(post)] + ([DoCreate(id, post, author, None, true)] + ([DoHide(id)] + [])));
      PostCounters.Read(s.counts, post) == 1 && LiveIn(s, post) == {}
  {
    FirstComment(post, id, author);
    RunOneMore(State(map[post := 1], map[id := Comment(post, author, None, false)], map[id := 0]), DoHide(id), []);
  }

  /** And a restore leaves it below them: deleted, restored, the comment is live and uncounted. */
  lemma RestoredNotCounted(post: Id, id: Id, author: Id)
    ensures var s := Run(EMPTY, [AddPost(post)] + ([DoCreate(id, post, author, None, true)] + ([DoDelete(id, author, true)] + ([DoRestore(id)] + []))));
      PostCounters.Read(s.counts, post) == 0 && LiveIn(s, post) == {id}
      && Stopped(s, DoDelete(id, author, true), post)
  {
    FirstComment(post, id, author);
    var s2 := State(map[post := 1], map[id := Comment(post, author, None, false)], map[id := 0]);
    var s3 := Step(s2, DoDelete(id, author, true));
    RunOneMore(s2, DoDelete(id, author, true), [DoRestore(id)] + []);
    RunOneMore(s3, DoRestore(id), []);
  }

  predicate Moderated(ops: seq<Op>) { exists i :: 0 <= i < |ops| && (ops[i].DoHide? || ops[i].DoRestore?) }

  ghost predicate Exact(s: State) {
    && Forest(s)
    && forall p | p in s.counts :: Gap(s, p) == 0
  }

  lemma StepKeepsExact(s: State, op: Op)
    requires Exact(s) && !op.DoHide? && !op.DoRestore?
    ensures Exact(Step(s, op))
    ensures forall p :: !Stopped(s, op, p)
  {
    StepKeepsForest(s, op);
    if op.DoDelete? && Attempt(s, op).Ok? { assert op.id in LiveIn(s, s.comments[op.id].post); }
    forall p | p in Step(s, op).counts ensures Gap(Step(s, op), p) == 0 {
      if p in s.counts {
        StepGap(s, op, p);
      } else {
        assert op == AddPost(p);
        assert forall c | c in s.comments :: s.comments[c].post != p;
        assert LiveIn(Step(s, op), p) == {};
      }
    }
  }

  /** Without moderation the counter is exact in every run, and the zero guard never acts. */
  lemma {:induction false} CounterExact(s: State, ops: seq<Op>)
    requires Exact(s) && !Moderated(ops)
    ensures Exact(Run(s, ops))
    ensures forall p :: Drift(s, ops, p) == 0
    decreases |ops|
  {
    if ops != [] {
      assert !ops[0].DoHide? && !ops[0].DoRestore?;
      StepKeepsExact(s, ops[0]);
      assert forall i :: 0 <= i < |ops[1..]| ==> ops[1..][i] == ops[i + 1];
      CounterExact(Step(s, ops[0]), ops[1..]);
    }
  }

  /* ---- reply counts ---- */

  /** serialize_comments: how many live comments name this one as their parent. */
  function ReplyCount(s: State, c: Id): nat {
    |set d | d in s.comments && s.comments[d].parent == Some(c) && !s.comments[d].deleted|
  }

  function CommentsOf(s: State, post: Id): set<Id> {
    set c | c in s.comments && s.comments[c].post == post
  }

  function LiveRoots(s: State, post: Id): set<Id> {
    set c | c in LiveIn(s, post) && s.comments[c].parent.None?
  }

  function ReplyCounts(s: State): map<Id, nat> {
    map c | c in s.comments :: ReplyCount(s, c)
  }

  /**
   Live comments are live roots plus the reply counts of all the post's comments,
   tombstones included, so a client that pages level by level can account for all.
   */
  lemma RepliesAddUp(s: State, post: Id)
    requires Forest(s)
    ensures |LiveIn(s, post)| == |LiveRoots(s, post)| + Sum(ReplyCounts(s), CommentsOf(s, post))
  {
    var replies, parents := Replies(s, post), Parents(s, post);
    forall c | c in CommentsOf(s, post) ensures ReplyCounts(s)[c] == |Fibre(replies, parents, c)| {
      RepliesOfOne(s, post, c);
    }
    SumFibres(replies, parents, ReplyCounts(s), CommentsOf(s, post));
    AllRepliesCounted(s, post);
    LiveSplits(s, post);
  }

  lemma LiveSplits(s: State, post: Id)
    ensures |LiveIn(s, post)| == |LiveRoots(s, post)| + |Replies(s, post)|
  {
    var live, roots, replies := LiveIn(s, post), LiveRoots(s, post), Replies(s, post);
    forall c ensures c in live <==> c in roots + replies {}
    assert live == roots + replies;
    assert roots !! replies;
  }

  lemma AllRepliesCounted(s: State, post: Id)
    requires Forest(s)
    ensures Above(Replies(s, post), Parents(s, post), CommentsOf(s, post)) == Replies(s, post)
  {
    forall d | d in Replies(s, post) ensures Parents(s, post)[d] in CommentsOf(s, post) {
      ParentIsOlder(s, d, Parents(s, post)[d]);
    }
  }

  function Replies(s: State, post: Id): set<Id> {
    set c | c in LiveIn(s, post) && s.comments[c].parent.Some?
  }

  function Parents(s: State, post: Id): map<Id, Id> {
    map c | c in Replies(s, post) :: s.comments[c].parent.value
  }

  /** The children of a comment are on its own post. */
  lemma RepliesOfOne(s: State, post: Id, c: Id)
    requires Forest(s) && c in CommentsOf(s, post)
    ensures ReplyCount(s, c) == |Fibre(Replies(s, post), Parents(s, post), c)|
  {
    var all := set d | d in s.comments && s.comments[d].parent == Some(c) && !s.comments[d].deleted;
    var here := Fibre(Replies(s, post), Parents(s, post), c);
    forall d ensures d in all <==> d in here {
      if d in all { ParentIsOlder(s, d, c); }
    }
    assert all == here;
  }

  /** Without moderation, the counter of every post adds up level by level, in every run. */
  lemma CounterAddsUp(ops: seq<Op>, post: Id)
    requires !Moderated(ops) && post in Run(EMPTY, ops).counts
    ensures var s := Run(EMPTY, ops);
      s.counts[post] == |LiveIn(s, post)| == |LiveRoots(s, post)| + Sum(ReplyCounts(s), CommentsOf(s, post))
  {
    CounterExact(EMPTY, ops);
    RepliesAddUp(Run(EMPTY, ops), post);
  }

  /* ---- the service ---- */

  class CommentService {
    var counts: map<Id, int>
    var comments: map<Id, Comment>
    ghost var order: map<Id, nat>

    ghost function View(): State
      reads this
    {
      State(counts, comments, order)
    }

    ghost predicate Commits(before: State, spec: Result<State, Error>, failure: Option<Error>)
      reads this
    {
      match spec
      case Ok(after) => failure == None && View() == after
      case Err(e) => failure == Some(e) && View() == before
    }

    constructor ()
      ensures View() == EMPTY && Forest(View())
    {
      counts, comments, order := map[], map[], map[];
    }

    method ChangeCounter(post: Id, delta: int)
      modifies this`counts
      ensures counts == PostCounters.Change(old(counts), post, delta)
    {
      if post in counts {
        if delta >= 0 || counts[post] > 0 { counts := counts[post := counts[post] + delta]; }
      }
    }

    method CreateComment(id: Id, post: Id, author: Id, parent: Option<Id>, visible: bool) returns (failure: Option<Error>)
      requires Forest(View())
      modifies this
      ensures Forest(View()) && Commits(old(View()), Create(old(View()), id, post, author, parent, visible), failure)
      ensures failure.None? ==> comments == old(comments)[id := Comment(post, author, parent, false)]
    {
      StepKeepsForest(View(), DoCreate(id, post, author, parent, visible));
      if !visible || post !in counts { return Some(NotFound); }
      if parent.Some? {
        var p := parent.value;
        if p !in comments || comments[p].post != post || comments[p].deleted { return Some(ValidationError); }
      }
      if id in comments { return Some(Conflict); }
      order := order[id := |comments|];
      comments := comments[id := Comment(post, author, parent, false)];
      ChangeCounter(post, 1);
      failure := None;
    }

    method DeleteComment(id: Id, author: Id, visible: bool) returns (failure: Option<Error>)
      requires Forest(View())
      modifies this`counts, this`comments
      ensures Forest(View()) && Commits(old(View()), Delete(old(View()), id, author, visible), failure)
      ensures failure.None? ==> id in old(comments) && old(comments)[id].author == author && id in comments && comments[id].deleted
    {
      StepKeepsForest(View(), DoDelete(id, author, visible));
      if id !in comments || comments[id].deleted || comments[id].author != author || !visible { return Some(NotFound); }
      comments := comments[id := comments[id].(deleted := true)];
      ChangeCounter(comments[id].post, -1);
      failure := None;
    }

    /** hide_comment: an already deleted comment keeps its mark. */
    method HideComment(id: Id) returns (failure: Option<Error>)
      requires Forest(View())
      modifies this`comments
      ensures Forest(View()) && Commits(old(View()), Mark(old(View()), id, true), failure)
    {
      StepKeepsForest(View(), DoHide(id));
      if id !in comments { return Some(NotFound); }
      if !comments[id].deleted { comments := comments[id := comments[id].(deleted := true)]; }
      assert comments == old(comments)[id := old(comments)[id].(deleted := true)];
      failure := None;
    }

    method RestoreComment(id: Id) returns (failure: Option<Error>)
      requires Forest(View())
      modifies this`comments
      ensures Forest(View()) && Commits(old(View()), Mark(old(View()), id, false), failure)
    {
      StepKeepsForest(View(), DoRestore(id));
      if id !in comments { return Some(NotFound); }
      comments := comments[id := comments[id].(deleted := false)];
      failure := None;
    }
  }
}
