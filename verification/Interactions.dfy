/**
 Likes and shares: one row per post and user, and a counter on the post. Erasing
 an account removes its rows without touching any counter.
 */
module Interactions {
  import opened Wrappers
  import PostCounters

  type Id = int

  /** The rows of one kind, as (post, user), and the counter of each post. */
  datatype Tally = Tally(counts: map<Id, int>, rows: set<(Id, Id)>)

  /** An insert that does nothing on conflict; the counter moves only with the row. */
  function Add(t: Tally, post: Id, user: Id): Tally {
    if (post, user) in t.rows then t
    else Tally(PostCounters.Change(t.counts, post, 1), t.rows + {(post, user)})
  }

  function Remove(t: Tally, post: Id, user: Id): Tally {
    if (post, user) !in t.rows then t
    else Tally(PostCounters.Change(t.counts, post, -1), t.rows - {(post, user)})
  }

  function Erase(t: Tally, user: Id): Tally {
    t.(rows := set r | r in t.rows && r.1 != user)
  }

  datatype State = State(likes: Tally, shares: Tally)

  /** `visible` stands for the outcome of get_post; a share without a user adds no row. */
  datatype Op =
    | AddPost(post: Id)
    | DoLike(post: Id, user: Id, visible: bool)
    | DoUnlike(post: Id, user: Id, visible: bool)
    | DoShare(post: Id, sharer: Option<Id>, visible: bool)
    | DoErase(user: Id)

  function Published(t: Tally, post: Id): Tally {
    if post in t.counts then t else t.(counts := t.counts[post := 0])
  }

  function Step(s: State, op: Op): State {
    match op
    case AddPost(p) => State(Published(s.likes, p), Published(s.shares, p))
    case DoLike(p, u, visible) => if visible && p in s.likes.counts then s.(likes := Add(s.likes, p, u)) else s
    case DoUnlike(p, u, visible) => if visible && p in s.likes.counts then s.(likes := Remove(s.likes, p, u)) else s
    case DoShare(p, u, visible) => if visible && p in s.shares.counts && u.Some? then s.(shares := Add(s.shares, p, u.value)) else s
    case DoErase(u) => State(Erase(s.likes, u), Erase(s.shares, u))
  }

  function Run(s: State, ops: seq<Op>): State
    decreases |ops|
  {
    if ops == [] then s else Run(Step(s, ops[0]), ops[1..])
  }

  const EMPTY := State(Tally(map[], {}), Tally(map[], {}))

  /* ---- conservation ---- */

  function RowsOf(t: Tally, post: Id): set<(Id, Id)> {
    set r | r in t.rows && r.0 == post
  }

  /** The rows of a post that an erasure takes: none or one. */
  function Taken(t: Tally, post: Id, user: Id): nat {
    if (post, user) in t.rows then 1 else 0
  }

  function Surplus(t: Tally, post: Id): int {
    PostCounters.Read(t.counts, post) - |RowsOf(t, post)|
  }

  /** No counter is below its rows, and every row's post has a counter. */
  ghost predicate Covered(t: Tally) {
    && (forall r | r in t.rows :: r.0 in t.counts)
    && (forall p | p in t.counts :: Surplus(t, p) >= 0)
  }

  lemma AddSurplus(t: Tally, post: Id, user: Id, p: Id)
    requires Covered(t) && post in t.counts
    ensures Surplus(Add(t, post, user), p) == Surplus(t, p)
  {
    if (post, user) !in t.rows {
      if p == post {
        assert RowsOf(Add(t, post, user), p) == RowsOf(t, p) + {(post, user)};
      } else {
        assert RowsOf(Add(t, post, user), p) == RowsOf(t, p);
      }
    }
  }

  /** The guard `field > 0` never holds back the decrement of an unlike. */
  lemma RemoveSurplus(t: Tally, post: Id, user: Id, p: Id)
    requires Covered(t) && post in t.counts
    ensures (post, user) in t.rows ==> t.counts[post] > 0
    ensures Surplus(Remove(t, post, user), p) == Surplus(t, p)
  {
    if (post, user) in t.rows {
      assert (post, user) in RowsOf(t, post);
      if p == post {
        assert RowsOf(Remove(t, post, user), p) == RowsOf(t, p) - {(post, user)};
      } else {
        assert RowsOf(Remove(t, post, user), p) == RowsOf(t, p);
      }
    }
  }

  lemma EraseSurplus(t: Tally, user: Id, p: Id)
    ensures Surplus(Erase(t, user), p) == Surplus(t, p) + Taken(t, p, user)
  {
    if (p, user) in t.rows {
      assert RowsOf(Erase(t, user), p) == RowsOf(t, p) - {(p, user)};
    } else {
      assert RowsOf(Erase(t, user), p) == RowsOf(t, p);
    }
  }

  lemma PublishedCovered(t: Tally, post: Id)
    requires Covered(t)
    ensures Covered(Published(t, post))
    ensures forall p :: Surplus(Published(t, post), p) == Surplus(t, p)
  {
    var t' := Published(t, post);
    forall p ensures Surplus(t', p) == Surplus(t, p) { assert RowsOf(t', p) == RowsOf(t, p); }
    if post !in t.counts {
      assert forall r | r in t.rows :: r.0 != post;
      assert RowsOf(t, post) == {};
    }
  }

  ghost predicate Inv(s: State) { Covered(s.likes) && Covered(s.shares) }

  function LikesTaken(s: State, op: Op, post: Id): nat { if op.DoErase? then Taken(s.likes, post, op.user) else 0 }
  function SharesTaken(s: State, op: Op, post: Id): nat { if op.DoErase? then Taken(s.shares, post, op.user) else 0 }

  lemma StepSurplus(s: State, op: Op)
    requires Inv(s)
    ensures Inv(Step(s, op))
    ensures forall p :: Surplus(Step(s, op).likes, p) == Surplus(s.likes, p) + LikesTaken(s, op, p)
    ensures forall p :: Surplus(Step(s, op).shares, p) == Surplus(s.shares, p) + SharesTaken(s, op, p)
  {
    var s' := Step(s, op);
    if op.AddPost? {
      PublishedCovered(s.likes, op.post);
      PublishedCovered(s.shares, op.post);
    } else if s' != s {
      forall p
        ensures Surplus(s'.likes, p) == Surplus(s.likes, p) + LikesTaken(s, op, p)
        ensures Surplus(s'.shares, p) == Surplus(s.shares, p) + SharesTaken(s, op, p)
      {
        match op
        case DoLike(post, u, _) => AddSurplus(s.likes, post, u, p);
        case DoUnlike(post, u, _) => RemoveSurplus(s.likes, post, u, p);
        case DoShare(post, u, _) => AddSurplus(s.shares, post, u.value, p);
        case DoErase(u) =>
          EraseSurplus(s.likes, u, p);
          EraseSurplus(s.shares, u, p);
      }
    }
  }

  /** Like and share rows of a post removed by erasures over a run. */
  function Erased(s: State, ops: seq<Op>, post: Id): (nat, nat)
    decreases |ops|
  {
    if ops == [] then (0, 0)
    else
      var rest := Erased(Step(s, ops[0]), ops[1..], post);
      (LikesTaken(s, ops[0], post) + rest.0, SharesTaken(s, ops[0], post) + rest.1)
  }

  lemma {:induction false} RunSurplus(s: State, ops: seq<Op>, post: Id)
    requires Inv(s)
    ensures Inv(Run(s, ops))
    ensures Surplus(Run(s, ops).likes, post) == Surplus(s.likes, post) + Erased(s, ops, post).0
    ensures Surplus(Run(s, ops).shares, post) == Surplus(s.shares, post) + Erased(s, ops, post).1
    decreases |ops|
  {
    if ops != [] {
      StepSurplus(s, ops[0]);
      RunSurplus(Step(s, ops[0]), ops[1..], post);
    }
  }

  /** In every run a counter equals the rows there are plus the rows erasures took. */
  lemma Conservation(ops: seq<Op>, post: Id)
    ensures var s := Run(EMPTY, ops);
      && PostCounters.Read(s.likes.counts, post) == |RowsOf(s.likes, post)| + Erased(EMPTY, ops, post).0
      && PostCounters.Read(s.shares.counts, post) == |RowsOf(s.shares, post)| + Erased(EMPTY, ops, post).1
  {
    assert RowsOf(EMPTY.likes, post) == {};
    RunSurplus(EMPTY, ops, post);
  }

  /** A counter is its rows exactly when no erasure of the run took one. */
  lemma CountersExactly(ops: seq<Op>, post: Id)
    ensures var s := Run(EMPTY, ops);
      && (PostCounters.Read(s.likes.counts, post) == |RowsOf(s.likes, post)| <==> Erased(EMPTY, ops, post).0 == 0)
      && (PostCounters.Read(s.shares.counts, post) == |RowsOf(s.shares, post)| <==> Erased(EMPTY, ops, post).1 == 0)
  {
    Conservation(ops, post);
  }

  /** It happens: a like and a share by an erased account stay counted without a row. */
  lemma ErasedStillCounted(post: Id, user: Id)
    ensures var s := Run(EMPTY, [AddPost(post), DoLike(post, user, true), DoShare(post, Some(user), true), DoErase(user)]);
      && PostCounters.Read(s.likes.counts, post) == 1 && RowsOf(s.likes, post) == {}
      && PostCounters.Read(s.shares.counts, post) == 1 && RowsOf(s.shares, post) == {}
  {
    var add, like, share, erase := AddPost(post), DoLike(post, user, true), DoShare(post, Some(user), true), DoErase(user);
    var s1 := Step(EMPTY, add);
    var s2 := Step(s1, like);
    var s3 := Step(s2, share);
    assert [add, like, share, erase] == [add] + ([like] + ([share] + ([erase] + [])));
    RunOneMore(EMPTY, add, [like] + ([share] + ([erase] + [])));
    RunOneMore(s1, like, [share] + ([erase] + []));
    RunOneMore(s2, share, [erase] + []);
    RunOneMore(s3, erase, []);
  }

  lemma RunOneMore(s: State, op: Op, rest: seq<Op>)
    ensures Run(s, [op] + rest) == Run(Step(s, op), rest)
  {
    assert ([op] + rest)[1..] == rest;
  }

  /** Likes, unlikes and shares are idempotent, and an unlike undoes a first like, in every run. */
  lemma Idempotent(ops: seq<Op>, post: Id, user: Id, visible: bool)
    ensures var s := Run(EMPTY, ops);
      var like, unlike, share := DoLike(post, user, visible), DoUnlike(post, user, visible), DoShare(post, Some(user), visible);
      && Step(Step(s, like), like) == Step(s, like)
      && Step(Step(s, unlike), unlike) == Step(s, unlike)
      && Step(Step(s, share), share) == Step(s, share)
      && ((post, user) !in s.likes.rows ==> Step(Step(s, like), unlike) == s)
      && ((post, user) in s.likes.rows ==> Step(Step(s, unlike), like) == s)
  {
    RunSurplus(EMPTY, ops, post);
    var s := Run(EMPTY, ops);
    if visible && post in s.likes.counts {
      RemoveSurplus(s.likes, post, user, post);
      LikeUnlike(s.likes, post, user);
    }
  }

  lemma LikeUnlike(t: Tally, post: Id, user: Id)
    requires Covered(t) && post in t.counts
    ensures (post, user) !in t.rows ==> Remove(Add(t, post, user), post, user) == t
    ensures (post, user) in t.rows ==> Add(Remove(t, post, user), post, user) == t
  {
    RemoveSurplus(t, post, user, post);
    if (post, user) !in t.rows {
      var t' := Remove(Add(t, post, user), post, user);
      assert t.counts[post] >= 0;
      assert t'.rows == t.rows && t'.counts == t.counts;
    } else {
      var t' := Add(Remove(t, post, user), post, user);
      assert t'.rows == t.rows && t'.counts == t.counts;
    }
  }

  /* ---- the services ---- */

  class InteractionService {
    var likeCounts: map<Id, int>
    var likes: set<(Id, Id)>
    var shareCounts: map<Id, int>
    var shares: set<(Id, Id)>

    ghost function View(): State
      reads this
    {
      State(Tally(likeCounts, likes), Tally(shareCounts, shares))
    }

    constructor ()
      ensures View() == EMPTY && Inv(View())
    {
      likeCounts, likes, shareCounts, shares := map[], {}, map[], {};
    }

    /** like_post: the new count, or None when the post is not there for the user. */
    method Like(post: Id, user: Id, visible: bool) returns (count: Option<int>)
      requires Inv(View())
      modifies this`likes, this`likeCounts
      ensures Inv(View()) && View() == Step(old(View()), DoLike(post, user, visible))
      ensures count == if visible && post in likeCounts then Some(PostCounters.Read(likeCounts, post)) else None
      ensures count.Some? ==> (post, user) in likes
    {
      StepSurplus(View(), DoLike(post, user, visible));
      if !visible || post !in likeCounts { return None; }
      if (post, user) !in likes {
        likes := likes + {(post, user)};
        likeCounts := likeCounts[post := likeCounts[post] + 1];
      }
      count := Some(likeCounts[post]);
    }

    method Unlike(post: Id, user: Id, visible: bool) returns (found: bool)
      requires Inv(View())
      modifies this`likes, this`likeCounts
      ensures Inv(View()) && View() == Step(old(View()), DoUnlike(post, user, visible))
      ensures found ==> (post, user) !in likes
    {
      StepSurplus(View(), DoUnlike(post, user, visible));
      if !visible || post !in likeCounts { return false; }
      if (post, user) in likes {
        likes := likes - {(post, user)};
        if likeCounts[post] > 0 { likeCounts := likeCounts[post := likeCounts[post] - 1]; }
      }
      found := true;
    }

    method RecordShare(post: Id, user: Option<Id>, visible: bool) returns (count: Option<int>)
      requires Inv(View())
      modifies this`shares, this`shareCounts
      ensures Inv(View()) && View() == Step(old(View()), DoShare(post, user, visible))
      ensures count == if visible && post in shareCounts then Some(PostCounters.Read(shareCounts, post)) else None
    {
      StepSurplus(View(), DoShare(post, user, visible));
      if !visible || post !in shareCounts { return None; }
      if user.Some? && (post, user.value) !in shares {
        shares := shares + {(post, user.value)};
        shareCounts := shareCounts[post := shareCounts[post] + 1];
      }
      count := Some(shareCounts[post]);
    }

    /** The interaction part of delete_user. */
    method EraseUser(user: Id)
      requires Inv(View())
      modifies this`likes, this`shares
      ensures Inv(View()) && View() == Step(old(View()), DoErase(user))
    {
      StepSurplus(View(), DoErase(user));
      likes := set r | r in likes && r.1 != user;
      shares := set r | r in shares && r.1 != user;
    }
  }
}
