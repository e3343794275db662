/** What each request on likes and shares does, told by rows and counters alone. */
module InteractionEffects {
  import opened Wrappers
  import opened Interactions

  /** One row per post and user: a first one counts, a second changes nothing, and none goes to a post that is not there. */
  lemma LikeEffect(s: State, post: Id, user: Id, visible: bool)
    ensures var t := Step(s, DoLike(post, user, visible));
      if visible && post in s.likes.counts && (post, user) !in s.likes.rows
      then t == s.(likes := Tally(s.likes.counts[post := s.likes.counts[post] + 1], s.likes.rows + {(post, user)}))
      else t == s
  {
  }

  lemma UnlikeEffect(s: State, post: Id, user: Id, visible: bool)
    ensures var t := Step(s, DoUnlike(post, user, visible));
      if visible && post in s.likes.counts && (post, user) in s.likes.rows
      then t == s.(likes := Tally(if s.likes.counts[post] > 0 then s.likes.counts[post := s.likes.counts[post] - 1] else s.likes.counts,
                                  s.likes.rows - {(post, user)}))
      else t == s
  {
  }

  /** A share without a user, and a second one by the same user, leave everything as it is. */
  lemma ShareEffect(s: State, post: Id, user: Option<Id>, visible: bool)
    ensures var t := Step(s, DoShare(post, user, visible));
      if visible && post in s.shares.counts && user.Some? && (post, user.value) !in s.shares.rows
      then t == s.(shares := Tally(s.shares.counts[post := s.shares.counts[post] + 1], s.shares.rows + {(post, user.value)}))
      else t == s
  {
  }

  /** An erasure takes all rows of one user and no counter; a new post starts both at zero. */
  lemma EraseEffect(s: State, user: Id, post: Id)
    ensures var t := Step(s, DoErase(user));
      && t.likes.counts == s.likes.counts && t.shares.counts == s.shares.counts
      && (forall r :: r in t.likes.rows <==> r in s.likes.rows && r.1 != user)
      && (forall r :: r in t.shares.rows <==> r in s.shares.rows && r.1 != user)
    ensures var t := Step(s, AddPost(post));
      && t.likes == (if post in s.likes.counts then s.likes else Tally(s.likes.counts[post := 0], s.likes.rows))
      && t.shares == (if post in s.shares.counts then s.shares else Tally(s.shares.counts[post := 0], s.shares.rows))
  {
  }

  lemma RowsExactly(t: Tally, post: Id, r: (Id, Id))
    ensures r in RowsOf(t, post) <==> r in t.rows && r.0 == post
  {
  }
}
