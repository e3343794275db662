/**
 What each request on categories, category requests and posts does, told by rows
 and fields alone: when it is accepted, with which error it is refused, and every
 row it leaves behind. Then how a category comes to be approved over a whole run.
 */
module ContentEffects {
  import opened Wrappers
  import opened Content

  /* ---- text ---- */

  predicate AllSpace(s: string) { forall c <- s :: IsSpace(c) }

  ghost predicate Trims(s: string, head: string, tail: string) {
    AllSpace(head) && AllSpace(tail) && s == head + Strip(s) + tail
  }

  /** Stripping takes white space off both ends and nothing else. */
  lemma {:induction false} StripExactly(s: string) returns (head: string, tail: string)
    ensures Trims(s, head, tail)
    decreases |s|
  {
    if s != "" && IsSpace(s[0]) {
      head, tail := StripExactly(s[1..]);
      assert s == [s[0]] + s[1..];
      head := [s[0]] + head;
    } else if s != "" && IsSpace(s[|s| - 1]) {
      head, tail := StripExactly(s[..|s| - 1]);
      assert s == s[..|s| - 1] + [s[|s| - 1]];
      tail := tail + [s[|s| - 1]];
    } else {
      head, tail := "", "";
    }
  }

  lemma BlankExactly(s: string)
    ensures Strip(s) == "" <==> forall i :: 0 <= i < |s| ==> IsSpace(s[i])
  {
    var head, tail := StripExactly(s);
    if Strip(s) == "" {
      assert s == head + tail;
    } else {
      assert s[|head|] == Strip(s)[0];
    }
  }

  /** The characters that count as white space, as Python has them. */
  lemma SpacesExactly(c: char)
    ensures IsSpace(c) <==> c in "\t\n\U{000B}\U{000C}\r\U{001C}\U{001D}\U{001E}\U{001F} \U{0085}\U{00A0}\U{1680}\U{2000}\U{2001}\U{2002}\U{2003}\U{2004}\U{2005}\U{2006}\U{2007}\U{2008}\U{2009}\U{200A}\U{2028}\U{2029}\U{202F}\U{205F}\U{3000}"
  {
  }

  /* ---- choosing a category ---- */

  /** What a selection chooses, and whether it is refused. */
  lemma SelectionExactly(s: State, sel: Selection)
    ensures var r := Select(s, sel);
      match sel
      case ById(c) =>
        if c in s.categories && s.categories[c].status == Approved then r == Ok((c, None)) else r == Err(ValidationError)
      case ByName(n) =>
        if r.Ok?
        then r.value.0 in s.categories && s.categories[r.value.0].normalized == n && s.categories[r.value.0].status == Approved && r.value.1.None?
        else r.error == ValidationError && forall c | c in s.categories :: s.categories[c].normalized != n || s.categories[c].status != Approved
      case ByRequest(q) =>
        if q in s.requests && s.requests[q].status == Pending && s.requests[q].category in s.categories
           && s.categories[s.requests[q].category].status == Pending
        then r == Ok((s.requests[q].category, Some(q))) else r == Err(Conflict)
  {
    if sel.ByName? {
      assert forall c :: Named(s, sel.normalized, c) <==> c in s.categories && s.categories[c].normalized == sel.normalized;
    }
  }

  /* ---- category requests ---- */

  /** A request is accepted unless a category of that normalised name is up already; a rejected one is put up again under the new name. */
  lemma RequestEffect(s: State, user: Id, name: string, normalized: string, c: Id, r: Id)
    requires Inv(s)
    ensures var a, t := Attempt(s, DoCreateRequest(user, name, normalized, c, r)), Step(s, DoCreateRequest(user, name, normalized, c, r));
      && (a.Ok? <==>
            && r !in s.requests
            && (forall d | d in s.categories && s.categories[d].normalized == normalized :: s.categories[d].status == Rejected)
            && ((exists d | d in s.categories :: s.categories[d].normalized == normalized) || c !in s.categories))
      && (a.Err? ==> t == s && a.error == Conflict)
      && (a.Ok? ==>
            && t.posts == s.posts && r in t.requests && t.requests == s.requests[r := t.requests[r]]
            && t.requests[r].requester == user && t.requests[r].status == Pending && t.requests[r].resolution.None?
            && var d := t.requests[r].category;
               && d in t.categories && t.categories == s.categories[d := Category(name, normalized, Pending)]
               && (d in s.categories ==> s.categories[d].normalized == normalized && s.categories[d].status == Rejected)
               && (d !in s.categories ==> d == c))
  {
    assert forall d :: Named(s, normalized, d) <==> d in s.categories && s.categories[d].normalized == normalized;
  }

  /** A decision settles the request, its category alike, and the posts that wait; nothing else moves. */
  lemma ResolveEffect(s: State, r: Id, approve: bool, text: Option<string>)
    ensures var a, t := Attempt(s, DoResolve(r, approve, text)), Step(s, DoResolve(r, approve, text));
      && (a.Ok? <==> r in s.requests && s.requests[r].status == Pending && s.requests[r].category in s.categories)
      && (a.Err? ==> t == s && a.error == if r in s.requests && s.requests[r].status != Pending then Conflict else NotFound)
      && (a.Ok? ==>
            var c, d := s.requests[r].category, if approve then Approved else Rejected;
            && t.categories == s.categories[c := Category(s.categories[c].name, s.categories[c].normalized, d)]
            && t.requests == s.requests[r := Request(s.requests[r].requester, c, d, text)]
            && t.posts.Keys == s.posts.Keys
            && (forall p | p in s.posts && !(s.posts[p].requestId == Some(r) && s.posts[p].status == PendingCategory) :: t.posts[p] == s.posts[p])
            && (forall p | p in s.posts && s.posts[p].requestId == Some(r) && s.posts[p].status == PendingCategory ::
                  t.posts[p] == if approve then s.posts[p].(status := Published, categoryId := Some(c), category := s.categories[c].name)
                                else s.posts[p].(status := NeedsCategoryChange, categoryId := None)))
  {
  }

  /** Whether some step of a run approves a request for a category. */
  ghost predicate ApprovedDuring(s: State, ops: seq<Op>, c: Id)
    decreases |ops|
  {
    ops != [] &&
      (|| (ops[0].DoResolve? && ops[0].approve && ops[0].request in s.requests
           && s.requests[ops[0].request].status == Pending && s.requests[ops[0].request].category == c)
       || ApprovedDuring(Step(s, ops[0]), ops[1..], c))
  }

  predicate IsApproved(s: State, c: Id) { c in s.categories && s.categories[c].status == Approved }

  lemma ApprovalStep(s: State, op: Op, c: Id)
    requires Inv(s)
    ensures IsApproved(Step(s, op), c) <==>
      || IsApproved(s, c)
      || (op.DoResolve? && op.approve && op.request in s.requests
          && s.requests[op.request].status == Pending && s.requests[op.request].category == c)
  {
    match op
    case DoResolve(r, approve, text) =>
      ResolveEffect(s, r, approve, text);
      if r in s.requests && s.requests[r].status == Pending { assert PendingFor(s.requests, r, s.requests[r].category); }
    case DoCreateRequest(user, name, normalized, d, r) => RequestEffect(s, user, name, normalized, d, r);
    case _ => assert Step(s, op).categories == s.categories;
  }

  lemma {:induction false} ApprovalOfRun(s: State, ops: seq<Op>, c: Id)
    requires Inv(s)
    ensures IsApproved(Run(s, ops), c) <==> IsApproved(s, c) || ApprovedDuring(s, ops, c)
    decreases |ops|
  {
    if ops != [] {
      ApprovalStep(s, ops[0], c);
      StepKeepsInv(s, ops[0]);
      ApprovalOfRun(Step(s, ops[0]), ops[1..], c);
    }
  }

  /** In every run a category is approved exactly when it was there from the start or a step of the run approved a request for it. */
  lemma ApprovedExactly(start: State, ops: seq<Op>, c: Id)
    requires Initial(start)
    ensures c in Run(start, ops).categories && Run(start, ops).categories[c].status == Approved
      <==> c in start.categories || ApprovedDuring(start, ops, c)
  {
    EveryRunAgrees(start, []);
    ApprovalOfRun(start, ops, c);
  }

  /* ---- posts ---- */

  /** Creating: refused for a blank published post or a refused selection; otherwise exactly one row is added. */
  lemma CreateEffect(s: State, id: Id, author: Id, draft: bool, title: string, content: string, sel: Selection)
    ensures var a, t, chosen := Attempt(s, DoCreate(id, author, draft, title, content, sel)),
        Step(s, DoCreate(id, author, draft, title, content, sel)), Select(s, sel);
      && (a.Ok? <==> (draft || (Strip(title) != "" && Strip(content) != "")) && chosen.Ok? && id !in s.posts)
      && (a.Err? ==> t == s)
      && (a.Err? ==>
            a.error == if !draft && (Strip(title) == "" || Strip(content) == "") then ValidationError
                       else if chosen.Err? then chosen.error else Conflict)
      && (a.Ok? ==> var (c, r) := chosen.value;
            t == s.(posts := s.posts[id := Post(author, if draft then Draft else if r.Some? then PendingCategory else Published,
                                                Strip(title), Strip(content), s.categories[c].name, Some(c), r, false)]))
  {
    SelectionExactly(s, sel);
  }

  /** Updating a draft: only its author may, it stays or becomes a draft, and only the fields given change. */
  lemma UpdateDraftEffect(s: State, id: Id, owner: Id, patch: Patch)
    ensures var a, t := Attempt(s, DoUpdateDraft(id, owner, patch)), Step(s, DoUpdateDraft(id, owner, patch));
      var mine := id in s.posts && s.posts[id].author == owner && !s.posts[id].deleted
                  && (s.posts[id].status == Draft || s.posts[id].status == NeedsCategoryChange);
      var empty := patch.title.None? && patch.content.None? && patch.selection.None? && !patch.other;
      && (a.Ok? <==> mine && !empty && (patch.selection.Some? ==> Select(s, patch.selection.value).Ok?))
      && (a.Err? ==> t == s)
      && (a.Err? ==> a.error == if !mine then NotFound else if empty then ValidationError else Select(s, patch.selection.value).error)
      && (a.Ok? ==>
            && id in t.posts && t == s.(posts := s.posts[id := t.posts[id]])
            && var p, q := s.posts[id], t.posts[id];
               && q.author == p.author && q.deleted == p.deleted
               && q.title == (if patch.title.Some? then Strip(patch.title.value) else p.title)
               && q.content == (if patch.content.Some? then Strip(patch.content.value) else p.content)
               && (patch.selection.None? ==>
                     q.status == p.status && q.category == p.category && q.categoryId == p.categoryId && q.requestId == p.requestId)
               && (patch.selection.Some? ==> var (c, r) := Select(s, patch.selection.value).value;
                     q.status == Draft && q.category == s.categories[c].name && q.categoryId == Some(c) && q.requestId == r))
  {
    if patch.selection.Some? { SelectionExactly(s, patch.selection.value); }
  }

  /** Updating a post, drafts included: a chosen category publishes it or makes it wait. */
  lemma UpdatePostEffect(s: State, id: Id, owner: Id, patch: Patch)
    ensures var a, t := Attempt(s, DoUpdatePost(id, owner, patch)), Step(s, DoUpdatePost(id, owner, patch));
      var blank := (patch.title.Some? && Strip(patch.title.value) == "") || (patch.content.Some? && Strip(patch.content.value) == "");
      var mine := id in s.posts && s.posts[id].author == owner && !s.posts[id].deleted;
      var empty := patch.title.None? && patch.content.None? && patch.selection.None? && !patch.other;
      && (a.Ok? <==> !blank && mine && !empty && (patch.selection.Some? ==> Select(s, patch.selection.value).Ok?))
      && (a.Err? ==> t == s)
      && (a.Err? ==>
            a.error == if blank then ValidationError else if !mine then NotFound else if empty then ValidationError
                       else Select(s, patch.selection.value).error)
      && (a.Ok? ==>
            && id in t.posts && t == s.(posts := s.posts[id := t.posts[id]])
            && var p, q := s.posts[id], t.posts[id];
               && q.author == p.author && q.deleted == p.deleted
               && q.title == (if patch.title.Some? then Strip(patch.title.value) else p.title)
               && q.content == (if patch.content.Some? then Strip(patch.content.value) else p.content)
               && (patch.selection.None? ==>
                     q.status == p.status && q.category == p.category && q.categoryId == p.categoryId && q.requestId == p.requestId)
               && (patch.selection.Some? ==> var (c, r) := Select(s, patch.selection.value).value;
                     && q.status == (if r.Some? then PendingCategory else Published)
                     && q.category == s.categories[c].name && q.categoryId == Some(c) && q.requestId == r))
  {
    if patch.selection.Some? { SelectionExactly(s, patch.selection.value); }
  }

  /** Publishing: what is missing is told apart, and only the status changes. */
  lemma PublishEffect(s: State, id: Id, owner: Id)
    requires Inv(s)
    ensures var a, t := Attempt(s, DoPublish(id, owner)), Step(s, DoPublish(id, owner));
      var mine := id in s.posts && s.posts[id].author == owner && !s.posts[id].deleted
                  && (s.posts[id].status == Draft || s.posts[id].status == NeedsCategoryChange);
      && (a == Err(NotFound) <==> !mine)
      && (a == Err(ValidationError) <==>
            mine && (Strip(s.posts[id].title) == "" || Strip(s.posts[id].content) == "" || s.posts[id].categoryId.None?))
      && (a.Err? ==> t == s)
      && (a.Ok? ==> t == s.(posts := s.posts[id := s.posts[id].(status := if s.posts[id].requestId.Some? then PendingCategory else Published)]))
      && (a.Ok? && s.posts[id].requestId.Some? ==> s.posts[id].requestId.value in s.requests && s.requests[s.posts[id].requestId.value].status == Pending)
      && (a.Ok? && s.posts[id].requestId.None? ==> s.posts[id].categoryId.value in s.categories && s.categories[s.posts[id].categoryId.value].status == Approved)
  {
    PublishExactly(s, id, owner);
    if id in s.posts { assert PostOk(s.categories, s.requests, s.posts[id]); }
  }

  /** Deleting a draft, deleting a post, hiding and restoring one: who may, and that only the mark changes. */
  lemma DeletionEffects(s: State, id: Id, owner: Id, actor: Option<Id>, deleted: bool)
    ensures var a, t := Attempt(s, DoDeleteDraft(id, owner)), Step(s, DoDeleteDraft(id, owner));
      if id in s.posts && s.posts[id].author == owner && !s.posts[id].deleted
         && (s.posts[id].status == Draft || s.posts[id].status == NeedsCategoryChange)
      then a.Ok? && t == s.(posts := s.posts[id := s.posts[id].(deleted := true)]) else a == Err(NotFound) && t == s
    ensures var a, t := Attempt(s, DoMark(id, actor, deleted)), Step(s, DoMark(id, actor, deleted));
      if id in s.posts && (actor.None? || (s.posts[id].author == actor.value && !s.posts[id].deleted))
      then a.Ok? && t == s.(posts := s.posts[id := s.posts[id].(deleted := deleted)]) else a == Err(NotFound) && t == s
  {
  }
}
