/**
 Categories, category requests and posts as one state machine. Each operation is
 one committed transaction; an operation that raises leaves the tables alone.
 Tags, media and modification times are not part of these tables.
 */
module Content {
  import opened Wrappers

  type Id = int

  datatype Decision = Pending | Approved | Rejected
  datatype Category = Category(name: string, normalized: string, status: Decision)
  datatype Request = Request(requester: Id, category: Id, status: Decision, resolution: Option<string>)

  datatype PostStatus = Draft | Published | PendingCategory | NeedsCategoryChange
  datatype Post = Post(author: Id, status: PostStatus, title: string, content: string,
                       category: string, categoryId: Option<Id>, requestId: Option<Id>, deleted: bool)

  datatype State = State(categories: map<Id, Category>, requests: map<Id, Request>, posts: map<Id, Post>)

  datatype Error = ValidationError | Conflict | NotFound

  /* ---- text ---- */

  predicate IsSpace(c: char) {
    var n := c as int;
    9 <= n <= 13 || 28 <= n <= 32 || n in {0x85, 0xA0, 0x1680, 0x2028, 0x2029, 0x202F, 0x205F, 0x3000} || 0x2000 <= n <= 0x200A
  }

  /** `value.strip()` */
  function Strip(s: string): (r: string)
    ensures r != "" ==> !IsSpace(r[0]) && !IsSpace(r[|r| - 1])
    decreases |s|
  {
    if s != "" && IsSpace(s[0]) then Strip(s[1..])
    else if s != "" && IsSpace(s[|s| - 1]) then Strip(s[..|s| - 1])
    else s
  }

  predicate Blank(s: string) { Strip(s) == "" }

  /* ---- choosing a category ---- */

  /** The one category reference a payload carries; the name already normalised. */
  datatype Selection = ById(id: Id) | ByName(normalized: string) | ByRequest(request: Id)

  ghost predicate Named(s: State, normalized: string, c: Id) {
    c in s.categories && s.categories[c].normalized == normalized
  }

  /** resolve_category_selection: the category, and the request when one is pending. */
  ghost function Select(s: State, sel: Selection): Result<(Id, Option<Id>), Error> {
    match sel
    case ById(c) =>
      if c in s.categories && s.categories[c].status == Approved then Ok((c, None)) else Err(ValidationError)
    case ByName(n) =>
      if exists c :: Named(s, n, c) && s.categories[c].status == Approved
      then var c :| Named(s, n, c) && s.categories[c].status == Approved; Ok((c, None))
      else Err(ValidationError)
    case ByRequest(r) =>
      if r !in s.requests || s.requests[r].status != Pending then Err(Conflict)
      else
        var c := s.requests[r].category;
        if c !in s.categories || s.categories[c].status != Pending then Err(Conflict) else Ok((c, Some(r)))
  }

  /* ---- operations ---- */

  /** A rejected category with the same normalised name is put up again, renamed. */
  ghost function CreateRequest(s: State, user: Id, name: string, normalized: string, newCategory: Id, newRequest: Id): Result<State, Error> {
    if newRequest in s.requests then Err(Conflict)
    else if exists c :: Named(s, normalized, c) then
      var c :| Named(s, normalized, c);
      if s.categories[c].status != Rejected then Err(Conflict)
      else Ok(s.(categories := s.categories[c := s.categories[c].(name := name, status := Pending)],
                 requests := s.requests[newRequest := Request(user, c, Pending, None)]))
    else if newCategory in s.categories then Err(Conflict)
    else Ok(s.(categories := s.categories[newCategory := Category(name, normalized, Pending)],
               requests := s.requests[newRequest := Request(user, newCategory, Pending, None)]))
  }

  predicate WaitsOn(p: Post, r: Id) { p.requestId == Some(r) && p.status == PendingCategory }

  /** What the bulk update of resolve_category_request makes of one post. */
  function Moved(p: Post, r: Id, c: Id, name: string, approve: bool): Post {
    if !WaitsOn(p, r) then p
    else if approve then p.(status := Published, categoryId := Some(c), category := name)
    else p.(status := NeedsCategoryChange, categoryId := None)
  }

  function Resolve(s: State, r: Id, approve: bool, resolution: Option<string>): Result<State, Error> {
    if r !in s.requests then Err(NotFound)
    else if s.requests[r].status != Pending then Err(Conflict)
    else
      var c := s.requests[r].category;
      if c !in s.categories then Err(NotFound)
      else
        var d := if approve then Approved else Rejected;
        Ok(State(s.categories[c := s.categories[c].(status := d)],
                 s.requests[r := s.requests[r].(status := d, resolution := resolution)],
                 map p | p in s.posts :: Moved(s.posts[p], r, c, s.categories[c].name, approve)))
  }

  /** create_post and create_draft differ in the status alone. */
  ghost function Create(s: State, id: Id, author: Id, draft: bool, title: string, content: string, sel: Selection): Result<State, Error> {
    if !draft && (Blank(title) || Blank(content)) then Err(ValidationError)
    else
      var (c, r) :- Select(s, sel);
      if id in s.posts then Err(Conflict)
      else
        var status := if draft then Draft else if r.Some? then PendingCategory else Published;
        Ok(s.(posts := s.posts[id := Post(author, status, Strip(title), Strip(content), s.categories[c].name, Some(c), r, false)]))
  }

  /** The fields an update payload sets; `other` says that tags or media are among them. */
  datatype Patch = Patch(title: Option<string>, content: Option<string>, selection: Option<Selection>, other: bool) {
    predicate HasChanges() { title.Some? || content.Some? || selection.Some? || other }
  }

  function Retitled(p: Post, patch: Patch): Post {
    p.(title := if patch.title.Some? then Strip(patch.title.value) else p.title,
       content := if patch.content.Some? then Strip(patch.content.value) else p.content)
  }

  predicate IsDraftOf(s: State, id: Id, owner: Id) {
    id in s.posts && s.posts[id].author == owner && s.posts[id].status in {Draft, NeedsCategoryChange} && !s.posts[id].deleted
  }

  predicate IsPostOf(s: State, id: Id, owner: Id) {
    id in s.posts && s.posts[id].author == owner && !s.posts[id].deleted
  }

  ghost function UpdateDraft(s: State, id: Id, owner: Id, patch: Patch): Result<State, Error> {
    if !IsDraftOf(s, id, owner) then Err(NotFound)
    else if !patch.HasChanges() then Err(ValidationError)
    else
      var p := Retitled(s.posts[id], patch);
      if patch.selection.None? then Ok(s.(posts := s.posts[id := p]))
      else
        var (c, r) :- Select(s, patch.selection.value);
        Ok(s.(posts := s.posts[id := p.(category := s.categories[c].name, categoryId := Some(c), requestId := r, status := Draft)]))
  }

  /** update_post reaches any undeleted post of its owner, drafts included. */
  ghost function UpdatePost(s: State, id: Id, owner: Id, patch: Patch): Result<State, Error> {
    if (patch.title.Some? && Blank(patch.title.value)) || (patch.content.Some? && Blank(patch.content.value)) then Err(ValidationError)
    else if !IsPostOf(s, id, owner) then Err(NotFound)
    else if !patch.HasChanges() then Err(ValidationError)
    else
      var p := Retitled(s.posts[id], patch);
      if patch.selection.None? then Ok(s.(posts := s.posts[id := p]))
      else
        var (c, r) :- Select(s, patch.selection.value);
        var status := if r.Some? then PendingCategory else Published;
        Ok(s.(posts := s.posts[id := p.(category := s.categories[c].name, categoryId := Some(c), requestId := r, status := status)]))
  }

  function PublishDraft(s: State, id: Id, owner: Id): Result<State, Error> {
    if !IsDraftOf(s, id, owner) then Err(NotFound)
    else
      var p := s.posts[id];
      if Blank(p.title) || Blank(p.content) || p.categoryId.None? then Err(ValidationError)
      else if p.categoryId.value !in s.categories then Err(ValidationError)
      else if p.requestId.Some? && p.requestId.value in s.requests then
        if s.requests[p.requestId.value].status != Pending then Err(Conflict)
        else Ok(s.(posts := s.posts[id := p.(status := PendingCategory)]))
      else if s.categories[p.categoryId.value].status == Approved then Ok(s.(posts := s.posts[id := p.(status := Published)]))
      else Err(Conflict)
  }

  /** delete_draft by its owner. */
  function DeleteDraft(s: State, id: Id, owner: Id): Result<State, Error> {
    if !IsDraftOf(s, id, owner) then Err(NotFound)
    else Ok(s.(posts := s.posts[id := s.posts[id].(deleted := true)]))
  }

  /** Deletion by the owner, hiding and restoring by a moderator: only the mark changes. */
  function MarkDeleted(s: State, id: Id, actor: Option<Id>, deleted: bool): Result<State, Error> {
    if id !in s.posts || (actor.Some? && !IsPostOf(s, id, actor.value)) then Err(NotFound)
    else Ok(s.(posts := s.posts[id := s.posts[id].(deleted := deleted)]))
  }

  datatype Op =
    | DoCreateRequest(user: Id, name: string, normalized: string, newCategory: Id, newRequest: Id)
    | DoResolve(request: Id, approve: bool, resolution: Option<string>)
    | DoCreate(id: Id, author: Id, draft: bool, title: string, content: string, sel: Selection)
    | DoUpdateDraft(id: Id, owner: Id, patch: Patch)
    | DoUpdatePost(id: Id, owner: Id, patch: Patch)
    | DoPublish(id: Id, owner: Id)
    | DoDeleteDraft(id: Id, owner: Id)
    | DoMark(id: Id, actor: Option<Id>, deleted: bool)

  ghost function Attempt(s: State, op: Op): Result<State, Error> {
    match op
    case DoCreateRequest(u, name, n, c, r) => CreateRequest(s, u, name, n, c, r)
    case DoResolve(r, approve, resolution) => Resolve(s, r, approve, resolution)
    case DoCreate(id, author, draft, title, content, sel) => Create(s, id, author, draft, title, content, sel)
    case DoUpdateDraft(id, owner, patch) => UpdateDraft(s, id, owner, patch)
    case DoUpdatePost(id, owner, patch) => UpdatePost(s, id, owner, patch)
    case DoPublish(id, owner) => PublishDraft(s, id, owner)
    case DoDeleteDraft(id, owner) => DeleteDraft(s, id, owner)
    case DoMark(id, actor, deleted) => MarkDeleted(s, id, actor, deleted)
  }

  ghost function Step(s: State, op: Op): State {
    var r := Attempt(s, op);
    if r.Ok? then r.value else s
  }

  ghost function Run(s: State, ops: seq<Op>): State
    decreases |ops|
  {
    if ops == [] then s else Run(Step(s, ops[0]), ops[1..])
  }

  /* ---- the joint invariant ---- */

  ghost predicate NamesUnique(cats: map<Id, Category>) {
    forall c, d | c in cats && d in cats && cats[c].normalized == cats[d].normalized :: c == d
  }

  predicate PendingFor(reqs: map<Id, Request>, r: Id, c: Id) {
    r in reqs && reqs[r].status == Pending && reqs[r].category == c
  }

  /** A category is pending exactly while one request for it is, and only one ever is. */
  ghost predicate RequestsAgree(cats: map<Id, Category>, reqs: map<Id, Request>) {
    && (forall r | r in reqs :: reqs[r].category in cats)
    && (forall c | c in cats :: cats[c].status == Pending <==> exists r :: PendingFor(reqs, r, c))
    && (forall r, r', c | PendingFor(reqs, r, c) && PendingFor(reqs, r', c) :: r == r')
  }

  ghost predicate PostOk(cats: map<Id, Category>, reqs: map<Id, Request>, p: Post) {
    && (p.requestId.Some? ==> p.requestId.value in reqs)
    && (p.categoryId.Some? ==> p.categoryId.value in cats)
    && match p.status
       case Published =>
         && p.categoryId.Some?
         && cats[p.categoryId.value].status == Approved
         && p.category == cats[p.categoryId.value].name
       case PendingCategory =>
         && p.requestId.Some?
         && reqs[p.requestId.value].status == Pending
         && p.categoryId == Some(reqs[p.requestId.value].category)
         && p.category == cats[p.categoryId.value].name
       case NeedsCategoryChange =>
         && p.categoryId.None? && p.requestId.Some?
         && reqs[p.requestId.value].status == Rejected
       case Draft =>
         && p.categoryId.Some?
         && (p.requestId.None? ==> cats[p.categoryId.value].status == Approved && p.category == cats[p.categoryId.value].name)
         && (p.requestId.Some? ==> p.categoryId.value == reqs[p.requestId.value].category)
         && (p.requestId.Some? && reqs[p.requestId.value].status == Pending ==> p.category == cats[p.categoryId.value].name)
  }

  ghost predicate Inv(s: State) {
    && NamesUnique(s.categories)
    && RequestsAgree(s.categories, s.requests)
    && forall p | p in s.posts :: PostOk(s.categories, s.requests, s.posts[p])
  }

  /** The tables a deployment starts from: approved categories and nothing else. */
  ghost predicate Initial(s: State) {
    && NamesUnique(s.categories) && (forall c | c in s.categories :: s.categories[c].status == Approved)
    && s.requests == map[] && s.posts == map[]
  }

  lemma SelectOk(s: State, sel: Selection)
    requires Inv(s) && Select(s, sel).Ok?
    ensures var (c, r) := Select(s, sel).value;
      && c in s.categories
      && (r.None? ==> s.categories[c].status == Approved)
      && (r.Some? ==> PendingFor(s.requests, r.value, c))
  {
  }

  lemma OnePostChanged(s: State, id: Id, p: Post)
    requires Inv(s) && PostOk(s.categories, s.requests, p)
    ensures Inv(s.(posts := s.posts[id := p]))
  {
  }

  lemma CreateRequestKeepsInv(s: State, user: Id, name: string, normalized: string, newCategory: Id, newRequest: Id)
    requires Inv(s) && CreateRequest(s, user, name, normalized, newCategory, newRequest).Ok?
    ensures Inv(CreateRequest(s, user, name, normalized, newCategory, newRequest).value)
  {
    var s' := CreateRequest(s, user, name, normalized, newCategory, newRequest).value;
    var c := s'.requests[newRequest].category;
    assert PendingFor(s'.requests, newRequest, c);
    assert forall r :: !PendingFor(s.requests, r, c);
    assert NamesUnique(s'.categories) by {
      assert forall d | d in s.categories && s.categories[d].normalized == normalized :: Named(s, normalized, d);
    }
    forall r, d | r != newRequest ensures PendingFor(s'.requests, r, d) <==> PendingFor(s.requests, r, d) {}
    forall d | d in s'.categories ensures s'.categories[d].status == Pending <==> exists r :: PendingFor(s'.requests, r, d) {
      if d != c && s.categories[d].status == Pending {
        var r :| PendingFor(s.requests, r, d);
        assert PendingFor(s'.requests, r, d);
      }
    }
    forall p | p in s'.posts ensures PostOk(s'.categories, s'.requests, s'.posts[p]) {
      var post := s.posts[p];
      assert PostOk(s.categories, s.requests, post);
      assert post.requestId.Some? ==> !PendingFor(s.requests, post.requestId.value, c);
    }
  }

  lemma ResolveKeepsInv(s: State, r: Id, approve: bool, resolution: Option<string>)
    requires Inv(s) && Resolve(s, r, approve, resolution).Ok?
    ensures Inv(Resolve(s, r, approve, resolution).value)
  {
    var s' := Resolve(s, r, approve, resolution).value;
    var c := s.requests[r].category;
    assert PendingFor(s.requests, r, c);
    forall q, d ensures PendingFor(s'.requests, q, d) <==> PendingFor(s.requests, q, d) && q != r {}
    forall d | d in s'.categories ensures s'.categories[d].status == Pending <==> exists q :: PendingFor(s'.requests, q, d) {
      if d != c && s.categories[d].status == Pending {
        var q :| PendingFor(s.requests, q, d);
        assert PendingFor(s'.requests, q, d);
      }
    }
    forall p | p in s'.posts ensures PostOk(s'.categories, s'.requests, s'.posts[p]) {
      assert PostOk(s.categories, s.requests, s.posts[p]);
    }
  }

  lemma PostOpKeepsInv(s: State, op: Op)
    requires Inv(s) && !op.DoCreateRequest? && !op.DoResolve?
    ensures Inv(Step(s, op))
  {
    var r := Attempt(s, op);
    if r.Ok? {
      var id := op.id;
      var sel := if op.DoCreate? then Some(op.sel) else if op.DoUpdateDraft? || op.DoUpdatePost? then op.patch.selection else None;
      if sel.Some? { SelectOk(s, sel.value); }
      if id in s.posts { assert PostOk(s.categories, s.requests, s.posts[id]); }
      OnePostChanged(s, id, r.value.posts[id]);
    }
  }

  lemma StepKeepsInv(s: State, op: Op)
    requires Inv(s)
    ensures Inv(Step(s, op))
  {
    if Attempt(s, op).Ok? {
      match op
      case DoCreateRequest(u, name, n, c, r) => CreateRequestKeepsInv(s, u, name, n, c, r);
      case DoResolve(r, approve, resolution) => ResolveKeepsInv(s, r, approve, resolution);
      case _ => PostOpKeepsInv(s, op);
    }
  }

  /** In every run, posts, requests and categories agree. */
  lemma {:induction false} RunKeepsInv(s: State, ops: seq<Op>)
    requires Inv(s)
    ensures Inv(Run(s, ops))
    decreases |ops|
  {
    if ops != [] {
      StepKeepsInv(s, ops[0]);
      RunKeepsInv(Step(s, ops[0]), ops[1..]);
    }
  }

  lemma EveryRunAgrees(s: State, ops: seq<Op>)
    requires Initial(s)
    ensures Inv(Run(s, ops))
  {
    RunKeepsInv(s, ops);
  }

  /* ---- what follows for whole runs ---- */

  /** Approval of a category is final, and its name is then final too. */
  lemma {:induction false} ApprovedForever(s: State, ops: seq<Op>, c: Id)
    requires Inv(s) && c in s.categories && s.categories[c].status == Approved
    ensures c in Run(s, ops).categories && Run(s, ops).categories[c] == s.categories[c]
    decreases |ops|
  {
    if ops != [] {
      var op, s' := ops[0], Step(s, ops[0]);
      StepKeepsInv(s, op);
      if op.DoResolve? && Attempt(s, op).Ok? { assert PendingFor(s.requests, op.request, s.requests[op.request].category); }
      assert s'.categories[c] == s.categories[c];
      ApprovedForever(s', ops[1..], c);
    }
  }

  /** The decision on a request is final. */
  lemma {:induction false} DecidedForever(s: State, ops: seq<Op>, r: Id)
    requires r in s.requests && s.requests[r].status != Pending
    ensures r in Run(s, ops).requests && Run(s, ops).requests[r] == s.requests[r]
    decreases |ops|
  {
    if ops != [] {
      assert Step(s, ops[0]).requests[r] == s.requests[r];
      DecidedForever(Step(s, ops[0]), ops[1..], r);
    }
  }

  /** Who an operation acts for on a post; moderation and decisions act for nobody. */
  function ActsFor(op: Op, id: Id): Option<Id> {
    match op
    case DoUpdateDraft(p, owner, _) => if p == id then Some(owner) else None
    case DoUpdatePost(p, owner, _) => if p == id then Some(owner) else None
    case DoPublish(p, owner) => if p == id then Some(owner) else None
    case DoDeleteDraft(p, owner) => if p == id then Some(owner) else None
    case DoMark(p, actor, _) => if p == id then actor else None
    case _ => None
  }

  /** A post never goes and never changes hands; it is changed by its author, a moderator's mark, or the decision it waits for. */
  lemma OnlyAuthorized(s: State, op: Op, id: Id)
    requires id in s.posts
    ensures var t := Step(s, op);
      && id in t.posts && t.posts[id].author == s.posts[id].author
      && (t.posts[id] != s.posts[id] ==>
            || ActsFor(op, id) == Some(s.posts[id].author)
            || (op.DoMark? && op.id == id && t.posts[id] == s.posts[id].(deleted := op.deleted))
            || (op.DoResolve? && WaitsOn(s.posts[id], op.request)))
  {
  }

  /** The ways a post goes up: its author publishes it or gives it an approved category, or its request is approved. */
  lemma BecomesPublished(s: State, op: Op, id: Id)
    requires Inv(s) && id in Step(s, op).posts && Step(s, op).posts[id].status == Published
    requires id in s.posts ==> s.posts[id].status != Published
    ensures var p := Step(s, op).posts[id];
      && p.categoryId.Some? && p.categoryId.value in Step(s, op).categories
      && Step(s, op).categories[p.categoryId.value].status == Approved
      && PutsUp(s, op, id, p)
  {
    GoesUpBy(s, op, id);
    StepKeepsInv(s, op);
    PublishedUnderApproved(Step(s, op), id);
  }

  predicate PutsUp(s: State, op: Op, id: Id, p: Post) {
    || (op.DoCreate? && op.id == id && !op.draft && op.author == p.author && !Blank(op.title) && !Blank(op.content))
    || (op.DoPublish? && op.id == id && op.owner == p.author && !Blank(p.title) && !Blank(p.content))
    || (op.DoUpdatePost? && op.id == id && op.owner == p.author && op.patch.selection.Some?)
    || (op.DoResolve? && op.approve && id in s.posts && WaitsOn(s.posts[id], op.request))
  }

  lemma PublishedUnderApproved(s: State, id: Id)
    requires Inv(s) && id in s.posts && s.posts[id].status == Published
    ensures var c := s.posts[id].categoryId; c.Some? && c.value in s.categories && s.categories[c.value].status == Approved
  {
    assert PostOk(s.categories, s.requests, s.posts[id]);
  }

  lemma GoesUpBy(s: State, op: Op, id: Id)
    requires id in Step(s, op).posts && Step(s, op).posts[id].status == Published
    requires id in s.posts ==> s.posts[id].status != Published
    ensures PutsUp(s, op, id, Step(s, op).posts[id])
  {
  }

  /** When a post can be created, what is stored, and that a category's state alone decides whether it goes up or waits. */
  lemma CreateExactly(s: State, id: Id, author: Id, draft: bool, title: string, content: string, sel: Selection)
    requires Inv(s)
    ensures var r := Create(s, id, author, draft, title, content, sel);
      && (r.Ok? <==> (draft || (!Blank(title) && !Blank(content))) && Select(s, sel).Ok? && id !in s.posts)
      && (r.Ok? ==>
            && id in r.value.posts && r.value == s.(posts := s.posts[id := r.value.posts[id]])
            && var p := r.value.posts[id];
               && p.author == author && p.title == Strip(title) && p.content == Strip(content) && !p.deleted
               && p.categoryId.Some? && p.categoryId.value in s.categories && p.category == s.categories[p.categoryId.value].name
               && s.categories[p.categoryId.value].status != Rejected
               && (p.status == Draft <==> draft)
               && (p.status == Published <==> !draft && s.categories[p.categoryId.value].status == Approved)
               && (p.status == PendingCategory <==> !draft && s.categories[p.categoryId.value].status == Pending)
               && (p.requestId.Some? <==> s.categories[p.categoryId.value].status == Pending))
  {
    if Select(s, sel).Ok? { SelectOk(s, sel); }
  }

  /** In no run is the last branch of publish_draft, "category is no longer approved", ever reached. */
  lemma PublishNeverUnapproved(start: State, ops: seq<Op>, id: Id, owner: Id)
    requires Initial(start) && IsDraftOf(Run(start, ops), id, owner)
    requires Run(start, ops).posts[id].categoryId.Some?
    requires var r := Run(start, ops).posts[id].requestId; r.None? || r.value !in Run(start, ops).requests
    ensures var s := Run(start, ops);
      var c := s.posts[id].categoryId.value;
      c in s.categories && s.categories[c].status == Approved
  {
    EveryRunAgrees(start, ops);
    var s := Run(start, ops);
    assert PostOk(s.categories, s.requests, s.posts[id]);
  }

  /** Exactly when publishing succeeds, what it leads to, and which error it gives. */
  lemma PublishExactly(s: State, id: Id, owner: Id)
    requires Inv(s)
    ensures var r := PublishDraft(s, id, owner);
      && (r.Ok? <==>
            && IsDraftOf(s, id, owner) && s.posts[id].status == Draft
            && !Blank(s.posts[id].title) && !Blank(s.posts[id].content)
            && (s.posts[id].requestId.Some? ==> s.requests[s.posts[id].requestId.value].status == Pending))
      && (r.Ok? ==> r.value == s.(posts := s.posts[id := s.posts[id].(
            status := if s.posts[id].requestId.None? then Published else PendingCategory)]))
      && (r == Err(Conflict) <==>
            && IsDraftOf(s, id, owner) && s.posts[id].status == Draft
            && !Blank(s.posts[id].title) && !Blank(s.posts[id].content)
            && s.posts[id].requestId.Some? && s.requests[s.posts[id].requestId.value].status != Pending)
  {
    if id in s.posts { assert PostOk(s.categories, s.requests, s.posts[id]); }
  }

  predicate Reselects(op: Op, id: Id) {
    (op.DoUpdateDraft? || op.DoUpdatePost?) && op.id == id && op.patch.selection.Some?
  }

  ghost predicate Stranded(s: State, id: Id) {
    && id in s.posts && s.posts[id].status == Draft
    && s.posts[id].requestId.Some? && s.posts[id].requestId.value in s.requests
    && s.requests[s.posts[id].requestId.value].status != Pending
  }

  lemma StepKeepsStranded(s: State, op: Op, id: Id)
    requires Inv(s) && Stranded(s, id) && !Reselects(op, id)
    ensures Stranded(Step(s, op), id)
  {
    if op.DoPublish? && op.id == id { PublishExactly(s, id, op.owner); }
  }

  /**
   A draft saved against a request that is then decided, even approved, cannot be
   published by any run that does not choose a category for it again.
   */
  lemma {:induction false} StrandedDraftStaysUnpublished(s: State, ops: seq<Op>, id: Id, owner: Id)
    requires Inv(s) && Stranded(s, id)
    requires forall i :: 0 <= i < |ops| ==> !Reselects(ops[i], id)
    ensures Stranded(Run(s, ops), id)
    ensures PublishDraft(Run(s, ops), id, owner).Err?
    decreases |ops|
  {
    if ops == [] {
      PublishExactly(s, id, owner);
    } else {
      StepKeepsInv(s, ops[0]);
      StepKeepsStranded(s, ops[0], id);
      StrandedDraftStaysUnpublished(Step(s, ops[0]), ops[1..], id, owner);
    }
  }

  /** It happens even on approval: a draft saved against a request that is then approved cannot be published. */
  lemma ApprovedDraftStranded(user: Id, name: string, c: Id, r: Id, post: Id, title: string, content: string)
    requires !Blank(title) && !Blank(content)
    ensures var start := State(map[], map[], map[]);
      var s := Run(start, [DoCreateRequest(user, name, name, c, r), DoCreate(post, user, true, title, content, ByRequest(r)),
                           DoResolve(r, true, None)]);
      && Initial(start) && Stranded(s, post)
      && s.posts[post].categoryId == Some(c) && c in s.categories && s.categories[c].status == Approved
      && PublishDraft(s, post, user) == Err(Conflict)
  {
    var start := State(map[], map[], map[]);
    var request, create, resolve := DoCreateRequest(user, name, name, c, r), DoCreate(post, user, true, title, content, ByRequest(r)),
      DoResolve(r, true, None);
    var s1 := Step(start, request);
    assert s1 == State(map[c := Category(name, name, Pending)], map[r := Request(user, c, Pending, None)], map[]);
    var s2 := Step(s1, create);
    assert s2.posts == map[post := Post(user, Draft, Strip(title), Strip(content), name, Some(c), Some(r), false)];
    var s3 := Step(s2, resolve);
    assert s3.posts[post] == s2.posts[post];
    StripOfStrip(title);
    StripOfStrip(content);
    assert [request, create, resolve] == [request] + ([create] + ([resolve] + []));
    RunOneMore(start, request, [create] + ([resolve] + []));
    RunOneMore(s1, create, [resolve] + []);
    RunOneMore(s2, resolve, []);
  }

  lemma RunOneMore(s: State, op: Op, rest: seq<Op>)
    ensures Run(s, [op] + rest) == Run(Step(s, op), rest)
  {
    assert ([op] + rest)[1..] == rest;
  }

  /**
   Resolving a request settles every post that waited on it: published in that
   category on approval, sent back without a category otherwise. No other post
   changes, and none is left waiting.
   */
  lemma ResolveSettles(s: State, r: Id, approve: bool, resolution: Option<string>, p: Id)
    requires Inv(s) && Resolve(s, r, approve, resolution).Ok? && p in s.posts
    ensures var s' := Resolve(s, r, approve, resolution).value;
      && s'.posts.Keys == s.posts.Keys
      && !WaitsOn(s'.posts[p], r)
      && (!WaitsOn(s.posts[p], r) ==> s'.posts[p] == s.posts[p])
      && (WaitsOn(s.posts[p], r) && approve ==>
            s'.posts[p] == s.posts[p].(status := Published) && s'.posts[p].categoryId == Some(s.requests[r].category))
      && (WaitsOn(s.posts[p], r) && !approve ==>
            s'.posts[p] == s.posts[p].(status := NeedsCategoryChange, categoryId := None))
  {
    assert PostOk(s.categories, s.requests, s.posts[p]);
  }

  /* ---- blank titles ---- */

  /** A post that is up, or will go up on approval, has a title and a text. */
  ghost predicate Titled(s: State) {
    forall p | p in s.posts && s.posts[p].status in {Published, PendingCategory} ::
      !Blank(s.posts[p].title) && !Blank(s.posts[p].content)
  }

  /** update_post is asked to choose a category and leaves a blank title or text blank. */
  ghost predicate PutsUpBlank(s: State, op: Op) {
    && op.DoUpdatePost? && op.patch.selection.Some?
    && IsPostOf(s, op.id, op.owner) && Select(s, op.patch.selection.value).Ok?
    && (op.patch.title.Some? ==> !Blank(op.patch.title.value))
    && (op.patch.content.Some? ==> !Blank(op.patch.content.value))
    && ((op.patch.title.None? && Blank(s.posts[op.id].title)) || (op.patch.content.None? && Blank(s.posts[op.id].content)))
  }

  lemma StripOfStrip(t: string)
    ensures Blank(Strip(t)) <==> Blank(t)
  {
  }

  lemma UpdateTitledExactly(s: State, id: Id, owner: Id, patch: Patch)
    requires Titled(s) && UpdatePost(s, id, owner, patch).Ok?
    ensures Titled(UpdatePost(s, id, owner, patch).value) <==> !PutsUpBlank(s, DoUpdatePost(id, owner, patch))
  {
    var s' := UpdatePost(s, id, owner, patch).value;
    if patch.title.Some? { StripOfStrip(patch.title.value); }
    if patch.content.Some? { StripOfStrip(patch.content.value); }
    assert patch.selection.Some? ==> s'.posts[id].status in {Published, PendingCategory};
  }

  lemma CreateKeepsTitled(s: State, id: Id, author: Id, draft: bool, title: string, content: string, sel: Selection)
    requires Titled(s) && Create(s, id, author, draft, title, content, sel).Ok?
    ensures Titled(Create(s, id, author, draft, title, content, sel).value)
  {
    StripOfStrip(title);
    StripOfStrip(content);
  }

  lemma ResolveKeepsTitled(s: State, r: Id, approve: bool, resolution: Option<string>)
    requires Titled(s) && Resolve(s, r, approve, resolution).Ok?
    ensures Titled(Resolve(s, r, approve, resolution).value)
  {
    assert forall p | p in s.posts && WaitsOn(s.posts[p], r) :: s.posts[p].status in {Published, PendingCategory};
  }

  /** That is the one way in which a step lets a blank post up. */
  lemma TitledExactly(s: State, op: Op)
    requires Inv(s) && Titled(s)
    ensures Titled(Step(s, op)) <==> !PutsUpBlank(s, op)
  {
    var r := Attempt(s, op);
    if r.Ok? {
      match op
      case DoCreate(id, author, draft, title, content, sel) => CreateKeepsTitled(s, id, author, draft, title, content, sel);
      case DoUpdatePost(id, owner, patch) => UpdateTitledExactly(s, id, owner, patch);
      case DoResolve(q, approve, resolution) => ResolveKeepsTitled(s, q, approve, resolution);
      case _ =>
    }
  }

  /** And it is reachable: a blank draft, given a category through update_post, is published. */
  lemma BlankPostPublished(c: Id, name: string, post: Id, author: Id)
    ensures var start := State(map[c := Category(name, name, Approved)], map[], map[]);
      var patch := Patch(None, None, Some(ById(c)), false);
      var s := Run(start, [DoCreate(post, author, true, "", "", ById(c)), DoUpdatePost(post, author, patch)]);
      && Initial(start)
      && post in s.posts && s.posts[post].status == Published && !s.posts[post].deleted && Blank(s.posts[post].title)
  {
    var start := State(map[c := Category(name, name, Approved)], map[], map[]);
    var patch := Patch(None, None, Some(ById(c)), false);
    var ops := [DoCreate(post, author, true, "", "", ById(c)), DoUpdatePost(post, author, patch)];
    var s1 := Step(start, ops[0]);
    assert s1.posts == map[post := Post(author, Draft, "", "", name, Some(c), None, false)];
    var s2 := Step(s1, ops[1]);
    assert s2.posts[post].status == Published;
    assert ops[1..] == [ops[1]] && Run(s1, ops[1..]) == Run(s2, ops[1..][1..]);
  }

  /* ---- the services, assigning rows ---- */

  class ContentService {
    var categories: map<Id, Category>
    var requests: map<Id, Request>
    var posts: map<Id, Post>

    ghost function View(): State
      reads this
    {
      State(categories, requests, posts)
    }

    ghost predicate Valid()
      reads this
    {
      Inv(View())
    }

    /** The transaction did what the specification says, or failed and changed nothing. */
    ghost predicate Commits(before: State, spec: Result<State, Error>, failure: Option<Error>)
      reads this
    {
      match spec
      case Ok(after) => failure == None && View() == after
      case Err(e) => failure == Some(e) && View() == before
    }

    constructor (seeded: map<Id, Category>)
      requires Initial(State(seeded, map[], map[]))
      ensures Valid() && View() == State(seeded, map[], map[])
    {
      categories, requests, posts := seeded, map[], map[];
    }

    method CreateCategoryRequest(user: Id, name: string, normalized: string, newCategory: Id, newRequest: Id) returns (failure: Option<Error>)
      requires Valid()
      modifies this
      ensures Valid() && Commits(old(View()), CreateRequest(old(View()), user, name, normalized, newCategory, newRequest), failure)
    {
      ghost var before := View();
      StepKeepsInv(before, DoCreateRequest(user, name, normalized, newCategory, newRequest));
      if newRequest in requests { return Some(Conflict); }
      var categoryId := newCategory;
      if c :| c in categories && categories[c].normalized == normalized {
        assert Named(before, normalized, c);
        if categories[c].status != Rejected { return Some(Conflict); }
        categoryId := c;
        categories := categories[c := categories[c].(name := name)];
        categories := categories[c := categories[c].(status := Pending)];
      } else {
        if newCategory in categories { return Some(Conflict); }
        categories := categories[newCategory := Category(name, normalized, Pending)];
      }
      requests := requests[newRequest := Request(user, categoryId, Pending, None)];
      failure := None;
      assert View() == Step(before, DoCreateRequest(user, name, normalized, newCategory, newRequest));
    }

    method ResolveCategorySelection(sel: Selection) returns (r: Result<(Id, Option<Id>), Error>)
      requires Valid()
      ensures r == Select(View(), sel)
    {
      match sel
      case ById(id) =>
        if id in categories && categories[id].status == Approved { return Ok((id, None)); }
        return Err(ValidationError);
      case ByName(n) =>
        if c :| c in categories && categories[c].normalized == n && categories[c].status == Approved {
          assert Named(View(), n, c);
          return Ok((c, None));
        }
        return Err(ValidationError);
      case ByRequest(q) =>
        if q !in requests || requests[q].status != Pending { return Err(Conflict); }
        var c := requests[q].category;
        if c !in categories || categories[c].status != Pending { return Err(Conflict); }
        return Ok((c, Some(q)));
    }

    method ResolveCategoryRequest(id: Id, approve: bool, resolution: Option<string>) returns (failure: Option<Error>)
      requires Valid()
      modifies this
      ensures Valid() && Commits(old(View()), Resolve(old(View()), id, approve, resolution), failure)
      ensures failure.None? ==>
        && id in requests && requests[id].status == (if approve then Approved else Rejected) && requests[id].resolution == resolution
        && requests[id].category in categories && categories[requests[id].category].status == requests[id].status
    {
      StepKeepsInv(View(), DoResolve(id, approve, resolution));
      if id !in requests { return Some(NotFound); }
      if requests[id].status != Pending { return Some(Conflict); }
      var c := requests[id].category;
      if c !in categories { return Some(NotFound); }
      var status := if approve then Approved else Rejected;
      requests := requests[id := requests[id].(status := status, resolution := resolution)];
      categories := categories[c := categories[c].(status := status)];
      var name := categories[c].name;
      posts := map p | p in posts :: Moved(posts[p], id, c, name, approve);
      failure := None;
    }

    /** create_post, and with `draft` create_draft. */
    method CreatePost(id: Id, author: Id, draft: bool, title: string, content: string, sel: Selection) returns (failure: Option<Error>)
      requires Valid()
      modifies this`posts
      ensures Valid() && Commits(old(View()), Create(old(View()), id, author, draft, title, content, sel), failure)
    {
      StepKeepsInv(View(), DoCreate(id, author, draft, title, content, sel));
      if !draft && (Blank(title) || Blank(content)) { return Some(ValidationError); }
      var chosen := ResolveCategorySelection(sel);
      if chosen.Err? { return Some(chosen.error); }
      if id in posts { return Some(Conflict); }
      var (c, r) := chosen.value;
      var status := if draft then Draft else if r.Some? then PendingCategory else Published;
      posts := posts[id := Post(author, status, Strip(title), Strip(content), categories[c].name, Some(c), r, false)];
      failure := None;
    }

    method UpdateDraftPost(id: Id, owner: Id, patch: Patch) returns (failure: Option<Error>)
      requires Valid()
      modifies this`posts
      ensures Valid() && Commits(old(View()), UpdateDraft(old(View()), id, owner, patch), failure)
    {
      StepKeepsInv(View(), DoUpdateDraft(id, owner, patch));
      if !(id in posts && posts[id].author == owner && posts[id].status in {Draft, NeedsCategoryChange} && !posts[id].deleted) {
        return Some(NotFound);
      }
      if !patch.HasChanges() { return Some(ValidationError); }
      var draft := posts[id];
      if patch.title.Some? { draft := draft.(title := Strip(patch.title.value)); }
      if patch.content.Some? { draft := draft.(content := Strip(patch.content.value)); }
      if patch.selection.Some? {
        var chosen := ResolveCategorySelection(patch.selection.value);
        if chosen.Err? { return Some(chosen.error); }
        draft := draft.(category := categories[chosen.value.0].name);
        draft := draft.(categoryId := Some(chosen.value.0));
        draft := draft.(requestId := chosen.value.1);
        draft := draft.(status := Draft);
      }
      posts := posts[id := draft];
      failure := None;
    }

    method UpdatePublishedPost(id: Id, owner: Id, patch: Patch) returns (failure: Option<Error>)
      requires Valid()
      modifies this`posts
      ensures Valid() && Commits(old(View()), UpdatePost(old(View()), id, owner, patch), failure)
    {
      StepKeepsInv(View(), DoUpdatePost(id, owner, patch));
      if (patch.title.Some? && Blank(patch.title.value)) || (patch.content.Some? && Blank(patch.content.value)) {
        return Some(ValidationError);
      }
      if !(id in posts && posts[id].author == owner && !posts[id].deleted) { return Some(NotFound); }
      if !patch.HasChanges() { return Some(ValidationError); }
      var post := posts[id];
      if patch.title.Some? { post := post.(title := Strip(patch.title.value)); }
      if patch.content.Some? { post := post.(content := Strip(patch.content.value)); }
      if patch.selection.Some? {
        var chosen := ResolveCategorySelection(patch.selection.value);
        if chosen.Err? { return Some(chosen.error); }
        post := post.(category := categories[chosen.value.0].name);
        post := post.(categoryId := Some(chosen.value.0));
        post := post.(requestId := chosen.value.1);
        post := post.(status := if chosen.value.1.Some? then PendingCategory else Published);
      }
      posts := posts[id := post];
      failure := None;
    }

    method Publish(id: Id, owner: Id) returns (failure: Option<Error>)
      requires Valid()
      modifies this`posts
      ensures Valid() && Commits(old(View()), PublishDraft(old(View()), id, owner), failure)
    {
      StepKeepsInv(View(), DoPublish(id, owner));
      if !(id in posts && posts[id].author == owner && posts[id].status in {Draft, NeedsCategoryChange} && !posts[id].deleted) {
        return Some(NotFound);
      }
      var draft := posts[id];
      if Blank(draft.title) || Blank(draft.content) || draft.categoryId.None? { return Some(ValidationError); }
      if draft.categoryId.value !in categories { return Some(ValidationError); }
      if draft.requestId.Some? && draft.requestId.value in requests {
        if requests[draft.requestId.value].status != Pending { return Some(Conflict); }
        draft := draft.(status := PendingCategory);
      } else if categories[draft.categoryId.value].status == Approved {
        draft := draft.(status := Published);
      } else {
        return Some(Conflict);
      }
      posts := posts[id := draft];
      failure := None;
    }
  }
}
