/**
 Conversations, their members and read markers, messages and blocks. The users
 table is given to each call as it stands then; whether an envelope and its
 attachments are valid is decided outside.
 */
module Messaging {
  import opened Wrappers
  import Text
  import Finite

  type Id = Text.Uuid

  /* ---- the key of a direct conversation ---- */

  /** The order of strings by their characters, as sorted() has it. */
  predicate Leq(s: string, t: string) {
    s == [] || (t != [] && (s[0] < t[0] || (s[0] == t[0] && Leq(s[1..], t[1..]))))
  }

  lemma {:induction false} LeqTotal(s: string, t: string)
    ensures Leq(s, t) || Leq(t, s)
    ensures Leq(s, t) && Leq(t, s) ==> s == t
  {
    if s != [] && t != [] {
      LeqTotal(s[1..], t[1..]);
      assert s == [s[0]] + s[1..] && t == [t[0]] + t[1..];
    }
  }

  function DirectKey(a: Id, b: Id): string {
    var s, t := Text.UuidText(a), Text.UuidText(b);
    if Leq(s, t) then s + ":" + t else t + ":" + s
  }

  lemma KeySymmetric(a: Id, b: Id)
    ensures DirectKey(a, b) == DirectKey(b, a)
  {
    LeqTotal(Text.UuidText(a), Text.UuidText(b));
  }

  lemma TextInjective(a: Id, b: Id)
    requires Text.UuidText(a) == Text.UuidText(b)
    ensures a == b
  {
    Text.UuidRoundTrip(a);
    Text.UuidRoundTrip(b);
  }

  lemma JoinInjective(s: string, t: string, s': string, t': string)
    requires |s| == |s'| && s + ":" + t == s' + ":" + t'
    ensures s == s' && t == t'
  {
    assert s == (s + ":" + t)[..|s|] && s' == (s' + ":" + t')[..|s|];
    assert t == (s + ":" + t)[|s| + 1..] && t' == (s' + ":" + t')[|s| + 1..];
  }

  /** The key tells unordered pairs apart, and nothing else. */
  lemma KeyInjective(a: Id, b: Id, c: Id, d: Id)
    ensures DirectKey(a, b) == DirectKey(c, d) <==> (a == c && b == d) || (a == d && b == c)
  {
    if DirectKey(a, b) == DirectKey(c, d) {
      var x, y := if Leq(Text.UuidText(a), Text.UuidText(b)) then (a, b) else (b, a),
        if Leq(Text.UuidText(c), Text.UuidText(d)) then (c, d) else (d, c);
      JoinInjective(Text.UuidText(x.0), Text.UuidText(x.1), Text.UuidText(y.0), Text.UuidText(y.1));
      TextInjective(x.0, y.0);
      TextInjective(x.1, y.1);
    }
    KeySymmetric(a, b);
  }

  /* ---- the tables ---- */

  datatype Member = Member(lastRead: Option<Id>, admin: bool)

  /** A conversation with its rows of conversation_members. */
  datatype Conversation = Conversation(key: Option<string>, group: bool, creator: Id, members: map<Id, Member>)

  datatype Message = Message(conversation: Id, sender: Id, at: int, deletedAt: Option<int>)

  type Conversations = map<Id, Conversation>
  type Messages = map<Id, Message>

  /** Blocks are pairs (blocker, blocked). */
  datatype State = State(conversations: Conversations, messages: Messages, blocks: set<(Id, Id)>)

  datatype User = User(active: bool, disabled: bool, mutedUntil: Option<int>)

  datatype Error = Forbidden | NotFound | Muted | Conflict | Invalid

  /** The users table and the time of a call. */
  datatype Scene = Scene(users: map<Id, User>, now: int)

  predicate Active(scene: Scene, id: Id) { id in scene.users && scene.users[id].active && !scene.users[id].disabled }

  predicate IsMuted(scene: Scene, id: Id) {
    id in scene.users && scene.users[id].mutedUntil.Some? && scene.users[id].mutedUntil.value > scene.now
  }

  predicate Blocked(blocks: set<(Id, Id)>, a: Id, b: Id) { (a, b) in blocks || (b, a) in blocks }

  /** assert_can_contact: the reason against it, if there is one. */
  function Obstacle(blocks: set<(Id, Id)>, scene: Scene, actor: Id, target: Id): Option<Error> {
    if actor == target || !Active(scene, actor) then Some(Forbidden)
    else if !Active(scene, target) then Some(NotFound)
    else if IsMuted(scene, actor) then Some(Muted)
    else if Blocked(blocks, actor, target) then Some(NotFound)
    else None
  }

  predicate AllReachable(blocks: set<(Id, Id)>, scene: Scene, actor: Id, targets: set<Id>) {
    forall t | t in targets :: Obstacle(blocks, scene, actor, t).None?
  }

  predicate IsMember(s: State, c: Id, user: Id) { c in s.conversations && user in s.conversations[c].members }

  ghost predicate HasKey(cs: Conversations, key: string, c: Id) { c in cs && cs[c].key == Some(key) }

  /* ---- the steps ---- */

  const PLAIN := Member(None, false)

  function NewDirect(actor: Id, target: Id): Conversation {
    Conversation(Some(DirectKey(actor, target)), false, actor, map[actor := PLAIN, target := PLAIN])
  }

  ghost function Direct(s: State, scene: Scene, actor: Id, target: Id, newId: Id): (t: State)
    ensures t.messages == s.messages && t.blocks == s.blocks
  {
    if Obstacle(s.blocks, scene, actor, target).Some? || newId in s.conversations
      || exists c :: HasKey(s.conversations, DirectKey(actor, target), c)
    then s
    else s.(conversations := s.conversations[newId := NewDirect(actor, target)])
  }

  function NewGroup(actor: Id, others: set<Id>): Conversation {
    Conversation(None, true, actor, map u | u in others + {actor} :: Member(None, u == actor))
  }

  function Others(actor: Id, ids: seq<Id>): set<Id> { (set u | u in ids) - {actor} }

  predicate GroupAllowed(s: State, scene: Scene, actor: Id, ids: seq<Id>) {
    Others(actor, ids) != {} && AllReachable(s.blocks, scene, actor, Others(actor, ids))
  }

  function Group(s: State, scene: Scene, actor: Id, ids: seq<Id>, newId: Id): (t: State)
    ensures t.messages == s.messages && t.blocks == s.blocks
  {
    if newId in s.conversations || !GroupAllowed(s, scene, actor, ids) then s
    else s.(conversations := s.conversations[newId := NewGroup(actor, Others(actor, ids))])
  }

  function AddError(s: State, scene: Scene, c: Id, actor: Id, target: Id): Option<Error> {
    if !IsMember(s, c, actor) || !s.conversations[c].group then Some(NotFound)
    else if !s.conversations[c].members[actor].admin then Some(Forbidden)
    else if !Active(scene, target) then Some(NotFound)
    else if Obstacle(s.blocks, scene, actor, target).Some? then Obstacle(s.blocks, scene, actor, target)
    else if target in s.conversations[c].members then Some(Conflict)
    else None
  }

  function WithMembers(s: State, c: Id, members: map<Id, Member>): State
    requires c in s.conversations
  {
    s.(conversations := s.conversations[c := s.conversations[c].(members := members)])
  }

  function Add(s: State, scene: Scene, c: Id, actor: Id, target: Id): (t: State)
    ensures t.messages == s.messages && t.blocks == s.blocks
  {
    if AddError(s, scene, c, actor, target).Some? then s
    else WithMembers(s, c, s.conversations[c].members[target := PLAIN])
  }

  function RemoveError(s: State, c: Id, actor: Id, target: Id): Option<Error> {
    if !IsMember(s, c, actor) || !IsMember(s, c, target) || !s.conversations[c].group then Some(NotFound)
    else if target != actor && !s.conversations[c].members[actor].admin then Some(Forbidden)
    else if target == s.conversations[c].creator then Some(Forbidden)
    else None
  }

  function Remove(s: State, c: Id, actor: Id, target: Id): (t: State)
    ensures t.messages == s.messages && t.blocks == s.blocks
  {
    if RemoveError(s, c, actor, target).Some? then s
    else WithMembers(s, c, s.conversations[c].members - {target})
  }

  predicate SendAllowed(s: State, scene: Scene, c: Id, actor: Id, valid: bool) {
    && IsMember(s, c, actor) && valid
    && AllReachable(s.blocks, scene, actor, s.conversations[c].members.Keys - {actor})
  }

  function Send(s: State, scene: Scene, c: Id, actor: Id, valid: bool, newId: Id): (t: State)
    ensures t.conversations == s.conversations && t.blocks == s.blocks
  {
    if newId in s.messages || !SendAllowed(s, scene, c, actor, valid) then s
    else s.(messages := s.messages[newId := Message(c, actor, scene.now, None)])
  }

  predicate CanMark(s: State, c: Id, user: Id, m: Id) {
    IsMember(s, c, user) && m in s.messages && s.messages[m].conversation == c
  }

  function MarkRead(s: State, c: Id, user: Id, m: Id): (t: State)
    ensures t.messages == s.messages && t.blocks == s.blocks
  {
    if !CanMark(s, c, user, m) then s
    else
      var members := s.conversations[c].members;
      WithMembers(s, c, members[user := members[user].(lastRead := Some(m))])
  }

  predicate CanDelete(s: State, m: Id, actor: Id) {
    m in s.messages && s.messages[m].sender == actor && s.messages[m].deletedAt.None?
  }

  function Tombstone(s: State, m: Id, now: int): State
    requires m in s.messages
  {
    s.(messages := s.messages[m := s.messages[m].(deletedAt := Some(now))])
  }

  function Delete(s: State, m: Id, actor: Id, now: int): (t: State)
    ensures t.conversations == s.conversations && t.blocks == s.blocks
  {
    if CanDelete(s, m, actor) then Tombstone(s, m, now) else s
  }

  /** hide_message: anyone's, and an already deleted message keeps its mark. */
  function Hide(s: State, m: Id, now: int): (t: State)
    ensures t.conversations == s.conversations && t.blocks == s.blocks
  {
    if m in s.messages && s.messages[m].deletedAt.None? then Tombstone(s, m, now) else s
  }

  /** A marker whose message goes becomes null. */
  function Forget(member: Member, gone: set<Id>): Member {
    if member.lastRead.Some? && member.lastRead.value in gone then member.(lastRead := None) else member
  }

  function ForgetIn(c: Conversation, gone: set<Id>): Conversation {
    c.(members := map u | u in c.members :: Forget(c.members[u], gone))
  }

  /** Messages deleted before a time; `gone` is the batch that goes. */
  function Deleted(messages: Messages, before: int): set<Id> {
    set m | m in messages && messages[m].deletedAt.Some? && messages[m].deletedAt.value < before
  }

  function Purge(s: State, before: int, gone: set<Id>): (t: State)
    ensures t.blocks == s.blocks
  {
    if !(gone <= Deleted(s.messages, before)) then s
    else State(map c | c in s.conversations :: ForgetIn(s.conversations[c], gone), s.messages - gone, s.blocks)
  }

  datatype Op =
    | DoDirect(scene: Scene, actor: Id, target: Id, newId: Id)
    | DoGroup(scene: Scene, actor: Id, ids: seq<Id>, newId: Id)
    | DoAdd(scene: Scene, c: Id, actor: Id, target: Id)
    | DoRemove(c: Id, actor: Id, target: Id)
    | DoSend(scene: Scene, c: Id, actor: Id, valid: bool, newId: Id)
    | DoMark(c: Id, actor: Id, m: Id)
    | DoDelete(m: Id, actor: Id, now: int)
    | DoHide(m: Id, now: int)
    | DoPurge(before: int, gone: set<Id>)
    | DoBlock(actor: Id, target: Id, known: bool)
    | DoUnblock(actor: Id, target: Id)

  ghost function Step(s: State, op: Op): State {
    match op
    case DoDirect(scene, a, t, newId) => Direct(s, scene, a, t, newId)
    case DoGroup(scene, a, ids, newId) => Group(s, scene, a, ids, newId)
    case DoAdd(scene, c, a, t) => Add(s, scene, c, a, t)
    case DoRemove(c, a, t) => Remove(s, c, a, t)
    case DoSend(scene, c, a, valid, newId) => Send(s, scene, c, a, valid, newId)
    case DoMark(c, u, m) => MarkRead(s, c, u, m)
    case DoDelete(m, a, now) => Delete(s, m, a, now)
    case DoHide(m, now) => Hide(s, m, now)
    case DoPurge(before, gone) => Purge(s, before, gone)
    case DoBlock(a, t, known) => if a != t && known then s.(blocks := s.blocks + {(a, t)}) else s
    case DoUnblock(a, t) => s.(blocks := s.blocks - {(a, t)})
  }

  ghost function Run(s: State, ops: seq<Op>): State
    decreases |ops|
  {
    if ops == [] then s else Run(Step(s, ops[0]), ops[1..])
  }

  const EMPTY := State(map[], map[], {})

  /* ---- what every run keeps ---- */

  /** A direct conversation of two different users, and of nobody else. */
  predicate IsPair(c: Conversation, a: Id, b: Id) {
    !c.group && a != b && c.key == Some(DirectKey(a, b)) && c.members.Keys == {a, b}
  }

  /** A group's creator is in it, and is its one admin. */
  ghost predicate ConversationOk(c: Conversation) {
    if c.group then c.key.None? && c.creator in c.members && forall u | u in c.members :: c.members[u].admin <==> u == c.creator
    else exists a, b :: IsPair(c, a, b)
  }

  ghost predicate KeysUnique(cs: Conversations) {
    forall c, d | c in cs && d in cs && cs[c].key.Some? && cs[c].key == cs[d].key :: c == d
  }

  /** Markers point at messages of their own conversation. */
  ghost predicate MarkersOk(id: Id, c: Conversation, messages: Messages) {
    forall u | u in c.members && c.members[u].lastRead.Some? ::
      c.members[u].lastRead.value in messages && messages[c.members[u].lastRead.value].conversation == id
  }

  /** In a direct conversation only its two members have written. */
  ghost predicate MessageOk(m: Message, cs: Conversations) {
    m.conversation in cs && (!cs[m.conversation].group ==> m.sender in cs[m.conversation].members)
  }

  ghost predicate Inv(s: State) {
    && KeysUnique(s.conversations)
    && (forall c | c in s.conversations :: ConversationOk(s.conversations[c]) && MarkersOk(c, s.conversations[c], s.messages))
    && (forall m | m in s.messages :: MessageOk(s.messages[m], s.conversations))
  }

  lemma NewKeepsInv(s: State, newId: Id, c: Conversation)
    requires Inv(s) && newId !in s.conversations && ConversationOk(c) && MarkersOk(newId, c, s.messages)
    requires c.key.Some? ==> forall d :: !HasKey(s.conversations, c.key.value, d)
    ensures Inv(s.(conversations := s.conversations[newId := c]))
  {
    var cs := s.conversations[newId := c];
    assert forall d | d in s.conversations && c.key.Some? :: s.conversations[d].key != c.key by {
      forall d | d in s.conversations && c.key.Some? ensures s.conversations[d].key != c.key {
        assert !HasKey(s.conversations, c.key.value, d);
      }
    }
    assert KeysUnique(cs);
    forall m | m in s.messages ensures MessageOk(s.messages[m], cs) { assert MessageOk(s.messages[m], s.conversations); }
  }

  lemma MembersKeepsInv(s: State, c: Id, members: map<Id, Member>)
    requires Inv(s) && c in s.conversations
    requires !s.conversations[c].group ==> members.Keys == s.conversations[c].members.Keys
    requires ConversationOk(s.conversations[c].(members := members)) && MarkersOk(c, s.conversations[c].(members := members), s.messages)
    ensures Inv(WithMembers(s, c, members))
  {
    var cs := WithMembers(s, c, members).conversations;
    forall d, e | d in cs && e in cs && cs[d].key.Some? && cs[d].key == cs[e].key ensures d == e {
      assert s.conversations[d].key == cs[d].key && s.conversations[e].key == cs[e].key;
    }
    forall m | m in s.messages ensures MessageOk(s.messages[m], cs) { assert MessageOk(s.messages[m], s.conversations); }
  }

  lemma SameKeysPair(c: Conversation, members: map<Id, Member>)
    requires ConversationOk(c) && !c.group && members.Keys == c.members.Keys
    ensures ConversationOk(c.(members := members))
  {
    var a, b :| IsPair(c, a, b);
    assert IsPair(c.(members := members), a, b);
  }

  lemma DirectKeepsInv(s: State, scene: Scene, actor: Id, target: Id, newId: Id)
    requires Inv(s)
    ensures Inv(Direct(s, scene, actor, target, newId))
  {
    if Direct(s, scene, actor, target, newId) != s {
      assert IsPair(NewDirect(actor, target), actor, target);
      NewKeepsInv(s, newId, NewDirect(actor, target));
    }
  }

  lemma AddKeepsInv(s: State, scene: Scene, c: Id, actor: Id, target: Id)
    requires Inv(s)
    ensures Inv(Add(s, scene, c, actor, target))
  {
    if AddError(s, scene, c, actor, target).None? {
      MembersKeepsInv(s, c, s.conversations[c].members[target := PLAIN]);
    }
  }

  lemma RemoveKeepsInv(s: State, c: Id, actor: Id, target: Id)
    requires Inv(s)
    ensures Inv(Remove(s, c, actor, target))
  {
    if RemoveError(s, c, actor, target).None? {
      MembersKeepsInv(s, c, s.conversations[c].members - {target});
    }
  }

  lemma MarkKeepsInv(s: State, c: Id, user: Id, m: Id)
    requires Inv(s)
    ensures Inv(MarkRead(s, c, user, m))
  {
    if CanMark(s, c, user, m) {
      var conversation := s.conversations[c];
      var members := conversation.members[user := conversation.members[user].(lastRead := Some(m))];
      assert members.Keys == conversation.members.Keys;
      if !conversation.group { SameKeysPair(conversation, members); }
      MembersKeepsInv(s, c, members);
    }
  }

  /** Messages may come, or change without moving: the rest stays in order. */
  lemma MessageKeepsInv(s: State, m: Id, message: Message)
    requires Inv(s) && MessageOk(message, s.conversations)
    requires m in s.messages ==> s.messages[m].conversation == message.conversation
    ensures Inv(s.(messages := s.messages[m := message]))
  {
    forall c | c in s.conversations ensures MarkersOk(c, s.conversations[c], s.messages[m := message]) {
      assert MarkersOk(c, s.conversations[c], s.messages);
    }
  }

  lemma SendKeepsInv(s: State, scene: Scene, c: Id, actor: Id, valid: bool, newId: Id)
    requires Inv(s)
    ensures Inv(Send(s, scene, c, actor, valid, newId))
  {
    if newId !in s.messages && SendAllowed(s, scene, c, actor, valid) {
      MessageKeepsInv(s, newId, Message(c, actor, scene.now, None));
    }
  }

  lemma TombstoneKeepsInv(s: State, m: Id, now: int)
    requires Inv(s) && m in s.messages
    ensures Inv(Tombstone(s, m, now))
  {
    MessageKeepsInv(s, m, s.messages[m].(deletedAt := Some(now)));
  }

  lemma ForgetOk(id: Id, c: Conversation, messages: Messages, gone: set<Id>)
    requires ConversationOk(c) && MarkersOk(id, c, messages)
    ensures ConversationOk(ForgetIn(c, gone)) && MarkersOk(id, ForgetIn(c, gone), messages - gone)
    ensures ForgetIn(c, gone).members.Keys == c.members.Keys
  {
    assert ForgetIn(c, gone).members.Keys == c.members.Keys;
    if !c.group { SameKeysPair(c, ForgetIn(c, gone).members); }
  }

  lemma PurgeKeepsInv(s: State, before: int, gone: set<Id>)
    requires Inv(s)
    ensures Inv(Purge(s, before, gone))
  {
    if gone <= Deleted(s.messages, before) {
      var t := Purge(s, before, gone);
      forall c | c in t.conversations
        ensures ConversationOk(t.conversations[c]) && MarkersOk(c, t.conversations[c], t.messages)
      {
        ForgetOk(c, s.conversations[c], s.messages, gone);
      }
      forall m | m in t.messages ensures MessageOk(t.messages[m], t.conversations) {
        assert MessageOk(s.messages[m], s.conversations);
        ForgetOk(s.messages[m].conversation, s.conversations[s.messages[m].conversation], s.messages, gone);
      }
    }
  }

  lemma GroupKeepsInv(s: State, scene: Scene, actor: Id, ids: seq<Id>, newId: Id)
    requires Inv(s)
    ensures Inv(Group(s, scene, actor, ids, newId))
  {
    if Group(s, scene, actor, ids, newId) != s { NewKeepsInv(s, newId, NewGroup(actor, Others(actor, ids))); }
  }

  lemma DeleteKeepsInv(s: State, m: Id, actor: Id, now: int)
    requires Inv(s)
    ensures Inv(Delete(s, m, actor, now))
  {
    if CanDelete(s, m, actor) { TombstoneKeepsInv(s, m, now); }
  }

  lemma HideKeepsInv(s: State, m: Id, now: int)
    requires Inv(s)
    ensures Inv(Hide(s, m, now))
  {
    if m in s.messages { TombstoneKeepsInv(s, m, now); }
  }

  lemma StepKeepsInv(s: State, op: Op)
    requires Inv(s)
    ensures Inv(Step(s, op))
  {
    match op
    case DoDirect(scene, a, t, newId) => DirectKeepsInv(s, scene, a, t, newId);
    case DoGroup(scene, a, ids, newId) => GroupKeepsInv(s, scene, a, ids, newId);
    case DoAdd(scene, c, a, t) => AddKeepsInv(s, scene, c, a, t);
    case DoRemove(c, a, t) => RemoveKeepsInv(s, c, a, t);
    case DoSend(scene, c, a, valid, newId) => SendKeepsInv(s, scene, c, a, valid, newId);
    case DoMark(c, u, m) => MarkKeepsInv(s, c, u, m);
    case DoDelete(m, a, now) => DeleteKeepsInv(s, m, a, now);
    case DoHide(m, now) => HideKeepsInv(s, m, now);
    case DoPurge(before, gone) => PurgeKeepsInv(s, before, gone);
    case _ => assert Step(s, op) == s.(blocks := Step(s, op).blocks);
  }

  lemma {:induction false} RunKeepsInv(s: State, ops: seq<Op>)
    requires Inv(s)
    ensures Inv(Run(s, ops))
    decreases |ops|
  {
    if ops != [] {
      StepKeepsInv(s, ops[0]);
      RunKeepsInv(Step(s, ops[0]), ops[1..]);
    }
  }

  lemma EmptyInv()
    ensures Inv(EMPTY)
  {}

  /* ---- conversations ---- */

  predicate IsDirect(s: State, c: Id) { c in s.conversations && !s.conversations[c].group }

  lemma SamePairSameKey(c: Conversation, d: Conversation)
    requires ConversationOk(c) && ConversationOk(d) && !c.group && !d.group && c.members.Keys == d.members.Keys
    ensures c.key.Some? && c.key == d.key
  {
    var a, b :| IsPair(c, a, b);
    var a', b' :| IsPair(d, a', b');
    SameTwo(c.members.Keys, a, b, a', b');
    KeySymmetric(a, b);
  }

  lemma SameTwo<A>(xs: set<A>, a: A, b: A, c: A, d: A)
    requires xs == {a, b} && xs == {c, d}
    ensures (a == c && b == d) || (a == d && b == c)
  {
    assert a in xs && b in xs && c in xs && d in xs;
  }

  lemma SameMembersSameConversation(s: State, c: Id, d: Id)
    requires Inv(s) && IsDirect(s, c) && IsDirect(s, d)
    requires s.conversations[c].members.Keys == s.conversations[d].members.Keys
    ensures c == d
  {
    SamePairSameKey(s.conversations[c], s.conversations[d]);
  }

  /** In every run a pair of users has at most one direct conversation. */
  lemma AtMostOneDirect(ops: seq<Op>, c: Id, d: Id)
    requires IsDirect(Run(EMPTY, ops), c) && IsDirect(Run(EMPTY, ops), d)
    requires Run(EMPTY, ops).conversations[c].members.Keys == Run(EMPTY, ops).conversations[d].members.Keys
    ensures c == d
  {
    RunKeepsInv(EMPTY, ops);
    SameMembersSameConversation(Run(EMPTY, ops), c, d);
  }

  /** What of a conversation never changes; of a direct one, also who is in it. */
  predicate Continues(c: Conversation, c': Conversation) {
    c'.key == c.key && c'.group == c.group && c'.creator == c.creator && (!c.group ==> c'.members.Keys == c.members.Keys)
  }

  predicate Kept(s: State, t: State, c: Id)
    requires c in s.conversations
  {
    c in t.conversations && Continues(s.conversations[c], t.conversations[c])
  }

  lemma MembersContinue(s: State, d: Id, members: map<Id, Member>, c: Id)
    requires c in s.conversations && d in s.conversations
    requires !s.conversations[d].group ==> members.Keys == s.conversations[d].members.Keys
    ensures Kept(s, WithMembers(s, d, members), c)
  {}

  lemma MarkContinues(s: State, d: Id, user: Id, m: Id, c: Id)
    requires c in s.conversations
    ensures Kept(s, MarkRead(s, d, user, m), c)
  {
    if CanMark(s, d, user, m) {
      var members := s.conversations[d].members;
      assert members[user := members[user].(lastRead := Some(m))].Keys == members.Keys;
      MembersContinue(s, d, members[user := members[user].(lastRead := Some(m))], c);
    }
  }

  lemma PurgeContinues(s: State, before: int, gone: set<Id>, c: Id)
    requires Inv(s) && c in s.conversations
    ensures Kept(s, Purge(s, before, gone), c)
  {
    if gone <= Deleted(s.messages, before) { ForgetOk(c, s.conversations[c], s.messages, gone); }
  }

  lemma MembershipContinues(s: State, op: Op, c: Id)
    requires c in s.conversations && (op.DoAdd? || op.DoRemove?)
    ensures Kept(s, Step(s, op), c)
  {
    match op
    case DoAdd(scene, d, a, t) =>
      if AddError(s, scene, d, a, t).None? { MembersContinue(s, d, s.conversations[d].members[t := PLAIN], c); }
    case DoRemove(d, a, t) =>
      if RemoveError(s, d, a, t).None? { MembersContinue(s, d, s.conversations[d].members - {t}, c); }
  }

  lemma NewContinues(s: State, op: Op, c: Id)
    requires c in s.conversations && (op.DoDirect? || op.DoGroup?)
    ensures Kept(s, Step(s, op), c)
  {}

  lemma StepContinues(s: State, op: Op, c: Id)
    requires Inv(s) && c in s.conversations
    ensures Kept(s, Step(s, op), c)
  {
    if op.DoAdd? || op.DoRemove? { MembershipContinues(s, op, c); }
    else if op.DoDirect? || op.DoGroup? { NewContinues(s, op, c); }
    else if op.DoMark? { MarkContinues(s, op.c, op.actor, op.m, c); }
    else if op.DoPurge? { PurgeContinues(s, op.before, op.gone, c); }
  }

  /** No run removes a conversation, turns one kind into the other, or changes who shares a direct one. */
  lemma {:induction false} ConversationForever(s: State, ops: seq<Op>, c: Id)
    requires Inv(s) && c in s.conversations
    ensures Kept(s, Run(s, ops), c)
    decreases |ops|
  {
    if ops != [] {
      StepContinues(s, ops[0], c);
      StepKeepsInv(s, ops[0]);
      ConversationForever(Step(s, ops[0]), ops[1..], c);
    }
  }

  /** Once there, a direct conversation is what either user gets from then on, and no second one is made. */
  lemma FoundAgain(s: State, ops: seq<Op>, c: Id, a: Id, b: Id, scene: Scene, newId: Id)
    requires Inv(s) && c in s.conversations && IsPair(s.conversations[c], a, b)
    ensures var t := Run(s, ops);
      && HasKey(t.conversations, DirectKey(a, b), c) && HasKey(t.conversations, DirectKey(b, a), c)
      && Direct(t, scene, a, b, newId) == t && Direct(t, scene, b, a, newId) == t
  {
    ConversationForever(s, ops, c);
    KeySymmetric(a, b);
    assert HasKey(Run(s, ops).conversations, DirectKey(a, b), c);
  }

  /** Who is in a conversation changes only so: its creator adds to a group; its creator, or the member alone, takes a member out. */
  lemma MembershipChanges(s: State, op: Op, c: Id, user: Id)
    requires Inv(s) && c in s.conversations && IsMember(s, c, user) != IsMember(Step(s, op), c, user)
    ensures var g := s.conversations[c];
      && g.group && user != g.creator
      && (IsMember(s, c, user) ==> op.DoRemove? && op.c == c && op.target == user && (op.actor == g.creator || op.actor == user))
      && (!IsMember(s, c, user) ==> op.DoAdd? && op.c == c && op.target == user && op.actor == g.creator)
  {
    StepContinues(s, op, c);
    if op.DoPurge? { ForgetOk(c, s.conversations[c], s.messages, op.gone); }
    assert ConversationOk(s.conversations[c]);
  }

  /** In every run each group is still led by its creator, who alone is admin. */
  lemma CreatorLeads(ops: seq<Op>, c: Id, user: Id)
    requires var t := Run(EMPTY, ops); IsMember(t, c, user) && t.conversations[c].group
    ensures var g := Run(EMPTY, ops).conversations[c];
      g.creator in g.members && (g.members[user].admin <==> user == g.creator)
  {
    RunKeepsInv(EMPTY, ops);
    assert ConversationOk(Run(EMPTY, ops).conversations[c]);
  }

  /* ---- unread messages ---- */

  /** Later in the order of a conversation: by time, then by id. */
  predicate Later(messages: Messages, m: Id, n: Id)
    requires m in messages && n in messages
  {
    messages[m].at > messages[n].at || (messages[m].at == messages[n].at && m > n)
  }

  /** Live messages of others. */
  predicate Counts(messages: Messages, c: Id, user: Id, m: Id) {
    m in messages && messages[m].conversation == c && messages[m].sender != user && messages[m].deletedAt.None?
  }

  predicate Beyond(messages: Messages, marker: Option<Id>, m: Id)
    requires m in messages
  {
    marker.Some? && marker.value in messages ==> Later(messages, m, marker.value)
  }

  function Marker(s: State, c: Id, user: Id): Option<Id>
    requires IsMember(s, c, user)
  {
    s.conversations[c].members[user].lastRead
  }

  /** What serialize_conversation counts for a member. */
  function Unread(s: State, c: Id, user: Id): set<Id>
    requires IsMember(s, c, user)
  {
    UnreadFrom(s.messages, Marker(s, c, user), c, user)
  }

  function UnreadFrom(messages: Messages, marker: Option<Id>, c: Id, user: Id): set<Id> {
    set m | m in messages && Counts(messages, c, user, m) && Beyond(messages, marker, m)
  }

  /** _read_by_recipient, once a member other than the sender is picked. */
  predicate ReadBy(s: State, m: Id, reader: Id)
    requires m in s.messages
  {
    var c := s.messages[m].conversation;
    && IsMember(s, c, reader) && Marker(s, c, reader).Some? && Marker(s, c, reader).value in s.messages
    && !Later(s.messages, m, Marker(s, c, reader).value)
  }

  function Recipients(s: State, m: Id): set<Id>
    requires m in s.messages && s.messages[m].conversation in s.conversations
  {
    s.conversations[s.messages[m].conversation].members.Keys - {s.messages[m].sender}
  }

  function UnseenFrom(s: State, c: Id, sender: Id, reader: Id): set<Id> {
    set m | m in s.messages && s.messages[m].conversation == c && s.messages[m].sender == sender
      && s.messages[m].deletedAt.None? && !ReadBy(s, m, reader)
  }

  lemma TheTwo(c: Conversation, user: Id, other: Id)
    requires ConversationOk(c) && !c.group && user != other && user in c.members && other in c.members
    ensures c.members.Keys == {user, other}
  {
    var a, b :| IsPair(c, a, b);
    BothOf(c.members.Keys, a, b, user, other);
  }

  lemma BothOf<A>(xs: set<A>, a: A, b: A, x: A, y: A)
    requires xs == {a, b} && x in xs && y in xs && x != y
    ensures xs == {x, y}
  {}

  lemma OnlyTwo(s: State, c: Id, user: Id, other: Id)
    requires Inv(s) && IsDirect(s, c) && user != other && IsMember(s, c, user) && IsMember(s, c, other)
    ensures s.conversations[c].members.Keys == {user, other}
    ensures forall m | m in s.messages && s.messages[m].conversation == c :: s.messages[m].sender in {user, other}
  {
    TheTwo(s.conversations[c], user, other);
    forall m | m in s.messages && s.messages[m].conversation == c ensures s.messages[m].sender in s.conversations[c].members.Keys {
      assert MessageOk(s.messages[m], s.conversations);
    }
  }

  /** In a direct conversation unread are exactly the other's live messages not shown as read. */
  lemma UnreadExact(s: State, c: Id, user: Id, other: Id)
    requires Inv(s) && IsDirect(s, c) && user != other && IsMember(s, c, user) && IsMember(s, c, other)
    ensures Unread(s, c, user) == UnseenFrom(s, c, other, user)
    ensures forall m | m in s.messages && s.messages[m].conversation == c && s.messages[m].sender == other :: Recipients(s, m) == {user}
  {
    OnlyTwo(s, c, user, other);
  }

  /** The same set, written with times and ids. */
  lemma UnreadWritten(messages: Messages, marker: Option<Id>, c: Id, user: Id)
    ensures marker.None? ==>
      UnreadFrom(messages, marker, c, user)
      == set m | m in messages && messages[m].conversation == c && messages[m].sender != user && messages[m].deletedAt.None?
    ensures marker.Some? && marker.value in messages ==>
      UnreadFrom(messages, marker, c, user)
      == set m | m in messages && messages[m].conversation == c && messages[m].sender != user && messages[m].deletedAt.None?
           && (messages[m].at > messages[marker.value].at || (messages[m].at == messages[marker.value].at && m > marker.value))
  {
  }

  lemma UnreadInEveryRun(ops: seq<Op>, c: Id, user: Id, other: Id)
    requires var s := Run(EMPTY, ops); IsDirect(s, c) && user != other && IsMember(s, c, user) && IsMember(s, c, other)
    ensures var s := Run(EMPTY, ops); Unread(s, c, user) == UnseenFrom(s, c, other, user)
  {
    RunKeepsInv(EMPTY, ops);
    UnreadExact(Run(EMPTY, ops), c, user, other);
  }

  lemma PurgeMarker(s: State, before: int, gone: set<Id>, c: Id, user: Id)
    requires Inv(s) && IsMember(s, c, user) && gone <= Deleted(s.messages, before)
    ensures var t := Purge(s, before, gone);
      && IsMember(t, c, user)
      && Marker(t, c, user) == Forget(s.conversations[c].members[user], gone).lastRead
      && (Marker(s, c, user).Some? ==> Marker(s, c, user).value in s.messages)
  {
    assert MarkersOk(c, s.conversations[c], s.messages);
  }

  /** Taking deleted messages away changes nothing while the marker stays where it is or there is none. */
  lemma UnreadKept(messages: Messages, before: int, gone: set<Id>, marker: Option<Id>, c: Id, user: Id)
    requires gone <= Deleted(messages, before) && (marker.Some? ==> marker.value in messages && marker.value !in gone)
    ensures UnreadFrom(messages - gone, marker, c, user) == UnreadFrom(messages, marker, c, user)
  {}

  /** A purge that takes the marked message makes all live messages of others unread again; any other purge changes nothing. */
  lemma PurgeUnread(s: State, before: int, gone: set<Id>, c: Id, user: Id)
    requires Inv(s) && IsMember(s, c, user) && gone <= Deleted(s.messages, before)
    ensures var t := Purge(s, before, gone);
      && IsMember(t, c, user)
      && (Marker(s, c, user).Some? && Marker(s, c, user).value in gone ==>
            Marker(t, c, user).None? && Unread(t, c, user) == UnreadFrom(s.messages, None, c, user))
      && (Marker(s, c, user).None? || Marker(s, c, user).value !in gone ==> Unread(t, c, user) == Unread(s, c, user))
  {
    PurgeMarker(s, before, gone, c, user);
    UnreadKept(s.messages, before, gone, Forget(s.conversations[c].members[user], gone).lastRead, c, user);
  }

  /** Marking a message leaves unread exactly the live messages of others after it. */
  lemma MarkUnread(s: State, c: Id, user: Id, m: Id)
    requires CanMark(s, c, user, m)
    ensures var t := MarkRead(s, c, user, m);
      && IsMember(t, c, user)
      && Unread(t, c, user) == (set n | n in s.messages && s.messages[n].conversation == c && s.messages[n].sender != user
           && s.messages[n].deletedAt.None?
           && (s.messages[n].at > s.messages[m].at || (s.messages[n].at == s.messages[m].at && n > m)))
  {}

  lemma UnreadGrows(messages: Messages, newId: Id, m: Message, marker: Option<Id>, c: Id, user: Id)
    requires newId !in messages && m.deletedAt.None? && m.conversation == c && (marker.Some? ==> marker.value in messages)
    ensures var after := messages[newId := m];
      UnreadFrom(after, marker, c, user)
        == UnreadFrom(messages, marker, c, user) + if m.sender != user && Beyond(after, marker, newId) then {newId} else {}
  {
    var after := messages[newId := m];
    forall n | n != newId ensures Counts(after, c, user, n) <==> Counts(messages, c, user, n) {}
  }

  /** A new message adds itself to what the others have unread, unless their marker is later; for its sender nothing changes. */
  lemma SendUnread(s: State, scene: Scene, c: Id, actor: Id, newId: Id, user: Id)
    requires Inv(s) && newId !in s.messages && SendAllowed(s, scene, c, actor, true) && IsMember(s, c, user)
    ensures var t := Send(s, scene, c, actor, true, newId);
      && IsMember(t, c, user)
      && Unread(t, c, user) == Unread(s, c, user) + if user != actor && Beyond(t.messages, Marker(s, c, user), newId) then {newId} else {}
  {
    assert MarkersOk(c, s.conversations[c], s.messages);
    UnreadGrows(s.messages, newId, Message(c, actor, scene.now, None), Marker(s, c, user), c, user);
  }

  /** A deleted or hidden message is no longer unread, and others stay as they are. */
  lemma TombstoneUnread(s: State, m: Id, now: int, c: Id, user: Id)
    requires m in s.messages && IsMember(s, c, user)
    ensures IsMember(Tombstone(s, m, now), c, user)
    ensures Unread(Tombstone(s, m, now), c, user) == Unread(s, c, user) - {m}
  {}

  /* ---- blocks ---- */

  predicate Lifts(op: Op, a: Id, b: Id) {
    op.DoUnblock? && ((op.actor == a && op.target == b) || (op.actor == b && op.target == a))
  }

  function Written(messages: Messages, c: Id): set<Id> { set m | m in messages && messages[m].conversation == c }

  lemma BlockedSend(s: State, scene: Scene, c: Id, actor: Id, valid: bool, a: Id, b: Id)
    requires c in s.conversations && IsPair(s.conversations[c], a, b) && Blocked(s.blocks, a, b)
    ensures !SendAllowed(s, scene, c, actor, valid)
  {
    if IsMember(s, c, actor) {
      var other := if actor == a then b else a;
      assert other in s.conversations[c].members.Keys - {actor};
      assert Obstacle(s.blocks, scene, actor, other).Some?;
    }
  }

  lemma BlockedStep(s: State, op: Op, c: Id, a: Id, b: Id)
    requires Inv(s) && c in s.conversations && IsPair(s.conversations[c], a, b) && Blocked(s.blocks, a, b) && !Lifts(op, a, b)
    ensures var t := Step(s, op);
      && c in t.conversations && IsPair(t.conversations[c], a, b) && Blocked(t.blocks, a, b)
      && Written(t.messages, c) <= Written(s.messages, c)
  {
    assert Kept(s, Step(s, op), c) by { StepContinues(s, op, c); }
    BlockStays(s, op, a, b);
    if op.DoSend? && op.c == c { BlockedSend(s, op.scene, c, op.actor, op.valid, a, b); }
    else { WritesOnlyBySend(s, op, c); }
  }

  lemma BlockStays(s: State, op: Op, a: Id, b: Id)
    requires Blocked(s.blocks, a, b) && !Lifts(op, a, b)
    ensures Blocked(Step(s, op).blocks, a, b)
  {
    if !op.DoBlock? && !op.DoUnblock? { OnlyBlocksBlock(s, op); }
  }

  lemma OnlyBlocksBlock(s: State, op: Op)
    requires !op.DoBlock? && !op.DoUnblock?
    ensures Step(s, op).blocks == s.blocks
  {
  }

  lemma WritesOnlyBySend(s: State, op: Op, c: Id)
    requires !(op.DoSend? && op.c == c)
    ensures Written(Step(s, op).messages, c) <= Written(s.messages, c)
  {
    var t := Step(s, op).messages;
    forall m | m in t && t[m].conversation == c ensures m in s.messages && s.messages[m].conversation == c {}
  }

  /** While either of two users blocks the other, nothing new is written in their direct conversation, whatever else happens. */
  lemma {:induction false} BlockedSilent(s: State, ops: seq<Op>, c: Id, a: Id, b: Id)
    requires Inv(s) && c in s.conversations && IsPair(s.conversations[c], a, b) && Blocked(s.blocks, a, b)
    requires forall i :: 0 <= i < |ops| ==> !Lifts(ops[i], a, b)
    ensures Written(Run(s, ops).messages, c) <= Written(s.messages, c)
    decreases |ops|
  {
    if ops != [] {
      BlockedStep(s, ops[0], c, a, b);
      StepKeepsInv(s, ops[0]);
      BlockedSilent(Step(s, ops[0]), ops[1..], c, a, b);
    }
  }

  /* ---- the services ---- */

  function Deletion(messages: Messages, m: Id): int
    requires m in messages && messages[m].deletedAt.Some?
  {
    messages[m].deletedAt.value
  }

  predicate DeletedEarlier(messages: Messages, m: Id, n: Id)
    requires m in messages && messages[m].deletedAt.Some? && n in messages && messages[n].deletedAt.Some?
  {
    Deletion(messages, m) < Deletion(messages, n) || (Deletion(messages, m) == Deletion(messages, n) && m < n)
  }

  /** The batch a purge selects: the longest deleted first, as many as there are up to the batch size. */
  ghost predicate IsBatch(messages: Messages, before: int, size: nat, gone: set<Id>) {
    var candidates := Deleted(messages, before);
    && gone <= candidates && |gone| <= size && (|gone| < size ==> gone == candidates)
    && forall g, d | g in gone && d in candidates - gone :: DeletedEarlier(messages, g, d)
  }

  lemma NothingLeft<A>(xs: set<A>, ys: set<A>)
    ensures xs - ys == {} <==> xs <= ys
  {
    assert forall x | x in xs && x !in ys :: x in xs - ys;
  }

  lemma NotEither(messages: Messages, before: int, size: nat, gone: set<Id>, gone': set<Id>, g: Id, d: Id)
    requires IsBatch(messages, before, size, gone) && IsBatch(messages, before, size, gone')
    requires g in gone - gone'
    ensures d !in gone' - gone
  {
    var candidates := Deleted(messages, before);
    assert g in candidates - gone';
    if d in candidates - gone { assert DeletedEarlier(messages, g, d); }
  }

  /** There is only one such batch. */
  lemma BatchUnique(messages: Messages, before: int, size: nat, gone: set<Id>, gone': set<Id>)
    requires IsBatch(messages, before, size, gone) && IsBatch(messages, before, size, gone')
    ensures gone == gone'
  {
    Finite.SubsetSize(gone, Deleted(messages, before));
    Finite.SubsetSize(gone', Deleted(messages, before));
    NothingLeft(gone, gone');
    NothingLeft(gone', gone);
    if gone <= gone' {
      Finite.SubsetSize(gone, gone');
    } else {
      var g :| g in gone - gone';
      forall d ensures d !in gone' - gone { NotEither(messages, before, size, gone, gone', g, d); }
      Finite.SubsetSize(gone', gone);
    }
  }

  /** A purge takes its batch out of what is left to do, all of it exactly when one batch is enough. */
  lemma PurgeProgress(s: State, before: int, size: nat, gone: set<Id>)
    requires IsBatch(s.messages, before, size, gone)
    ensures var n, left := |Deleted(s.messages, before)|, Deleted(Purge(s, before, gone).messages, before);
      && left == Deleted(s.messages, before) - gone
      && |left| == (if n <= size then 0 else n - size)
      && (left == {} <==> n <= size)
  {
    var candidates := Deleted(s.messages, before);
    assert Deleted(s.messages - gone, before) == candidates - gone;
    Finite.SubsetSize(gone, candidates);
    assert |candidates - gone| == |candidates| - |gone|;
    NothingLeft(candidates, gone);
  }

  /** One purge after another, each with the batch its query selects then. */
  ghost predicate Purges(s: State, before: int, size: nat, batches: seq<set<Id>>)
    decreases |batches|
  {
    batches != [] ==>
      IsBatch(s.messages, before, size, batches[0]) && Purges(Purge(s, before, batches[0]), before, size, batches[1..])
  }

  ghost function AfterPurges(s: State, before: int, batches: seq<set<Id>>): State
    decreases |batches|
  {
    if batches == [] then s else AfterPurges(Purge(s, before, batches[0]), before, batches[1..])
  }

  lemma {:induction false} PurgesLeave(s: State, before: int, size: nat, batches: seq<set<Id>>)
    requires Purges(s, before, size, batches)
    ensures var n, k := |Deleted(s.messages, before)|, |batches|;
      |Deleted(AfterPurges(s, before, batches).messages, before)| == if n <= k * size then 0 else n - k * size
    decreases |batches|
  {
    if batches != [] {
      PurgeProgress(s, before, size, batches[0]);
      PurgesLeave(Purge(s, before, batches[0]), before, size, batches[1..]);
      OneMoreTimes(|batches[1..]|, size);
    }
  }

  lemma OneMoreTimes(k: nat, size: nat)
    ensures (k + 1) * size == k * size + size
  {
  }

  lemma {:induction false} PurgesSpare(s: State, before: int, size: nat, batches: seq<set<Id>>, m: Id)
    requires Purges(s, before, size, batches) && m in s.messages && m !in Deleted(s.messages, before)
    ensures var t := AfterPurges(s, before, batches).messages; m in t && t[m] == s.messages[m]
    decreases |batches|
  {
    if batches != [] { PurgesSpare(Purge(s, before, batches[0]), before, size, batches[1..], m); }
  }

  /**
   After k purges all but k batches of the n messages deleted before the time are
   left, so they are gone exactly when n <= k * size; no other message goes.
   */
  lemma PurgesRemaining(s: State, before: int, size: nat, batches: seq<set<Id>>)
    requires Purges(s, before, size, batches)
    ensures var n, k, t := |Deleted(s.messages, before)|, |batches|, AfterPurges(s, before, batches);
      && |Deleted(t.messages, before)| == (if n <= k * size then 0 else n - k * size)
      && (Deleted(t.messages, before) == {} <==> n <= k * size)
      && forall m | m in s.messages && m !in Deleted(s.messages, before) :: m in t.messages && t.messages[m] == s.messages[m]
  {
    PurgesLeave(s, before, size, batches);
    var t := AfterPurges(s, before, batches);
    forall m | m in s.messages && m !in Deleted(s.messages, before) ensures m in t.messages && t.messages[m] == s.messages[m] {
      PurgesSpare(s, before, size, batches, m);
    }
  }

  class MessagingService {
    var conversations: Conversations
    var messages: Messages
    var blocks: set<(Id, Id)>

    function View(): State
      reads this
    {
      State(conversations, messages, blocks)
    }

    constructor ()
      ensures View() == EMPTY && Inv(View())
    {
      conversations, messages, blocks := map[], map[], {};
    }

    /** get_or_create_direct: the one conversation of the two, whoever asks. */
    method GetOrCreateDirect(scene: Scene, actor: Id, target: Id, newId: Id) returns (r: Result<Id, Error>)
      requires Inv(View()) && newId !in conversations
      modifies this`conversations
      ensures Inv(View()) && View() == Direct(old(View()), scene, actor, target, newId)
      ensures r.Err? <==> Obstacle(blocks, scene, actor, target).Some?
      ensures r.Err? ==> Some(r.error) == Obstacle(blocks, scene, actor, target)
      ensures r.Ok? ==> HasKey(conversations, DirectKey(actor, target), r.value)
      ensures r.Ok? ==> !conversations[r.value].group && conversations[r.value].members.Keys == {actor, target}
    {
      DirectKeepsInv(View(), scene, actor, target, newId);
      var obstacle := Obstacle(blocks, scene, actor, target);
      if obstacle.Some? { return Err(obstacle.value); }
      var found := FindByKey(conversations, DirectKey(actor, target));
      if found.Some? {
        KeyedPair(conversations[found.value], actor, target);
        return Ok(found.value);
      }
      conversations := conversations[newId := NewDirect(actor, target)];
      r := Ok(newId);
    }

    /** create_group: everyone named must be there and reachable by the creator. */
    method CreateGroup(scene: Scene, actor: Id, ids: seq<Id>, newId: Id) returns (r: Result<Id, Error>)
      requires Inv(View()) && newId !in conversations
      modifies this`conversations
      ensures Inv(View()) && View() == Group(old(View()), scene, actor, ids, newId)
      ensures r.Ok? <==> GroupAllowed(old(View()), scene, actor, ids)
      ensures r.Ok? ==> r.value == newId && conversations[newId].members.Keys == (set u | u in ids) + {actor}
      ensures Others(actor, ids) == {} ==> r == Err(Invalid)
    {
      StepKeepsInv(View(), DoGroup(scene, actor, ids, newId));
      var others := Others(actor, ids);
      if others == {} { return Err(Invalid); }
      if exists u :: u in others && !Active(scene, u) {
        ghost var u :| u in others && !Active(scene, u);
        assert Obstacle(blocks, scene, actor, u).Some?;
        return Err(NotFound);
      }
      var obstacle := FirstObstacle(blocks, scene, actor, others);
      if obstacle.Some? { return Err(obstacle.value); }
      conversations := conversations[newId := NewGroup(actor, others)];
      assert others + {actor} == (set u | u in ids) + {actor};
      r := Ok(newId);
    }

    method AddMember(scene: Scene, c: Id, actor: Id, target: Id) returns (error: Option<Error>)
      requires Inv(View())
      modifies this`conversations
      ensures Inv(View()) && View() == Add(old(View()), scene, c, actor, target)
      ensures error == AddError(old(View()), scene, c, actor, target)
      ensures error.None? ==> conversations[c].members.Keys == old(conversations[c].members.Keys) + {target}
    {
      AddKeepsInv(View(), scene, c, actor, target);
      if c !in conversations || !conversations[c].group || actor !in conversations[c].members { return Some(NotFound); }
      var conversation := conversations[c];
      if !conversation.members[actor].admin { return Some(Forbidden); }
      if !Active(scene, target) { return Some(NotFound); }
      var obstacle := Obstacle(blocks, scene, actor, target);
      if obstacle.Some? { return obstacle; }
      if target in conversation.members { return Some(Conflict); }
      conversations := conversations[c := conversation.(members := conversation.members[target := PLAIN])];
      error := None;
    }

    method RemoveMember(c: Id, actor: Id, target: Id) returns (error: Option<Error>)
      requires Inv(View())
      modifies this`conversations
      ensures Inv(View()) && View() == Remove(old(View()), c, actor, target)
      ensures error == RemoveError(old(View()), c, actor, target)
    {
      RemoveKeepsInv(View(), c, actor, target);
      if c !in conversations || !conversations[c].group { return Some(NotFound); }
      var conversation := conversations[c];
      if actor !in conversation.members || target !in conversation.members { return Some(NotFound); }
      if target != actor {
        if !conversation.members[actor].admin { return Some(Forbidden); }
        if target == conversation.creator { return Some(Forbidden); }
      } else if target == conversation.creator {
        return Some(Forbidden);
      }
      conversations := conversations[c := conversation.(members := conversation.members - {target})];
      error := None;
    }

    /** create_message: every other member must be reachable, or nobody is written to. */
    method CreateMessage(scene: Scene, c: Id, actor: Id, valid: bool, newId: Id) returns (error: Option<Error>)
      requires Inv(View()) && newId !in messages
      modifies this`messages
      ensures Inv(View()) && View() == Send(old(View()), scene, c, actor, valid, newId)
      ensures error.None? <==> SendAllowed(old(View()), scene, c, actor, valid)
      ensures !IsMember(View(), c, actor) ==> error == Some(NotFound)
    {
      SendKeepsInv(View(), scene, c, actor, valid, newId);
      if c !in conversations || actor !in conversations[c].members { return Some(NotFound); }
      error := FirstObstacle(blocks, scene, actor, conversations[c].members.Keys - {actor});
      if error.Some? { return; }
      if !valid { return Some(Invalid); }
      messages := messages[newId := Message(c, actor, scene.now, None)];
    }

    method MarkAsRead(c: Id, user: Id, m: Id) returns (found: bool)
      requires Inv(View())
      modifies this`conversations
      ensures Inv(View()) && View() == MarkRead(old(View()), c, user, m)
      ensures found == CanMark(old(View()), c, user, m)
    {
      MarkKeepsInv(View(), c, user, m);
      found := MarkRow(c, user, m);
    }

    method MarkRow(c: Id, user: Id, m: Id) returns (found: bool)
      modifies this`conversations
      ensures View() == MarkRead(old(View()), c, user, m)
      ensures found == CanMark(old(View()), c, user, m)
    {
      found := CanMark(View(), c, user, m);
      if found {
        var members := conversations[c].members;
        conversations := conversations[c := conversations[c].(members := members[user := members[user].(lastRead := Some(m))])];
      }
    }

    method DeleteMessage(m: Id, actor: Id, now: int) returns (found: bool)
      requires Inv(View())
      modifies this`messages
      ensures Inv(View()) && View() == Delete(old(View()), m, actor, now)
      ensures found == CanDelete(old(View()), m, actor)
    {
      found := DeleteRow(m, actor, now);
      if found { TombstoneKeepsInv(old(View()), m, now); }
    }

    method HideMessage(m: Id, now: int) returns (found: bool)
      requires Inv(View())
      modifies this`messages
      ensures Inv(View()) && View() == Hide(old(View()), m, now)
      ensures found == (m in old(messages))
    {
      if m in messages { TombstoneKeepsInv(View(), m, now); }
      found := m in messages;
      if found && messages[m].deletedAt.None? {
        messages := messages[m := messages[m].(deletedAt := Some(now))];
      }
    }

    method DeleteRow(m: Id, actor: Id, now: int) returns (found: bool)
      modifies this`messages
      ensures View() == Delete(old(View()), m, actor, now)
      ensures found == CanDelete(old(View()), m, actor)
    {
      found := m in messages && messages[m].sender == actor && messages[m].deletedAt.None?;
      if found { messages := messages[m := messages[m].(deletedAt := Some(now))]; }
    }

    /** purge_deleted_messages: the batch goes for good, and markers on it become null. */
    method PurgeDeleted(before: int, size: nat) returns (removed: nat, ghost gone: set<Id>)
      requires Inv(View())
      modifies this`messages, this`conversations
      ensures IsBatch(old(messages), before, size, gone)
      ensures Inv(View()) && View() == Purge(old(View()), before, gone)
      ensures removed == |gone| == |old(messages)| - |messages|
    {
      var rows := SelectBatch(messages, before, size);
      gone := rows;
      removed := |rows|;
      if rows != {} { DeleteRows(before, rows); }
      else { NothingPurged(View(), before); }
    }

    /** The rows of the batch, and ON DELETE SET NULL. */
    method DeleteRows(before: int, gone: set<Id>)
      requires Inv(View()) && gone <= Deleted(messages, before)
      modifies this`messages, this`conversations
      ensures Inv(View()) && View() == Purge(old(View()), before, gone)
      ensures |messages| == |old(messages)| - |gone|
    {
      PurgeKeepsInv(View(), before, gone);
      assert (messages - gone).Keys == messages.Keys - gone;
      conversations := map c | c in conversations :: ForgetIn(conversations[c], gone);
      messages := messages - gone;
    }

    method BlockUser(actor: Id, target: Id, known: bool) returns (error: Option<Error>)
      requires Inv(View())
      modifies this`blocks
      ensures Inv(View()) && View() == Step(old(View()), DoBlock(actor, target, known))
      ensures error == if actor == target then Some(Invalid) else if !known then Some(NotFound) else None
      ensures error.None? ==> Blocked(blocks, actor, target)
    {
      if actor == target { return Some(Invalid); }
      if !known { return Some(NotFound); }
      if (actor, target) !in blocks { blocks := blocks + {(actor, target)}; }
      error := None;
    }

    method UnblockUser(actor: Id, target: Id)
      requires Inv(View())
      modifies this`blocks
      ensures Inv(View()) && View() == Step(old(View()), DoUnblock(actor, target))
    {
      blocks := blocks - {(actor, target)};
    }

    /** The unread part of serialize_conversation, for a member with company. */
    method UnreadCount(c: Id, user: Id) returns (r: Option<nat>)
      ensures r.Some? <==> IsMember(View(), c, user) && conversations[c].members.Keys != {user}
      ensures r.Some? ==> r.value == |Unread(View(), c, user)|
      ensures r.Some? && conversations[c].members[user].lastRead.None? ==>
        r.value == |set m | m in messages && messages[m].conversation == c && messages[m].sender != user && messages[m].deletedAt.None?|
      ensures r.Some? && conversations[c].members[user].lastRead.Some? && conversations[c].members[user].lastRead.value in messages ==>
        var k := conversations[c].members[user].lastRead.value;
        r.value == |set m | m in messages && messages[m].conversation == c && messages[m].sender != user && messages[m].deletedAt.None?
                     && (messages[m].at > messages[k].at || (messages[m].at == messages[k].at && m > k))|
      ensures forall other | Inv(View()) && IsDirect(View(), c) && user != other && IsMember(View(), c, user) && IsMember(View(), c, other) ::
        r == Some(|UnseenFrom(View(), c, other, user)|)
    {
      if c !in conversations || user !in conversations[c].members { return None; }
      if conversations[c].members.Keys == {user} { return None; }
      var marker := conversations[c].members[user].lastRead;
      r := Some(|UnreadFrom(messages, marker, c, user)|);
      UnreadWritten(messages, marker, c, user);
      forall other | Inv(View()) && IsDirect(View(), c) && user != other && IsMember(View(), c, other)
        ensures Unread(View(), c, user) == UnseenFrom(View(), c, other, user)
      {
        UnreadExact(View(), c, user, other);
      }
    }

    /** _read_by_recipient: some member other than the sender is asked for; in a direct conversation there is only one. */
    method ReadByRecipient(m: Id) returns (read: bool)
      requires Inv(View()) && m in messages
      ensures Recipients(View(), m) == {} ==> !read
      ensures Recipients(View(), m) != {} ==> exists reader | reader in Recipients(View(), m) :: read == ReadBy(View(), m, reader)
      ensures forall reader | Recipients(View(), m) == {reader} :: read == ReadBy(View(), m, reader)
      ensures read ==> exists k | k in messages ::
        messages[k].at > messages[m].at || (messages[k].at == messages[m].at && k >= m)
    {
      var message := messages[m];
      assert MessageOk(message, conversations);
      var readers := conversations[message.conversation].members.Keys - {message.sender};
      assert readers == Recipients(View(), m);
      if readers == {} { return false; }
      var reader := Finite.Pick(readers);
      var marker := conversations[message.conversation].members[reader].lastRead;
      read := marker.Some? && marker.value in messages && !Later(messages, m, marker.value);
      assert read == ReadBy(View(), m, reader);
    }
  }

  method FindByKey(cs: Conversations, key: string) returns (r: Option<Id>)
    ensures r.Some? ==> HasKey(cs, key, r.value)
    ensures r.None? ==> !exists c :: HasKey(cs, key, c)
  {
    var found := set c | c in cs && cs[c].key == Some(key);
    if found == {} {
      assert forall c :: HasKey(cs, key, c) ==> c in found;
      return None;
    }
    var c := Finite.Pick(found);
    r := Some(c);
  }

  /** `order_by(deleted_at, id).limit(size)` */
  method SelectBatch(messages: Messages, before: int, size: nat) returns (gone: set<Id>)
    ensures IsBatch(messages, before, size, gone)
  {
    var candidates := Deleted(messages, before);
    var rest := candidates;
    gone := {};
    while |gone| < size && rest != {}
      invariant rest == candidates - gone && gone <= candidates && |gone| <= size
      invariant forall g, d | g in gone && d in rest :: DeletedEarlier(messages, g, d)
      decreases |rest|
    {
      var m := LongestDeleted(messages, rest);
      gone, rest := gone + {m}, rest - {m};
    }
  }

  method LongestDeleted(messages: Messages, ids: set<Id>) returns (m: Id)
    requires ids != {} && forall d | d in ids :: d in messages && messages[d].deletedAt.Some?
    ensures m in ids && forall d | d in ids && d != m :: DeletedEarlier(messages, m, d)
  {
    m := Finite.Pick(ids);
    var todo := ids - {m};
    while todo != {}
      invariant m in ids && m !in todo && todo <= ids
      invariant forall d | d in ids - todo && d != m :: DeletedEarlier(messages, m, d)
      decreases |todo|
    {
      var d := Finite.Pick(todo);
      ghost var was := m;
      todo := todo - {d};
      if DeletedEarlier(messages, d, m) { m := d; }
      forall e | e in ids - todo && e != m ensures DeletedEarlier(messages, m, e) {
        if e != was && e != d { assert DeletedEarlier(messages, was, e); }
      }
    }
  }

  lemma NothingPurged(s: State, before: int)
    ensures Purge(s, before, {}) == s
  {
    var t := Purge(s, before, {});
    assert t.messages == s.messages;
    forall c | c in s.conversations ensures t.conversations[c] == s.conversations[c] {
      assert ForgetIn(s.conversations[c], {}).members == s.conversations[c].members;
    }
    assert t.conversations == s.conversations;
  }

  /** Asks for each target in turn, and stops at the first obstacle. */
  method FirstObstacle(blocks: set<(Id, Id)>, scene: Scene, actor: Id, targets: set<Id>) returns (r: Option<Error>)
    ensures r.None? <==> AllReachable(blocks, scene, actor, targets)
    ensures r.Some? ==> exists t | t in targets :: r == Obstacle(blocks, scene, actor, t)
  {
    var todo := targets;
    while todo != {}
      invariant todo <= targets && AllReachable(blocks, scene, actor, targets - todo)
      decreases |todo|
    {
      var t := Finite.Pick(todo);
      r := Obstacle(blocks, scene, actor, t);
      if r.Some? { return; }
      todo := todo - {t};
    }
    r := None;
    assert targets - todo == targets;
  }

  lemma KeyedPair(c: Conversation, actor: Id, target: Id)
    requires ConversationOk(c) && c.key == Some(DirectKey(actor, target))
    ensures !c.group && c.members.Keys == {actor, target}
  {
    var a, b :| IsPair(c, a, b);
    KeyInjective(a, b, actor, target);
  }
}
