/**
 What each request on conversations, messages and blocks does, told by rows and
 fields alone, and what "unread" and "read" mean, told by times and ids alone.
 */
module MessagingEffects {
  import opened Wrappers
  import Text
  import opened Messaging

  /* ---- the text of a key ---- */

  /** Behind equal lengths, the order of strings is that of their first parts, then of the rest. */
  lemma {:induction false} LeqConcat(a: string, b: string, x: string, y: string)
    requires |a| == |b|
    ensures Leq(a + x, b + y) <==> if a == b then Leq(x, y) else Leq(a, b)
  {
    if a == "" {
      assert a + x == x && b + y == y;
    } else {
      assert (a + x)[1..] == a[1..] + x && (b + y)[1..] == b[1..] + y;
      LeqConcat(a[1..], b[1..], x, y);
      assert a == [a[0]] + a[1..] && b == [b[0]] + b[1..];
    }
  }

  lemma DigitOrder(d: nat, e: nat)
    requires d < 16 && e < 16
    ensures Leq([Text.DigitChar(d)], [Text.DigitChar(e)]) <==> d <= e
  {
  }

  /** Numerals of one base and width are ordered as their numbers are. */
  lemma {:induction false} NumeralOrder(r: Text.Radix, width: nat, m: nat, n: nat)
    requires m < Text.Capacity(r, width) && n < Text.Capacity(r, width)
    ensures Leq(Text.Numeral(r, width, m), Text.Numeral(r, width, n)) <==> m <= n
  {
    if width > 0 {
      NumeralOrder(r, width - 1, r.Quotient(m), r.Quotient(n));
      NumeralInjective(r, width - 1, r.Quotient(m), r.Quotient(n));
      LastDigitOrder(r, Text.Numeral(r, width - 1, r.Quotient(m)), Text.Numeral(r, width - 1, r.Quotient(n)), m, n);
    }
  }

  lemma NumeralInjective(r: Text.Radix, width: nat, m: nat, n: nat)
    requires m < Text.Capacity(r, width) && n < Text.Capacity(r, width)
    ensures Text.Numeral(r, width, m) == Text.Numeral(r, width, n) <==> m == n
  {
    Text.NumeralRoundTrip(r, width, m);
    Text.NumeralRoundTrip(r, width, n);
  }

  lemma LastDigitOrder(r: Text.Radix, p: string, q: string, m: nat, n: nat)
    requires |p| == |q| && (p == q <==> r.Quotient(m) == r.Quotient(n)) && (Leq(p, q) <==> r.Quotient(m) <= r.Quotient(n))
    ensures Leq(p + [Text.DigitChar(r.Remainder(m))], q + [Text.DigitChar(r.Remainder(n))]) <==> m <= n
  {
    LeqConcat(p, q, [Text.DigitChar(r.Remainder(m))], [Text.DigitChar(r.Remainder(n))]);
    DigitOrder(r.Remainder(m), r.Remainder(n));
    PlacesOrder(r, m, n);
  }

  lemma PlacesOrder(r: Text.Radix, m: nat, n: nat)
    ensures m <= n <==>
      r.Quotient(m) < r.Quotient(n) || (r.Quotient(m) == r.Quotient(n) && r.Remainder(m) <= r.Remainder(n))
  {
  }

  /** The same mark at the same place changes no order. */
  lemma MarkOrder(s: string, t: string, at: nat, c: char)
    requires |s| == |t| && at <= |s|
    ensures Leq(s[..at] + [c] + s[at..], t[..at] + [c] + t[at..]) <==> Leq(s, t)
  {
    assert s == s[..at] + s[at..] && t == t[..at] + t[at..];
    assert s[..at] + [c] + s[at..] == s[..at] + ([c] + s[at..]) && t[..at] + [c] + t[at..] == t[..at] + ([c] + t[at..]);
    LeqConcat(s[..at], t[..at], s[at..], t[at..]);
    LeqConcat(s[..at], t[..at], [c] + s[at..], [c] + t[at..]);
    LeqConcat([c], [c], s[at..], t[at..]);
  }

  lemma {:induction false} PunctuateOrder(s: string, t: string, marks: seq<Text.Mark>)
    requires |s| == |t| && forall k :: 0 <= k < |marks| ==> marks[k].at <= |s| + k
    ensures Leq(Text.Punctuate(s, marks), Text.Punctuate(t, marks)) <==> Leq(s, t)
  {
    if marks != [] {
      var front, m := marks[..|marks| - 1], marks[|marks| - 1];
      PunctuateOrder(s, t, front);
      MarkOrder(Text.Punctuate(s, front), Text.Punctuate(t, front), m.at, m.symbol);
    }
  }

  /** The texts of two UUIDs sort as the UUIDs do. */
  lemma UuidOrder(a: Id, b: Id)
    ensures Leq(Text.UuidText(a), Text.UuidText(b)) <==> a <= b
  {
    PunctuateOrder(Text.Numeral(Text.Hex, 32, a), Text.Numeral(Text.Hex, 32, b), Text.HYPHENS);
    NumeralOrder(Text.Hex, 32, a, b);
  }

  /** The key is the smaller id's text, a colon, and the larger one's. */
  lemma KeyText(a: Id, b: Id)
    ensures DirectKey(a, b) == Text.UuidText(if a <= b then a else b) + ":" + Text.UuidText(if a <= b then b else a)
  {
    UuidOrder(a, b);
  }

  /* ---- who can be written to ---- */

  predicate CanAct(scene: Scene, id: Id) { id in scene.users && scene.users[id].active && !scene.users[id].disabled }

  predicate MutedNow(scene: Scene, id: Id) {
    id in scene.users && scene.users[id].mutedUntil.Some? && scene.users[id].mutedUntil.value > scene.now
  }

  /** The reasons against writing to somebody, in the order in which they are looked for. */
  lemma ObstacleExactly(blocks: set<(Id, Id)>, scene: Scene, actor: Id, target: Id)
    ensures Obstacle(blocks, scene, actor, target)
      == if actor == target || !CanAct(scene, actor) then Some(Forbidden)
         else if !CanAct(scene, target) then Some(NotFound)
         else if MutedNow(scene, actor) then Some(Muted)
         else if (actor, target) in blocks || (target, actor) in blocks then Some(NotFound)
         else None
  {
  }

  /* ---- conversations ---- */

  /** A direct conversation is made exactly when nothing stands against it and the two have none. */
  lemma DirectEffect(s: State, scene: Scene, actor: Id, target: Id, newId: Id)
    requires Inv(s) && newId !in s.conversations
    ensures var t := Step(s, DoDirect(scene, actor, target, newId));
      var have := exists c | c in s.conversations :: !s.conversations[c].group && s.conversations[c].members.Keys == {actor, target};
      if Obstacle(s.blocks, scene, actor, target).Some? || have then t == s
      else t == s.(conversations := s.conversations[newId :=
             Conversation(Some(DirectKey(actor, target)), false, actor, map[actor := Member(None, false), target := Member(None, false)])])
  {
    if actor != target {
      if c :| c in s.conversations && !s.conversations[c].group && s.conversations[c].members.Keys == {actor, target} {
        TheTwo(s.conversations[c], actor, target);
        SamePairSameKey(s.conversations[c], NewDirect(actor, target)) by { assert IsPair(NewDirect(actor, target), actor, target); }
        assert HasKey(s.conversations, DirectKey(actor, target), c);
      }
      if c :| HasKey(s.conversations, DirectKey(actor, target), c) { KeyedPair(s.conversations[c], actor, target); }
    }
  }

  /** A group is made exactly when others are named and each can be written to; its creator leads it. */
  lemma GroupEffect(s: State, scene: Scene, actor: Id, ids: seq<Id>, newId: Id)
    requires newId !in s.conversations
    ensures var t := Step(s, DoGroup(scene, actor, ids, newId));
      if (exists u :: u in ids && u != actor) && (forall u | u in ids && u != actor :: Obstacle(s.blocks, scene, actor, u).None?)
      then
        && newId in t.conversations && t == s.(conversations := s.conversations[newId := t.conversations[newId]])
        && var g := t.conversations[newId];
           && g.key.None? && g.group && g.creator == actor
           && (forall u :: u in g.members <==> u == actor || u in ids)
           && (forall u | u in g.members :: g.members[u] == Member(None, u == actor))
      else t == s
  {
    assert forall u :: u in Others(actor, ids) <==> u in ids && u != actor;
    if u :| u in ids && u != actor { assert u in Others(actor, ids); }
  }

  /** Adding: an admin of the group adds somebody who can be written to and is not in it; nothing else changes. */
  lemma AddEffect(s: State, scene: Scene, c: Id, actor: Id, target: Id)
    ensures var t := Step(s, DoAdd(scene, c, actor, target));
      var inGroup := c in s.conversations && s.conversations[c].group && actor in s.conversations[c].members;
      if inGroup && s.conversations[c].members[actor].admin && Obstacle(s.blocks, scene, actor, target).None?
         && target !in s.conversations[c].members
      then t == s.(conversations := s.conversations[c := s.conversations[c].(members := s.conversations[c].members[target := Member(None, false)])])
      else t == s
    ensures AddError(s, scene, c, actor, target)
      == if !(c in s.conversations && s.conversations[c].group && actor in s.conversations[c].members) then Some(NotFound)
         else if !s.conversations[c].members[actor].admin then Some(Forbidden)
         else if !CanAct(scene, target) then Some(NotFound)
         else if Obstacle(s.blocks, scene, actor, target).Some? then Obstacle(s.blocks, scene, actor, target)
         else if target in s.conversations[c].members then Some(Conflict) else None
  {
  }

  /** Removing: an admin removes, or a member leaves, never the creator; only that row goes. */
  lemma RemoveEffect(s: State, c: Id, actor: Id, target: Id)
    ensures var t := Step(s, DoRemove(c, actor, target));
      var bothIn := c in s.conversations && s.conversations[c].group && actor in s.conversations[c].members && target in s.conversations[c].members;
      var allowed := bothIn && (target == actor || s.conversations[c].members[actor].admin) && target != s.conversations[c].creator;
      && RemoveError(s, c, actor, target) == (if !bothIn then Some(NotFound) else if !allowed then Some(Forbidden) else None)
      && (!allowed ==> t == s)
      && (allowed ==>
            && c in t.conversations && t == s.(conversations := s.conversations[c := t.conversations[c]])
            && t.conversations[c] == s.conversations[c].(members := t.conversations[c].members)
            && (forall u :: u in t.conversations[c].members <==> u in s.conversations[c].members && u != target)
            && (forall u | u in t.conversations[c].members :: t.conversations[c].members[u] == s.conversations[c].members[u]))
  {
  }

  /* ---- messages ---- */

  /** Sending: a member whom nothing keeps from any other member adds one live message. */
  lemma SendEffect(s: State, scene: Scene, c: Id, actor: Id, valid: bool, newId: Id)
    requires newId !in s.messages
    ensures var t := Step(s, DoSend(scene, c, actor, valid, newId));
      if c in s.conversations && actor in s.conversations[c].members && valid
         && (forall u | u in s.conversations[c].members && u != actor :: Obstacle(s.blocks, scene, actor, u).None?)
      then t == s.(messages := s.messages[newId := Message(c, actor, scene.now, None)])
      else t == s
  {
  }

  lemma MarkEffect(s: State, c: Id, user: Id, m: Id)
    ensures var t := Step(s, DoMark(c, user, m));
      if c in s.conversations && user in s.conversations[c].members && m in s.messages && s.messages[m].conversation == c
      then t == s.(conversations := s.conversations[c := s.conversations[c].(
             members := s.conversations[c].members[user := Member(Some(m), s.conversations[c].members[user].admin)])])
      else t == s
  {
  }

  /** Deleting one's own message, hiding anyone's: a live one is marked, and keeps everything else. */
  lemma DeletionEffects(s: State, m: Id, actor: Id, now: int)
    ensures var t := Step(s, DoDelete(m, actor, now));
      if m in s.messages && s.messages[m].sender == actor && s.messages[m].deletedAt.None?
      then t == s.(messages := s.messages[m := s.messages[m].(deletedAt := Some(now))]) else t == s
    ensures var t := Step(s, DoHide(m, now));
      if m in s.messages && s.messages[m].deletedAt.None?
      then t == s.(messages := s.messages[m := s.messages[m].(deletedAt := Some(now))]) else t == s
  {
  }

  /** A purge takes its batch and the markers on it, and leaves everything else. */
  lemma PurgeEffect(s: State, before: int, gone: set<Id>)
    requires forall m | m in gone :: m in s.messages && s.messages[m].deletedAt.Some? && s.messages[m].deletedAt.value < before
    ensures var t := Step(s, DoPurge(before, gone));
      && t.blocks == s.blocks && t.conversations.Keys == s.conversations.Keys
      && (forall m :: m in t.messages <==> m in s.messages && m !in gone)
      && (forall m | m in t.messages :: t.messages[m] == s.messages[m])
      && (forall c | c in s.conversations ::
            && t.conversations[c] == s.conversations[c].(members := t.conversations[c].members)
            && t.conversations[c].members.Keys == s.conversations[c].members.Keys
            && forall u | u in s.conversations[c].members ::
                 var row := s.conversations[c].members[u];
                 t.conversations[c].members[u] == Member(if row.lastRead.Some? && row.lastRead.value in gone then None else row.lastRead, row.admin))
  {
  }

  /** The batch: deleted before the time, as many as fit, and none of them later than one that stays. */
  lemma BatchExactly(messages: Messages, before: int, size: nat, gone: set<Id>)
    requires IsBatch(messages, before, size, gone)
    ensures forall m | m in gone :: m in messages && messages[m].deletedAt.Some? && messages[m].deletedAt.value < before
    ensures |gone| <= size
    ensures forall m | m in messages && m !in gone && messages[m].deletedAt.Some? && messages[m].deletedAt.value < before ::
      |gone| == size && forall g | g in gone ::
        messages[g].deletedAt.value < messages[m].deletedAt.value || (messages[g].deletedAt == messages[m].deletedAt && g < m)
  {
    forall m | m in messages && m !in gone && messages[m].deletedAt.Some? && messages[m].deletedAt.value < before
      ensures |gone| == size && forall g | g in gone ::
        messages[g].deletedAt.value < messages[m].deletedAt.value || (messages[g].deletedAt == messages[m].deletedAt && g < m)
    {
      assert m in Deleted(messages, before) - gone;
      forall g | g in gone
        ensures messages[g].deletedAt.value < messages[m].deletedAt.value || (messages[g].deletedAt == messages[m].deletedAt && g < m)
      {
        assert DeletedEarlier(messages, g, m);
      }
    }
  }

  lemma BlockEffects(s: State, actor: Id, target: Id, known: bool)
    ensures Step(s, DoBlock(actor, target, known)) == if actor != target && known then s.(blocks := s.blocks + {(actor, target)}) else s
    ensures Step(s, DoUnblock(actor, target)) == s.(blocks := s.blocks - {(actor, target)})
  {
  }

  /* ---- unread and read ---- */

  /** With a marker: the live messages of others that are later than the marked one, by time, then by id. Without: all of them. */
  lemma UnreadByTime(s: State, c: Id, user: Id, m: Id)
    requires c in s.conversations && user in s.conversations[c].members
    ensures var k := s.conversations[c].members[user].lastRead;
      m in Unread(s, c, user) <==>
        && m in s.messages && s.messages[m].conversation == c && s.messages[m].sender != user && s.messages[m].deletedAt.None?
        && (k.Some? && k.value in s.messages ==>
              s.messages[m].at > s.messages[k.value].at || (s.messages[m].at == s.messages[k.value].at && m > k.value))
  {
  }

  /** A message is read by a member whose marker is on it or on a later one. */
  lemma ReadByTime(s: State, m: Id, reader: Id)
    requires m in s.messages
    ensures ReadBy(s, m, reader) <==>
      var c := s.messages[m].conversation;
      && c in s.conversations && reader in s.conversations[c].members
      && var k := s.conversations[c].members[reader].lastRead;
         && k.Some? && k.value in s.messages
         && (s.messages[k.value].at > s.messages[m].at || (s.messages[k.value].at == s.messages[m].at && k.value >= m))
  {
  }

  lemma RecipientsExactly(s: State, m: Id, u: Id)
    requires m in s.messages && s.messages[m].conversation in s.conversations
    ensures u in Recipients(s, m) <==> u in s.conversations[s.messages[m].conversation].members && u != s.messages[m].sender
  {
  }

  /** Steps that neither mark `n` or a later message for the user, nor delete or hide `n`, nor take the user out. */
  predicate LeavesUnread(s: State, op: Op, c: Id, user: Id, n: Id)
    requires n in s.messages
  {
    && !(op.DoMark? && op.c == c && op.actor == user && op.m in s.messages
         && (s.messages[op.m].at > s.messages[n].at || (s.messages[op.m].at == s.messages[n].at && op.m >= n)))
    && !(op.DoDelete? && op.m == n) && !(op.DoHide? && op.m == n)
    && !(op.DoRemove? && op.c == c && op.target == user)
  }

  ghost predicate LeftUnread(s: State, ops: seq<Op>, c: Id, user: Id, n: Id)
    decreases |ops|
  {
    ops != [] ==> n in s.messages && LeavesUnread(s, ops[0], c, user, n) && LeftUnread(Step(s, ops[0]), ops[1..], c, user, n)
  }

  predicate IsUnread(s: State, c: Id, user: Id, n: Id) { IsMember(s, c, user) && n in Unread(s, c, user) }

  lemma MarkLeavesUnread(s: State, d: Id, u: Id, m: Id, c: Id, user: Id, n: Id)
    requires IsUnread(s, c, user, n) && LeavesUnread(s, DoMark(d, u, m), c, user, n)
    ensures IsUnread(MarkRead(s, d, u, m), c, user, n)
  {
  }

  lemma PurgeLeavesUnread(s: State, before: int, gone: set<Id>, c: Id, user: Id, n: Id)
    requires Inv(s) && IsUnread(s, c, user, n)
    ensures IsUnread(Purge(s, before, gone), c, user, n)
  {
    if gone <= Deleted(s.messages, before) { PurgeUnread(s, before, gone, c, user); }
  }

  lemma ConversationsLeaveUnread(s: State, op: Op, c: Id, user: Id, n: Id)
    requires IsUnread(s, c, user, n) && LeavesUnread(s, op, c, user, n)
    requires op.DoDirect? || op.DoGroup? || op.DoAdd? || op.DoRemove? || op.DoBlock? || op.DoUnblock?
    ensures IsUnread(Step(s, op), c, user, n)
  {
  }

  lemma MessagesLeaveUnread(s: State, op: Op, c: Id, user: Id, n: Id)
    requires IsUnread(s, c, user, n) && LeavesUnread(s, op, c, user, n) && Inv(s)
    requires op.DoSend? || op.DoDelete? || op.DoHide?
    ensures IsUnread(Step(s, op), c, user, n)
  {
    assert MarkersOk(c, s.conversations[c], s.messages);
  }

  lemma StepLeavesUnread(s: State, op: Op, c: Id, user: Id, n: Id)
    requires Inv(s) && IsUnread(s, c, user, n) && LeavesUnread(s, op, c, user, n)
    ensures IsUnread(Step(s, op), c, user, n)
  {
    if op.DoMark? { MarkLeavesUnread(s, op.c, op.actor, op.m, c, user, n); }
    else if op.DoPurge? { PurgeLeavesUnread(s, op.before, op.gone, c, user, n); }
    else if op.DoSend? || op.DoDelete? || op.DoHide? { MessagesLeaveUnread(s, op, c, user, n); }
    else { ConversationsLeaveUnread(s, op, c, user, n); }
  }

  lemma {:induction false} RunLeavesUnread(s: State, ops: seq<Op>, c: Id, user: Id, n: Id)
    requires Inv(s) && IsUnread(s, c, user, n) && LeftUnread(s, ops, c, user, n)
    ensures IsUnread(Run(s, ops), c, user, n)
    decreases |ops|
  {
    if ops != [] {
      StepLeavesUnread(s, ops[0], c, user, n);
      StepKeepsInv(s, ops[0]);
      RunLeavesUnread(Step(s, ops[0]), ops[1..], c, user, n);
    }
  }

  /**
   A message sent later than every message before it is unread for every other
   member, and stays so through every run in which that member marks neither it nor
   a later one, it is not deleted, and the member is not taken out.
   */
  lemma SentStaysUnread(s: State, scene: Scene, c: Id, actor: Id, newId: Id, user: Id, ops: seq<Op>)
    requires Inv(s) && newId !in s.messages && SendAllowed(s, scene, c, actor, true)
    requires forall m | m in s.messages :: s.messages[m].at < scene.now
    requires IsMember(s, c, user) && user != actor
    requires LeftUnread(Step(s, DoSend(scene, c, actor, true, newId)), ops, c, user, newId)
    ensures var t := Run(Step(s, DoSend(scene, c, actor, true, newId)), ops);
      IsMember(t, c, user) && newId in Unread(t, c, user)
  {
    var t := Step(s, DoSend(scene, c, actor, true, newId));
    assert MarkersOk(c, s.conversations[c], s.messages);
    assert IsUnread(t, c, user, newId);
    StepKeepsInv(s, DoSend(scene, c, actor, true, newId));
    RunLeavesUnread(t, ops, c, user, newId);
  }

  /** Marking a message at once reads it and everything before it, and nothing later. */
  lemma MarkReads(s: State, c: Id, user: Id, m: Id, n: Id)
    requires CanMark(s, c, user, m) && n in s.messages && s.messages[n].conversation == c
    ensures ReadBy(Step(s, DoMark(c, user, m)), n, user)
      <==> s.messages[n].at < s.messages[m].at || (s.messages[n].at == s.messages[m].at && n <= m)
  {
  }
}
