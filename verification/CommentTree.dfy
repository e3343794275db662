/**
 The client's comment list: merging pages into it, grouping it by parent, and
 walking the groups from the roots down, as the post page renders them.
 */
module CommentTree {
  import opened Wrappers
  import Comments

  type Id = int

  datatype Row = Row(id: Id, parent: Option<Id>, body: string)

  /* ---- mergeComments ---- */

  predicate UniqueIds(rows: seq<Row>) {
    forall i, j :: 0 <= i < j < |rows| ==> rows[i].id != rows[j].id
  }

  function IndexOf(rows: seq<Row>, id: Id): (r: Option<nat>)
    ensures r.Some? ==> r.value < |rows| && rows[r.value].id == id && forall j :: 0 <= j < r.value ==> rows[j].id != id
    ensures r.None? ==> forall j :: 0 <= j < |rows| ==> rows[j].id != id
  {
    if rows == [] then None
    else if rows[|rows| - 1].id == id && IndexOf(rows[..|rows| - 1], id).None? then Some(|rows| - 1)
    else IndexOf(rows[..|rows| - 1], id)
  }

  /** `Map.set`: a known key keeps its place and gets the new value, a new key goes last. */
  function Put(rows: seq<Row>, row: Row): seq<Row> {
    var i := IndexOf(rows, row.id);
    if i.Some? then rows[i.value := row] else rows + [row]
  }

  function Merged(rows: seq<Row>): seq<Row> {
    if rows == [] then [] else Put(Merged(rows[..|rows| - 1]), rows[|rows| - 1])
  }

  lemma PutUnique(rows: seq<Row>, row: Row)
    requires UniqueIds(rows)
    ensures UniqueIds(Put(rows, row))
  {
  }

  lemma {:induction false} MergedUnique(rows: seq<Row>)
    ensures UniqueIds(Merged(rows))
  {
    if rows != [] {
      MergedUnique(rows[..|rows| - 1]);
      PutUnique(Merged(rows[..|rows| - 1]), rows[|rows| - 1]);
    }
  }

  /** The row at i is the last one with its id. */
  predicate LastAt(rows: seq<Row>, i: int) {
    0 <= i < |rows| && forall j :: i < j < |rows| ==> rows[j].id != rows[i].id
  }

  ghost predicate IsLast(rows: seq<Row>, r: Row) {
    exists i :: LastAt(rows, i) && rows[i] == r
  }

  lemma PutMembers(rows: seq<Row>, row: Row, r: Row)
    requires UniqueIds(rows)
    ensures r in Put(rows, row) <==> r == row || (r in rows && r.id != row.id)
  {
    var put := Put(rows, row);
    var i := IndexOf(rows, row.id);
    if i.Some? {
      assert put[i.value] == row;
      if r in rows && r.id != row.id {
        var j :| 0 <= j < |rows| && rows[j] == r;
        assert put[j] == r;
      }
    } else {
      assert put[|rows|] == row;
    }
  }

  lemma LastOfLonger(rows: seq<Row>, row: Row, r: Row)
    ensures IsLast(rows + [row], r) <==> r == row || (IsLast(rows, r) && r.id != row.id)
  {
    var longer := rows + [row];
    if r == row { assert LastAt(longer, |rows|); }
    if IsLast(longer, r) && r != row {
      var i :| LastAt(longer, i) && longer[i] == r;
      assert longer[|rows|].id != r.id;
      assert forall j :: i < j < |rows| ==> longer[j] == rows[j];
      assert LastAt(rows, i) && rows[i] == r;
    }
    if IsLast(rows, r) && r.id != row.id {
      var i :| LastAt(rows, i) && rows[i] == r;
      assert LastAt(longer, i) && longer[i] == r;
    }
  }

  /** Every id is kept once, with the value it had last. */
  lemma {:induction false} LastVersionWins(rows: seq<Row>, r: Row)
    ensures r in Merged(rows) <==> IsLast(rows, r)
  {
    if rows != [] {
      var front, row := rows[..|rows| - 1], rows[|rows| - 1];
      assert front + [row] == rows;
      assert r in Merged(front) <==> IsLast(front, r) by { LastVersionWins(front, r); }
      assert r in Put(Merged(front), row) <==> r == row || (r in Merged(front) && r.id != row.id) by {
        MergedUnique(front);
        PutMembers(Merged(front), row, r);
      }
      LastOfLonger(front, row, r);
    }
  }

  lemma PutIds(rows: seq<Row>, row: Row, id: Id)
    ensures IndexOf(Put(rows, row), id).Some? <==> id == row.id || IndexOf(rows, id).Some?
  {
    var put, i := Put(rows, row), IndexOf(rows, row.id);
    assert i.Some? ==> forall j :: 0 <= j < |rows| ==> put[j].id == rows[j].id;
    assert i.None? ==> put[|rows|] == row && forall j :: 0 <= j < |rows| ==> put[j] == rows[j];
  }

  /** Merging neither loses nor invents an id. */
  lemma {:induction false} SameIds(rows: seq<Row>, id: Id)
    ensures IndexOf(Merged(rows), id).Some? <==> IndexOf(rows, id).Some?
  {
    if rows != [] {
      var n := |rows| - 1;
      SameIds(rows[..n], id);
      PutIds(Merged(rows[..n]), rows[n], id);
    }
  }

  /** Ids come in the order in which they first appeared. */
  lemma {:induction false} FirstPlaceKept(rows: seq<Row>, p: nat, q: nat)
    requires p < q < |Merged(rows)|
    ensures var a, b := IndexOf(rows, Merged(rows)[p].id), IndexOf(rows, Merged(rows)[q].id);
      a.Some? && b.Some? && a.value < b.value
  {
    var n := |rows| - 1;
    var before, m := Merged(rows[..n]), Merged(rows);
    if q < |before| {
      FirstPlaceKept(rows[..n], p, q);
      assert before[p].id == m[p].id && before[q].id == m[q].id;
    } else {
      assert before[p].id == m[p].id && m[q] == rows[n];
      SameIds(rows[..n], before[p].id);
      SameIds(rows[..n], rows[n].id);
    }
  }

  lemma MergedAppend(rows: seq<Row>, row: Row)
    ensures Merged(rows + [row]) == Put(Merged(rows), row)
  {
    assert (rows + [row])[..|rows|] == rows;
  }

  method PutAll(start: seq<Row>, ghost done: seq<Row>, rows: seq<Row>) returns (merged: seq<Row>)
    requires start == Merged(done)
    ensures merged == Merged(done + rows)
  {
    merged := start;
    ghost var all := done;
    for i := 0 to |rows|
      invariant all == done + rows[..i] && merged == Merged(all)
    {
      MergedAppend(all, rows[i]);
      merged, all := Put(merged, rows[i]), all + [rows[i]];
      SliceGrows(rows, i);
    }
    assert rows[..|rows|] == rows;
  }

  lemma SliceGrows(rows: seq<Row>, i: nat)
    requires i < |rows|
    ensures rows[..i + 1] == rows[..i] + [rows[i]]
  {
  }

  /** `new Map(current...)`, then `set` for each incoming comment. */
  method MergeComments(current: seq<Row>, incoming: seq<Row>) returns (merged: seq<Row>)
    ensures merged == Merged(current + incoming)
    ensures UniqueIds(merged)
  {
    merged := PutAll([], [], current);
    assert [] + current == current;
    merged := PutAll(merged, current, incoming);
    MergedUnique(current + incoming);
  }

  /* ---- groupComments ---- */

  function ChildrenOf(rows: seq<Row>, parent: Option<Id>): (cs: seq<Row>)
    ensures |cs| <= |rows| && forall c <- cs :: c in rows && c.parent == parent
  {
    if rows == [] then []
    else ChildrenOf(rows[..|rows| - 1], parent) + if rows[|rows| - 1].parent == parent then [rows[|rows| - 1]] else []
  }

  /** Each group holds the comments of one parent, in list order; there are no empty groups. */
  ghost predicate Grouped(rows: seq<Row>, groups: map<Option<Id>, seq<Row>>) {
    forall p :: if p in groups then groups[p] == ChildrenOf(rows, p) && groups[p] != [] else ChildrenOf(rows, p) == []
  }

  lemma GroupOneMore(rows: seq<Row>, groups: map<Option<Id>, seq<Row>>, row: Row)
    requires Grouped(rows, groups)
    ensures var replies := if row.parent in groups then groups[row.parent] else [];
      Grouped(rows + [row], groups[row.parent := replies + [row]])
  {
    assert (rows + [row])[..|rows|] == rows;
  }

  method GroupComments(comments: seq<Row>) returns (groups: map<Option<Id>, seq<Row>>)
    ensures Grouped(comments, groups)
  {
    groups := map[];
    ghost var done: seq<Row> := [];
    for i := 0 to |comments|
      invariant done == comments[..i] && Grouped(done, groups)
    {
      var comment := comments[i];
      var replies := if comment.parent in groups then groups[comment.parent] else [];
      GroupOneMore(done, groups, comment);
      SliceGrows(comments, i);
      groups, done := groups[comment.parent := replies + [comment]], done + [comment];
    }
    assert done == comments;
  }

  /* ---- rendering ---- */

  /** Every parent is in the list, and ages strictly decrease towards the roots. */
  ghost predicate WellThreaded(rows: seq<Row>, age: map<Id, nat>) {
    && UniqueIds(rows)
    && (forall r | r in rows :: r.id in age)
    && (forall r | r in rows && r.parent.Some? :: exists p :: p in rows && p.id == r.parent.value)
    && (forall r | r in rows && r.parent.Some? :: r.parent.value in age && age[r.parent.value] < age[r.id])
  }

  ghost function Height(age: map<Id, nat>, top: nat, p: Option<Id>): nat {
    if p.None? then top + 1
    else if p.value in age && age[p.value] <= top then top - age[p.value] else 0
  }

  ghost predicate Bounded(rows: seq<Row>, age: map<Id, nat>, top: nat) {
    WellThreaded(rows, age) && forall r | r in rows :: age[r.id] <= top
  }

  /**
   What the page shows below a parent: each child, followed by what is below it
   if the child is open, which means its replies are both loaded and expanded.
   */
  ghost function Thread(rows: seq<Row>, age: map<Id, nat>, top: nat, open: set<Id>, p: Option<Id>): seq<Row>
    requires Bounded(rows, age, top)
    decreases Height(age, top, p), |rows| + 1
  {
    Threads(rows, age, top, open, p, ChildrenOf(rows, p))
  }

  ghost function Threads(rows: seq<Row>, age: map<Id, nat>, top: nat, open: set<Id>, p: Option<Id>, cs: seq<Row>): seq<Row>
    requires Bounded(rows, age, top) && forall c <- cs :: c in rows && c.parent == p
    requires |cs| <= |rows|
    decreases Height(age, top, p), |cs|
  {
    if cs == [] then []
    else
      var c := cs[|cs| - 1];
      var below := if c.id in open then Thread(rows, age, top, open, Some(c.id)) else [];
      Threads(rows, age, top, open, p, cs[..|cs| - 1]) + [c] + below
  }

  /* ---- in which order ---- */

  /** The children of a parent are the rows that name it, in list order. */
  lemma {:induction false} ChildrenExactly(rows: seq<Row>, p: Option<Id>, r: Row)
    ensures r in ChildrenOf(rows, p) <==> r in rows && r.parent == p
  {
    if rows != [] {
      var front, last := rows[..|rows| - 1], rows[|rows| - 1];
      assert rows == front + [last];
      ChildrenExactly(front, p, r);
    }
  }

  lemma {:induction false} ChildrenInOrder(rows: seq<Row>, p: Option<Id>, k: nat) returns (i: nat)
    requires k < |ChildrenOf(rows, p)|
    ensures i < |rows| && rows[i] == ChildrenOf(rows, p)[k] && ChildrenOf(rows[..i], p) == ChildrenOf(rows, p)[..k]
  {
    var front := rows[..|rows| - 1];
    if k < |ChildrenOf(front, p)| {
      i := ChildrenInOrder(front, p, k);
      assert front[..i] == rows[..i] && ChildrenOf(front, p)[..k] == ChildrenOf(rows, p)[..k];
    } else {
      i := |rows| - 1;
      assert ChildrenOf(rows, p)[..k] == ChildrenOf(front, p);
    }
  }

  /** A child as it is shown: itself, then what is below it. */
  ghost function Shown(rows: seq<Row>, age: map<Id, nat>, top: nat, open: set<Id>, c: Row): seq<Row>
    requires Bounded(rows, age, top)
  {
    [c] + if c.id in open then Thread(rows, age, top, open, Some(c.id)) else []
  }

  lemma ThreadsLast(rows: seq<Row>, age: map<Id, nat>, top: nat, open: set<Id>, p: Option<Id>, cs: seq<Row>)
    requires Bounded(rows, age, top) && (forall c <- cs :: c in rows && c.parent == p) && 0 < |cs| <= |rows|
    ensures Threads(rows, age, top, open, p, cs)
      == Threads(rows, age, top, open, p, cs[..|cs| - 1]) + Shown(rows, age, top, open, cs[|cs| - 1])
  {
  }

  predicate Siblings(rows: seq<Row>, p: Option<Id>, cs: seq<Row>) { forall c <- cs :: c in rows && c.parent == p }

  /** What is shown for a list of siblings is what is shown for its parts. */
  lemma {:induction false} ThreadsJoin(rows: seq<Row>, age: map<Id, nat>, top: nat, open: set<Id>, p: Option<Id>, a: seq<Row>, b: seq<Row>)
    requires Bounded(rows, age, top) && Siblings(rows, p, a + b) && Siblings(rows, p, a) && Siblings(rows, p, b) && |a + b| <= |rows|
    ensures Threads(rows, age, top, open, p, a + b) == Threads(rows, age, top, open, p, a) + Threads(rows, age, top, open, p, b)
    decreases |b|
  {
    if b == [] {
      assert a + b == a;
    } else {
      var front, last := b[..|b| - 1], b[|b| - 1];
      assert (a + b)[..|a + b| - 1] == a + front;
      ThreadsLast(rows, age, top, open, p, a + b);
      ThreadsJoin(rows, age, top, open, p, a, front);
      ThreadsLast(rows, age, top, open, p, b);
      Associate(Threads(rows, age, top, open, p, a), Threads(rows, age, top, open, p, front), Shown(rows, age, top, open, last));
    }
  }

  lemma Associate<A>(a: seq<A>, b: seq<A>, c: seq<A>)
    ensures (a + b) + c == a + (b + c)
  {
  }

  lemma ThreadsOne(rows: seq<Row>, age: map<Id, nat>, top: nat, open: set<Id>, p: Option<Id>, c: Row)
    requires Bounded(rows, age, top) && Siblings(rows, p, [c]) && rows != []
    ensures Threads(rows, age, top, open, p, [c]) == Shown(rows, age, top, open, c)
  {
    assert c in [c];
    ThreadsLast(rows, age, top, open, p, [c]);
    assert [c][..0] == [];
  }

  /** Below a parent its children are shown in list order, and each is followed at once by what is below it. */
  lemma ThreadInOrder(rows: seq<Row>, age: map<Id, nat>, top: nat, open: set<Id>, p: Option<Id>, k: nat)
    requires Bounded(rows, age, top) && k < |ChildrenOf(rows, p)|
    ensures var cs := ChildrenOf(rows, p);
      Thread(rows, age, top, open, p)
      == Threads(rows, age, top, open, p, cs[..k])
         + ([cs[k]] + (if cs[k].id in open then Thread(rows, age, top, open, Some(cs[k].id)) else []))
         + Threads(rows, age, top, open, p, cs[k + 1..])
  {
    var cs := ChildrenOf(rows, p);
    var before, after := cs[..k], cs[k + 1..];
    assert cs == (before + [cs[k]]) + after && cs[..k + 1] == before + [cs[k]];
    ThreadsJoin(rows, age, top, open, p, before + [cs[k]], after);
    ThreadsJoin(rows, age, top, open, p, before, [cs[k]]);
    ThreadsOne(rows, age, top, open, p, cs[k]);
  }

  /* ---- every comment is shown once, if all above it is open ---- */

  /**
   The ancestor of `x`, or `x` itself, that hangs directly below `p`, with
   everything from it down to the parent of `x` open; None if there is none.
   */
  ghost function Branch(rows: seq<Row>, age: map<Id, nat>, open: set<Id>, x: Row, p: Option<Id>): (b: Option<Row>)
    requires WellThreaded(rows, age) && x in rows
    ensures b.Some? ==> b.value in rows && b.value.parent == p && age[b.value.id] <= age[x.id]
    decreases age[x.id]
  {
    if x.parent == p then Some(x)
    else if x.parent.None? || x.parent.value !in open then None
    else Branch(rows, age, open, RowOf(rows, age, x), p)
  }

  /** The parent row of `x`. */
  ghost function RowOf(rows: seq<Row>, age: map<Id, nat>, x: Row): (p: Row)
    requires WellThreaded(rows, age) && x in rows && x.parent.Some?
    ensures p in rows && p.id == x.parent.value && age[p.id] < age[x.id]
  {
    var p :| p in rows && p.id == x.parent.value;
    p
  }

  lemma SameIdSameRow(rows: seq<Row>, a: Row, b: Row)
    requires UniqueIds(rows) && a in rows && b in rows && a.id == b.id
    ensures a == b
  {
    var i :| 0 <= i < |rows| && rows[i] == a;
    var j :| 0 <= j < |rows| && rows[j] == b;
  }

  /** Whether every ancestor of `x` is open. */
  ghost predicate Visible(rows: seq<Row>, age: map<Id, nat>, open: set<Id>, x: Row)
    requires WellThreaded(rows, age) && x in rows
    decreases age[x.id]
  {
    x.parent.Some? ==> x.parent.value in open && Visible(rows, age, open, RowOf(rows, age, x))
  }

  /** In a well-threaded list exactly the visible rows are reached from the roots. */
  lemma {:induction false} BelowRootExactly(rows: seq<Row>, age: map<Id, nat>, open: set<Id>, x: Row)
    requires WellThreaded(rows, age) && x in rows
    ensures Branch(rows, age, open, x, None).Some? <==> Visible(rows, age, open, x)
    decreases age[x.id]
  {
    if x.parent.Some? { BelowRootExactly(rows, age, open, RowOf(rows, age, x)); }
  }

  /** `x` is `c` or shown below `c` exactly when `c` is the branch of c's parent that leads to `x`. */
  lemma {:induction false} BranchStep(rows: seq<Row>, age: map<Id, nat>, open: set<Id>, x: Row, c: Row)
    requires WellThreaded(rows, age) && x in rows && c in rows
    ensures (x == c || (c.id in open && Branch(rows, age, open, x, Some(c.id)).Some?)) <==> Branch(rows, age, open, x, c.parent) == Some(c)
    ensures x == c ==> Branch(rows, age, open, x, Some(c.id)).None?
    decreases age[x.id]
  {
    var under := Branch(rows, age, open, x, Some(c.id));
    if under.Some? { BelowIsYounger(rows, age, open, x, c); }
    if x.parent == c.parent {
      if under.Some? && c.parent.Some? { BelowIsYounger(rows, age, open, RowOf(rows, age, x), c); }
    } else if x.parent.Some? {
      var y := RowOf(rows, age, x);
      BranchStep(rows, age, open, y, c);
      if y.id == c.id { SameIdSameRow(rows, y, c); }
    }
  }

  lemma {:induction false} BelowIsYounger(rows: seq<Row>, age: map<Id, nat>, open: set<Id>, x: Row, c: Row)
    requires WellThreaded(rows, age) && x in rows && c in rows
    requires Branch(rows, age, open, x, Some(c.id)).Some?
    ensures age[c.id] < age[x.id]
    decreases age[x.id]
  {
    if x.parent != Some(c.id) { BelowIsYounger(rows, age, open, RowOf(rows, age, x), c); }
  }

  /** How often a row occurs in what is shown below `p`. */
  lemma {:induction false} ThreadCount(rows: seq<Row>, age: map<Id, nat>, top: nat, open: set<Id>, p: Option<Id>, x: Row)
    requires Bounded(rows, age, top) && x in rows
    ensures multiset(Thread(rows, age, top, open, p))[x] == if Branch(rows, age, open, x, p).Some? then 1 else 0
    decreases Height(age, top, p), |rows| + 1
  {
    var cs := ChildrenOf(rows, p);
    ThreadsCount(rows, age, top, open, p, cs, x);
    var b := Branch(rows, age, open, x, p);
    if b.Some? { ChildCount(rows, p, b.value); }
  }

  lemma {:induction false} ThreadsCount(rows: seq<Row>, age: map<Id, nat>, top: nat, open: set<Id>, p: Option<Id>, cs: seq<Row>, x: Row)
    requires Bounded(rows, age, top) && x in rows && |cs| <= |rows|
    requires forall c <- cs :: c in rows && c.parent == p
    ensures var b := Branch(rows, age, open, x, p);
      multiset(Threads(rows, age, top, open, p, cs))[x] == if b.Some? then multiset(cs)[b.value] else 0
    decreases Height(age, top, p), |cs|
  {
    if cs != [] {
      var c, front := cs[|cs| - 1], cs[..|cs| - 1];
      assert c in cs;
      ThreadsCount(rows, age, top, open, p, front, x);
      if c.id in open { ThreadCount(rows, age, top, open, Some(c.id), x); }
      var below := if c.id in open then Thread(rows, age, top, open, Some(c.id)) else [];
      BranchStep(rows, age, open, x, c);
      CountJoined(Threads(rows, age, top, open, p, front), c, below, x);
      var b := Branch(rows, age, open, x, p);
      if b.Some? { CountLast(cs, b.value); }
    }
  }

  lemma CountJoined(a: seq<Row>, c: Row, b: seq<Row>, x: Row)
    ensures multiset(a + [c] + b)[x] == multiset(a)[x] + (if x == c then 1 else 0) + multiset(b)[x]
  {
    assert multiset(a + [c] + b) == multiset(a) + multiset{c} + multiset(b);
  }

  lemma CountLast(cs: seq<Row>, x: Row)
    requires cs != []
    ensures multiset(cs)[x] == multiset(cs[..|cs| - 1])[x] + if x == cs[|cs| - 1] then 1 else 0
  {
    assert cs == cs[..|cs| - 1] + [cs[|cs| - 1]];
  }

  lemma {:induction false} ChildCount(rows: seq<Row>, p: Option<Id>, b: Row)
    requires UniqueIds(rows) && b in rows && b.parent == p
    ensures multiset(ChildrenOf(rows, p))[b] == 1
  {
    var front, last := rows[..|rows| - 1], rows[|rows| - 1];
    assert rows == front + [last];
    if last == b {
      assert b !in front;
      assert b !in ChildrenOf(front, p);
    } else {
      ChildCount(front, p, b);
    }
  }

  lemma {:induction false} ThreadInvents(rows: seq<Row>, age: map<Id, nat>, top: nat, open: set<Id>, p: Option<Id>, cs: seq<Row>)
    requires Bounded(rows, age, top) && |cs| <= |rows|
    requires forall c <- cs :: c in rows && c.parent == p
    ensures forall x <- Threads(rows, age, top, open, p, cs) :: x in rows
    decreases Height(age, top, p), |cs|
  {
    if cs != [] {
      var c := cs[|cs| - 1];
      assert c in cs;
      ThreadInvents(rows, age, top, open, p, cs[..|cs| - 1]);
      if c.id in open { ThreadInvents(rows, age, top, open, Some(c.id), ChildrenOf(rows, Some(c.id))); }
    }
  }

  /** The page shows each comment of the list whose ancestors are all open exactly once, and nothing else. */
  lemma ShownExactlyOnce(rows: seq<Row>, age: map<Id, nat>, top: nat, open: set<Id>, x: Row)
    requires Bounded(rows, age, top)
    ensures multiset(Thread(rows, age, top, open, None))[x] == if x in rows && Visible(rows, age, open, x) then 1 else 0
  {
    ThreadInvents(rows, age, top, open, None, ChildrenOf(rows, None));
    if x in rows {
      BelowRootExactly(rows, age, open, x);
      ThreadCount(rows, age, top, open, None, x);
    } else {
      assert x !in Thread(rows, age, top, open, None);
    }
  }

  lemma {:induction false} OpenVisible(rows: seq<Row>, age: map<Id, nat>, open: set<Id>, x: Row)
    requires WellThreaded(rows, age) && x in rows && forall r | r in rows :: r.id in open
    ensures Visible(rows, age, open, x)
    decreases age[x.id]
  {
    if x.parent.Some? { OpenVisible(rows, age, open, RowOf(rows, age, x)); }
  }

  /** With everything open the page shows exactly the list. */
  lemma AllShown(rows: seq<Row>, age: map<Id, nat>, top: nat, open: set<Id>)
    requires Bounded(rows, age, top) && forall r | r in rows :: r.id in open
    ensures multiset(Thread(rows, age, top, open, None)) == multiset(rows)
  {
    forall x ensures multiset(Thread(rows, age, top, open, None))[x] == multiset(rows)[x] {
      ShownExactlyOnce(rows, age, top, open, x);
      if x in rows {
        OpenVisible(rows, age, open, x);
        UniqueCount(rows, x);
      }
    }
  }

  lemma {:induction false} UniqueCount(rows: seq<Row>, x: Row)
    requires UniqueIds(rows) && x in rows
    ensures multiset(rows)[x] == 1
  {
    var front, last := rows[..|rows| - 1], rows[|rows| - 1];
    assert rows == front + [last];
    if last == x { assert x !in front; } else { UniqueCount(front, x); }
  }

  /**
   In every run of the comment service, any listing of all of a post's comments,
   in any order, is shown with each comment once whose ancestors are all open.
   */
  lemma PostShownExactlyOnce(ops: seq<Comments.Op>, post: Id, rows: seq<Row>, open: set<Id>)
    requires UniqueIds(rows)
    requires var s := Comments.Run(Comments.EMPTY, ops);
      && (forall r | r in rows :: r.id in Comments.CommentsOf(s, post) && r.parent == s.comments[r.id].parent)
      && (forall c | c in Comments.CommentsOf(s, post) :: exists r :: r in rows && r.id == c)
    ensures var s := Comments.Run(Comments.EMPTY, ops);
      && Bounded(rows, s.order, |s.comments|)
      && (forall x | x in rows ::
            multiset(Thread(rows, s.order, |s.comments|, open, None))[x] == if Visible(rows, s.order, open, x) then 1 else 0)
      && ((forall r | r in rows :: r.id in open) ==> multiset(Thread(rows, s.order, |s.comments|, open, None)) == multiset(rows))
  {
    var s := Comments.Run(Comments.EMPTY, ops);
    Comments.RunKeepsForest(Comments.EMPTY, ops);
    forall r | r in rows && r.parent.Some?
      ensures (exists p :: p in rows && p.id == r.parent.value) && r.parent.value in s.order && s.order[r.parent.value] < s.order[r.id]
    {
      Comments.ParentIsOlder(s, r.id, r.parent.value);
      assert r.parent.value in Comments.CommentsOf(s, post);
    }
    forall x | x in rows
      ensures multiset(Thread(rows, s.order, |s.comments|, open, None))[x] == if Visible(rows, s.order, open, x) then 1 else 0
    {
      ShownExactlyOnce(rows, s.order, |s.comments|, open, x);
    }
    if forall r | r in rows :: r.id in open { AllShown(rows, s.order, |s.comments|, open); }
  }
}
