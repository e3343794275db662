/**
 Keyset pagination: rows are ordered by (timestamp, id), a page fetches one row
 more than it returns, and the next page starts strictly after the last row
 returned. A table is the set of keys its filter selects at one request; it may
 be a different set at every request of a walk.
 */
module Keyset {
  import opened Wrappers
  import opened Cursor

  datatype Order = Newest | Oldest

  /** Whether `a` comes before `b` on a page. */
  predicate Before(o: Order, a: Key, b: Key) {
    match o
    case Oldest => a.at < b.at || (a.at == b.at && a.id < b.id)
    case Newest => b.at < a.at || (b.at == a.at && b.id < a.id)
  }

  predicate Ascending(o: Order, s: seq<Key>) {
    forall i, j :: 0 <= i < j < |s| ==> Before(o, s[i], s[j])
  }

  /* ---- ORDER BY ---- */

  ghost predicate IsFirst(o: Order, rows: set<Key>, m: Key) {
    m in rows && forall k :: k in rows && k != m ==> Before(o, m, k)
  }

  lemma {:induction false} FirstExists(o: Order, rows: set<Key>)
    requires rows != {}
    ensures exists m :: IsFirst(o, rows, m)
    decreases |rows|
  {
    var m :| m in rows;
    if rows == {m} {
      assert IsFirst(o, rows, m);
    } else {
      FirstExists(o, rows - {m});
      var m' :| IsFirst(o, rows - {m}, m');
      var f := if Before(o, m', m) then m' else m;
      forall k | k in rows && k != f ensures Before(o, f, k) {
        assert k != m && k != m' ==> k in rows - {m};
      }
      assert IsFirst(o, rows, f);
    }
  }

  ghost function First(o: Order, rows: set<Key>): (m: Key)
    requires rows != {}
    ensures IsFirst(o, rows, m)
  {
    FirstExists(o, rows);
    var m :| IsFirst(o, rows, m);
    m
  }

  /** The rows in page order. */
  ghost function Sorted(o: Order, rows: set<Key>): (s: seq<Key>)
    ensures Ascending(o, s) && |s| == |rows|
    ensures forall k :: k in s <==> k in rows
    decreases |rows|
  {
    if rows == {} then []
    else
      var m := First(o, rows);
      [m] + Sorted(o, rows - {m})
  }

  /** An ascending sequence is determined by its elements. */
  lemma {:induction false} AscendingUnique(o: Order, s: seq<Key>, t: seq<Key>)
    requires Ascending(o, s) && Ascending(o, t)
    requires forall k :: k in s <==> k in t
    ensures s == t
  {
    assert s != [] ==> s[0] in s;
    assert t != [] ==> t[0] in t;
    if s != [] && t != [] {
      HeadsAgree(o, s, t);
      forall k ensures k in s[1..] <==> k in t[1..] {
        TailMembers(o, s, k);
        TailMembers(o, t, k);
      }
      AscendingUnique(o, s[1..], t[1..]);
      assert s == [s[0]] + s[1..] && t == [t[0]] + t[1..];
    }
  }

  /** In an ascending sequence, positions compare as the keys do. */
  lemma Positions(o: Order, s: seq<Key>, i: nat, j: nat)
    requires Ascending(o, s) && i < |s| && j < |s|
    ensures Before(o, s[i], s[j]) <==> i < j
    ensures s[i] == s[j] <==> i == j
  {
    assert j < i ==> Before(o, s[j], s[i]);
  }

  lemma TailMembers(o: Order, s: seq<Key>, k: Key)
    requires Ascending(o, s) && s != []
    ensures k in s[1..] <==> k in s && k != s[0]
  {
    SuffixMembers(o, s, 1, k);
    if k in s {
      var i :| 0 <= i < |s| && s[i] == k;
      Positions(o, s, 0, i);
    }
  }

  /** The keys from position n on are those beyond the one before it. */
  lemma SuffixMembers(o: Order, s: seq<Key>, n: nat, k: Key)
    requires Ascending(o, s) && 0 < n <= |s|
    ensures k in s[n..] <==> k in s && Before(o, s[n - 1], k)
  {
    if k in s[n..] {
      var i :| 0 <= i < |s| - n && s[n..][i] == k;
      Positions(o, s, n - 1, n + i);
    }
    if k in s {
      var i :| 0 <= i < |s| && s[i] == k;
      Positions(o, s, n - 1, i);
      if n <= i { assert s[n..][i - n] == k; }
    }
  }

  lemma HeadsAgree(o: Order, s: seq<Key>, t: seq<Key>)
    requires Ascending(o, s) && Ascending(o, t) && s != [] && t != []
    requires forall k :: k in s <==> k in t
    ensures s[0] == t[0]
  {
    assert s[0] in t && t[0] in s;
    var i :| 0 <= i < |t| && t[i] == s[0];
    var j :| 0 <= j < |s| && s[j] == t[0];
    Positions(o, t, 0, i);
    Positions(o, s, 0, j);
  }

  /* ---- one page ---- */

  /** The WHERE clause a cursor adds. */
  predicate Beyond(o: Order, cursor: Option<Key>, k: Key) {
    cursor.Some? ==> Before(o, cursor.value, k)
  }

  ghost function After(o: Order, rows: set<Key>, cursor: Option<Key>): set<Key> {
    set k | k in rows && Beyond(o, cursor, k)
  }

  datatype Page = Page(items: seq<Key>, next: Option<Key>)

  /** LIMIT limit + 1, keep `limit`, and point at the last row kept if more came. */
  ghost function PageOf(o: Order, rows: set<Key>, cursor: Option<Key>, limit: nat): (p: Page)
    requires limit >= 1
  {
    var all := Sorted(o, After(o, rows, cursor));
    var fetched := if |all| > limit + 1 then all[..limit + 1] else all;
    if |fetched| > limit then Page(fetched[..limit], Some(fetched[limit - 1]))
    else Page(fetched, None)
  }

  /** A page returns exactly the rows between its cursor and the next one. */
  lemma PageExact(o: Order, rows: set<Key>, cursor: Option<Key>, limit: nat)
    requires limit >= 1
    ensures var p := PageOf(o, rows, cursor, limit);
      && Ascending(o, p.items)
      && |p.items| <= limit
      && (p.next.Some? ==> |p.items| == limit && p.next.value == p.items[limit - 1])
      && (forall k :: k in p.items <==>
            k in rows && Beyond(o, cursor, k) && (p.next.Some? ==> k == p.next.value || Before(o, k, p.next.value)))
  {
    var all := Sorted(o, After(o, rows, cursor));
    var p := PageOf(o, rows, cursor, limit);
    assert p.items <= all;
    forall k ensures k in p.items <==>
      k in all && (p.next.Some? ==> k == p.next.value || Before(o, k, p.next.value))
    {
      PrefixMembers(o, all, |p.items|, k);
    }
  }

  lemma PrefixMembers(o: Order, s: seq<Key>, n: nat, k: Key)
    requires Ascending(o, s) && n <= |s|
    ensures k in s[..n] <==> k in s && (n < |s| ==> n > 0 && (k == s[n - 1] || Before(o, k, s[n - 1])))
  {
    if k in s {
      var i :| 0 <= i < |s| && s[i] == k;
      if 0 < n { Positions(o, s, i, n - 1); }
      if i < n { assert s[..n][i] == k; }
    }
    if k in s[..n] {
      var i :| 0 <= i < n && s[..n][i] == k;
      Positions(o, s, i, n - 1);
    }
  }

  /* ---- a walk over tables that change between requests ---- */

  /** One request of a walk: the rows selected at that moment, and its limit. */
  datatype Request = Request(rows: set<Key>, limit: nat)

  ghost predicate ValidRequests(reqs: seq<Request>) {
    forall i :: 0 <= i < |reqs| ==> reqs[i].limit >= 1
  }

  /** The pages returned, and whether the walk reached a null cursor. */
  datatype Trace = Trace(pages: seq<seq<Key>>, complete: bool)

  ghost function Walk(o: Order, reqs: seq<Request>, cursor: Option<Key>): (t: Trace)
    requires ValidRequests(reqs)
    ensures |t.pages| <= |reqs|
    ensures !t.complete ==> |t.pages| == |reqs|
  {
    if reqs == [] then Trace([], false)
    else
      var p := PageOf(o, reqs[0].rows, cursor, reqs[0].limit);
      if p.next.None? then Trace([p.items], true)
      else
        var rest := Walk(o, reqs[1..], p.next);
        Trace([p.items] + rest.pages, rest.complete)
  }

  lemma WalkUnfolds(o: Order, reqs: seq<Request>, cursor: Option<Key>)
    requires ValidRequests(reqs) && reqs != []
    ensures var p := PageOf(o, reqs[0].rows, cursor, reqs[0].limit);
      var t := Walk(o, reqs, cursor);
      && t.pages[0] == p.items
      && (p.next.None? ==> t == Trace([p.items], true))
      && (p.next.Some? ==> t.pages[1..] == Walk(o, reqs[1..], p.next).pages && t.complete == Walk(o, reqs[1..], p.next).complete)
  {
  }

  function Concat(pages: seq<seq<Key>>): seq<Key> {
    if pages == [] then [] else pages[0] + Concat(pages[1..])
  }

  lemma AscendingAppend(o: Order, s: seq<Key>, t: seq<Key>, pivot: Key)
    requires Ascending(o, s) && Ascending(o, t)
    requires forall k <- s :: k == pivot || Before(o, k, pivot)
    requires forall k <- t :: Before(o, pivot, k)
    ensures Ascending(o, s + t)
  {
    forall i, j | 0 <= i < j < |s + t|
      ensures Before(o, (s + t)[i], (s + t)[j])
    {
      if i < |s| <= j { assert s[i] in s && t[j - |s|] in t; }
    }
  }

  /**
   However the table changes between requests, and whatever limits are used, the
   rows returned over a whole walk are strictly ascending: none comes twice.
   */
  lemma {:induction false} WalkAscends(o: Order, reqs: seq<Request>, cursor: Option<Key>)
    requires ValidRequests(reqs)
    ensures var all := Concat(Walk(o, reqs, cursor).pages);
      Ascending(o, all) && forall k <- all :: Beyond(o, cursor, k)
  {
    if reqs != [] {
      var p := PageOf(o, reqs[0].rows, cursor, reqs[0].limit);
      PageExact(o, reqs[0].rows, cursor, reqs[0].limit);
      if p.next.None? {
        assert Concat([p.items]) == p.items;
      } else {
        var rest := Walk(o, reqs[1..], p.next);
        WalkAscends(o, reqs[1..], p.next);
        assert Concat([p.items] + rest.pages) == p.items + Concat(rest.pages) by {
          assert ([p.items] + rest.pages)[1..] == rest.pages;
        }
        assert p.next.value in p.items;
        AscendingAppend(o, p.items, Concat(rest.pages), p.next.value);
      }
    }
  }

  /** A row selected at every request the walk makes. */
  ghost predicate AlwaysThere(k: Key, reqs: seq<Request>, n: nat) {
    n <= |reqs| && forall i :: 0 <= i < n ==> k in reqs[i].rows
  }

  /** A complete walk returns every row that was selected at each of its requests. */
  lemma {:induction false} WalkMissesNothing(o: Order, reqs: seq<Request>, cursor: Option<Key>, k: Key)
    requires ValidRequests(reqs)
    requires var t := Walk(o, reqs, cursor);
      t.complete && AlwaysThere(k, reqs, |t.pages|) && Beyond(o, cursor, k)
    ensures k in Concat(Walk(o, reqs, cursor).pages)
  {
    var p := PageOf(o, reqs[0].rows, cursor, reqs[0].limit);
    PageExact(o, reqs[0].rows, cursor, reqs[0].limit);
    assert k in reqs[0].rows;
    if p.next.None? {
      assert Concat([p.items]) == p.items;
    } else {
      var rest := Walk(o, reqs[1..], p.next);
      assert ([p.items] + rest.pages)[1..] == rest.pages;
      if k !in p.items {
        forall i | 0 <= i < |rest.pages| ensures k in reqs[1..][i].rows { assert k in reqs[i + 1].rows; }
        WalkMissesNothing(o, reqs[1..], p.next, k);
      }
    }
  }

  ghost predicate AllIn(page: seq<Key>, rows: set<Key>) {
    forall k <- page :: k in rows
  }

  /** And it returns only rows that were selected at the request that returned them. */
  lemma {:induction false} WalkInventsNothing(o: Order, reqs: seq<Request>, cursor: Option<Key>, i: nat)
    requires ValidRequests(reqs) && i < |Walk(o, reqs, cursor).pages|
    ensures AllIn(Walk(o, reqs, cursor).pages[i], reqs[i].rows)
  {
    var p := PageOf(o, reqs[0].rows, cursor, reqs[0].limit);
    WalkUnfolds(o, reqs, cursor);
    if i == 0 {
      PageExact(o, reqs[0].rows, cursor, reqs[0].limit);
    } else {
      assert Walk(o, reqs, cursor).pages[i] == Walk(o, reqs, cursor).pages[1..][i - 1];
      WalkInventsNothing(o, reqs[1..], p.next, i - 1);
    }
  }

  lemma {:induction false} AscendingCount(o: Order, s: seq<Key>, k: Key)
    requires Ascending(o, s)
    ensures multiset(s)[k] == if k in s then 1 else 0
  {
    if s != [] {
      AscendingCount(o, s[1..], k);
      TailMembers(o, s, k);
      assert s == [s[0]] + s[1..];
    }
  }

  /**
   Pagination under change. Rows may be inserted and deleted between requests,
   the cursor's own row included; a walk to the null cursor returns each row at
   most once, and each row present throughout exactly once.
   */
  lemma ExactlyOnce(o: Order, reqs: seq<Request>, k: Key)
    requires ValidRequests(reqs) && Walk(o, reqs, None).complete
    ensures var t := Walk(o, reqs, None);
      && multiset(Concat(t.pages))[k] <= 1
      && (AlwaysThere(k, reqs, |t.pages|) ==> multiset(Concat(t.pages))[k] == 1)
  {
    var t := Walk(o, reqs, None);
    WalkAscends(o, reqs, None);
    AscendingCount(o, Concat(t.pages), k);
    if AlwaysThere(k, reqs, |t.pages|) {
      WalkMissesNothing(o, reqs, None, k);
    }
  }

  /**
   The identity of a row is its id. Since no row ever changes its timestamp, not
   even an id comes twice.
   */
  lemma NoIdTwice(o: Order, reqs: seq<Request>, i: nat, j: nat)
    requires ValidRequests(reqs)
    requires var all := Concat(Walk(o, reqs, None).pages); i < j < |all|
    requires forall k, k' | k in Concat(Walk(o, reqs, None).pages) && k' in Concat(Walk(o, reqs, None).pages) ::
      k.id == k'.id ==> k == k'
    ensures var all := Concat(Walk(o, reqs, None).pages); all[i].id != all[j].id
  {
    WalkAscends(o, reqs, None);
    var all := Concat(Walk(o, reqs, None).pages);
    assert Before(o, all[i], all[j]);
    assert all[i] in all && all[j] in all;
  }

  /* ---- a walk over a table that does not change ---- */

  ghost predicate Unchanging(reqs: seq<Request>, rows: set<Key>) {
    forall i :: 0 <= i < |reqs| ==> reqs[i].rows == rows
  }

  /** Over an unchanging table the pages are the sorted rows, cut into pieces. */
  lemma {:induction false} StaticWalk(o: Order, reqs: seq<Request>, rows: set<Key>, cursor: Option<Key>)
    requires ValidRequests(reqs) && Unchanging(reqs, rows)
    requires Walk(o, reqs, cursor).complete
    ensures Concat(Walk(o, reqs, cursor).pages) == Sorted(o, After(o, rows, cursor))
  {
    var t := Walk(o, reqs, cursor);
    var all := Concat(t.pages);
    WalkAscends(o, reqs, cursor);
    forall k ensures k in all <==> k in Sorted(o, After(o, rows, cursor)) {
      if k in After(o, rows, cursor) {
        WalkMissesNothing(o, reqs, cursor, k);
      }
      if k in all {
        var i := PageWith(t.pages, k);
        WalkInventsNothing(o, reqs, cursor, i);
      }
    }
    AscendingUnique(o, all, Sorted(o, After(o, rows, cursor)));
  }

  lemma {:induction false} PageWith(pages: seq<seq<Key>>, k: Key) returns (i: nat)
    requires k in Concat(pages)
    ensures i < |pages| && k in pages[i]
  {
    if k in pages[0] { i := 0; }
    else {
      i := PageWith(pages[1..], k);
      i := i + 1;
    }
  }

  function CeilDiv(n: nat, limit: nat): nat
    requires limit >= 1
  {
    if n == 0 then 0 else if n <= limit then 1 else 1 + CeilDiv(n - limit, limit)
  }

  /** CeilDiv(n, limit) is n / limit rounded up. */
  lemma {:induction false} CeilDivRoundsUp(n: nat, limit: nat)
    requires limit >= 1
    ensures n <= limit * CeilDiv(n, limit)
    ensures n > 0 ==> limit * (CeilDiv(n, limit) - 1) < n
  {
    if n > limit {
      CeilDivRoundsUp(n - limit, limit);
      assert limit * CeilDiv(n, limit) == limit + limit * CeilDiv(n - limit, limit);
      assert limit * (CeilDiv(n, limit) - 1) == limit + limit * (CeilDiv(n - limit, limit) - 1);
    }
  }

  /** max(1, ceil(n / limit)) */
  function PagesFor(n: nat, limit: nat): nat
    requires limit >= 1
  {
    if n == 0 then 1 else CeilDiv(n, limit)
  }

  /** What is left beyond the next cursor shrinks by exactly one full page. */
  lemma Remaining(o: Order, rows: set<Key>, cursor: Option<Key>, limit: nat)
    requires limit >= 1
    ensures var p := PageOf(o, rows, cursor, limit);
      var n := |After(o, rows, cursor)|;
      && (p.next.Some? <==> n > limit)
      && (p.next.Some? ==> |After(o, rows, p.next)| == n - limit)
  {
    var p := PageOf(o, rows, cursor, limit);
    var all := Sorted(o, After(o, rows, cursor));
    assert p.next == if |all| > limit then Some(all[limit - 1]) else None;
    if p.next.Some? {
      RestIsBeyond(o, rows, cursor, limit);
    }
  }

  lemma RestIsBeyond(o: Order, rows: set<Key>, cursor: Option<Key>, limit: nat)
    requires limit >= 1 && |After(o, rows, cursor)| > limit
    ensures var all := Sorted(o, After(o, rows, cursor));
      all[limit..] == Sorted(o, After(o, rows, Some(all[limit - 1])))
  {
    var all := Sorted(o, After(o, rows, cursor));
    var last := all[limit - 1];
    var rest := Sorted(o, After(o, rows, Some(last)));
    assert last in all;
    forall k ensures k in all[limit..] <==> k in rest {
      SuffixMembers(o, all, limit, k);
    }
    AscendingUnique(o, all[limit..], rest);
  }

  /** The walk ends, after exactly max(1, ceil(n / limit)) pages. */
  lemma {:induction false} StaticWalkLength(o: Order, reqs: seq<Request>, rows: set<Key>, cursor: Option<Key>, limit: nat)
    requires limit >= 1 && forall i :: 0 <= i < |reqs| ==> reqs[i] == Request(rows, limit)
    requires |reqs| >= PagesFor(|After(o, rows, cursor)|, limit)
    ensures var t := Walk(o, reqs, cursor);
      t.complete && |t.pages| == PagesFor(|After(o, rows, cursor)|, limit)
  {
    var p := PageOf(o, rows, cursor, limit);
    var n := |After(o, rows, cursor)|;
    assert (p.next.Some? <==> n > limit) && (p.next.Some? ==> |After(o, rows, p.next)| == n - limit) by {
      Remaining(o, rows, cursor, limit);
    }
    PagesStep(n, limit);
    if p.next.Some? {
      StaticWalkLength(o, reqs[1..], rows, p.next, limit);
      assert |Walk(o, reqs, cursor).pages[1..]| == PagesFor(n - limit, limit) && Walk(o, reqs, cursor).complete by {
        WalkUnfolds(o, reqs, cursor);
      }
    }
  }

  lemma PagesStep(n: nat, limit: nat)
    requires limit >= 1
    ensures PagesFor(n, limit) == if n > limit then 1 + PagesFor(n - limit, limit) else 1
  {
  }
}
