/**
 The rate limiter. In a single process each key holds the times of its recent
 hits; with Redis each key holds a counter that expires a fixed time after the
 first hit that created it. Clocks never run backwards.
 */
module RateLimit {
  import opened Wrappers

  /* ---- sliding window: one key ---- */

  /** Hits at or before `t` leave from the left, one at a time. */
  function Since(hits: seq<real>, t: real): seq<real> {
    if hits != [] && hits[0] <= t then Since(hits[1..], t) else hits
  }

  /** One check: what the deque becomes, and whether the call is let through. */
  function Hit(hits: seq<real>, limit: int, window: nat, now: real): (seq<real>, bool) {
    var live := Since(hits, now - window as real);
    if |live| >= limit then (live, false) else (live + [now], true)
  }

  datatype Try = Try(now: real, limit: int)

  datatype Log = Log(hits: seq<real>, accepted: seq<real>)

  /** The deque after a series of calls on one key, and every hit accepted so far. */
  function After(tries: seq<Try>, window: nat): Log {
    if tries == [] then Log([], [])
    else
      var log := After(tries[..|tries| - 1], window);
      var last := tries[|tries| - 1];
      var (hits, ok) := Hit(log.hits, last.limit, window, last.now);
      Log(hits, if ok then log.accepted + [last.now] else log.accepted)
  }

  predicate Ordered(s: seq<real>) { forall i, j :: 0 <= i < j < |s| ==> s[i] <= s[j] }

  predicate UpTo(s: seq<real>, t: real) { forall i :: 0 <= i < |s| ==> s[i] <= t }

  predicate Monotone(tries: seq<Try>) { forall i, j :: 0 <= i < j < |tries| ==> tries[i].now <= tries[j].now }

  /** How many of the times lie in (lo, hi]. */
  function CountIn(s: seq<real>, lo: real, hi: real): nat {
    if s == [] then 0
    else CountIn(s[..|s| - 1], lo, hi) + if lo < s[|s| - 1] <= hi then 1 else 0
  }

  lemma {:induction false} SinceSince(s: seq<real>, t: real, t': real)
    requires t <= t'
    ensures Since(Since(s, t), t') == Since(s, t')
  {
    if s != [] && s[0] <= t { SinceSince(s[1..], t, t'); }
  }

  lemma {:induction false} SinceAppend(s: seq<real>, x: real, t: real)
    requires t < x
    ensures Since(s + [x], t) == Since(s, t) + [x]
  {
    if s != [] && s[0] <= t {
      assert (s + [x])[1..] == s[1..] + [x];
      SinceAppend(s[1..], x, t);
    } else if s == [] {
      assert s + [x] == [x];
    }
  }

  /** In order, what is left is what lies in (t, now]. */
  lemma {:induction false} SinceCount(s: seq<real>, t: real, now: real)
    requires Ordered(s) && UpTo(s, now)
    ensures |Since(s, t)| == CountIn(s, t, now)
    ensures forall x <- Since(s, t) :: t < x
  {
    if s != [] {
      var front, x := s[..|s| - 1], s[|s| - 1];
      assert s == front + [x];
      SinceCount(front, t, now);
      if t < x {
        SinceAppend(front, x, t);
      } else {
        SinceNothing(s, t);
        CountNothing(front, t, now);
      }
    }
  }

  lemma {:induction false} SinceNothing(s: seq<real>, t: real)
    requires UpTo(s, t)
    ensures Since(s, t) == []
  {
    if s != [] { SinceNothing(s[1..], t); }
  }

  lemma {:induction false} CountNothing(s: seq<real>, lo: real, hi: real)
    requires UpTo(s, lo)
    ensures CountIn(s, lo, hi) == 0
  {
    if s != [] { CountNothing(s[..|s| - 1], lo, hi); }
  }

  /** Accepted hits come in order, none later than the last call. */
  lemma {:induction false} AcceptedOrdered(tries: seq<Try>, window: nat, now: real)
    requires Monotone(tries) && forall i :: 0 <= i < |tries| ==> tries[i].now <= now
    ensures Ordered(After(tries, window).accepted) && UpTo(After(tries, window).accepted, now)
  {
    if tries != [] {
      AcceptedOrdered(tries[..|tries| - 1], window, tries[|tries| - 1].now);
    }
  }

  /** The deque is exactly the accepted hits of the last window, in order. */
  lemma {:induction false} DequeExact(tries: seq<Try>, window: nat)
    requires Monotone(tries) && tries != [] && window > 0
    ensures var log := After(tries, window);
      log.hits == Since(log.accepted, tries[|tries| - 1].now - window as real)
  {
    var front, now := tries[..|tries| - 1], tries[|tries| - 1].now;
    var before, cut := After(front, window), now - window as real;
    if front == [] {
      assert before == Log([], []);
    } else {
      DequeExact(front, window);
      SinceSince(before.accepted, front[|front| - 1].now - window as real, cut);
    }
    assert Since(before.hits, cut) == Since(before.accepted, cut);
    SinceAppend(before.accepted, now, cut);
  }

  /** At the next call the deque keeps exactly the accepted hits of (now - window, now]. */
  lemma NextDeque(tries: seq<Try>, window: nat, now: real)
    requires Monotone(tries) && window > 0 && forall i :: 0 <= i < |tries| ==> tries[i].now <= now
    ensures var log := After(tries, window);
      Since(log.hits, now - window as real) == Since(log.accepted, now - window as real)
  {
    if tries != [] {
      DequeExact(tries, window);
      SinceSince(After(tries, window).accepted, tries[|tries| - 1].now - window as real, now - window as real);
    }
  }

  /** A call is let through exactly when fewer than `limit` hits were accepted in (now - window, now]. */
  lemma DecisionExact(tries: seq<Try>, window: nat, next: Try)
    requires Monotone(tries) && window > 0 && forall i :: 0 <= i < |tries| ==> tries[i].now <= next.now
    ensures Hit(After(tries, window).hits, next.limit, window, next.now).1
        <==> CountIn(After(tries, window).accepted, next.now - window as real, next.now) < next.limit
  {
    var log, cut := After(tries, window), next.now - window as real;
    assert |Since(log.accepted, cut)| == CountIn(log.accepted, cut, next.now) by {
      AcceptedOrdered(tries, window, next.now);
      SinceCount(log.accepted, cut, next.now);
    }
    assert Since(log.hits, cut) == Since(log.accepted, cut) by { NextDeque(tries, window, next.now); }
  }

  lemma {:induction false} CountShrinks(s: seq<real>, lo: real, hi: real, lo': real, hi': real)
    requires UpTo(s, hi) && lo <= lo'
    ensures CountIn(s, lo', hi') <= CountIn(s, lo, hi)
  {
    if s != [] { CountShrinks(s[..|s| - 1], lo, hi, lo', hi'); }
  }

  lemma {:induction false} CountAll(s: seq<real>, lo: real, hi: real, hi': real)
    requires UpTo(s, hi) && hi <= hi'
    ensures CountIn(s, lo, hi') == CountIn(s, lo, hi)
  {
    if s != [] { CountAll(s[..|s| - 1], lo, hi, hi'); }
  }

  /** Under one limit, no interval of the window's length, wherever it lies, holds more than `limit` accepted hits. */
  lemma {:induction false} SlidingBound(tries: seq<Try>, window: nat, limit: nat, t: real)
    requires Monotone(tries) && window > 0 && forall i :: 0 <= i < |tries| ==> tries[i].limit == limit
    ensures CountIn(After(tries, window).accepted, t - window as real, t) <= limit
  {
    if tries != [] {
      var front, last := tries[..|tries| - 1], tries[|tries| - 1];
      var before, after, w := After(front, window).accepted, After(tries, window).accepted, window as real;
      SlidingBound(front, window, limit, t);
      DecisionExact(front, window, last);
      if after != before && t - w < last.now <= t {
        assert after[..|after| - 1] == before;
        AcceptedOrdered(front, window, last.now);
        CountShrinks(before, last.now - w, last.now, t - w, t);
      } else if after != before {
        assert after[..|after| - 1] == before;
      }
    }
  }

  /* ---- sliding window: all keys ---- */

  datatype Call = Call(key: string, try: Try)

  /** Each key is always checked with the same window. */
  type Windows = string -> nat

  function Deque(local: map<string, seq<real>>, key: string): seq<real> {
    if key in local then local[key] else []
  }

  function Check(local: map<string, seq<real>>, windows: Windows, call: Call): (map<string, seq<real>>, bool) {
    var (hits, ok) := Hit(Deque(local, call.key), call.try.limit, windows(call.key), call.try.now);
    (local[call.key := hits], ok)
  }

  function RunChecks(windows: Windows, calls: seq<Call>): map<string, seq<real>> {
    if calls == [] then map[]
    else Check(RunChecks(windows, calls[..|calls| - 1]), windows, calls[|calls| - 1]).0
  }

  function TriesOf(calls: seq<Call>, key: string): seq<Try> {
    if calls == [] then []
    else TriesOf(calls[..|calls| - 1], key) + if calls[|calls| - 1].key == key then [calls[|calls| - 1].try] else []
  }

  lemma AfterAppend(tries: seq<Try>, t: Try, window: nat)
    ensures After(tries + [t], window).hits == Hit(After(tries, window).hits, t.limit, window, t.now).0
  {
    assert (tries + [t])[..|tries|] == tries;
  }

  /** Keys do not disturb each other: a key's deque is what its own calls alone make of it. */
  lemma {:induction false} KeysIndependent(windows: Windows, calls: seq<Call>, key: string)
    ensures Deque(RunChecks(windows, calls), key) == After(TriesOf(calls, key), windows(key)).hits
  {
    if calls != [] {
      var front, last := calls[..|calls| - 1], calls[|calls| - 1];
      KeysIndependent(windows, front, key);
      if last.key == key {
        AfterAppend(TriesOf(front, key), last.try, windows(key));
      } else {
        assert TriesOf(calls, key) == TriesOf(front, key);
      }
    }
  }

  /* ---- fixed window in Redis: one key ---- */

  datatype Slot = Slot(count: nat, expires: real)

  predicate Live(slot: Option<Slot>, now: real) { slot.Some? && slot.value.expires > now }

  /** INCR, with EXPIRE when the count comes back as one, as one step. */
  function Increment(slot: Option<Slot>, window: nat, now: real): Slot {
    var hits := if Live(slot, now) then slot.value.count + 1 else 1;
    Slot(hits, if hits == 1 then now + window as real else slot.value.expires)
  }

  /** An accepted request, and the number of the window it fell in. */
  datatype Stamp = Stamp(at: real, window: nat)

  /** The slot, the start of every window so far, and every accepted request. */
  datatype Fixed = Fixed(slot: Option<Slot>, starts: seq<real>, accepted: seq<Stamp>)

  function FixedStep(f: Fixed, limit: nat, window: nat, now: real): Fixed {
    var slot := Increment(f.slot, window, now);
    var starts := if Live(f.slot, now) then f.starts else f.starts + [now];
    Fixed(Some(slot), starts, if slot.count <= limit && starts != [] then f.accepted + [Stamp(now, |starts| - 1)] else f.accepted)
  }

  function AfterFixed(times: seq<real>, limit: nat, window: nat): Fixed {
    if times == [] then Fixed(None, [], [])
    else FixedStep(AfterFixed(times[..|times| - 1], limit, window), limit, window, times[|times| - 1])
  }

  function CountLabel(s: seq<Stamp>, w: nat): nat {
    if s == [] then 0 else CountLabel(s[..|s| - 1], w) + if s[|s| - 1].window == w then 1 else 0
  }

  predicate Within(s: Stamp, t: real, length: nat) { t <= s.at < t + length as real }

  /** How many of the stamps lie in [t, t + length). */
  function CountFrom(s: seq<Stamp>, t: real, length: nat): nat {
    if s == [] then 0 else CountFrom(s[..|s| - 1], t, length) + if Within(s[|s| - 1], t, length) then 1 else 0
  }

  /** Windows do not overlap. */
  ghost predicate Spaced(starts: seq<real>, window: nat) {
    forall i, j :: 0 <= i < j < |starts| ==> starts[i] + window as real <= starts[j]
  }

  predicate StampOk(starts: seq<real>, window: nat, s: Stamp) {
    s.window < |starts| && starts[s.window] <= s.at < starts[s.window] + window as real
  }

  ghost predicate StampsOk(starts: seq<real>, window: nat, accepted: seq<Stamp>) {
    forall i :: 0 <= i < |accepted| ==> StampOk(starts, window, accepted[i])
  }

  /** The slot is the last window, still counting at least what it accepted. */
  predicate SlotOk(f: Fixed, window: nat, now: real) {
    match f.slot
    case None => f.starts == [] && f.accepted == []
    case Some(slot) =>
      && slot.count >= 1 && f.starts != [] && f.starts[|f.starts| - 1] <= now
      && slot.expires == f.starts[|f.starts| - 1] + window as real
      && CountLabel(f.accepted, |f.starts| - 1) <= slot.count
  }

  ghost predicate FixedInv(f: Fixed, limit: nat, window: nat, now: real) {
    && SlotOk(f, window, now)
    && Spaced(f.starts, window)
    && StampsOk(f.starts, window, f.accepted)
    && (forall w: nat :: CountLabel(f.accepted, w) <= limit)
  }

  lemma {:induction false} CountUnused(s: seq<Stamp>, starts: seq<real>, window: nat, w: nat)
    requires StampsOk(starts, window, s) && w >= |starts|
    ensures CountLabel(s, w) == 0
  {
    if s != [] {
      assert StampOk(starts, window, s[|s| - 1]);
      CountUnused(s[..|s| - 1], starts, window, w);
    }
  }

  lemma CountOneMore(s: seq<Stamp>, x: Stamp, w: nat)
    ensures CountLabel(s + [x], w) == CountLabel(s, w) + if x.window == w then 1 else 0
  {
    assert (s + [x])[..|s|] == s;
  }

  lemma SpacedAppend(starts: seq<real>, window: nat, now: real)
    requires Spaced(starts, window) && (starts != [] ==> starts[|starts| - 1] + window as real <= now)
    ensures Spaced(starts + [now], window)
  {
    forall i, j | 0 <= i < j < |starts| + 1
      ensures (starts + [now])[i] + window as real <= (starts + [now])[j]
    {
      if j == |starts| && i < |starts| - 1 { assert starts[i] + window as real <= starts[|starts| - 1]; }
    }
  }

  /** A longer list of windows keeps old stamps in place. */
  lemma StampsStay(starts: seq<real>, window: nat, accepted: seq<Stamp>, now: real)
    requires StampsOk(starts, window, accepted)
    ensures StampsOk(starts + [now], window, accepted)
  {
    forall i | 0 <= i < |accepted| ensures StampOk(starts + [now], window, accepted[i]) {
      assert StampOk(starts, window, accepted[i]);
      assert (starts + [now])[accepted[i].window] == starts[accepted[i].window];
    }
  }

  /** The windows of the next state fit the slot and the accepted stamps of this one. */
  lemma WindowsStep(f: Fixed, limit: nat, window: nat, before: real, now: real)
    requires FixedInv(f, limit, window, before) && before <= now && window > 0
    ensures var next := FixedStep(f, limit, window, now);
      && next.starts != [] && StampOk(next.starts, window, Stamp(now, |next.starts| - 1))
      && Spaced(next.starts, window) && StampsOk(next.starts, window, f.accepted)
      && next.slot.value.expires == next.starts[|next.starts| - 1] + window as real
      && CountLabel(f.accepted, |next.starts| - 1) < next.slot.value.count
  {
    if !Live(f.slot, now) {
      SpacedAppend(f.starts, window, now);
      StampsStay(f.starts, window, f.accepted, now);
      CountUnused(f.accepted, f.starts, window, |f.starts|);
    }
  }

  /** The accepted stamps after a request `x` that raised the counter to `count`. */
  function Grown(accepted: seq<Stamp>, x: Stamp, count: nat, limit: nat): seq<Stamp> {
    if count <= limit then accepted + [x] else accepted
  }

  lemma GrownStamps(starts: seq<real>, window: nat, accepted: seq<Stamp>, x: Stamp, count: nat, limit: nat)
    requires StampsOk(starts, window, accepted) && StampOk(starts, window, x)
    ensures StampsOk(starts, window, Grown(accepted, x, count, limit))
  {
  }

  lemma GrownLabels(accepted: seq<Stamp>, x: Stamp, count: nat, limit: nat)
    requires forall v: nat :: CountLabel(accepted, v) <= limit
    requires CountLabel(accepted, x.window) < count
    ensures forall v: nat :: CountLabel(Grown(accepted, x, count, limit), v) <= limit
    ensures CountLabel(Grown(accepted, x, count, limit), x.window) <= count
  {
    forall v: nat ensures CountLabel(Grown(accepted, x, count, limit), v) <= if v == x.window && count < limit then count else limit {
      CountOneMore(accepted, x, v);
    }
  }

  lemma FixedKeepsInv(f: Fixed, limit: nat, window: nat, before: real, now: real)
    requires FixedInv(f, limit, window, before) && before <= now && window > 0
    ensures FixedInv(FixedStep(f, limit, window, now), limit, window, now)
  {
    WindowsStep(f, limit, window, before, now);
    var next := FixedStep(f, limit, window, now);
    var x, count := Stamp(now, |next.starts| - 1), next.slot.value.count;
    assert next.accepted == Grown(f.accepted, x, count, limit);
    assert StampsOk(next.starts, window, next.accepted) by { GrownStamps(next.starts, window, f.accepted, x, count, limit); }
    GrownLabels(f.accepted, x, count, limit);
  }

  lemma {:induction false} FixedRunKeepsInv(times: seq<real>, limit: nat, window: nat, now: real)
    requires Ordered(times) && window > 0 && UpTo(times, now)
    ensures FixedInv(AfterFixed(times, limit, window), limit, window, now)
  {
    if times != [] {
      var front, last := times[..|times| - 1], times[|times| - 1];
      FixedRunKeepsInv(front, limit, window, last);
      FixedKeepsInv(AfterFixed(front, limit, window), limit, window, last, last);
    }
  }

  /** The request that opens a window is itself accepted. */
  lemma {:induction false} OpeningAccepted(times: seq<real>, limit: nat, window: nat, w: nat)
    requires limit > 0 && w < |AfterFixed(times, limit, window).starts|
    ensures Stamp(AfterFixed(times, limit, window).starts[w], w) in AfterFixed(times, limit, window).accepted
  {
    var front := times[..|times| - 1];
    if w < |AfterFixed(front, limit, window).starts| { OpeningAccepted(front, limit, window, w); }
  }

  /** The first index whose start lies after `t`. */
  function FirstAfter(starts: seq<real>, t: real): (k: nat)
    ensures k <= |starts| && (k < |starts| ==> starts[k] > t)
    ensures forall i :: 0 <= i < k ==> starts[i] <= t
  {
    if starts == [] || starts[0] > t then 0 else 1 + FirstAfter(starts[1..], t)
  }

  /** How many stamps of window `w` lie in [t, t + length). */
  function CountBoth(s: seq<Stamp>, t: real, length: nat, w: nat): nat {
    if s == [] then 0
    else
      var here := if Within(s[|s| - 1], t, length) && s[|s| - 1].window == w then 1 else 0;
      CountBoth(s[..|s| - 1], t, length, w) + here
  }

  lemma {:induction false} TwoWindows(s: seq<Stamp>, t: real, length: nat, k: nat)
    requires forall i :: 0 <= i < |s| && Within(s[i], t, length) ==> s[i].window == k || s[i].window == k + 1
    ensures CountFrom(s, t, length) == CountBoth(s, t, length, k) + CountBoth(s, t, length, k + 1)
  {
    if s != [] { TwoWindows(s[..|s| - 1], t, length, k); }
  }

  lemma {:induction false} BothAtMost(s: seq<Stamp>, t: real, length: nat, w: nat)
    ensures CountBoth(s, t, length, w) <= CountLabel(s, w)
  {
    if s != [] { BothAtMost(s[..|s| - 1], t, length, w); }
  }

  lemma {:induction false} BothLess(s: seq<Stamp>, t: real, length: nat, x: Stamp)
    requires x in s && !Within(x, t, length)
    ensures CountBoth(s, t, length, x.window) < CountLabel(s, x.window)
  {
    var front := s[..|s| - 1];
    if s[|s| - 1] == x { BothAtMost(front, t, length, x.window); }
    else {
      assert s == front + [s[|s| - 1]];
      BothLess(front, t, length, x);
    }
  }

  lemma {:induction false} BothNone(s: seq<Stamp>, t: real, length: nat, w: nat)
    requires forall i :: 0 <= i < |s| && Within(s[i], t, length) ==> s[i].window != w
    ensures CountBoth(s, t, length, w) == 0
  {
    if s != [] { BothNone(s[..|s| - 1], t, length, w); }
  }

  lemma SpacedTwice(starts: seq<real>, window: nat, k: nat)
    requires Spaced(starts, window)
    ensures forall w :: k + 1 < w < |starts| ==> starts[k] + 2.0 * window as real <= starts[w]
  {
    forall w | k + 1 < w < |starts| ensures starts[k] + 2.0 * window as real <= starts[w] {
      assert starts[k] + window as real <= starts[k + 1] && starts[k + 1] + window as real <= starts[w];
    }
  }

  /** An interval as long as a window meets only the first window that reaches it and the next. */
  lemma LabelsNear(starts: seq<real>, window: nat, s: Stamp, t: real)
    requires Spaced(starts, window) && StampOk(starts, window, s) && Within(s, t, window)
    ensures var k := FirstAfter(starts, t - window as real);
      && (s.window == k || s.window == k + 1)
      && (s.window == k + 1 ==> starts[k] < t)
  {
    var k := FirstAfter(starts, t - window as real);
    assert s.window >= k;
    if s.window > k { assert starts[k] + window as real <= starts[s.window]; }
    SpacedTwice(starts, window, k);
  }

  lemma AllLabelsNear(f: Fixed, window: nat, t: real)
    requires Spaced(f.starts, window) && StampsOk(f.starts, window, f.accepted)
    ensures var k := FirstAfter(f.starts, t - window as real);
      forall i :: 0 <= i < |f.accepted| && Within(f.accepted[i], t, window) ==>
        f.accepted[i].window == k || (f.accepted[i].window == k + 1 && k < |f.starts| && f.starts[k] < t)
  {
    var k := FirstAfter(f.starts, t - window as real);
    forall i | 0 <= i < |f.accepted| && Within(f.accepted[i], t, window)
      ensures f.accepted[i].window == k || (f.accepted[i].window == k + 1 && k < |f.starts| && f.starts[k] < t)
    {
      assert StampOk(f.starts, window, f.accepted[i]);
      LabelsNear(f.starts, window, f.accepted[i], t);
    }
  }

  /** No half-open interval as long as the window holds more than 2 * limit - 1 accepted requests. */
  lemma FixedBound(times: seq<real>, limit: nat, window: nat, t: real)
    requires Ordered(times) && window > 0 && limit > 0
    ensures CountFrom(AfterFixed(times, limit, window).accepted, t, window) <= 2 * limit - 1
  {
    var f, k := AfterFixed(times, limit, window), FirstAfter(AfterFixed(times, limit, window).starts, t - window as real);
    FixedRunKeepsInv(times, limit, window, if times == [] then t else times[|times| - 1]);
    AllLabelsNear(f, window, t);
    TwoWindows(f.accepted, t, window, k);
    BothAtMost(f.accepted, t, window, k);
    BothAtMost(f.accepted, t, window, k + 1);
    if k < |f.starts| && f.starts[k] < t {
      OpeningAccepted(times, limit, window, k);
      BothLess(f.accepted, t, window, Stamp(f.starts[k], k));
    } else {
      BothNone(f.accepted, t, window, k + 1);
    }
  }

  /** With a limit of zero nothing is let through. */
  lemma {:induction false} ZeroAcceptsNothing(times: seq<real>, window: nat)
    ensures AfterFixed(times, 0, window).accepted == []
  {
    if times != [] { ZeroAcceptsNothing(times[..|times| - 1], window); }
  }

  /* The bound is met: one request opens a window, limit - 1 come at its end, limit more right after it. */

  function BurstAt(limit: nat, window: nat, n: nat): real {
    if n == 0 then 0.0 else if n < limit then window as real / 2.0 else window as real
  }

  function Burst(limit: nat, window: nat, n: nat): seq<real> {
    if n == 0 then [] else Burst(limit, window, n - 1) + [BurstAt(limit, window, n - 1)]
  }

  lemma {:induction false} BurstSorted(limit: nat, window: nat, n: nat)
    requires limit > 0 && window > 0
    ensures |Burst(limit, window, n)| == n && Ordered(Burst(limit, window, n)) && UpTo(Burst(limit, window, n), window as real)
    ensures n <= limit ==> UpTo(Burst(limit, window, n), window as real / 2.0)
    ensures n <= 1 ==> UpTo(Burst(limit, window, n), 0.0)
  {
    if n > 0 { BurstSorted(limit, window, n - 1); }
  }

  lemma CountFromOneMore(s: seq<Stamp>, x: Stamp, t: real, length: nat)
    ensures CountFrom(s + [x], t, length) == CountFrom(s, t, length) + if Within(x, t, length) then 1 else 0
  {
    assert (s + [x])[..|s|] == s;
  }

  /** The slot after `n` requests of the burst. */
  function BurstSlot(limit: nat, window: nat, n: nat): Option<Slot> {
    if n == 0 then None
    else if n <= limit then Some(Slot(n, window as real))
    else Some(Slot(n - limit, window as real + window as real))
  }

  predicate BurstState(f: Fixed, limit: nat, window: nat, n: nat) {
    && f.slot == BurstSlot(limit, window, n)
    && (n > 0 ==> f.starts != [])
    && CountFrom(f.accepted, window as real / 2.0, window) == if n == 0 then 0 else n - 1
  }

  lemma BurstBegins(limit: nat, window: nat, n: nat)
    requires Live(BurstSlot(limit, window, n), BurstAt(limit, window, n))
    ensures n > 0
  {
  }

  /** The three kinds of request: the first of a window, one more in the first, one more in the second. */
  lemma BurstSlotStep(limit: nat, window: nat, n: nat)
    requires limit > 0 && window > 0 && n < 2 * limit
    ensures Some(Increment(BurstSlot(limit, window, n), window, BurstAt(limit, window, n))) == BurstSlot(limit, window, n + 1)
    ensures BurstSlot(limit, window, n + 1).value.count <= limit
  {
    var w := window as real;
    if n == 0 {
      assert !Live(BurstSlot(limit, window, n), 0.0);
    } else if n < limit {
      assert w / 2.0 < w && Live(BurstSlot(limit, window, n), w / 2.0);
    } else if n == limit {
      assert !Live(BurstSlot(limit, window, n), w);
    } else {
      assert w < w + w && Live(BurstSlot(limit, window, n), w);
    }
  }

  lemma BurstWithin(limit: nat, window: nat, n: nat, k: nat)
    requires limit > 0 && window > 0
    ensures Within(Stamp(BurstAt(limit, window, n), k), window as real / 2.0, window) <==> n > 0
  {
  }

  lemma BurstStep(f: Fixed, limit: nat, window: nat, n: nat)
    requires limit > 0 && window > 0 && n < 2 * limit && BurstState(f, limit, window, n)
    ensures BurstState(FixedStep(f, limit, window, BurstAt(limit, window, n)), limit, window, n + 1)
  {
    var now, half := BurstAt(limit, window, n), window as real / 2.0;
    var next := FixedStep(f, limit, window, now);
    BurstSlotStep(limit, window, n);
    assert next.starts != [] by { if Live(f.slot, now) { BurstBegins(limit, window, n); } }
    var x := Stamp(now, |next.starts| - 1);
    assert next.accepted == f.accepted + [x];
    CountFromOneMore(f.accepted, x, half, window);
    BurstWithin(limit, window, n, x.window);
  }

  lemma AfterFixedAppend(times: seq<real>, now: real, limit: nat, window: nat)
    ensures AfterFixed(times + [now], limit, window) == FixedStep(AfterFixed(times, limit, window), limit, window, now)
  {
    assert (times + [now])[..|times|] == times;
  }

  lemma {:induction false} BurstAccepted(limit: nat, window: nat, n: nat)
    requires limit > 0 && window > 0 && n <= 2 * limit
    ensures BurstState(AfterFixed(Burst(limit, window, n), limit, window), limit, window, n)
  {
    if n > 0 {
      var times, now := Burst(limit, window, n - 1), BurstAt(limit, window, n - 1);
      BurstAccepted(limit, window, n - 1);
      BurstStep(AfterFixed(times, limit, window), limit, window, n - 1);
      assert AfterFixed(Burst(limit, window, n), limit, window) == FixedStep(AfterFixed(times, limit, window), limit, window, now) by {
        AfterFixedAppend(times, now, limit, window);
      }
    }
  }

  /** So 2 * limit - 1 is the exact bound: some orderly run reaches it. */
  lemma FixedBoundMet(limit: nat, window: nat)
    requires limit > 0 && window > 0
    ensures var times := Burst(limit, window, 2 * limit);
      && Ordered(times)
      && CountFrom(AfterFixed(times, limit, window).accepted, window as real / 2.0, window) == 2 * limit - 1
  {
    BurstSorted(limit, window, 2 * limit);
    BurstAccepted(limit, window, 2 * limit);
  }

  /* ---- fixed window: all keys ---- */

  function SlotOf(redis: map<string, Slot>, key: string): Option<Slot> {
    if key in redis then Some(redis[key]) else None
  }

  function Bump(redis: map<string, Slot>, windows: Windows, call: Call): map<string, Slot> {
    redis[call.key := Increment(SlotOf(redis, call.key), windows(call.key), call.try.now)]
  }

  function RunBumps(windows: Windows, calls: seq<Call>): map<string, Slot> {
    if calls == [] then map[]
    else Bump(RunBumps(windows, calls[..|calls| - 1]), windows, calls[|calls| - 1])
  }

  function TimesOf(calls: seq<Call>, key: string): seq<real> {
    if calls == [] then []
    else TimesOf(calls[..|calls| - 1], key) + if calls[|calls| - 1].key == key then [calls[|calls| - 1].try.now] else []
  }

  /** A key's counter is what its own requests alone make of it. */
  lemma {:induction false} CountersIndependent(windows: Windows, calls: seq<Call>, key: string, limit: nat)
    ensures SlotOf(RunBumps(windows, calls), key) == AfterFixed(TimesOf(calls, key), limit, windows(key)).slot
  {
    if calls != [] {
      var front, last := calls[..|calls| - 1], calls[|calls| - 1];
      CountersIndependent(windows, front, key, limit);
      if last.key == key {
        AfterFixedAppend(TimesOf(front, key), last.try.now, limit, windows(key));
      } else {
        assert TimesOf(calls, key) == TimesOf(front, key);
      }
    }
  }

  /* ---- the limiter ---- */

  datatype Outcome = Allowed | RateLimited | Unavailable

  class RateLimiter {
    var local: map<string, seq<real>>
    var redis: map<string, Slot>

    constructor ()
      ensures local == map[] && redis == map[]
    {
      local, redis := map[], map[];
    }

    /** One process: old hits leave the deque from the left, then this one is refused or joins on the right. */
    method CheckLocal(key: string, limit: int, window: nat, now: real) returns (r: Outcome)
      modifies this`local
      ensures r == if Hit(Deque(old(local), key), limit, window, now).1 then Allowed else RateLimited
      ensures local == old(local)[key := Hit(Deque(old(local), key), limit, window, now).0]
    {
      var hits := if key in local then local[key] else [];
      while hits != [] && hits[0] <= now - window as real
        invariant Since(hits, now - window as real) == Since(Deque(old(local), key), now - window as real)
        decreases |hits|
      {
        hits := hits[1..];
      }
      if |hits| >= limit {
        r := RateLimited;
      } else {
        hits, r := hits + [now], Allowed;
      }
      local := local[key := hits];
    }

    /** Many processes: the counter grows even when the request is refused; without Redis nothing is let through. */
    method CheckRedis(key: string, limit: int, window: nat, now: real, up: bool) returns (r: Outcome)
      modifies this`redis
      ensures !up ==> r == Unavailable && redis == old(redis)
      ensures up ==> redis == old(redis)[key := Increment(SlotOf(old(redis), key), window, now)]
      ensures up ==> r == if redis[key].count <= limit then Allowed else RateLimited
    {
      if !up { return Unavailable; }
      var live := key in redis && redis[key].expires > now;
      var hits := if live then redis[key].count + 1 else 1;
      redis := redis[key := Slot(hits, if hits == 1 then now + window as real else redis[key].expires)];
      r := if hits > limit then RateLimited else Allowed;
    }
  }
}
