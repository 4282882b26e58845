/** The fixed-window rate limiter: a counter key that expires, incremented by one atomic script. The
    clock counts milliseconds, as key expiry does; the store reports the time left rounded to seconds. */
module RateLimiter {
  import opened Common

  /** A counter key: its value and the instant from which it no longer exists. */
  datatype Window = Window(count: nat, expiresAt: int)

  datatype Decision = Decision(allowed: bool, limit: nat, remaining: nat, retryAfter: int, degraded: bool)

  /** How the call to the store goes: well, lost before the script ran, or its reply lost afterwards. */
  datatype Fault = Fine | LostRequest | LostReply

  predicate Live(w: Option<Window>, now: int) {
    w.Some? && now < w.value.expiresAt
  }

  const MILLIS: nat := 1000

  /** The script: increment, and give a key that is new its expiry, `window` milliseconds ahead. */
  function Script(w: Option<Window>, now: int, window: nat): Window {
    if Live(w, now) then w.value.(count := w.value.count + 1) else Window(1, now + window)
  }

  /** The store's answer to TTL, to the nearest second, and never less than one. */
  function WaitSeconds(remaining: int): int {
    Max(1, (remaining + MILLIS / 2) / MILLIS)
  }

  function Verdict(after: Window, now: int, limit: nat): Decision {
    Decision(after.count <= limit, limit, Max(0, limit - after.count), WaitSeconds(after.expiresAt - now), false)
  }

  function Degraded(limit: nat): Decision {
    Decision(true, limit, limit, 0, true)
  }

  /** What the store's numbers mean to the caller: the request is let through up to the limit, what remains is
      what the limit still has room for, and the wait is the time left to the nearest second, one at least. A
      limiter that cannot tell lets everything through and says so. */
  lemma DecisionsByValue(after: Window, now: int, limit: nat)
    ensures var d, left := Verdict(after, now, limit), after.expiresAt - now;
            && d.limit == limit && !d.degraded
            && (d.allowed <==> after.count <= limit)
            && (d.allowed ==> d.remaining == limit - after.count) && (!d.allowed ==> d.remaining == 0)
            && d.retryAfter >= 1
            && (d.retryAfter > 1 ==> left - 500 < d.retryAfter * 1000 <= left + 500)
            && (d.retryAfter == 1 ==> left < 1500)
    ensures var d := Degraded(limit);
            d.degraded && d.allowed && d.limit == limit && d.remaining == limit && d.retryAfter == 0
  {
    var q, r := (after.expiresAt - now + MILLIS / 2) / MILLIS, (after.expiresAt - now + MILLIS / 2) % MILLIS;
    assert after.expiresAt - now + MILLIS / 2 == q * MILLIS + r;
  }

  /** Counters by key, and the two metrics the limiter maintains. */
  class RedisCache {
    var counters: map<string, Window>
    var failures: nat
    var rateLimited: nat

    constructor ()
      ensures counters == map[] && failures == 0 && rateLimited == 0
    {
      counters, failures, rateLimited := map[], 0, 0;
    }

    function Find(key: string): Option<Window>
      reads this
    {
      if key in counters then Some(counters[key]) else None
    }

    method RateLimit(key: string, limit: nat, windowSeconds: nat, now: int, fault: Fault) returns (d: Decision)
      modifies this
      ensures fault == LostRequest ==> counters == old(counters)
      ensures fault != LostRequest ==>
                counters == old(counters)[key := Script(old(Find(key)), now, windowSeconds * MILLIS)]
      ensures fault != Fine ==> d == Degraded(limit) && failures == old(failures) + 1 && rateLimited == old(rateLimited)
      ensures fault == Fine ==>
                && d == Verdict(Script(old(Find(key)), now, windowSeconds * MILLIS), now, limit)
                && failures == old(failures)
                && rateLimited == old(rateLimited) + (if d.allowed then 0 else 1)
      ensures fault != LostRequest ==>
                var live := key in old(counters) && now < old(counters)[key].expiresAt;
                && key in counters
                && counters[key].count == 1 + (if live then old(counters)[key].count else 0)
                && counters[key].expiresAt == (if live then old(counters)[key].expiresAt
                                               else now + windowSeconds * 1000)
      ensures fault == Fine ==> (d.allowed <==> counters[key].count <= limit)
    {
      if fault == LostRequest {
        failures := failures + 1;
        return Decision(true, limit, limit, 0, true);
      }
      var current, expiresAt := 1, now + windowSeconds * MILLIS;
      if key in counters && now < counters[key].expiresAt {
        current, expiresAt := counters[key].count + 1, counters[key].expiresAt;
      }
      counters := counters[key := Window(current, expiresAt)];
      if fault == LostReply {
        failures := failures + 1;
        return Decision(true, limit, limit, 0, true);
      }
      var ttl := Max(1, (expiresAt - now + MILLIS / 2) / MILLIS);
      if current > limit {
        rateLimited := rateLimited + 1;
      }
      d := Decision(current <= limit, limit, Max(0, limit - current), ttl, false);
    }
  }

  // ---- request traces on one key ---------------------------------------------------------------

  datatype Request = Request(at: int, fault: Fault)

  /** A request the limiter itself let through: when, in which window, and whether it opened it. */
  datatype Admission = Admission(at: int, window: int, opener: bool)

  /** The key, and as history the starts of all windows and all admissions. */
  datatype Trail = Trail(key: Option<Window>, starts: seq<int>, admitted: seq<Admission>)

  const START := Trail(None, [], [])

  function Serve(t: Trail, r: Request, limit: nat, window: nat): Trail {
    if r.fault == LostRequest then t
    else
      var after := Script(t.key, r.at, window);
      var opens := !Live(t.key, r.at) || t.starts == [];
      var starts := if opens then t.starts + [r.at] else t.starts;
      var admits := r.fault == Fine && Verdict(after, r.at, limit).allowed;
      Trail(Some(after), starts,
            if admits then t.admitted + [Admission(r.at, |starts| - 1, opens)] else t.admitted)
  }

  function ServeAll(t: Trail, rs: seq<Request>, limit: nat, window: nat): Trail
    decreases |rs|
  {
    if rs == [] then t else ServeAll(Serve(t, rs[0], limit, window), rs[1..], limit, window)
  }

  predicate InTimeOrder(from: int, rs: seq<Request>) {
    && (forall i :: 0 <= i < |rs| ==> from <= rs[i].at)
    && (forall i, j :: 0 <= i < j < |rs| ==> rs[i].at <= rs[j].at)
  }

  /** Admissions of window `w`; with `later`, only those that did not open it. */
  function InWindow(admitted: seq<Admission>, w: int, later: bool): nat {
    if admitted == [] then 0 else
    var last := admitted[|admitted| - 1];
    InWindow(admitted[..|admitted| - 1], w, later) + if last.window == w && !(later && last.opener) then 1 else 0
  }

  /** Admissions with `from <= at < to`. */
  function InSpan(admitted: seq<Admission>, from: int, to: int): nat {
    if admitted == [] then 0 else
    var last := admitted[|admitted| - 1];
    InSpan(admitted[..|admitted| - 1], from, to) + if from <= last.at < to then 1 else 0
  }

  /** An admission lies in its window, an opener at its start. */
  predicate Fits(starts: seq<int>, window: nat, a: Admission) {
    && 0 <= a.window < |starts|
    && starts[a.window] <= a.at < starts[a.window] + window
    && (a.opener ==> a.at == starts[a.window])
  }

  predicate Apart(starts: seq<int>, window: nat) {
    forall i, j :: 0 <= i < j < |starts| ==> starts[i] + window <= starts[j]
  }

  ghost predicate WindowsMatch(t: Trail, window: nat) {
    && Apart(t.starts, window)
    && (t.key.Some? <==> t.starts != [])
    && (t.key.Some? ==> t.key.value.expiresAt == t.starts[|t.starts| - 1] + window && t.key.value.count >= 1)
    && (forall i :: 0 <= i < |t.admitted| ==> Fits(t.starts, window, t.admitted[i]))
  }

  ghost predicate CountsMatch(t: Trail, limit: nat) {
    && (forall w, later: bool :: InWindow(t.admitted, w, later) <= if later then Max(0, limit - 1) else limit)
    && (forall w, later: bool :: w >= |t.starts| ==> InWindow(t.admitted, w, later) == 0)
    && (t.key.Some? ==>
          && InWindow(t.admitted, |t.starts| - 1, false) <= t.key.value.count
          && InWindow(t.admitted, |t.starts| - 1, true) <= t.key.value.count - 1)
  }

  lemma {:induction false} ServeKeepsWindows(t: Trail, r: Request, limit: nat, window: nat)
    requires WindowsMatch(t, window) && window >= 1
    requires t.starts != [] ==> t.starts[|t.starts| - 1] <= r.at
    ensures WindowsMatch(Serve(t, r, limit, window), window)
    ensures var u := Serve(t, r, limit, window); u.starts != [] ==> u.starts[|u.starts| - 1] <= r.at
  {
    var u := Serve(t, r, limit, window);
    forall i | 0 <= i < |u.admitted| ensures Fits(u.starts, window, u.admitted[i]) {
      if i < |t.admitted| {
        assert Fits(t.starts, window, t.admitted[i]);
      }
    }
  }

  lemma {:induction false} ServeKeepsCounts(t: Trail, r: Request, limit: nat, window: nat)
    requires WindowsMatch(t, window) && CountsMatch(t, limit)
    ensures CountsMatch(Serve(t, r, limit, window), limit)
  {
    var u := Serve(t, r, limit, window);
    if u.admitted != t.admitted {
      assert u.admitted[..|u.admitted| - 1] == t.admitted;
    }
  }

  lemma {:induction false} ServeAllKeeps(t: Trail, rs: seq<Request>, limit: nat, window: nat, from: int)
    requires WindowsMatch(t, window) && CountsMatch(t, limit) && window >= 1
    requires InTimeOrder(from, rs) && (t.starts != [] ==> t.starts[|t.starts| - 1] <= from)
    ensures WindowsMatch(ServeAll(t, rs, limit, window), window)
    ensures CountsMatch(ServeAll(t, rs, limit, window), limit)
    decreases |rs|
  {
    if rs != [] {
      ServeKeepsWindows(t, rs[0], limit, window);
      ServeKeepsCounts(t, rs[0], limit, window);
      ServeAllKeeps(Serve(t, rs[0], limit, window), rs[1..], limit, window, rs[0].at);
    }
  }

  /** If all admissions of a span fall into window `w` or, other than its opener, window `w - 1`. */
  lemma {:induction false} SpanInTwoWindows(admitted: seq<Admission>, from: int, to: int, w: int)
    requires forall i :: 0 <= i < |admitted| && Spanned(admitted[i], from, to) ==>
                           admitted[i].window == w || (admitted[i].window == w - 1 && !admitted[i].opener)
    ensures InSpan(admitted, from, to) <= InWindow(admitted, w, false) + InWindow(admitted, w - 1, true)
  {
    if admitted != [] {
      var most := admitted[..|admitted| - 1];
      assert forall i :: 0 <= i < |most| ==> most[i] == admitted[i];
      SpanInTwoWindows(most, from, to, w);
    }
  }

  lemma {:induction false} SpanInOneWindow(admitted: seq<Admission>, from: int, to: int, w: int)
    requires forall i :: 0 <= i < |admitted| && Spanned(admitted[i], from, to) ==> admitted[i].window == w
    ensures InSpan(admitted, from, to) <= InWindow(admitted, w, false)
  {
    if admitted != [] {
      var most := admitted[..|admitted| - 1];
      assert forall i :: 0 <= i < |most| ==> most[i] == admitted[i];
      SpanInOneWindow(most, from, to, w);
    }
  }

  lemma TwoApart(starts: seq<int>, window: nat, i: int, j: int)
    requires Apart(starts, window) && 0 <= i && i + 1 < j < |starts|
    ensures starts[i] + 2 * window <= starts[j]
  {
    assert starts[i] + window <= starts[i + 1];
  }

  /** Two admissions of one span are of the same window or of neighbouring ones; and if one window opens
      within the span, the other's opener lies before the span. */
  lemma SpanMeetsTwoWindows(starts: seq<int>, window: nat, from: int, a: Admission, b: Admission)
    requires Apart(starts, window) && Fits(starts, window, a) && Fits(starts, window, b)
    requires from <= a.at < from + window && from <= b.at < from + window
    ensures a.window - 1 <= b.window <= a.window + 1
    ensures starts[a.window] >= from ==> b.window == a.window || (b.window == a.window - 1 && !b.opener)
    ensures starts[a.window] < from && starts[b.window] < from ==> a.window == b.window
  {
    if a.window + 1 < b.window {
      TwoApart(starts, window, a.window, b.window);
    } else if b.window + 1 < a.window {
      TwoApart(starts, window, b.window, a.window);
    }
  }

  predicate Spanned(a: Admission, from: int, to: int) {
    from <= a.at < to
  }

  lemma {:induction false} SpanBound(t: Trail, limit: nat, window: nat, from: int)
    requires WindowsMatch(t, window) && CountsMatch(t, limit) && limit >= 1
    ensures InSpan(t.admitted, from, from + window) <= 2 * limit - 1
  {
    var to, all := from + window, t.admitted;
    assert forall i :: 0 <= i < |all| ==> Fits(t.starts, window, all[i]);
    if i :| 0 <= i < |all| && Spanned(all[i], from, to) && t.starts[all[i].window] >= from {
      forall j | 0 <= j < |all| && Spanned(all[j], from, to)
        ensures all[j].window == all[i].window || (all[j].window == all[i].window - 1 && !all[j].opener)
      {
        SpanMeetsTwoWindows(t.starts, window, from, all[i], all[j]);
      }
      SpanInTwoWindows(all, from, to, all[i].window);
    } else if i :| 0 <= i < |all| && Spanned(all[i], from, to) {
      forall j | 0 <= j < |all| && Spanned(all[j], from, to) ensures all[j].window == all[i].window {
        assert t.starts[all[j].window] < from;
        SpanMeetsTwoWindows(t.starts, window, from, all[i], all[j]);
      }
      SpanInOneWindow(all, from, to, all[i].window);
    } else {
      NothingInSpan(all, from, to);
    }
  }

  lemma {:induction false} NothingInSpan(admitted: seq<Admission>, from: int, to: int)
    requires forall i :: 0 <= i < |admitted| ==> !Spanned(admitted[i], from, to)
    ensures InSpan(admitted, from, to) == 0
  {
    if admitted != [] {
      var most := admitted[..|admitted| - 1];
      assert forall i :: 0 <= i < |most| ==> most[i] == admitted[i];
      NothingInSpan(most, from, to);
    }
  }

  /** Over any trace of requests in time order, with any faults: the limiter lets at most `limit`
      requests through in one window, and at most `2 * limit - 1` in any span of `window`. */
  lemma {:induction false} LimitHolds(rs: seq<Request>, limit: nat, window: nat, start: int, from: int)
    requires window >= 1 && limit >= 1 && InTimeOrder(start, rs)
    ensures var t := ServeAll(START, rs, limit, window);
            && (forall w :: InWindow(t.admitted, w, false) <= limit)
            && InSpan(t.admitted, from, from + window) <= 2 * limit - 1
  {
    ServeAllKeeps(START, rs, limit, window, start);
    SpanBound(ServeAll(START, rs, limit, window), limit, window, from);
  }

  /** Requests while the key lives, denied ones included, never move its expiry. */
  lemma {:induction false} ExpiryIsNotProlonged(t: Trail, rs: seq<Request>, limit: nat, window: nat)
    requires t.key.Some? && forall i :: 0 <= i < |rs| ==> rs[i].at < t.key.value.expiresAt
    ensures var u := ServeAll(t, rs, limit, window);
            u.key.Some? && u.key.value.expiresAt == t.key.value.expiresAt
    decreases |rs|
  {
    if rs != [] {
      ExpiryIsNotProlonged(Serve(t, rs[0], limit, window), rs[1..], limit, window);
    }
  }

  lemma {:induction false} ExpiryOnlyGrows(t: Trail, rs: seq<Request>, limit: nat, window: nat)
    requires t.key.Some?
    ensures var u := ServeAll(t, rs, limit, window); u.key.Some? && u.key.value.expiresAt >= t.key.value.expiresAt
    decreases |rs|
  {
    if rs != [] {
      ExpiryOnlyGrows(Serve(t, rs[0], limit, window), rs[1..], limit, window);
    }
  }

  /** The window that ends at `expiresAt` no longer counts a request at `now`. */
  predicate Over(key: Option<Window>, expiresAt: int, now: int) {
    !Live(key, now) || key.value.expiresAt > expiresAt
  }

  /** Rounding down leaves a part of a second unreported. */
  predicate WaitSuffices(remaining: int) {
    remaining <= MILLIS || remaining % MILLIS == 0 || remaining % MILLIS >= MILLIS / 2
  }

  lemma WaitCovers(remaining: int)
    requires remaining > 0
    ensures WaitSeconds(remaining) * MILLIS >= remaining <==> WaitSuffices(remaining)
    ensures (WaitSeconds(remaining) - 1) * MILLIS < remaining
  {
    var q, r := remaining / MILLIS, remaining % MILLIS;
    assert remaining == q * MILLIS + r;
    assert WaitSeconds(remaining) == Max(1, if r >= MILLIS / 2 then q + 1 else q);
  }

  /** A client that is denied and waits the reported seconds finds the window that denied it over, whoever
      else calls meanwhile, if and only if the time left was no more than a second, whole seconds, or at
      least half a second past them. A second less is never enough. */
  lemma {:induction false} WaitingEndsWindowExactlyWhen(t: Trail, denied: int, limit: nat, window: nat,
                                                        meanwhile: seq<Request>)
    requires limit >= 1 && !Verdict(Script(t.key, denied, window), denied, limit).allowed
    requires var d := Verdict(Script(t.key, denied, window), denied, limit);
             forall i :: 0 <= i < |meanwhile| ==> meanwhile[i].at < denied + d.retryAfter * MILLIS
    ensures var after, d := Script(t.key, denied, window), Verdict(Script(t.key, denied, window), denied, limit);
            var u := ServeAll(Serve(t, Request(denied, Fine), limit, window), meanwhile, limit, window);
            && (Over(u.key, after.expiresAt, denied + d.retryAfter * MILLIS) <==>
                WaitSuffices(after.expiresAt - denied))
            && denied + (d.retryAfter - 1) * MILLIS < after.expiresAt
  {
    var after := Script(t.key, denied, window);
    var v := Serve(t, Request(denied, Fine), limit, window);
    WaitCovers(after.expiresAt - denied);
    ExpiryOnlyGrows(v, meanwhile, limit, window);
    if !WaitSuffices(after.expiresAt - denied) {
      ExpiryIsNotProlonged(v, meanwhile, limit, window);
    }
  }

  /** If then no one else called after the window's end, the client opens a window of its own. */
  lemma {:induction false} WaitingOpensFreshWindow(t: Trail, denied: int, limit: nat, window: nat,
                                                   meanwhile: seq<Request>, again: int)
    requires limit >= 1 && !Verdict(Script(t.key, denied, window), denied, limit).allowed
    requires var after := Script(t.key, denied, window);
             && WaitSuffices(after.expiresAt - denied)
             && again >= denied + Verdict(after, denied, limit).retryAfter * MILLIS
             && forall i :: 0 <= i < |meanwhile| ==> meanwhile[i].at < after.expiresAt
    ensures var u := ServeAll(Serve(t, Request(denied, Fine), limit, window), meanwhile, limit, window);
            && Script(u.key, again, window) == Window(1, again + window)
            && Verdict(Script(u.key, again, window), again, limit).allowed
  {
    WaitCovers(Script(t.key, denied, window).expiresAt - denied);
    ExpiryIsNotProlonged(Serve(t, Request(denied, Fine), limit, window), meanwhile, limit, window);
  }

  // ---- what remains --------------------------------------------------------------------------------

  /** Requests that reach the store and come back, all within the key's life: as many are let through as the
      limit has room for, the first ones. */
  lemma {:induction false} WindowAdmitsWhatRemains(t: Trail, rs: seq<Request>, limit: nat, window: nat)
    requires t.key.Some?
    requires forall i :: 0 <= i < |rs| ==> rs[i].fault == Fine && rs[i].at < t.key.value.expiresAt
    ensures var u := ServeAll(t, rs, limit, window);
            && u.key == Some(Window(t.key.value.count + |rs|, t.key.value.expiresAt))
            && |u.admitted| == |t.admitted| + Min(|rs|, Max(0, limit - t.key.value.count))
    decreases |rs|
  {
    if rs != [] {
      WindowAdmitsWhatRemains(Serve(t, rs[0], limit, window), rs[1..], limit, window);
    }
  }

  /** A request lost before it reaches the store leaves no trace; one whose answer is lost is counted and, being let
      through for want of an answer, is no admission of the limiter's. */
  lemma FaultsAdmitNothing(t: Trail, r: Request, limit: nat, window: nat)
    requires r.fault != Fine
    ensures var u := Serve(t, r, limit, window);
            && u.admitted == t.admitted
            && (r.fault == LostRequest ==> u == t)
            && (r.fault == LostReply ==>
                  && u.key.Some?
                  && u.key.value.count == 1 + (if t.key.Some? && r.at < t.key.value.expiresAt then t.key.value.count
                                               else 0))
  {
  }

  /** The number a caller is told remains is how many further requests of its window are let through. */
  lemma RemainingIsWhatIsLetThrough(t: Trail, first: Request, rs: seq<Request>, limit: nat, window: nat)
    requires first.fault == Fine
    requires var key := Script(t.key, first.at, window);
             forall i :: 0 <= i < |rs| ==> rs[i].fault == Fine && rs[i].at < key.expiresAt
    ensures var d := Verdict(Script(t.key, first.at, window), first.at, limit);
            var u := Serve(t, first, limit, window);
            && |u.admitted| == |t.admitted| + (if d.allowed then 1 else 0)
            && |ServeAll(u, rs, limit, window).admitted| == |u.admitted| + Min(|rs|, d.remaining)
  {
    WindowAdmitsWhatRemains(Serve(t, first, limit, window), rs, limit, window);
  }

  // ---- the bound is reached ----------------------------------------------------------------------

  function Repeat(n: nat, at: int): seq<Request> {
    if n == 0 then [] else [Request(at, Fine)] + Repeat(n - 1, at)
  }

  lemma {:induction false} RepeatAdmits(t: Trail, n: nat, at: int, limit: nat, window: nat, from: int, to: int)
    requires Live(t.key, at) && t.starts != [] && t.key.value.count + n <= limit
    ensures var u := ServeAll(t, Repeat(n, at), limit, window);
            && u.key == Some(t.key.value.(count := t.key.value.count + n)) && u.starts == t.starts
            && InSpan(u.admitted, from, to) == InSpan(t.admitted, from, to) + (if from <= at < to then n else 0)
    decreases n
  {
    if n > 0 {
      var v := Serve(t, Request(at, Fine), limit, window);
      assert v.admitted[..|v.admitted| - 1] == t.admitted;
      assert Repeat(n, at)[1..] == Repeat(n - 1, at);
      RepeatAdmits(v, n - 1, at, limit, window, from, to);
    }
  }

  lemma {:induction false} ServeAppend(t: Trail, a: seq<Request>, b: seq<Request>, limit: nat, window: nat)
    ensures ServeAll(t, a + b, limit, window) == ServeAll(ServeAll(t, a, limit, window), b, limit, window)
    decreases |a|
  {
    if a == [] {
      assert a + b == b;
    } else {
      assert (a + b)[1..] == a[1..] + b;
      ServeAppend(Serve(t, a[0], limit, window), a[1..], b, limit, window);
    }
  }

  /** A request that opens a window, then requests at one instant of that window up to the limit. */
  function Burst(at: int, later: int, limit: nat): seq<Request>
    requires limit >= 1
  {
    [Request(at, Fine)] + Repeat(limit - 1, later)
  }

  lemma OneMoreInSpan(admitted: seq<Admission>, a: Admission, from: int, to: int)
    ensures InSpan(admitted + [a], from, to) == InSpan(admitted, from, to) + if from <= a.at < to then 1 else 0
  {
    assert (admitted + [a])[..|admitted|] == admitted;
  }

  lemma OpenerAdmits(t: Trail, at: int, limit: nat, window: nat, from: int, to: int)
    requires limit >= 1 && !Live(t.key, at)
    ensures var v := Serve(t, Request(at, Fine), limit, window);
            && v.key == Some(Window(1, at + window)) && v.starts != []
            && InSpan(v.admitted, from, to) == InSpan(t.admitted, from, to) + if from <= at < to then 1 else 0
  {
    OneMoreInSpan(t.admitted, Admission(at, |t.starts|, true), from, to);
  }

  lemma ServeFirst(t: Trail, r: Request, rest: seq<Request>, limit: nat, window: nat)
    ensures ServeAll(t, [r] + rest, limit, window) == ServeAll(Serve(t, r, limit, window), rest, limit, window)
  {
    assert ([r] + rest)[1..] == rest;
  }

  lemma {:induction false} BurstAdmits(t: Trail, at: int, later: int, limit: nat, window: nat, from: int, to: int)
    requires limit >= 1 && !Live(t.key, at) && at <= later < at + window
    ensures var u := ServeAll(t, Burst(at, later, limit), limit, window);
            && u.key == Some(Window(limit, at + window))
            && InSpan(u.admitted, from, to)
               == InSpan(t.admitted, from, to) + (if from <= at < to then 1 else 0)
                  + (if from <= later < to then limit - 1 else 0)
  {
    hide ServeAll, Serve, Repeat, InSpan;
    OpenerAdmits(t, at, limit, window, from, to);
    ServeFirst(t, Request(at, Fine), Repeat(limit - 1, later), limit, window);
    RepeatAdmits(Serve(t, Request(at, Fine), limit, window), limit - 1, later, limit, window, from, to);
  }

  lemma {:induction false} SecondBurstAdmits(full: Trail, after: Trail, limit: nat, w: nat)
    requires limit >= 1 && w >= 2 && full.key == Some(Window(limit, w))
    requires InSpan(full.admitted, w - 1, w - 1 + w) == limit - 1
    requires after == ServeAll(full, Burst(w, w, limit), limit, w)
    ensures InSpan(after.admitted, w - 1, w - 1 + w) == 2 * limit - 1
  {
    hide ServeAll, Burst, InSpan;
    BurstAdmits(full, w, w, limit, w, w - 1, w - 1 + w);
  }

  lemma {:induction false} FirstBurstAdmits(empty: Trail, full: Trail, limit: nat, w: nat)
    requires limit >= 1 && w >= 2 && empty.key == None && InSpan(empty.admitted, w - 1, w - 1 + w) == 0
    requires full == ServeAll(empty, Burst(0, w - 1, limit), limit, w)
    ensures full.key == Some(Window(limit, w)) && InSpan(full.admitted, w - 1, w - 1 + w) == limit - 1
  {
    hide ServeAll, Burst, InSpan;
    BurstAdmits(empty, 0, w - 1, limit, w, w - 1, w - 1 + w);
  }

  /** One request, then the rest of the window's at its last instant, then a full window at once: for every
      limit and window this puts `2 * limit - 1` into one span. */
  lemma {:induction false} BoundIsReached(limit: nat, window: nat)
    requires limit >= 1 && window >= 2
    ensures var w := window;
            var rs := Burst(0, w - 1, limit) + Burst(w, w, limit);
            InSpan(ServeAll(START, rs, limit, w).admitted, w - 1, w - 1 + w) == 2 * limit - 1
  {
    hide ServeAll, Burst, InSpan;
    var w, first, second := window, Burst(0, window - 1, limit), Burst(window, window, limit);
    var full := ServeAll(START, first, limit, w);
    NothingInSpan(START.admitted, w - 1, w - 1 + w);
    FirstBurstAdmits(START, full, limit, w);
    SecondBurstAdmits(full, ServeAll(full, second, limit, w), limit, w);
    ServeAppend(START, first, second, limit, w);
  }
}
