/**
 The sliding-window limiter of grant minting, internal/baserver/baserver.go. MintLog is what it means: a
 per-account log of admissions. MintLimiter is what it does: buckets compacted in place.
 */
module MintLog {

  /** The hits after the cutoff, in order. */
  function Recent(hits: seq<int>, cutoff: int): (kept: seq<int>)
    ensures |kept| <= |hits|
    ensures forall h :: h in kept ==> h > cutoff
  {
    if hits == [] then []
    else
      var before := Recent(hits[..|hits| - 1], cutoff);
      if hits[|hits| - 1] > cutoff then before + [hits[|hits| - 1]] else before
  }

  datatype Decision = Decision(allowed: bool, limit: int, remaining: int, window: int, resetAt: int)

  /** One request of an account with these kept hits. */
  function Decide(limit: nat, window: nat, hits: seq<int>, now: int): (seq<int>, Decision)
    requires limit > 0
  {
    var kept := Recent(hits, now - window);
    if |kept| >= limit then (kept, Decision(false, limit, 0, window, kept[0] + window))
    else (kept + [now], Decision(true, limit, limit - |kept| - 1, window, now + window))
  }

  predicate Sorted(s: seq<int>) { forall i, j :: 0 <= i < j < |s| ==> s[i] <= s[j] }

  /** Of a sorted log, the recent hits are a suffix. */
  lemma {:induction false} RecentSuffix(hits: seq<int>, cutoff: int) returns (i: nat)
    requires Sorted(hits)
    ensures i <= |hits| && Recent(hits, cutoff) == hits[i..]
    ensures forall k :: 0 <= k < i ==> hits[k] <= cutoff
    ensures forall k :: i <= k < |hits| ==> hits[k] > cutoff
  {
    if hits == [] {
      i := 0;
    } else {
      var n := |hits| - 1;
      i := RecentSuffix(hits[..n], cutoff);
      if hits[n] > cutoff {
        assert hits[..n][i..] + [hits[n]] == hits[i..];
      } else {
        i := |hits|;
        assert forall k :: 0 <= k < n ==> hits[k] <= cutoff;
      }
    }
  }

  /** Dropping older hits first changes nothing about a later cutoff. */
  lemma {:induction false} RecentTwice(hits: seq<int>, early: int, late: int)
    requires early <= late
    ensures Recent(Recent(hits, early), late) == Recent(hits, late)
  {
    if hits != [] {
      var n := |hits| - 1;
      RecentTwice(hits[..n], early, late);
      if hits[n] > early {
        var before := Recent(hits[..n], early);
        assert (before + [hits[n]])[..|before|] == before;
      }
    }
  }

  // ---- the requests of one account, in clock order ----

  /** The compacted hits and the full admission log after these requests. */
  function Serve(limit: nat, window: nat, times: seq<int>): (seq<int>, seq<int>)
    requires limit > 0
  {
    if times == [] then ([], [])
    else
      var (hits, admitted) := Serve(limit, window, times[..|times| - 1]);
      var now := times[|times| - 1];
      var (next, decision) := Decide(limit, window, hits, now);
      (next, if decision.allowed then admitted + [now] else admitted)
  }

  /** Two admissions that are limit apart in the log are at least a window apart in time. */
  ghost predicate Spaced(limit: nat, window: nat, admitted: seq<int>) {
    forall i: nat :: SpacedAt(limit, window, admitted, i)
  }

  ghost predicate SpacedAt(limit: nat, window: nat, admitted: seq<int>, i: nat) {
    i + limit < |admitted| ==> admitted[i + limit] - admitted[i] >= window
  }

  /** The compacted hits are the recent part of a sorted, spaced log. */
  ghost predicate Refines(limit: nat, window: nat, hits: seq<int>, admitted: seq<int>, now: int) {
    && Sorted(admitted) && (forall h :: h in admitted ==> h <= now)
    && hits == Recent(admitted, now - window) && |hits| <= limit && Spaced(limit, window, admitted)
  }

  /** An admission with fewer than limit recent hits keeps the log spaced. */
  lemma SpacedAppend(limit: nat, window: nat, admitted: seq<int>, now: int)
    requires limit > 0 && Sorted(admitted) && Spaced(limit, window, admitted)
    requires |Recent(admitted, now - window)| < limit
    ensures Spaced(limit, window, admitted + [now])
  {
    hide Recent;
    var later := admitted + [now];
    var i := RecentSuffix(admitted, now - window);
    forall k: nat ensures SpacedAt(limit, window, later, k) {
      assert SpacedAt(limit, window, admitted, k);
      if k + limit == |admitted| {
        assert later[k] == admitted[k] <= now - window;
      }
    }
  }

  lemma SortedAppend(admitted: seq<int>, now: int)
    requires Sorted(admitted) && forall h :: h in admitted ==> h <= now
    ensures Sorted(admitted + [now]) && forall h :: h in admitted + [now] ==> h <= now
  {
    assert forall i :: 0 <= i < |admitted| ==> admitted[i] in admitted && (admitted + [now])[i] == admitted[i];
  }

  lemma DecideRefines(limit: nat, window: nat, hits: seq<int>, admitted: seq<int>, last: int, now: int)
    requires limit > 0 && window > 0 && Refines(limit, window, hits, admitted, last) && last <= now
    ensures var (next, decision) := Decide(limit, window, hits, now);
      && decision.allowed == (|Recent(admitted, now - window)| < limit)
      && Refines(limit, window, next, if decision.allowed then admitted + [now] else admitted, now)
  {
    hide Recent, Spaced, SpacedAt, Sorted;
    RecentTwice(admitted, last - window, now - window);
    var kept := Recent(admitted, now - window);
    if |kept| < limit {
      RecentStep(admitted, now, now - window);
      SpacedAppend(limit, window, admitted, now);
      SortedAppend(admitted, now);
    } else {
      RecentGrows(hits, now - window);
    }
  }

  lemma RecentGrows(hits: seq<int>, cutoff: int)
    ensures |Recent(hits, cutoff)| <= |hits|
  {
  }

  lemma RecentStep(hits: seq<int>, h: int, cutoff: int)
    ensures Recent(hits + [h], cutoff) == if h > cutoff then Recent(hits, cutoff) + [h] else Recent(hits, cutoff)
  {
    assert (hits + [h])[..|hits|] == hits;
  }

  lemma {:induction false} ServeRefines(limit: nat, window: nat, times: seq<int>)
    requires limit > 0 && window > 0 && Sorted(times) && times != []
    ensures var (hits, admitted) := Serve(limit, window, times);
      Refines(limit, window, hits, admitted, times[|times| - 1])
  {
    var n := |times| - 1;
    var (hits, admitted) := Serve(limit, window, times[..n]);
    if n == 0 {
      assert times[..n] == [];
      assert Refines(limit, window, [], [], times[0]);
      DecideRefines(limit, window, [], [], times[0], times[0]);
    } else {
      ServeRefines(limit, window, times[..n]);
      assert times[..n][n - 1] == times[n - 1];
      DecideRefines(limit, window, hits, admitted, times[n - 1], times[n]);
    }
  }

  /** The admissions in the half-open window (t - window, t]. */
  function InWindow(admitted: seq<int>, window: nat, t: int): (seen: seq<int>)
  {
    if admitted == [] then []
    else
      var before := InWindow(admitted[..|admitted| - 1], window, t);
      var last := admitted[|admitted| - 1];
      if t - window < last <= t then before + [last] else before
  }

  lemma {:induction false} WindowIsRecent(admitted: seq<int>, window: nat, t: int)
    requires forall h :: h in admitted ==> h <= t
    ensures InWindow(admitted, window, t) == Recent(admitted, t - window)
  {
    if admitted != [] {
      var n := |admitted| - 1;
      assert admitted[n] in admitted && forall h :: h in admitted[..n] ==> h in admitted;
      WindowIsRecent(admitted[..n], window, t);
    }
  }

  /** Hits that all fit into one window are at most limit many. */
  lemma FewFit(limit: nat, window: nat, admitted: seq<int>, t: int, i: nat)
    requires Spaced(limit, window, admitted) && i <= |admitted|
    requires forall k :: i <= k < |admitted| ==> t - window < admitted[k] <= t
    ensures |admitted| - i <= limit
  {
    assert SpacedAt(limit, window, admitted, i);
  }

  lemma SpacedPrefix(limit: nat, window: nat, admitted: seq<int>, n: nat)
    requires Spaced(limit, window, admitted) && n <= |admitted|
    ensures Spaced(limit, window, admitted[..n])
  {
    forall i: nat ensures SpacedAt(limit, window, admitted[..n], i) {
      assert SpacedAt(limit, window, admitted, i);
    }
  }

  lemma {:induction false} SpacedWindow(limit: nat, window: nat, admitted: seq<int>, t: int)
    requires limit > 0 && Sorted(admitted) && Spaced(limit, window, admitted)
    ensures |InWindow(admitted, window, t)| <= limit
  {
    hide Spaced, Recent;
    if admitted != [] {
      var n := |admitted| - 1;
      if admitted[n] > t {
        SpacedPrefix(limit, window, admitted, n);
        SpacedWindow(limit, window, admitted[..n], t);
      } else {
        WindowIsRecent(admitted, window, t);
        var i := RecentSuffix(admitted, t - window);
        FewFit(limit, window, admitted, t, i);
      }
    }
  }

  /** With a clock that never runs backwards, no window of any instant holds more than limit admissions. */
  lemma NeverOverLimit(limit: nat, window: nat, times: seq<int>, t: int)
    requires limit > 0 && window > 0 && Sorted(times)
    ensures |InWindow(Serve(limit, window, times).1, window, t)| <= limit
  {
    if times != [] {
      ServeRefines(limit, window, times);
      SpacedWindow(limit, window, Serve(limit, window, times).1, t);
    }
  }

  lemma SortedPrefix(times: seq<int>, now: int)
    requires Sorted(times + [now])
    ensures Sorted(times) && (times != [] ==> times[|times| - 1] <= now)
  {
    assert forall i :: 0 <= i < |times| ==> (times + [now])[i] == times[i];
    assert times != [] ==> (times + [now])[|times| - 1] <= (times + [now])[|times|];
  }

  lemma NothingServed(limit: nat, window: nat, now: int)
    requires limit > 0
    ensures Serve(limit, window, []) == ([], []) && Refines(limit, window, [], [], now)
  {
  }

  /** The state before a request refines a log. */
  lemma ServedBefore(limit: nat, window: nat, times: seq<int>, now: int) returns (last: int)
    requires limit > 0 && window > 0 && Sorted(times + [now])
    ensures last <= now
    ensures var (hits, admitted) := Serve(limit, window, times); Refines(limit, window, hits, admitted, last)
  {
    hide Refines, Serve;
    SortedPrefix(times, now);
    if times == [] {
      last := now;
      NothingServed(limit, window, now);
    } else {
      last := times[|times| - 1];
      ServeRefines(limit, window, times);
    }
  }

  /** A request is admitted exactly when fewer than limit admissions of the full log lie in its window. */
  lemma AdmittedIff(limit: nat, window: nat, times: seq<int>, now: int)
    requires limit > 0 && window > 0 && Sorted(times + [now])
    ensures var (hits, admitted) := Serve(limit, window, times);
      Decide(limit, window, hits, now).1.allowed <==> |InWindow(admitted, window, now)| < limit
  {
    hide Serve, Recent, Decide, Spaced, InWindow;
    var last := ServedBefore(limit, window, times, now);
    var (hits, admitted) := Serve(limit, window, times);
    DecideRefines(limit, window, hits, admitted, last, now);
    WindowIsRecent(admitted, window, now);
  }

  /** Exactly limit recent hits: a later instant is past the first of them or admits nothing. */
  lemma FullUntilFirst(limit: nat, window: nat, kept: seq<int>, retry: int)
    requires limit > 0 && |kept| == limit && Sorted(kept)
    ensures |Recent(kept, retry - window)| < limit <==> kept[0] <= retry - window
  {
    hide Recent;
    var j := RecentSuffix(kept, retry - window);
  }

  /** A denial names the first instant at which a retry is admitted: none before it is, every later one is. */
  lemma ResetExact(limit: nat, window: nat, times: seq<int>, now: int, retry: int)
    requires limit > 0 && window > 0 && Sorted(times + [now]) && now <= retry
    ensures var (kept, decision) := Decide(limit, window, Serve(limit, window, times).0, now);
      !decision.allowed ==> (Decide(limit, window, kept, retry).1.allowed <==> retry >= decision.resetAt)
  {
    hide Serve, Recent, Spaced;
    var last := ServedBefore(limit, window, times, now);
    var (hits, admitted) := Serve(limit, window, times);
    var (kept, decision) := Decide(limit, window, hits, now);
    DecideRefines(limit, window, hits, admitted, last, now);
    if !decision.allowed {
      var i := RecentSuffix(admitted, now - window);
      assert kept == admitted[i..];
      FullUntilFirst(limit, window, kept, retry);
    }
  }

  lemma ServeStep(limit: nat, window: nat, times: seq<int>, now: int)
    requires limit > 0
    ensures var (hits, admitted) := Serve(limit, window, times);
      var (next, decision) := Decide(limit, window, hits, now);
      Serve(limit, window, times + [now]) == (next, if decision.allowed then admitted + [now] else admitted)
  {
    assert (times + [now])[..|times|] == times;
  }

  lemma WindowStep(hits: seq<int>, h: int, window: nat, t: int)
    ensures InWindow(hits + [h], window, t)
      == if t - window < h <= t then InWindow(hits, window, t) + [h] else InWindow(hits, window, t)
  {
    assert (hits + [h])[..|hits|] == hits;
  }

  // ---- clocks that step back ----

  /** Between two consecutive requests the clock steps back by at most d. */
  ghost predicate StepsBackBy(times: seq<int>, d: nat) {
    forall i :: 0 <= i < |times| - 1 ==> times[i + 1] >= times[i] - d
  }

  /** No window holds more than limit admissions, whatever the instant. */
  ghost predicate WithinLimit(limit: nat, window: nat, times: seq<int>)
    requires limit > 0
  {
    forall t :: |InWindow(Serve(limit, window, times).1, window, t)| <= limit
  }

  lemma {:induction false} NoStepBackSorted(times: seq<int>)
    requires StepsBackBy(times, 0)
    ensures Sorted(times)
  {
    if times != [] {
      var n := |times| - 1;
      NoStepBackSorted(times[..n]);
      if n > 0 {
        assert times[n] >= times[n - 1] - 0;
      }
    }
  }

  /** With a limit of one, the bucket is the last admission, and admissions are a window apart whatever the clock does. */
  lemma {:induction false} OneIsSpaced(window: nat, times: seq<int>)
    requires window > 0
    ensures var (hits, admitted) := Serve(1, window, times);
      && Sorted(admitted) && Spaced(1, window, admitted)
      && hits == if admitted == [] then [] else [admitted[|admitted| - 1]]
  {
    if times != [] {
      var n := |times| - 1;
      OneIsSpaced(window, times[..n]);
      var (hits, admitted) := Serve(1, window, times[..n]);
      RecentOfLast(hits, times[n] - window);
      if Recent(hits, times[n] - window) == [] {
        OneAppended(window, admitted, times[n]);
      }
    }
  }

  lemma RecentOfLast(hits: seq<int>, cutoff: int)
    requires |hits| <= 1
    ensures Recent(hits, cutoff) == if hits != [] && hits[0] > cutoff then hits else []
  {
    if hits != [] {
      assert hits[..0] == [] && hits == [hits[0]];
    }
  }

  lemma OneAppended(window: nat, admitted: seq<int>, now: int)
    requires Sorted(admitted) && Spaced(1, window, admitted)
    requires admitted != [] ==> admitted[|admitted| - 1] <= now - window
    ensures Sorted(admitted + [now]) && Spaced(1, window, admitted + [now])
  {
    var later := admitted + [now];
    forall i: nat ensures SpacedAt(1, window, later, i) {
      assert SpacedAt(1, window, admitted, i);
    }
  }

  // The run that overfills a window: limit requests at 0, one at x, and limit - 1 requests at x - d.

  function Copies(n: nat, x: int): (s: seq<int>)
    ensures |s| == n && forall i :: 0 <= i < n ==> s[i] == x
  {
    if n == 0 then [] else Copies(n - 1, x) + [x]
  }

  lemma {:induction false} RecentCopies(before: seq<int>, n: nat, x: int, cutoff: int)
    ensures Recent(before + Copies(n, x), cutoff)
      == if x > cutoff then Recent(before, cutoff) + Copies(n, x) else Recent(before, cutoff)
  {
    hide Recent;
    if n == 0 {
      assert before + Copies(0, x) == before && Recent(before, cutoff) + Copies(0, x) == Recent(before, cutoff);
    } else {
      RecentCopies(before, n - 1, x, cutoff);
      RecentStep(before + Copies(n - 1, x), x, cutoff);
      assert before + Copies(n, x) == before + Copies(n - 1, x) + [x];
    }
  }

  lemma {:induction false} WindowCopies(before: seq<int>, n: nat, x: int, window: nat, t: int)
    ensures InWindow(before + Copies(n, x), window, t)
      == if t - window < x <= t then InWindow(before, window, t) + Copies(n, x) else InWindow(before, window, t)
  {
    if n == 0 {
      assert before + Copies(0, x) == before;
    } else {
      WindowCopies(before, n - 1, x, window, t);
      WindowStep(before + Copies(n - 1, x), x, window, t);
      assert before + Copies(n, x) == before + Copies(n - 1, x) + [x];
    }
  }

  /** n requests at one instant are all admitted while there is room. */
  lemma {:induction false} CopiesServed(limit: nat, window: nat, times: seq<int>, hits: seq<int>, admitted: seq<int>, n: nat, x: int)
    requires limit > 0 && window > 0 && Serve(limit, window, times) == (hits, admitted)
    requires Recent(hits, x - window) == hits && |hits| + n <= limit
    ensures Serve(limit, window, times + Copies(n, x)) == (hits + Copies(n, x), admitted + Copies(n, x))
  {
    hide Serve, Recent;
    if n == 0 {
      assert times + Copies(0, x) == times && hits + Copies(0, x) == hits && admitted + Copies(0, x) == admitted;
    } else {
      CopiesServed(limit, window, times, hits, admitted, n - 1, x);
      RecentCopies(hits, n - 1, x, x - window);
      ServeStep(limit, window, times + Copies(n - 1, x), x);
      assert times + Copies(n, x) == times + Copies(n - 1, x) + [x];
      assert hits + Copies(n, x) == hits + Copies(n - 1, x) + [x];
      assert admitted + Copies(n, x) == admitted + Copies(n - 1, x) + [x];
    }
  }

  function Overfill(limit: nat, window: nat, d: nat): seq<int>
    requires limit > 0
  {
    var x := if window < d then d else window;
    Copies(limit, 0) + [x] + Copies(limit - 1, x - d)
  }

  /** All of its requests are admitted, because the jump ahead compacts the old hits away. */
  lemma OverfillServed(limit: nat, window: nat, d: nat)
    requires limit > 0 && window > 0
    ensures Serve(limit, window, Overfill(limit, window, d)).1 == Overfill(limit, window, d)
  {
    hide Serve, Recent;
    var x := if window < d then d else window;
    var zeros := Copies(limit, 0);
    NothingServed(limit, window, 0);
    CopiesServed(limit, window, [], [], [], limit, 0);
    assert [] + zeros == zeros;
    RecentCopies([], limit, 0, x - window);
    ServeStep(limit, window, zeros, x);
    assert [] + [x] == [x];
    RecentStep([], x, x - d - window);
    CopiesServed(limit, window, zeros + [x], [x], zeros + [x], limit - 1, x - d);
  }

  lemma OverfillStepsBack(limit: nat, window: nat, d: nat)
    requires limit > 0
    ensures StepsBackBy(Overfill(limit, window, d), d)
  {
  }

  /** Twice the limit but one lands in the window that ends at the second instant. */
  lemma OverfillCount(limit: nat, window: nat, d: nat)
    requires limit > 0 && window > 0 && d > 0
    ensures var x := if window < d then d else window;
      |InWindow(Overfill(limit, window, d), window, x - d)| == 2 * limit - 1
  {
    hide InWindow;
    var x := if window < d then d else window;
    var zeros := Copies(limit, 0);
    WindowNone(window, x - d);
    WindowCopies([], limit, 0, window, x - d);
    assert [] + zeros == zeros;
    WindowStep(zeros, x, window, x - d);
    WindowCopies(zeros + [x], limit - 1, x - d, window, x - d);
  }

  lemma WindowNone(window: nat, t: int)
    ensures InWindow([], window, t) == []
  {
  }

  /**
   Exactly when the limiter bounds every run of a clock that steps back by at most d: when the clock never
   steps back, or when the limit is one.
   */
  lemma BoundedIff(limit: nat, window: nat, d: nat)
    requires limit > 0 && window > 0
    ensures (forall times :: StepsBackBy(times, d) ==> WithinLimit(limit, window, times)) <==> d == 0 || limit == 1
  {
    hide Serve, InWindow, Overfill, StepsBackBy, WithinLimit;
    if d == 0 || limit == 1 {
      forall times | StepsBackBy(times, d) ensures WithinLimit(limit, window, times) {
        BoundHolds(limit, window, d, times);
      }
    } else {
      BoundFails(limit, window, d);
    }
  }

  lemma BoundHolds(limit: nat, window: nat, d: nat, times: seq<int>)
    requires limit > 0 && window > 0 && StepsBackBy(times, d) && (d == 0 || limit == 1)
    ensures WithinLimit(limit, window, times)
  {
    hide Serve, InWindow;
    forall t ensures |InWindow(Serve(limit, window, times).1, window, t)| <= limit {
      if d == 0 {
        NoStepBackSorted(times);
        NeverOverLimit(limit, window, times, t);
      } else {
        OneIsSpaced(window, times);
        SpacedWindow(1, window, Serve(1, window, times).1, t);
      }
    }
  }

  lemma BoundFails(limit: nat, window: nat, d: nat)
    requires limit > 1 && window > 0 && d > 0
    ensures StepsBackBy(Overfill(limit, window, d), d) && !WithinLimit(limit, window, Overfill(limit, window, d))
  {
    hide Serve, InWindow, Overfill, StepsBackBy;
    var x := if window < d then d else window;
    OverfillStepsBack(limit, window, d);
    OverfillServed(limit, window, d);
    OverfillCount(limit, window, d);
    assert |InWindow(Serve(limit, window, Overfill(limit, window, d)).1, window, x - d)| > limit;
  }

  // ---- all accounts together ----

  datatype Request = Request(account: string, now: int)

  function Hits(logs: map<string, seq<int>>, account: string): seq<int> {
    if account in logs then logs[account] else []
  }

  /** The buckets after these requests. */
  function ServeAll(limit: nat, window: nat, requests: seq<Request>): map<string, seq<int>>
    requires limit > 0
  {
    if requests == [] then map[]
    else
      var logs := ServeAll(limit, window, requests[..|requests| - 1]);
      var r := requests[|requests| - 1];
      logs[r.account := Decide(limit, window, Hits(logs, r.account), r.now).0]
  }

  lemma ServeAllStep(limit: nat, window: nat, requests: seq<Request>, r: Request)
    requires limit > 0
    ensures var logs := ServeAll(limit, window, requests);
      ServeAll(limit, window, requests + [r]) == logs[r.account := Decide(limit, window, Hits(logs, r.account), r.now).0]
  {
    assert (requests + [r])[..|requests|] == requests;
  }

  /** The clock readings of one account. */
  function TimesOf(requests: seq<Request>, account: string): seq<int> {
    if requests == [] then []
    else
      var before := TimesOf(requests[..|requests| - 1], account);
      var r := requests[|requests| - 1];
      if r.account == account then before + [r.now] else before
  }

  /** Accounts do not affect each other: a bucket is what its own requests alone make of it. */
  lemma {:induction false} AccountsIndependent(limit: nat, window: nat, requests: seq<Request>, account: string)
    requires limit > 0
    ensures Hits(ServeAll(limit, window, requests), account) == Serve(limit, window, TimesOf(requests, account)).0
  {
    if requests != [] {
      var n := |requests| - 1;
      AccountsIndependent(limit, window, requests[..n], account);
      if requests[n].account == account {
        ServeStep(limit, window, TimesOf(requests[..n], account), requests[n].now);
      }
    }
  }

  ghost predicate ClockSorted(requests: seq<Request>) {
    forall i, j :: 0 <= i < j < |requests| ==> requests[i].now <= requests[j].now
  }

  lemma {:induction false} TimesSorted(requests: seq<Request>, account: string)
    requires ClockSorted(requests)
    ensures Sorted(TimesOf(requests, account))
    ensures forall t :: t in TimesOf(requests, account) ==> requests != [] && t <= requests[|requests| - 1].now
  {
    if requests != [] {
      var n := |requests| - 1;
      TimesSorted(requests[..n], account);
      if n > 0 {
        assert requests[n - 1].now <= requests[n].now && requests[..n][n - 1] == requests[n - 1];
      }
      if requests[n].account == account {
        SortedAppend(TimesOf(requests[..n], account), requests[n].now);
      }
    }
  }

  /** Whatever the other accounts do, no account gets more than limit admissions into any window. */
  lemma EveryAccountBounded(limit: nat, window: nat, requests: seq<Request>, account: string, t: int)
    requires limit > 0 && window > 0 && ClockSorted(requests)
    ensures var (hits, admitted) := Serve(limit, window, TimesOf(requests, account));
      Hits(ServeAll(limit, window, requests), account) == hits && |InWindow(admitted, window, t)| <= limit
  {
    TimesSorted(requests, account);
    AccountsIndependent(limit, window, requests, account);
    NeverOverLimit(limit, window, TimesOf(requests, account), t);
  }

  // ---- what the decision promises ----

  lemma DecisionFields(limit: nat, window: nat, hits: seq<int>, now: int)
    requires limit > 0
    ensures var decision := Decide(limit, window, hits, now).1;
      && decision.limit == limit && decision.window == window
      && (if decision.allowed then decision.resetAt == now + window else decision.remaining == 0)
  {
  }

  /** The hits after k more requests at the same instant. */
  function Again(limit: nat, window: nat, hits: seq<int>, now: int, k: nat): seq<int>
    requires limit > 0
  {
    if k == 0 then hits else Decide(limit, window, Again(limit, window, hits, now, k - 1), now).0
  }

  lemma {:induction false} AgainCounts(limit: nat, window: nat, hits: seq<int>, now: int, k: nat)
    requires limit > 0 && window > 0 && |Recent(hits, now - window)| <= limit
    ensures var kept := |Recent(hits, now - window)|;
      |Recent(Again(limit, window, hits, now, k), now - window)| == if kept + k <= limit then kept + k else limit
  {
    hide Recent;
    if k > 0 {
      AgainCounts(limit, window, hits, now, k - 1);
      var before := Again(limit, window, hits, now, k - 1);
      RecentTwice(before, now - window, now - window);
      RecentStep(Recent(before, now - window), now, now - window);
    }
  }

  /**
   The remaining count of an admission is exact: of any further requests at the same instant that many are
   admitted, and no more.
   */
  lemma RemainingExact(limit: nat, window: nat, hits: seq<int>, now: int, k: nat)
    requires limit > 0 && window > 0 && Decide(limit, window, hits, now).1.allowed
    ensures var (next, decision) := Decide(limit, window, hits, now);
      Decide(limit, window, Again(limit, window, next, now, k), now).1.allowed <==> k < decision.remaining
  {
    hide Recent;
    var next := Decide(limit, window, hits, now).0;
    RecentTwice(hits, now - window, now - window);
    RecentStep(Recent(hits, now - window), now, now - window);
    AgainCounts(limit, window, next, now, k);
  }
}

module MintLimiter {
  import opened Text
  import opened MintLog

  const DEFAULT_LIMIT: nat := 5
  const DEFAULT_WINDOW: nat := 60_000_000_000

  /** The zero time.Time, in nanoseconds of the Unix clock. */
  const ZERO_TIME: int := -62_135_596_800_000_000_000

  /** A slice of hits over its backing array. */
  class Bucket {
    var slots: array<int>
    var count: nat

    constructor ()
      ensures Valid() && fresh(slots) && Kept() == []
    {
      slots, count := new int[0], 0;
    }

    ghost predicate Valid()
      reads this
    {
      count <= slots.Length
    }

    ghost function Kept(): seq<int>
      reads this, slots
    {
      if count <= slots.Length then slots[..count] else []
    }

    /** kept := hits[:0], then append what is recent: the same array is overwritten from the front. */
    method Compact(cutoff: int)
      requires Valid()
      modifies this`count, slots
      ensures Valid() && slots == old(slots) && Kept() == Recent(old(Kept()), cutoff)
    {
      ghost var was := slots[..count];
      var n, kept := count, 0;
      for i := 0 to n
        invariant kept <= i && count == n <= slots.Length
        invariant slots[..kept] == Recent(was[..i], cutoff)
        invariant forall k :: i <= k < n ==> slots[k] == was[k]
      {
        assert was[..i + 1][..i] == was[..i] && was[..i + 1][i] == slots[i];
        if slots[i] > cutoff {
          slots[kept] := slots[i];
          kept := kept + 1;
        }
      }
      assert was[..n] == was;
      count := kept;
    }

    /** append: in place while there is room, otherwise in a larger array. */
    method Append(hit: int)
      requires Valid()
      modifies this, slots
      ensures Valid() && (slots == old(slots) || fresh(slots)) && Kept() == old(Kept()) + [hit]
    {
      if count == slots.Length {
        var larger := new int[2 * count + 1];
        for i := 0 to count
          invariant count == old(count) && slots == old(slots) && count < larger.Length
          invariant larger[..i] == slots[..i] && slots[..count] == old(slots[..count])
        {
          larger[i] := slots[i];
        }
        slots := larger;
      }
      slots[count] := hit;
      count := count + 1;
    }

    /** The critical section of Allow, on the bucket of its account. */
    method Admit(limit: nat, window: nat, at: int) returns (decision: Decision)
      requires Valid() && limit > 0
      modifies this, slots
      ensures Valid() && (slots == old(slots) || fresh(slots))
      ensures (Kept(), decision) == Decide(limit, window, old(Kept()), at)
    {
      hide Recent;
      Compact(at - window);
      if count >= limit {
        return Decision(false, limit, 0, window, slots[0] + window);
      }
      Append(at);
      decision := Decision(true, limit, limit - count, window, at + window);
    }
  }

  class Limiter {
    const f: CaseMap
    const limit: nat
    const window: nat
    var hits: map<string, Bucket>

    /** The requests decided so far, by normalized account: ghost history. */
    ghost var served: seq<Request>

    ghost predicate Valid()
      reads `hits, Buckets()
    {
      && limit > 0 && window > 0
      && (forall a :: a in hits ==> hits[a].Valid())
      && (forall a, b :: a in hits && b in hits && a != b ==> hits[a] != hits[b] && hits[a].slots != hits[b].slots)
    }

    /** The buckets are what the specification makes of the requests so far. */
    ghost predicate Refines()
      reads this, Buckets(), Arrays()
      requires limit > 0
    {
      forall a :: Log(a) == Hits(ServeAll(limit, window, served), a)
    }

    ghost function Buckets(): set<object>
      reads `hits
    {
      set a | a in hits :: hits[a]
    }

    ghost function Arrays(): set<object>
      reads `hits, Buckets()
    {
      set a | a in hits :: hits[a].slots
    }

    /** The hits of an account that has a bucket. */
    ghost function Log(account: string): seq<int>
      reads `hits, Buckets(), Arrays()
    {
      if account in hits then hits[account].Kept() else []
    }

    constructor (f: CaseMap, limit: int, window: int)
      ensures Valid() && Refines() && this.f == f && hits == map[] && served == []
      ensures this.limit == (if limit <= 0 then 5 else limit)
      ensures this.window == (if window <= 0 then 60_000_000_000 else window)
    {
      this.f := f;
      this.limit := if limit <= 0 then DEFAULT_LIMIT else limit;
      this.window := if window <= 0 then DEFAULT_WINDOW else window;
      hits, served := map[], [];
    }

    /** The bucket of an account, empty when it had none. */
    method BucketFor(key: string) returns (bucket: Bucket)
      requires Valid()
      modifies `hits
      ensures Valid() && key in hits && hits[key] == bucket
      ensures fresh(Buckets() - old(Buckets())) && fresh(Arrays() - old(Arrays()))
      ensures forall a :: Log(a) == old(Log(a))
    {
      if key !in hits {
        var empty := new Bucket();
        hits := hits[key := empty];
      }
      bucket := hits[key];
    }

    /** The decision for a normalized account. */
    method AdmitFor(key: string, at: int) returns (decision: Decision)
      requires Valid()
      modifies `hits, Buckets(), Arrays()
      ensures Valid() && fresh(Buckets() - old(Buckets())) && fresh(Arrays() - old(Arrays()))
      ensures (Log(key), decision) == Decide(limit, window, old(Log(key)), at)
      ensures forall a :: a != key ==> Log(a) == old(Log(a))
    {
      hide Decide;
      var bucket := BucketFor(key);
      decision := bucket.Admit(limit, window, at);
    }

    /** The same, recorded in the history. */
    method Record(key: string, at: int) returns (decision: Decision)
      requires Valid() && Refines()
      modifies this, Buckets(), Arrays()
      ensures Valid() && Refines() && served == old(served) + [Request(key, at)]
      ensures fresh(Buckets() - old(Buckets())) && fresh(Arrays() - old(Arrays()))
      ensures (Log(key), decision) == Decide(limit, window, old(Log(key)), at)
      ensures forall a :: a != key ==> Log(a) == old(Log(a))
    {
      hide Decide, ServeAll;
      decision := AdmitFor(key, at);
      ServeAllStep(limit, window, served, Request(key, at));
      served := served + [Request(key, at)];
    }

    /** Allow. wall is the wall clock, read when the caller passes the zero time. */
    method Allow(account: string, now: int, wall: int) returns (decision: Decision)
      requires Valid() && Refines()
      modifies this, Buckets(), Arrays()
      ensures Valid() && Refines()
      ensures served == if Normalize(f, account) == "" then old(served)
                        else old(served) + [Request(Normalize(f, account), if now == ZERO_TIME then wall else now)]
      ensures fresh(Buckets() - old(Buckets())) && fresh(Arrays() - old(Arrays()))
      ensures Normalize(f, account) == "" ==>
        decision == Decision(false, limit, 0, window, now + window) && (forall a :: Log(a) == old(Log(a)))
      ensures Normalize(f, account) != "" ==>
        var key := Normalize(f, account);
        (Log(key), decision) == Decide(limit, window, old(Log(key)), if now == ZERO_TIME then wall else now)
        && (forall a :: a != key ==> Log(a) == old(Log(a)))
        && decision.limit == limit && decision.window == window
        && (if decision.allowed then decision.resetAt == (if now == ZERO_TIME then wall else now) + window
            else decision.remaining == 0)
    {
      hide Decide, Normalize, Refines;
      var key := Normalize(f, account);
      if key == "" {
        return Decision(false, limit, 0, window, now + window);
      }
      DecisionFields(limit, window, Log(key), if now == ZERO_TIME then wall else now);
      decision := Record(key, if now == ZERO_TIME then wall else now);
    }
  }

  /**
   Over any sequence of calls with a clock that never runs backwards: no account was admitted more than
   limit times into any window, and the next request of an account is decided by its own admissions.
   */
  lemma AllowBounded(l: Limiter, account: string, now: int, t: int)
    requires l.Valid() && l.Refines() && ClockSorted(l.served + [Request(account, now)])
    ensures var admitted := Serve(l.limit, l.window, TimesOf(l.served, account)).1;
      && |InWindow(admitted, l.window, t)| <= l.limit
      && (Decide(l.limit, l.window, l.Log(account), now).1.allowed <==> |InWindow(admitted, l.window, now)| < l.limit)
  {
    hide Decide, ServeAll, Serve, InWindow;
    var requests := l.served + [Request(account, now)];
    assert forall i :: 0 <= i < |l.served| ==> requests[i] == l.served[i];
    EveryAccountBounded(l.limit, l.window, l.served, account, t);
    TimesSorted(requests, account);
    assert requests[..|l.served|] == l.served;
    AdmittedIff(l.limit, l.window, TimesOf(l.served, account), now);
  }
}
