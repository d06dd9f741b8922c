/**
 * The sliding-window limiter (packages/entitlements-iface/src/quota.ts), which keeps only recent
 * times, against a count over everything it ever accepted.
 */
module RateLimiter {
  import opened Prelude

  const WINDOW := 60000

  datatype Call = Call(tenantId: string, tier: int, now: int)

  type Windows = map<string, seq<int>>

  function LimitForTier(tier: int): int {
    if tier >= 3 then 1000 else if tier == 2 then 300 else 60
  }

  function Entries(w: Windows, tenantId: string): seq<int> {
    if tenantId in w then w[tenantId] else []
  }

  /** The times from `start` on, in their order. */
  function Recent(times: seq<int>, start: int): seq<int> {
    if times == [] then [] else Recent(Front(times), start) + if Last(times) >= start then [Last(times)] else []
  }

  /** There is room for one more at this time. */
  predicate HasRoom(times: seq<int>, now: int, limit: int) {
    |Recent(times, now - WINDOW)| < limit
  }

  /** The limiter's decision, from the times it kept. */
  predicate Accepts(w: Windows, c: Call) {
    HasRoom(Entries(w, c.tenantId), c.now, LimitForTier(c.tier))
  }

  function NextEntries(entries: seq<int>, now: int, limit: int): seq<int> {
    Recent(entries, now - WINDOW) + if HasRoom(entries, now, limit) then [now] else []
  }

  function After(w: Windows, c: Call): Windows {
    w[c.tenantId := NextEntries(Entries(w, c.tenantId), c.now, LimitForTier(c.tier))]
  }

  class Limiter {
    var windows: Windows

    constructor ()
      ensures windows == map[]
    {
      windows := map[];
    }

    /** Rejects when the quota is exceeded, and prunes the window either way. */
    method RecordTransitionWithinLimit(c: Call) returns (accepted: bool)
      modifies this
      ensures accepted <==> Accepts(old(windows), c)
      ensures var n := |Recent(Entries(old(windows), c.tenantId), c.now - 60000)|;
        accepted <==> n < 60 || (n < 300 && c.tier == 2) || (n < 1000 && c.tier >= 3)
      ensures windows == After(old(windows), c)
      ensures forall t | t != c.tenantId :: Entries(windows, t) == Entries(old(windows), t)
    {
      var limit := LimitForTier(c.tier);
      var windowStart := c.now - WINDOW;
      var entries := Entries(windows, c.tenantId);
      var filtered: seq<int> := [];
      for i := 0 to |entries|
        invariant filtered == Recent(entries[..i], windowStart)
      {
        assert Front(entries[..i + 1]) == entries[..i];
        if entries[i] >= windowStart {
          filtered := filtered + [entries[i]];
        }
      }
      assert entries[..|entries|] == entries;
      assert filtered + [] == filtered;
      if |filtered| >= limit {
        windows := windows[c.tenantId := filtered];
        return false;
      }
      filtered := filtered + [c.now];
      windows := windows[c.tenantId := filtered];
      return true;
    }
  }

  // ---------------------------------------------------------------- recent times

  lemma RecentSnoc(times: seq<int>, t: int, start: int)
    ensures Recent(times + [t], start) == Recent(times, start) + if t >= start then [t] else []
  {
    FrontLastSnoc(times, t);
  }

  /** Two cuts in a row cut at the later one. */
  lemma {:induction false} RecentTwice(times: seq<int>, a: int, b: int)
    ensures Recent(Recent(times, a), b) == Recent(times, Max(a, b))
  {
    if times != [] {
      RecentTwice(Front(times), a, b);
      if Last(times) >= a {
        RecentSnoc(Recent(Front(times), a), Last(times), b);
      } else {
        assert Recent(times, a) == Recent(Front(times), a);
        assert Recent(times, Max(a, b)) == Recent(Front(times), Max(a, b));
      }
    }
  }

  predicate SomeBetween(times: seq<int>, a: int, b: int) {
    exists i :: 0 <= i < |times| && a <= times[i] < b
  }

  lemma SomeBetweenSnoc(times: seq<int>, t: int, a: int, b: int)
    ensures SomeBetween(times + [t], a, b) <==> SomeBetween(times, a, b) || a <= t < b
  {
    assert (times + [t])[|times|] == t;
    assert forall i | 0 <= i < |times| :: (times + [t])[i] == times[i];
  }

  /** A later cut leaves fewer times, exactly if some lie between the cuts. */
  lemma {:induction false} LaterCut(times: seq<int>, a: int, b: int)
    requires a <= b
    ensures |Recent(times, b)| <= |Recent(times, a)|
    ensures |Recent(times, b)| < |Recent(times, a)| <==> SomeBetween(times, a, b)
  {
    if times != [] {
      LaterCut(Front(times), a, b);
      FrontLast(times);
      SomeBetweenSnoc(Front(times), Last(times), a, b);
    }
  }

  // ---------------------------------------------------------------- runs

  function Run(calls: seq<Call>): Windows {
    if calls == [] then map[] else After(Run(Front(calls)), Last(calls))
  }

  /** The times at which a tenant's calls were accepted. */
  function Accepted(calls: seq<Call>, tenantId: string): seq<int> {
    if calls == [] then [] else Accepted(Front(calls), tenantId) + NewlyAccepted(Run(Front(calls)), Last(calls), tenantId)
  }

  function NewlyAccepted(w: Windows, c: Call, tenantId: string): seq<int> {
    if c.tenantId == tenantId && Accepts(w, c) then [c.now] else []
  }

  /** The time of the tenant's latest call, accepted or not. */
  function LatestCall(calls: seq<Call>, tenantId: string): Option<int> {
    if calls == [] then None
    else if Last(calls).tenantId == tenantId then Some(Last(calls).now)
    else LatestCall(Front(calls), tenantId)
  }

  predicate NotBefore(latest: Option<int>, now: int) {
    latest.None? || latest.value <= now
  }

  /** The clock does not go back from one call of a tenant to its next. */
  predicate ClockHolds(calls: seq<Call>, tenantId: string) {
    calls == [] ||
    (&& ClockHolds(Front(calls), tenantId)
     && (Last(calls).tenantId == tenantId ==> NotBefore(LatestCall(Front(calls), tenantId), Last(calls).now)))
  }

  // ---------------------------------------------------------------- what the window forgets

  /** The call at `i` is one of the tenant's and was accepted. */
  predicate AcceptedAt(calls: seq<Call>, tenantId: string, i: nat) {
    i < |calls| && calls[i].tenantId == tenantId && Accepts(Run(calls[..i]), calls[i])
  }

  /** A later call of the tenant, more than a window after the call at `i`. */
  predicate CutsOff(calls: seq<Call>, tenantId: string, i: nat, j: nat) {
    i < j < |calls| && calls[j].tenantId == tenantId && calls[j].now > calls[i].now + WINDOW
  }

  /** An accepted call from `start` on was followed by a call more than a window later. */
  ghost predicate Forgotten(calls: seq<Call>, tenantId: string, start: int) {
    exists i: nat, j: nat :: ForgottenAt(calls, tenantId, start, i, j)
  }

  predicate ForgottenAt(calls: seq<Call>, tenantId: string, start: int, i: nat, j: nat) {
    AcceptedAt(calls, tenantId, i) && calls[i].now >= start && CutsOff(calls, tenantId, i, j)
  }

  /** The same, call by call: the last one cut off something, or an earlier one did. */
  predicate Forgets(calls: seq<Call>, tenantId: string, start: int) {
    calls != [] &&
    (|| Forgets(Front(calls), tenantId, start)
     || (Last(calls).tenantId == tenantId && SomeBetween(Accepted(Front(calls), tenantId), start, Last(calls).now - WINDOW)))
  }

  predicate AcceptedIn(calls: seq<Call>, tenantId: string, i: nat, a: int, b: int) {
    AcceptedAt(calls, tenantId, i) && a <= calls[i].now < b
  }

  lemma AcceptedAtPrefix(calls: seq<Call>, tenantId: string, i: nat)
    requires calls != []
    ensures AcceptedAt(calls, tenantId, i) <==>
      AcceptedAt(Front(calls), tenantId, i) || (i == |calls| - 1 && NewlyAccepted(Run(Front(calls)), Last(calls), tenantId) != [])
    ensures i < |calls| - 1 ==> calls[i] == Front(calls)[i]
  {
    if i < |calls| - 1 {
      assert Front(calls)[..i] == calls[..i];
    } else if i == |calls| - 1 {
      assert calls[..i] == Front(calls);
    }
  }

  lemma {:induction false} BetweenIsAccepted(calls: seq<Call>, tenantId: string, a: int, b: int) returns (i: nat)
    requires SomeBetween(Accepted(calls, tenantId), a, b)
    ensures AcceptedIn(calls, tenantId, i, a, b)
  {
    var before, c := Front(calls), Last(calls);
    if SomeBetween(Accepted(before, tenantId), a, b) {
      i := BetweenIsAccepted(before, tenantId, a, b);
      AcceptedAtPrefix(calls, tenantId, i);
    } else {
      i := |calls| - 1;
      AcceptedAtPrefix(calls, tenantId, i);
      NewBetween(Accepted(before, tenantId), NewlyAccepted(Run(before), c, tenantId), c.now, a, b);
    }
  }

  lemma NewBetween(times: seq<int>, more: seq<int>, now: int, a: int, b: int)
    requires more == [] || more == [now]
    ensures SomeBetween(times + more, a, b) <==> SomeBetween(times, a, b) || (more != [] && a <= now < b)
  {
    SomeBetweenSnoc(times, now, a, b);
    assert times + [] == times;
  }

  lemma {:induction false} AcceptedIsBetween(calls: seq<Call>, tenantId: string, i: nat, a: int, b: int)
    requires AcceptedIn(calls, tenantId, i, a, b)
    ensures SomeBetween(Accepted(calls, tenantId), a, b)
  {
    var before, c := Front(calls), Last(calls);
    AcceptedAtPrefix(calls, tenantId, i);
    if i < |calls| - 1 {
      AcceptedIsBetween(before, tenantId, i, a, b);
    }
    NewBetween(Accepted(before, tenantId), NewlyAccepted(Run(before), c, tenantId), c.now, a, b);
  }

  lemma {:induction false} ForgetsAt(calls: seq<Call>, tenantId: string, start: int) returns (i: nat, j: nat)
    requires Forgets(calls, tenantId, start)
    ensures ForgottenAt(calls, tenantId, start, i, j)
  {
    var before, c := Front(calls), Last(calls);
    if Forgets(before, tenantId, start) {
      i, j := ForgetsAt(before, tenantId, start);
    } else {
      i := BetweenIsAccepted(before, tenantId, start, c.now - WINDOW);
      j := |calls| - 1;
    }
    AcceptedAtPrefix(calls, tenantId, i);
  }

  lemma {:induction false} ForgottenForgets(calls: seq<Call>, tenantId: string, start: int, i: nat, j: nat)
    requires ForgottenAt(calls, tenantId, start, i, j)
    ensures Forgets(calls, tenantId, start)
  {
    var before, c := Front(calls), Last(calls);
    AcceptedAtPrefix(calls, tenantId, i);
    if j < |calls| - 1 {
      ForgottenForgets(before, tenantId, start, i, j);
    } else {
      AcceptedIsBetween(before, tenantId, i, start, c.now - WINDOW);
    }
  }

  lemma ForgetsMeans(calls: seq<Call>, tenantId: string, start: int)
    ensures Forgets(calls, tenantId, start) <==> Forgotten(calls, tenantId, start)
  {
    if Forgets(calls, tenantId, start) {
      var i, j := ForgetsAt(calls, tenantId, start);
    }
    if i: nat, j: nat :| ForgottenAt(calls, tenantId, start, i, j) {
      ForgottenForgets(calls, tenantId, start, i, j);
    }
  }

  /** Without accepted times between two starts it is the same to forget from the one or from the other. */
  lemma {:induction false} ForgetsShift(calls: seq<Call>, tenantId: string, a: int, b: int)
    requires a <= b
    ensures Forgets(calls, tenantId, b) ==> Forgets(calls, tenantId, a)
    ensures !SomeBetween(Accepted(calls, tenantId), a, b) ==> (Forgets(calls, tenantId, a) <==> Forgets(calls, tenantId, b))
  {
    if calls != [] {
      var before := Front(calls);
      ForgetsShift(before, tenantId, a, b);
      BetweenGrows(Accepted(before, tenantId), NewlyAccepted(Run(before), Last(calls), tenantId), a, b);
    }
  }

  lemma BetweenGrows(times: seq<int>, more: seq<int>, a: int, b: int)
    ensures SomeBetween(times, a, b) ==> SomeBetween(times + more, a, b)
  {
    if i :| 0 <= i < |times| && a <= times[i] < b {
      assert (times + more)[i] == times[i];
    }
  }

  /** The window counts no more than the full history, and as much exactly when nothing was forgotten. */
  predicate CountsAlike(entries: seq<int>, accepted: seq<int>, start: int, forgets: bool) {
    && |Recent(entries, start)| <= |Recent(accepted, start)|
    && (|Recent(entries, start)| < |Recent(accepted, start)| <==> forgets)
  }

  lemma CountsStep(entries: seq<int>, accepted: seq<int>, now: int, limit: int, start: int, forgets: bool, forgetsLater: bool)
    requires CountsAlike(entries, accepted, start, forgets)
    requires CountsAlike(entries, accepted, Max(start, now - WINDOW), forgetsLater)
    requires forgetsLater ==> forgets
    requires !SomeBetween(accepted, start, now - WINDOW) ==> (forgets <==> forgetsLater)
    ensures CountsAlike(NextEntries(entries, now, limit), accepted + (if HasRoom(entries, now, limit) then [now] else []), start,
                        forgets || SomeBetween(accepted, start, now - WINDOW))
  {
    var cut := now - WINDOW;
    RecentTwice(entries, cut, start);
    RecentSnoc(Recent(entries, cut), now, start);
    RecentSnoc(accepted, now, start);
    LaterCut(accepted, start, Max(start, cut));
    assert Recent(entries, cut) + [] == Recent(entries, cut) && accepted + [] == accepted;
  }

  lemma {:induction false} WindowCounts(calls: seq<Call>, tenantId: string, start: int)
    ensures CountsAlike(Entries(Run(calls), tenantId), Accepted(calls, tenantId), start, Forgets(calls, tenantId, start))
  {
    if calls != [] {
      var before, c := Front(calls), Last(calls);
      var later := Max(start, c.now - WINDOW);
      WindowCounts(before, tenantId, start);
      WindowCounts(before, tenantId, later);
      ForgetsShift(before, tenantId, start, later);
      WindowStep(Run(before), c, Accepted(before, tenantId), tenantId, start, Forgets(before, tenantId, start), Forgets(before, tenantId, later));
    }
  }

  lemma WindowStep(w: Windows, c: Call, accepted: seq<int>, tenantId: string, start: int, forgets: bool, forgetsLater: bool)
    requires CountsAlike(Entries(w, tenantId), accepted, start, forgets)
    requires CountsAlike(Entries(w, tenantId), accepted, Max(start, c.now - WINDOW), forgetsLater)
    requires forgetsLater ==> forgets
    requires !SomeBetween(accepted, start, Max(start, c.now - WINDOW)) ==> (forgets <==> forgetsLater)
    ensures CountsAlike(Entries(After(w, c), tenantId), accepted + NewlyAccepted(w, c, tenantId), start,
                        forgets || (c.tenantId == tenantId && SomeBetween(accepted, start, c.now - WINDOW)))
  {
    if c.tenantId == tenantId {
      CountsStep(Entries(w, tenantId), accepted, c.now, LimitForTier(c.tier), start, forgets, forgetsLater);
    } else {
      assert accepted + [] == accepted;
    }
  }

  /** The window and the full history leave room alike, whatever the limit is. */
  ghost predicate DecideAlike(entries: seq<int>, accepted: seq<int>, now: int) {
    forall limit: int :: HasRoom(entries, now, limit) <==> HasRoom(accepted, now, limit)
  }

  /**
   * Whatever the clock does, the pruned window decides as a count over all accepted calls of the
   * tenant, for every limit, if and only if no accepted call of the last window was followed by
   * a call of the tenant more than a window after it.
   */
  lemma DecidesExactly(calls: seq<Call>, tenantId: string, now: int)
    ensures DecideAlike(Entries(Run(calls), tenantId), Accepted(calls, tenantId), now) <==>
      !Forgotten(calls, tenantId, now - WINDOW)
  {
    WindowCounts(calls, tenantId, now - WINDOW);
    ForgetsMeans(calls, tenantId, now - WINDOW);
    AlikeMeans(Entries(Run(calls), tenantId), Accepted(calls, tenantId), now, Forgets(calls, tenantId, now - WINDOW));
  }

  lemma AlikeMeans(entries: seq<int>, accepted: seq<int>, now: int, forgets: bool)
    requires CountsAlike(entries, accepted, now - WINDOW, forgets)
    ensures DecideAlike(entries, accepted, now) <==> !forgets
  {
    if forgets {
      var limit := |Recent(accepted, now - WINDOW)|;
      assert HasRoom(entries, now, limit) && !HasRoom(accepted, now, limit);
    }
  }

  lemma {:induction false} LatestIsLast(calls: seq<Call>, tenantId: string, j: nat)
    requires ClockHolds(calls, tenantId) && j < |calls| && calls[j].tenantId == tenantId
    ensures LatestCall(calls, tenantId).Some? && calls[j].now <= LatestCall(calls, tenantId).value
  {
    if j < |calls| - 1 {
      LatestIsLast(Front(calls), tenantId, j);
    }
  }

  /**
   * While the clock does not go back, the limiter decides every call exactly as a count over
   * all calls of the tenant that it ever accepted.
   */
  lemma RoomByFullHistory(calls: seq<Call>, c: Call)
    requires ClockHolds(calls, c.tenantId) && NotBefore(LatestCall(calls, c.tenantId), c.now)
    ensures Accepts(Run(calls), c) <==>
      HasRoom(Accepted(calls, c.tenantId), c.now, LimitForTier(c.tier))
  {
    DecidesExactly(calls, c.tenantId, c.now);
    var start := c.now - WINDOW;
    forall i: nat, j: nat
      ensures !ForgottenAt(calls, c.tenantId, start, i, j)
    {
      if CutsOff(calls, c.tenantId, i, j) {
        LatestIsLast(calls, c.tenantId, j);
      }
    }
    RoomOf(Run(calls), Accepted(calls, c.tenantId), c);
  }

  lemma RoomOf(w: Windows, accepted: seq<int>, c: Call)
    requires DecideAlike(Entries(w, c.tenantId), accepted, c.now)
    ensures Accepts(w, c) <==> HasRoom(accepted, c.now, LimitForTier(c.tier))
  {
  }

  // ---------------------------------------------------------------- the bound

  /** The times in the closed interval of one window's length from `x` on. */
  function Within(times: seq<int>, x: int): seq<int> {
    if times == [] then [] else Within(Front(times), x) + if x <= Last(times) <= x + WINDOW then [Last(times)] else []
  }

  lemma {:induction false} WithinIsRecent(times: seq<int>, x: int, start: int)
    requires start <= x
    ensures |Within(times, x)| <= |Recent(times, start)|
  {
    if times != [] {
      WithinIsRecent(Front(times), x, start);
    }
  }

  /** The limit that applied to the last accepted call of the interval. */
  function LimitOfLast(calls: seq<Call>, tenantId: string, x: int): Option<int> {
    if calls == [] then None
    else if NewlyAccepted(Run(Front(calls)), Last(calls), tenantId) != [] && x <= Last(calls).now <= x + WINDOW
    then Some(LimitForTier(Last(calls).tier))
    else LimitOfLast(Front(calls), tenantId, x)
  }

  /**
   * Any closed interval of one window's length holds at most as many accepted calls of a tenant
   * as the limit that applied to the last of them.
   */
  lemma {:induction false} WithinLimitOfLast(calls: seq<Call>, tenantId: string, x: int)
    requires ClockHolds(calls, tenantId)
    ensures var n := |Within(Accepted(calls, tenantId), x)|;
      match LimitOfLast(calls, tenantId, x)
      case None => n == 0
      case Some(limit) => n <= limit
  {
    if calls != [] {
      var before, c := Front(calls), Last(calls);
      WithinLimitOfLast(before, tenantId, x);
      if c.tenantId == tenantId {
        RoomByFullHistory(before, c);
      }
      BoundStep(Run(before), Accepted(before, tenantId), c, tenantId, x);
    }
  }

  lemma BoundStep(w: Windows, accepted: seq<int>, c: Call, tenantId: string, x: int)
    requires c.tenantId == tenantId ==> (Accepts(w, c) <==> HasRoom(accepted, c.now, LimitForTier(c.tier)))
    ensures var more := NewlyAccepted(w, c, tenantId);
      if more != [] && x <= c.now <= x + WINDOW then |Within(accepted + more, x)| <= LimitForTier(c.tier)
      else Within(accepted + more, x) == Within(accepted, x)
  {
    if NewlyAccepted(w, c, tenantId) == [] {
      assert accepted + [] == accepted;
    } else {
      FrontLastSnoc(accepted, c.now);
      if x <= c.now <= x + WINDOW {
        WithinIsRecent(accepted, x, c.now - WINDOW);
      }
    }
  }

  // ---------------------------------------------------------------- the same in numbers

  /** The tenant's calls are in the order of their times. */
  ghost predicate InOrder(calls: seq<Call>, tenantId: string) {
    forall i, j | 0 <= i < j < |calls| && calls[i].tenantId == tenantId && calls[j].tenantId == tenantId ::
      calls[i].now <= calls[j].now
  }

  lemma {:induction false} LatestIsACall(calls: seq<Call>, tenantId: string)
    requires LatestCall(calls, tenantId).Some?
    ensures exists i :: 0 <= i < |calls| && calls[i].tenantId == tenantId && calls[i].now == LatestCall(calls, tenantId).value
  {
    if Last(calls).tenantId != tenantId {
      LatestIsACall(Front(calls), tenantId);
    }
  }

  lemma {:induction false} InOrderHolds(calls: seq<Call>, tenantId: string)
    requires InOrder(calls, tenantId)
    ensures ClockHolds(calls, tenantId)
  {
    if calls != [] {
      InOrderHolds(Front(calls), tenantId);
      if LatestCall(Front(calls), tenantId).Some? {
        LatestIsACall(Front(calls), tenantId);
      }
    }
  }

  /** The accepted calls of the tenant from time `a` to time `b`, by their positions. */
  ghost function Hits(calls: seq<Call>, tenantId: string, a: int, b: int): set<nat> {
    set i: nat | i < |calls| && AcceptedAt(calls, tenantId, i) && a <= calls[i].now <= b
  }

  lemma HitsNext(calls: seq<Call>, tenantId: string, a: int, b: int)
    requires calls != []
    ensures var c := Last(calls);
      |Hits(calls, tenantId, a, b)| == |Hits(Front(calls), tenantId, a, b)|
        + if NewlyAccepted(Run(Front(calls)), c, tenantId) != [] && a <= c.now <= b then 1 else 0
  {
    var last: nat := |calls| - 1;
    forall i: nat
      ensures i in Hits(calls, tenantId, a, b) <==>
        || i in Hits(Front(calls), tenantId, a, b)
        || (i == last && NewlyAccepted(Run(Front(calls)), Last(calls), tenantId) != [] && a <= Last(calls).now <= b)
    {
      AcceptedAtPrefix(calls, tenantId, i);
    }
    if NewlyAccepted(Run(Front(calls)), Last(calls), tenantId) != [] && a <= Last(calls).now <= b {
      assert Hits(calls, tenantId, a, b) == Hits(Front(calls), tenantId, a, b) + {last};
    } else {
      assert Hits(calls, tenantId, a, b) == Hits(Front(calls), tenantId, a, b);
    }
  }

  lemma {:induction false} WithinCountsHits(calls: seq<Call>, tenantId: string, x: int)
    ensures |Within(Accepted(calls, tenantId), x)| == |Hits(calls, tenantId, x, x + WINDOW)|
  {
    if calls != [] {
      var before := Front(calls);
      WithinCountsHits(before, tenantId, x);
      HitsNext(calls, tenantId, x, x + WINDOW);
      FrontLastSnoc(Accepted(before, tenantId), Last(calls).now);
      assert Accepted(before, tenantId) + [] == Accepted(before, tenantId);
    } else {
      assert Hits(calls, tenantId, x, x + WINDOW) == {};
    }
  }

  lemma {:induction false} RecentIsWithin(times: seq<int>, x: int)
    requires forall i | 0 <= i < |times| :: times[i] <= x + WINDOW
    ensures Recent(times, x) == Within(times, x)
  {
    if times != [] {
      RecentIsWithin(Front(times), x);
    }
  }

  lemma AcceptedNotLater(calls: seq<Call>, c: Call)
    requires InOrder(calls + [c], c.tenantId)
    ensures forall i | 0 <= i < |Accepted(calls, c.tenantId)| :: Accepted(calls, c.tenantId)[i] <= c.now
  {
    var times := Accepted(calls, c.tenantId);
    forall i | 0 <= i < |times|
      ensures times[i] <= c.now
    {
      assert SomeBetween(times, times[i], times[i] + 1);
      var k := BetweenIsAccepted(calls, c.tenantId, times[i], times[i] + 1);
      assert (calls + [c])[k] == calls[k] && (calls + [c])[|calls|] == c;
    }
  }

  lemma HistoryCounts(calls: seq<Call>, c: Call)
    requires InOrder(calls + [c], c.tenantId)
    ensures |Recent(Accepted(calls, c.tenantId), c.now - WINDOW)| == |Hits(calls, c.tenantId, c.now - WINDOW, c.now)|
  {
    AcceptedNotLater(calls, c);
    RecentIsWithin(Accepted(calls, c.tenantId), c.now - WINDOW);
    WithinCountsHits(calls, c.tenantId, c.now - WINDOW);
  }

  lemma LastInOrder(calls: seq<Call>, c: Call)
    requires InOrder(calls + [c], c.tenantId)
    ensures ClockHolds(calls, c.tenantId) && NotBefore(LatestCall(calls, c.tenantId), c.now)
  {
    InOrderHolds(calls + [c], c.tenantId);
    FrontLastSnoc(calls, c);
  }

  lemma RoomByTier(w: Windows, c: Call, accepted: seq<int>, n: nat)
    requires Accepts(w, c) <==> HasRoom(accepted, c.now, LimitForTier(c.tier))
    requires |Recent(accepted, c.now - WINDOW)| == n
    ensures c.tier >= 3 ==> (Accepts(w, c) <==> n < 1000)
    ensures c.tier == 2 ==> (Accepts(w, c) <==> n < 300)
    ensures c.tier <= 1 ==> (Accepts(w, c) <==> n < 60)
  {
  }

  /**
   * While the tenant's calls come in the order of their times, the pruned window accepts a call
   * exactly when fewer than 1000, 300 or 60 calls of the tenant, by tier, were ever accepted in
   * the 60000 ms up to it.
   */
  lemma DecidesByFullHistory(calls: seq<Call>, c: Call)
    requires InOrder(calls + [c], c.tenantId)
    ensures c.tier >= 3 ==> (Accepts(Run(calls), c) <==> |Hits(calls, c.tenantId, c.now - 60000, c.now)| < 1000)
    ensures c.tier == 2 ==> (Accepts(Run(calls), c) <==> |Hits(calls, c.tenantId, c.now - 60000, c.now)| < 300)
    ensures c.tier <= 1 ==> (Accepts(Run(calls), c) <==> |Hits(calls, c.tenantId, c.now - 60000, c.now)| < 60)
  {
    LastInOrder(calls, c);
    RoomByFullHistory(calls, c);
    HistoryCounts(calls, c);
    RoomByTier(Run(calls), c, Accepted(calls, c.tenantId), |Hits(calls, c.tenantId, c.now - 60000, c.now)|);
  }

  ghost predicate Greatest(positions: set<nat>, m: nat) {
    m in positions && forall i | i in positions :: i <= m
  }

  /** The accepted call at `m` is the last of the interval. */
  ghost predicate LastHit(calls: seq<Call>, tenantId: string, x: int, m: nat) {
    Greatest(Hits(calls, tenantId, x, x + 60000), m)
  }

  lemma {:induction false} LimitOfLastHit(calls: seq<Call>, tenantId: string, x: int, m: nat)
    requires LastHit(calls, tenantId, x, m)
    ensures LimitOfLast(calls, tenantId, x) == Some(LimitForTier(calls[m].tier))
  {
    AcceptedAtPrefix(calls, tenantId, m);
    AcceptedAtPrefix(calls, tenantId, |calls| - 1);
    if m < |calls| - 1 {
      var hits, before := Hits(calls, tenantId, x, x + 60000), Hits(Front(calls), tenantId, x, x + 60000);
      assert |calls| - 1 !in hits;
      forall i | i in before
        ensures i <= m
      {
        AcceptedAtPrefix(calls, tenantId, i);
        assert i in hits;
      }
      LimitOfLastHit(Front(calls), tenantId, x, m);
    }
  }

  /**
   * While the tenant's calls come in the order of their times, any closed interval of 60000 ms
   * holds at most 1000, 300 or 60 accepted calls of the tenant, by the tier of the last of them.
   */
  lemma NeverMoreThanTheLimit(calls: seq<Call>, tenantId: string, x: int, m: nat)
    requires InOrder(calls, tenantId) && LastHit(calls, tenantId, x, m)
    ensures |Hits(calls, tenantId, x, x + 60000)| <= 1000
    ensures calls[m].tier <= 2 ==> |Hits(calls, tenantId, x, x + 60000)| <= 300
    ensures calls[m].tier <= 1 ==> |Hits(calls, tenantId, x, x + 60000)| <= 60
  {
    InOrderHolds(calls, tenantId);
    WithinLimitOfLast(calls, tenantId, x);
    WithinCountsHits(calls, tenantId, x);
    LimitOfLastHit(calls, tenantId, x, m);
  }

  // ---------------------------------------------------------------- when the clock goes back

  function Zeros(n: nat): seq<int> {
    if n == 0 then [] else Zeros(n - 1) + [0]
  }

  lemma {:induction false} RecentZeros(n: nat, start: int)
    ensures |Zeros(n)| == n
    ensures Recent(Zeros(n), start) == if start <= 0 then Zeros(n) else []
  {
    if n == 0 {
      assert Zeros(0) == [] && Recent([], start) == [];
    } else {
      var before := Zeros(n - 1);
      RecentZeros(n - 1, start);
      assert Zeros(n) == before + [0];
      RecentSnoc(before, 0, start);
      assert [] + [] == Recent([], start);
    }
  }

  /** Many calls at time 0. */
  function Burst(n: nat): seq<Call> {
    if n == 0 then [] else Burst(n - 1) + [Call("t", 1, 0)]
  }

  lemma RunSnoc(calls: seq<Call>, c: Call)
    ensures Run(calls + [c]) == After(Run(calls), c)
    ensures Accepted(calls + [c], c.tenantId) == Accepted(calls, c.tenantId) + NewlyAccepted(Run(calls), c, c.tenantId)
  {
    FrontLastSnoc(calls, c);
  }

  lemma {:induction false} BurstIsAccepted(n: nat)
    requires n <= 60
    ensures Entries(Run(Burst(n)), "t") == Zeros(n) && Accepted(Burst(n), "t") == Zeros(n)
  {
    if n > 0 {
      BurstIsAccepted(n - 1);
      OneMoreCall(Burst(n - 1), n - 1);
    }
  }

  lemma OneMoreCall(calls: seq<Call>, n: nat)
    requires n < 60 && Entries(Run(calls), "t") == Zeros(n) && Accepted(calls, "t") == Zeros(n)
    ensures Entries(Run(calls + [Call("t", 1, 0)]), "t") == Zeros(n + 1)
    ensures Accepted(calls + [Call("t", 1, 0)], "t") == Zeros(n + 1)
  {
    RunSnoc(calls, Call("t", 1, 0));
    OneMoreZero(Run(calls), n);
  }

  lemma OneMoreZero(w: Windows, n: nat)
    requires n < 60 && Entries(w, "t") == Zeros(n)
    ensures Entries(After(w, Call("t", 1, 0)), "t") == Zeros(n + 1)
    ensures NewlyAccepted(w, Call("t", 1, 0), "t") == [0]
  {
    RecentZeros(n, -WINDOW);
  }

  lemma LateCall(w: Windows)
    requires Entries(w, "t") == Zeros(60)
    ensures Entries(After(w, Call("t", 1, 100000)), "t") == [100000]
    ensures NewlyAccepted(w, Call("t", 1, 100000), "t") == [100000]
  {
    RecentZeros(60, 40000);
    assert [] + [100000] == [100000];
  }

  lemma EarlyCall(w: Windows, accepted: seq<int>)
    requires Entries(w, "t") == [100000] && accepted == Zeros(60) + [100000]
    ensures Accepts(w, Call("t", 1, 0)) && !HasRoom(accepted, 0, LimitForTier(1))
  {
    assert [] + [100000] == [100000];
    RecentSnoc([], 100000, -WINDOW);
    RecentZeros(60, -WINDOW);
    RecentSnoc(Zeros(60), 100000, -WINDOW);
  }

  /** If the clock goes back, the limiter forgets what it cut: it accepts a call that the full count rejects. */
  lemma ClockGoingBackForgets()
    ensures var calls := Burst(60) + [Call("t", 1, 100000)];
      var c := Call("t", 1, 0);
      Accepts(Run(calls), c) && !HasRoom(Accepted(calls, "t"), c.now, LimitForTier(c.tier))
  {
    var calls := Burst(60) + [Call("t", 1, 100000)];
    BurstIsAccepted(60);
    RunSnoc(Burst(60), Call("t", 1, 100000));
    LateCall(Run(Burst(60)));
    EarlyCall(Run(calls), Accepted(calls, "t"));
  }
}
