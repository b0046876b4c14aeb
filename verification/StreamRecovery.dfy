/** The stream recovery policy: a deque of recent failures decides when a camera stream is rebuilt.
    The deque is compared with the full history of events. Times come from a steady clock and are
    positive; 0 is the clock's zero, which the policy reads as "never". */
module StreamRecovery {

  datatype Config = Config(threshold: nat, window: nat, backoff: nat, healthyReset: nat)

  datatype Event = Failure(now: nat) | Success(now: nat) | Restart(now: nat)

  // ---------- what the full history says ----------

  function Previous(h: seq<Event>): seq<Event>
    requires h != []
  {
    h[..|h| - 1]
  }

  function Latest(h: seq<Event>): Event
    requires h != []
  {
    h[|h| - 1]
  }

  function LastFailure(h: seq<Event>): nat {
    if h == [] then 0 else if Latest(h).Failure? then Latest(h).now else LastFailure(Previous(h))
  }

  function LastRestart(h: seq<Event>): nat {
    if h == [] then 0 else if Latest(h).Restart? then Latest(h).now else LastRestart(Previous(h))
  }

  /** No failure for the healthy period, counted from the last one. */
  predicate HealthyAt(h: seq<Event>, now: nat, c: Config) {
    LastFailure(h) != 0 && now - LastFailure(h) >= c.healthyReset
  }

  /** All failures since the last reset: a restart, a success after the healthy period, or a failure
      that itself comes after the healthy period. Nothing is ever dropped for its age. */
  function SinceReset(h: seq<Event>, c: Config): seq<nat> {
    if h == [] then []
    else
      match Latest(h)
      case Failure(now) => (if HealthyAt(Previous(h), now, c) then [] else SinceReset(Previous(h), c)) + [now]
      case Success(now) => if HealthyAt(Previous(h), now, c) then [] else SinceReset(Previous(h), c)
      case Restart(_) => []
  }

  function Within(times: seq<nat>, now: nat, window: nat): seq<nat> {
    if times == [] then []
    else (if now - times[0] <= window then [times[0]] else []) + Within(times[1..], now, window)
  }

  /** The failures that count: those within the window of the latest failure. */
  function Recent(h: seq<Event>, c: Config): seq<nat> {
    Within(SinceReset(h, c), LastFailure(h), c.window)
  }

  /** The latest event is a failure that meets the threshold outside the backoff. */
  predicate Triggers(h: seq<Event>, c: Config) {
    && h != [] && Latest(h).Failure?
    && (LastRestart(h) == 0 || Latest(h).now - LastRestart(h) >= c.backoff)
    && |Recent(h, c)| >= c.threshold
  }

  predicate Requested(h: seq<Event>, c: Config) {
    h != [] &&
    match Latest(h)
    case Failure(_) => Requested(Previous(h), c) || Triggers(h, c)
    case Success(now) => !HealthyAt(Previous(h), now, c) && Requested(Previous(h), c)
    case Restart(_) => false
  }

  predicate Degraded(h: seq<Event>, c: Config) {
    h != [] &&
    match Latest(h)
    case Failure(_) => true
    case Success(now) => !HealthyAt(Previous(h), now, c) && Degraded(Previous(h), c)
    case Restart(_) => true
  }

  predicate Timeline(h: seq<Event>) {
    && (forall i :: 0 <= i < |h| ==> h[i].now > 0)
    && (forall i, j :: 0 <= i <= j < |h| ==> h[i].now <= h[j].now)
  }

  // ---------- the sliding window ----------

  predicate Ascending(times: seq<nat>) {
    forall i, j :: 0 <= i <= j < |times| ==> times[i] <= times[j]
  }

  lemma {:induction false} SinceResetAscends(h: seq<Event>, c: Config)
    requires Timeline(h)
    ensures Ascending(SinceReset(h, c))
    ensures forall t :: t in SinceReset(h, c) ==> t <= LastFailure(h)
    ensures h != [] ==> LastFailure(h) <= Latest(h).now
  {
    if h != [] {
      SinceResetAscends(Previous(h), c);
      if |h| > 1 {
        assert Latest(Previous(h)).now <= Latest(h).now;
      }
      var before := SinceReset(Previous(h), c);
      forall i | 0 <= i < |before|
        ensures before[i] <= Latest(h).now
      {
        assert before[i] in before;
      }
    }
  }

  /** On ascending times, looking again at a later time only ever drops from the front. */
  lemma {:induction false} WithinAgain(times: seq<nat>, earlier: nat, now: nat, window: nat)
    requires earlier <= now
    ensures Within(Within(times, earlier, window), now, window) == Within(times, now, window)
  {
    if times != [] {
      WithinAgain(times[1..], earlier, now, window);
      var rest := Within(times[1..], earlier, window);
      if earlier - times[0] <= window {
        var kept := [times[0]] + rest;
        assert Within(times, earlier, window) == kept;
        assert kept[0] == times[0] && kept[1..] == rest;
      } else {
        assert Within(times, earlier, window) == rest;
      }
    }
  }

  lemma {:induction false} WithinSelects(times: seq<nat>, now: nat, window: nat)
    ensures forall t :: t in Within(times, now, window) ==> t in times && now - t <= window
    ensures |Within(times, now, window)| <= |times|
  {
    if times != [] {
      WithinSelects(times[1..], now, window);
    }
  }

  lemma {:induction false} WithinAscends(times: seq<nat>, now: nat, window: nat)
    requires Ascending(times)
    ensures Ascending(Within(times, now, window))
  {
    if times != [] {
      var rest := Within(times[1..], now, window);
      WithinAscends(times[1..], now, window);
      WithinSelects(times[1..], now, window);
      forall i | 0 <= i < |rest|
        ensures times[0] <= rest[i]
      {
        assert rest[i] in times[1..];
      }
    }
  }

  lemma {:induction false} WithinAll(times: seq<nat>, now: nat, window: nat)
    requires forall t :: t in times ==> now - t <= window
    ensures Within(times, now, window) == times
  {
    if times != [] {
      assert times[0] in times && forall t :: t in times[1..] ==> t in times;
      WithinAll(times[1..], now, window);
    }
  }

  lemma {:induction false} WithinAppend(times: seq<nat>, now: nat, window: nat)
    ensures Within(times + [now], now, window) == Within(times, now, window) + [now]
  {
    if times != [] {
      assert (times + [now])[1..] == times[1..] + [now];
      WithinAppend(times[1..], now, window);
    }
  }

  /** One more failure: the deque without its stale front, and the new failure at the back. */
  lemma RecentAfterFailure(h: seq<Event>, now: nat, c: Config)
    requires Timeline(h + [Failure(now)])
    ensures var kept := if HealthyAt(h, now, c) then [] else Recent(h, c);
            Recent(h + [Failure(now)], c) == Within(kept, now, c.window) + [now]
  {
    var next := h + [Failure(now)];
    assert Previous(next) == h && Latest(next) == Failure(now);
    assert Timeline(h) by {
      assert forall i :: 0 <= i < |h| ==> next[i] == h[i];
    }
    SinceResetAscends(next, c);
    if h != [] {
      assert next[|h| - 1] == Latest(h);
      SinceResetAscends(h, c);
    }
    var since := if HealthyAt(h, now, c) then [] else SinceReset(h, c);
    WithinAppend(since, now, c.window);
    WithinAgain(since, LastFailure(h), now, c.window);
  }

  /** A success resets what the full history says after the healthy period, and changes nothing before. */
  lemma AfterSuccess(h: seq<Event>, now: nat, c: Config)
    ensures var next := h + [Success(now)];
            && LastFailure(next) == LastFailure(h) && LastRestart(next) == LastRestart(h)
            && Recent(next, c) == (if HealthyAt(h, now, c) then [] else Recent(h, c))
            && Requested(next, c) == (!HealthyAt(h, now, c) && Requested(h, c))
            && Degraded(next, c) == (!HealthyAt(h, now, c) && Degraded(h, c))
  {
    assert Previous(h + [Success(now)]) == h && Latest(h + [Success(now)]) == Success(now);
  }

  lemma AfterRestart(h: seq<Event>, now: nat, c: Config)
    ensures var next := h + [Restart(now)];
            && LastFailure(next) == LastFailure(h) && LastRestart(next) == now
            && Recent(next, c) == [] && !Requested(next, c) && Degraded(next, c)
  {
    assert Previous(h + [Restart(now)]) == h && Latest(h + [Restart(now)]) == Restart(now);
  }

  // ---------- restarts are rare ----------

  /** Failures since the last restart, whatever was reset in between. */
  function FailuresSinceRestart(h: seq<Event>): nat {
    if h == [] || Latest(h).Restart? then 0
    else (if Latest(h).Failure? then 1 else 0) + FailuresSinceRestart(Previous(h))
  }

  lemma {:induction false} SinceResetCounts(h: seq<Event>, c: Config)
    ensures |SinceReset(h, c)| <= FailuresSinceRestart(h)
  {
    if h != [] {
      SinceResetCounts(Previous(h), c);
    }
  }

  /** A pending request was raised by a failure since the last restart, outside its backoff, with the
      threshold met by failures that all came after that restart. */
  lemma {:induction false} RequestHasReason(h: seq<Event>, c: Config)
    requires Timeline(h) && Requested(h, c)
    ensures FailuresSinceRestart(h) >= c.threshold
    ensures LastRestart(h) != 0 ==> LastFailure(h) - LastRestart(h) >= c.backoff
  {
    var p := Previous(h);
    assert Timeline(p);
    if Triggers(h, c) {
      SinceResetCounts(h, c);
      SinceResetAscends(h, c);
      WithinSelects(SinceReset(h, c), LastFailure(h), c.window);
    } else {
      RequestHasReason(p, c);
      SinceResetAscends(p, c);
      assert Latest(p).now <= Latest(h).now;
    }
  }

  /** The provider restarts a stream only when the policy asks for it. */
  predicate DrivenByRequests(h: seq<Event>, c: Config) {
    forall k :: 0 <= k < |h| && h[k].Restart? ==> Requested(h[..k], c)
  }

  function CountFailures(h: seq<Event>): nat {
    if h == [] then 0 else (if h[0].Failure? then 1 else 0) + CountFailures(h[1..])
  }

  lemma {:induction false} CountLast(h: seq<Event>, e: Event)
    ensures CountFailures(h + [e]) == CountFailures(h) + (if e.Failure? then 1 else 0)
  {
    if h == [] {
      assert h + [e] == [e];
    } else {
      assert (h + [e])[1..] == h[1..] + [e];
      CountLast(h[1..], e);
    }
  }

  lemma {:induction false} SinceThatRestart(h: seq<Event>, i: nat, j: nat)
    requires i < j <= |h| && h[i].Restart? && forall k :: i < k < j ==> !h[k].Restart?
    ensures LastRestart(h[..j]) == h[i].now && FailuresSinceRestart(h[..j]) == CountFailures(h[i + 1..j])
    decreases j
  {
    assert Latest(h[..j]) == h[j - 1] && Previous(h[..j]) == h[..j - 1];
    if j == i + 1 {
      assert h[i + 1..j] == [];
    } else {
      SinceThatRestart(h, i, j - 1);
      assert h[i + 1..j] == h[i + 1..j - 1] + [h[j - 1]];
      CountLast(h[i + 1..j - 1], h[j - 1]);
    }
  }

  /** Two restarts in a row are at least the backoff apart, with at least threshold failures between
      them. */
  lemma RestartsAreSpaced(h: seq<Event>, c: Config, i: nat, j: nat)
    requires Timeline(h) && DrivenByRequests(h, c)
    requires i < j < |h| && h[i].Restart? && h[j].Restart? && forall k :: i < k < j ==> !h[k].Restart?
    ensures h[j].now - h[i].now >= c.backoff
    ensures CountFailures(h[i + 1..j]) >= c.threshold
  {
    var before := h[..j];
    assert Timeline(before);
    RequestHasReason(before, c);
    SinceThatRestart(h, i, j);
    SinceResetAscends(before, c);
    assert Latest(before) == h[j - 1] && h[j - 1].now <= h[j].now;
  }

  lemma {:induction false} TriggeredAt(h: seq<Event>, c: Config) returns (k: nat)
    requires Requested(h, c)
    ensures 0 < k <= |h| && Triggers(h[..k], c) && forall j :: k <= j <= |h| ==> Requested(h[..j], c)
  {
    assert h[..|h|] == h;
    if Triggers(h, c) {
      k := |h|;
    } else {
      k := TriggeredAt(Previous(h), c);
      forall j | k <= j <= |h|
        ensures Requested(h[..j], c)
      {
        assert j < |h| ==> Previous(h)[..j] == h[..j];
      }
      assert Previous(h)[..k] == h[..k];
    }
  }

  lemma PendingSurvives(h: seq<Event>, j: nat, c: Config)
    requires j < |h| && Requested(h[..j + 1], c)
    ensures !h[j].Restart? && !(h[j].Success? && HealthyAt(h[..j], h[j].now, c))
  {
    assert Previous(h[..j + 1]) == h[..j] && Latest(h[..j + 1]) == h[j];
  }

  /** A request that is pending now was raised at some failure that met the threshold outside the backoff,
      and has been pending ever since: no restart and no healthy success came in between. */
  lemma RequestHasTrigger(h: seq<Event>, c: Config) returns (k: nat)
    requires Requested(h, c)
    ensures 0 < k <= |h| && Triggers(h[..k], c)
    ensures forall j :: k <= j < |h| ==> !h[j].Restart? && !(h[j].Success? && HealthyAt(h[..j], h[j].now, c))
  {
    k := TriggeredAt(h, c);
    forall j | k <= j < |h|
      ensures !h[j].Restart? && !(h[j].Success? && HealthyAt(h[..j], h[j].now, c))
    {
      PendingSurvives(h, j, c);
    }
  }

  // ---------- a restart is requested exactly when it is due ----------

  /** The last failure before event k. */
  predicate LastFailureBefore(h: seq<Event>, i: nat, k: nat) {
    i < k <= |h| && h[i].Failure? && forall j :: i < j < k ==> !h[j].Failure?
  }

  /** The event comes at least the healthy period after the last failure before it. */
  predicate Healthy(h: seq<Event>, k: nat, c: Config) {
    k < |h| && exists i :: 0 <= i < k && LastFailureBefore(h, i, k) && h[k].now - h[i].now >= c.healthyReset
  }

  /** The event makes the policy forget the failures before it. */
  predicate Resets(h: seq<Event>, k: nat, c: Config) {
    k < |h| && (h[k].Restart? || Healthy(h, k, c))
  }

  /** A failure that no later event of the history made the policy forget. */
  predicate Remembered(h: seq<Event>, i: nat, c: Config) {
    i < |h| && h[i].Failure? && forall j :: i < j < |h| ==> !Resets(h, j, c)
  }

  /** The remembered failures that lie within the window of a moment. */
  function Counted(h: seq<Event>, now: nat, c: Config): set<nat> {
    set i: nat | 0 <= i < |h| && Remembered(h, i, c) && now - h[i].now <= c.window
  }

  /** At this failure the policy has to ask for a restart: enough failures within the window are remembered, and
      every restart so far is at least the backoff ago. */
  predicate RestartDue(h: seq<Event>, k: nat, c: Config) {
    && k < |h| && h[k].Failure?
    && |Counted(h[..k + 1], h[k].now, c)| >= c.threshold
    && forall i :: 0 <= i < k && h[i].Restart? ==> h[k].now - h[i].now >= c.backoff
  }

  lemma {:induction false} LastFailureIs(h: seq<Event>, k: nat)
    requires k <= |h|
    ensures if forall i :: 0 <= i < k ==> !h[i].Failure? then LastFailure(h[..k]) == 0
            else exists i: nat :: LastFailureBefore(h, i, k) && LastFailure(h[..k]) == h[i].now
  {
    if k > 0 {
      assert Latest(h[..k]) == h[k - 1] && Previous(h[..k]) == h[..k - 1];
      LastFailureIs(h, k - 1);
      if h[k - 1].Failure? {
        assert LastFailureBefore(h, k - 1, k);
      } else if i :| 0 <= i < k && h[i].Failure? {
        var l: nat :| LastFailureBefore(h, l, k - 1) && LastFailure(h[..k - 1]) == h[l].now;
        assert LastFailureBefore(h, l, k);
      }
    }
  }

  lemma {:induction false} LastRestartIs(h: seq<Event>)
    requires Timeline(h)
    ensures forall i :: 0 <= i < |h| && h[i].Restart? ==> h[i].now <= LastRestart(h)
    ensures LastRestart(h) != 0 ==> exists i :: 0 <= i < |h| && h[i].Restart? && h[i].now == LastRestart(h)
  {
    if h != [] {
      var p := Previous(h);
      LastRestartIs(p);
      if !Latest(h).Restart? && LastRestart(p) != 0 {
        var i :| 0 <= i < |p| && p[i].Restart? && p[i].now == LastRestart(p);
        assert h[i] == p[i];
      }
    }
  }

  lemma HealthyIsExact(h: seq<Event>, k: nat, c: Config)
    requires k < |h| && forall i :: 0 <= i < |h| ==> h[i].now > 0
    ensures HealthyAt(h[..k], h[k].now, c) <==> Healthy(h, k, c)
  {
    LastFailureIs(h, k);
    forall i, j | LastFailureBefore(h, i, k) && LastFailureBefore(h, j, k)
      ensures i == j
    {
    }
  }

  lemma HealthyInPrefix(h: seq<Event>, n: nat, k: nat, c: Config)
    requires k < n <= |h|
    ensures Healthy(h[..n], k, c) <==> Healthy(h, k, c)
  {
    var p := h[..n];
    forall i | 0 <= i < k
      ensures LastFailureBefore(p, i, k) <==> LastFailureBefore(h, i, k)
    {
      assert forall j :: 0 <= j < n ==> p[j] == h[j];
    }
  }

  /** What is remembered after one more event. */
  lemma RememberedStep(h: seq<Event>, i: nat, c: Config)
    requires h != []
    ensures Remembered(h, i, c) <==>
      (i == |h| - 1 && h[i].Failure?) || (Remembered(Previous(h), i, c) && !Resets(h, |h| - 1, c))
  {
    var p := Previous(h);
    forall j | 0 <= j < |p|
      ensures Resets(p, j, c) <==> Resets(h, j, c)
    {
      HealthyInPrefix(h, |h| - 1, j, c);
    }
  }

  lemma CountedStep(h: seq<Event>, now: nat, c: Config)
    requires h != []
    ensures var n := |h| - 1;
            Counted(h, now, c) ==
              (if Resets(h, n, c) then {} else Counted(Previous(h), now, c)) +
              (if h[n].Failure? && now - h[n].now <= c.window then {n} else {})
  {
    var p := Previous(h);
    forall i: nat
      ensures Remembered(h, i, c) <==>
        (i == |h| - 1 && h[i].Failure?) || (Remembered(p, i, c) && !Resets(h, |h| - 1, c))
      ensures i < |p| ==> p[i] == h[i]
    {
      RememberedStep(h, i, c);
    }
  }

  lemma {:induction false} OneMoreWithin(kept: seq<nat>, last: nat, now: nat, window: nat)
    ensures |Within(kept + [last], now, window)| == |Within(kept, now, window)| + if now - last <= window then 1 else 0
  {
    if kept == [] {
      assert [] + [last] == [last];
    } else {
      assert (kept + [last])[1..] == kept[1..] + [last];
      OneMoreWithin(kept[1..], last, now, window);
    }
  }

  /** The deque holds one entry for each remembered failure within the window. */
  lemma {:induction false} CountedIs(h: seq<Event>, now: nat, c: Config)
    requires forall i :: 0 <= i < |h| ==> h[i].now > 0
    ensures |Counted(h, now, c)| == |Within(SinceReset(h, c), now, c.window)|
  {
    if h != [] {
      var n, p := |h| - 1, Previous(h);
      CountedIs(p, now, c);
      CountedStep(h, now, c);
      HealthyIsExact(h, n, c);
      assert n !in Counted(p, now, c);
      if h[n].Failure? {
        OneMoreWithin(if Resets(h, n, c) then [] else SinceReset(p, c), h[n].now, now, c.window);
      }
    }
  }

  lemma TriggersWhenDue(h: seq<Event>, c: Config)
    requires Timeline(h) && h != []
    ensures Triggers(h, c) <==> RestartDue(h, |h| - 1, c)
  {
    var n := |h| - 1;
    assert h[..n + 1] == h;
    if h[n].Failure? {
      CountedIs(h, h[n].now, c);
      LastRestartIs(h);
    }
  }

  predicate WithdrawsRequest(h: seq<Event>, k: nat, c: Config) {
    k < |h| && (h[k].Restart? || (h[k].Success? && Healthy(h, k, c)))
  }

  /** Pending since some event, with nothing after it that withdraws the request. */
  predicate PendingSince(h: seq<Event>, k: nat, c: Config) {
    RestartDue(h, k, c) && forall j :: k < j < |h| ==> !WithdrawsRequest(h, j, c)
  }

  lemma PendingStep(h: seq<Event>, k: nat, c: Config)
    requires h != [] && k < |h| - 1
    ensures PendingSince(h, k, c) <==> PendingSince(Previous(h), k, c) && !WithdrawsRequest(h, |h| - 1, c)
  {
    var p := Previous(h);
    assert p[..k + 1] == h[..k + 1];
    forall j | k < j < |p|
      ensures WithdrawsRequest(p, j, c) <==> WithdrawsRequest(h, j, c)
    {
      HealthyInPrefix(h, |h| - 1, j, c);
    }
  }

  /** A restart is requested if and only if, at some failure, enough failures within the window were remembered
      and the backoff had passed, and since then there was no restart and no success after the healthy period. */
  lemma {:induction false} RequestIsExact(h: seq<Event>, c: Config)
    requires Timeline(h)
    ensures Requested(h, c) <==> exists k :: PendingSince(h, k, c)
  {
    if h != [] {
      var n, p := |h| - 1, Previous(h);
      assert Timeline(p);
      RequestIsExact(p, c);
      TriggersWhenDue(h, c);
      HealthyIsExact(h, n, c);
      forall k | 0 <= k < n
        ensures PendingSince(h, k, c) <==> PendingSince(p, k, c) && !WithdrawsRequest(h, n, c)
      {
        PendingStep(h, k, c);
      }
      assert PendingSince(h, n, c) <==> RestartDue(h, n, c);
      if Requested(h, c) && !RestartDue(h, n, c) {
        var k :| PendingSince(p, k, c);
        assert PendingSince(h, k, c);
      }
    }
  }

  predicate Troubles(h: seq<Event>, k: nat) {
    k < |h| && (h[k].Failure? || h[k].Restart?)
  }

  predicate TroubledSince(h: seq<Event>, k: nat, c: Config) {
    Troubles(h, k) && forall j :: k < j < |h| ==> !(h[j].Success? && Healthy(h, j, c))
  }

  lemma TroubledStep(h: seq<Event>, k: nat, c: Config)
    requires h != [] && k < |h| - 1
    ensures TroubledSince(h, k, c) <==>
      TroubledSince(Previous(h), k, c) && !(Latest(h).Success? && Healthy(h, |h| - 1, c))
  {
    var p := Previous(h);
    forall j | k < j < |p|
      ensures Healthy(p, j, c) <==> Healthy(h, j, c)
    {
      HealthyInPrefix(h, |h| - 1, j, c);
    }
  }

  /** A stream is degraded if and only if there was a failure or a restart and no success after the healthy
      period since. */
  lemma {:induction false} DegradedIsExact(h: seq<Event>, c: Config)
    requires Timeline(h)
    ensures Degraded(h, c) <==> exists k :: TroubledSince(h, k, c)
  {
    if h != [] {
      var n, p := |h| - 1, Previous(h);
      assert Timeline(p);
      DegradedIsExact(p, c);
      HealthyIsExact(h, n, c);
      forall k | 0 <= k < n
        ensures TroubledSince(h, k, c) <==> TroubledSince(p, k, c) && !(Latest(h).Success? && Healthy(h, n, c))
      {
        TroubledStep(h, k, c);
      }
      if Troubles(h, n) {
        assert TroubledSince(h, n, c);
      } else if Degraded(h, c) {
        var k :| TroubledSince(p, k, c);
        assert TroubledSince(h, k, c);
      }
    }
  }

  /** A failure requests a restart outside the backoff when enough are in the window; a pending request stays. */
  lemma AfterFailure(h: seq<Event>, now: nat, c: Config)
    requires Timeline(h + [Failure(now)])
    ensures var next := h + [Failure(now)];
            && LastFailure(next) == now && LastRestart(next) == LastRestart(h) && Degraded(next, c)
            && (Requested(next, c) <==>
                  Requested(h, c) ||
                  ((LastRestart(h) == 0 || now - LastRestart(h) >= c.backoff) && |Recent(next, c)| >= c.threshold))
  {
    var next := h + [Failure(now)];
    assert Previous(next) == h && Latest(next) == Failure(now);
  }

  lemma RecentAscends(h: seq<Event>, c: Config)
    requires Timeline(h)
    ensures Ascending(Recent(h, c))
  {
    SinceResetAscends(h, c);
    WithinAscends(SinceReset(h, c), LastFailure(h), c.window);
  }

  // ---------- the policy object ----------

  class StreamRecoveryPolicy {
    const c: Config
    var failures: seq<nat>
    var lastFailure: nat
    var lastRestart: nat
    var degraded: bool
    var restartRequested: bool
    ghost var history: seq<Event>

    /** The fields say about the history exactly what the full history says. */
    ghost predicate Valid()
      reads this
    {
      && Timeline(history)
      && failures == Recent(history, c)
      && lastFailure == LastFailure(history)
      && lastRestart == LastRestart(history)
      && degraded == Degraded(history, c)
      && restartRequested == Requested(history, c)
    }

    constructor (c: Config)
      ensures Valid() && history == [] && this.c == c
    {
      this.c := c;
      failures, lastFailure, lastRestart, degraded, restartRequested := [], 0, 0, false, false;
      history := [];
    }

    /** What the fields mean, said of the events alone. */
    lemma FieldsSayWhenDue()
      requires Valid()
      ensures restartRequested <==> exists k :: PendingSince(history, k, c)
      ensures degraded <==> exists k :: TroubledSince(history, k, c)
    {
      RequestIsExact(history, c);
      DegradedIsExact(history, c);
    }

    /** The loop that pops stale failures from the front of the deque. */
    method PopStale(now: nat)
      requires Ascending(failures)
      modifies this`failures
      ensures failures == Within(old(failures), now, c.window)
    {
      while failures != [] && now - failures[0] > c.window
        invariant Ascending(failures)
        invariant Within(failures, now, c.window) == Within(old(failures), now, c.window)
        decreases |failures|
      {
        assert Within(failures, now, c.window) == Within(failures[1..], now, c.window);
        failures := failures[1..];
      }
      WithinAll(failures, now, c.window);
    }

    /** The deque after one more failure: emptied after the healthy period, without its stale front. */
    method PushFailure(now: nat)
      requires Ascending(failures)
      modifies this`failures
      ensures var kept := if lastFailure != 0 && now - lastFailure >= c.healthyReset then [] else old(failures);
              failures == Within(kept, now, c.window) + [now]
    {
      if lastFailure != 0 && now - lastFailure >= c.healthyReset {
        failures := [];
      }
      PopStale(now);
      failures := failures + [now];
    }

    method RecordFailure(now: nat)
      requires Valid() && Timeline(history + [Failure(now)])
      modifies this
      ensures Valid() && history == old(history) + [Failure(now)]
    {
      ghost var next := history + [Failure(now)];
      assert Previous(next) == history && Latest(next) == Failure(now);
      AfterFailure(history, now, c);
      RecentAfterFailure(history, now, c);
      RecentAscends(history, c);
      PushFailure(now);
      lastFailure := now;
      degraded := true;
      var outsideBackoff := lastRestart == 0 || now - lastRestart >= c.backoff;
      if outsideBackoff && |failures| >= c.threshold {
        restartRequested := true;
      }
      history := next;
    }

    /** True when the success ends the degraded state. */
    method RecordSuccess(now: nat) returns (stable: bool)
      requires Valid() && Timeline(history + [Success(now)])
      modifies this
      ensures Valid() && history == old(history) + [Success(now)]
      ensures stable <==> HealthyAt(old(history), now, c)
    {
      AfterSuccess(history, now, c);
      history := history + [Success(now)];
      if lastFailure == 0 || now - lastFailure < c.healthyReset {
        return false;
      }
      failures := [];
      degraded := false;
      restartRequested := false;
      return true;
    }

    method MarkRestarted(now: nat)
      requires Valid() && Timeline(history + [Restart(now)])
      modifies this
      ensures Valid() && history == old(history) + [Restart(now)]
    {
      AfterRestart(history, now, c);
      history := history + [Restart(now)];
      restartRequested := false;
      failures := [];
      lastRestart := now;
      degraded := true;
    }
  }
}
