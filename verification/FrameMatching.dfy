/** How a camera worker pairs the buffers of its stream with the requested PTP timestamps: a
    streaming merge with one slot of lookahead, compared here with a plain search. */
module FrameMatching {
  import opened Optional
  import opened FrameTimestamp

  datatype Frame = Frame(timestamp: nat, complete: bool)

  /** One scheduled request. `arrived` is how many frames of the stream have arrived when the wait
      for this request ends: it stands for the image timeout and the camera's pace. */
  datatype Request = Request(expected: nat, arrived: nat)

  datatype Outcome =
    | Served(frame: nat)
    | Incomplete(frame: nat)
    | Skipped(frame: nat)       // the camera skipped the action: this later frame proves it
    | NoTimestamp(frame: nat)
    | TimedOut

  /** Requests carry a timestamp, and frames that have arrived stay arrived. */
  predicate Feasible(frames: seq<Frame>, requests: seq<Request>) {
    && (forall i :: 0 <= i < |requests| ==> requests[i].expected != 0 && requests[i].arrived <= |frames|)
    && (forall i, j :: 0 <= i <= j < |requests| ==> requests[i].arrived <= requests[j].arrived)
  }

  // ---------- the simple form: a cursor into the stream ----------

  function Scan(frames: seq<Frame>, cursor: nat, request: Request, tolerance: nat): Outcome
    requires request.expected != 0 && request.arrived <= |frames|
    decreases request.arrived - cursor
  {
    if cursor >= request.arrived then TimedOut
    else
      var frame := frames[cursor];
      match Classify(frame.timestamp, request.expected, tolerance)
      case Unknown => NoTimestamp(cursor)
      case Stale => Scan(frames, cursor + 1, request, tolerance)
      case Future => Skipped(cursor)
      case Matching => if frame.complete then Served(cursor) else Incomplete(cursor)
  }

  /** Where the next request starts: a complete frame that came too early for this request stays. */
  function Advance(frames: seq<Frame>, cursor: nat, request: Request, outcome: Outcome): nat {
    match outcome
    case TimedOut => if cursor < request.arrived then request.arrived else cursor
    case Skipped(k) => if k < |frames| && frames[k].complete then k else k + 1
    case _ => outcome.frame + 1
  }

  function Outcomes(frames: seq<Frame>, cursor: nat, requests: seq<Request>, tolerance: nat): (r: seq<Outcome>)
    requires Feasible(frames, requests)
    ensures |r| == |requests|
    decreases requests
  {
    if requests == [] then []
    else
      var outcome := Scan(frames, cursor, requests[0], tolerance);
      [outcome] + Outcomes(frames, Advance(frames, cursor, requests[0], outcome), requests[1..], tolerance)
  }

  // ---------- the worker: stream position and deferred buffer ----------

  function Cursor(position: nat, deferred: Option<nat>): nat {
    if deferred.Some? then deferred.value else position
  }

  predicate DeferredIsLast(position: nat, deferred: Option<nat>) {
    deferred.Some? ==> deferred.value + 1 == position
  }

  /** The matching loop for one request, up to the point where the frame is accepted or rejected. */
  method MatchFrame(frames: seq<Frame>, position: nat, deferred: Option<nat>, request: Request, tolerance: nat)
    returns (outcome: Outcome, position': nat, deferred': Option<nat>)
    requires request.expected != 0 && position <= request.arrived <= |frames|
    requires DeferredIsLast(position, deferred)
    ensures outcome == Scan(frames, Cursor(position, deferred), request, tolerance)
    ensures Cursor(position', deferred') == Advance(frames, Cursor(position, deferred), request, outcome)
    ensures DeferredIsLast(position', deferred') && position' <= request.arrived
  {
    position', deferred' := position, deferred;
    var buffer: Option<nat> := None;
    while buffer == None
      invariant DeferredIsLast(position', deferred') && position' <= request.arrived
      invariant deferred'.Some? ==> buffer == None
      invariant buffer.Some? ==>
                  && buffer.value + 1 == position'
                  && frames[buffer.value].timestamp != 0
                  && Classify(frames[buffer.value].timestamp, request.expected, tolerance).Matching?
      invariant Cursor(position, deferred) <= Cursor(position', deferred')
      invariant Scan(frames, Cursor(position, deferred), request, tolerance)
             == Scan(frames, if buffer.Some? then buffer.value else Cursor(position', deferred'), request, tolerance)
      decreases request.arrived - Cursor(position', deferred'), buffer == None
    {
      var taken: nat;
      if deferred'.Some? {
        taken := deferred'.value;
        deferred' := None;
      } else {
        if position' == request.arrived {
          outcome := TimedOut;
          return;
        }
        taken := position';
        position' := position' + 1;
      }
      var timestamp := frames[taken].timestamp;
      if timestamp == 0 {
        outcome := NoTimestamp(taken);
        return;
      }
      match Classify(timestamp, request.expected, tolerance)
      case Stale =>
      case Future =>
        if frames[taken].complete {
          deferred' := Some(taken);
        }
        outcome := Skipped(taken);
        return;
      case _ =>
        buffer := Some(taken);
    }
    outcome := if frames[buffer.value].complete then Served(buffer.value) else Incomplete(buffer.value);
  }

  /** The worker serves its queue of scheduled requests in order, carrying the deferred buffer over. */
  method WorkerLoop(frames: seq<Frame>, requests: seq<Request>, tolerance: nat) returns (outcomes: seq<Outcome>)
    requires Feasible(frames, requests)
    ensures outcomes == Outcomes(frames, 0, requests, tolerance)
  {
    outcomes := [];
    var position: nat, deferred: Option<nat> := 0, None;
    var served := 0;
    while served < |requests|
      invariant 0 <= served <= |requests|
      invariant DeferredIsLast(position, deferred)
      invariant served < |requests| ==> position <= requests[served].arrived
      invariant Feasible(frames, requests[served..])
      invariant outcomes + Outcomes(frames, Cursor(position, deferred), requests[served..], tolerance)
             == Outcomes(frames, 0, requests, tolerance)
    {
      assert requests[served..][0] == requests[served] && requests[served..][1..] == requests[served + 1..];
      var outcome;
      outcome, position, deferred := MatchFrame(frames, position, deferred, requests[served], tolerance);
      outcomes := outcomes + [outcome];
      served := served + 1;
    }
  }

  // ---------- agreement with a plain search ----------

  predicate Within(frame: Frame, expected: nat, tolerance: nat) {
    frame.timestamp <= expected + tolerance && expected <= frame.timestamp + tolerance
  }

  /** The first arrived frame within tolerance of the target, if there is one. */
  function FirstWithin(frames: seq<Frame>, start: nat, arrived: nat, expected: nat, tolerance: nat): (r: Option<nat>)
    requires start <= arrived <= |frames|
    ensures r.Some? ==> start <= r.value < arrived && Within(frames[r.value], expected, tolerance)
    ensures forall k :: start <= k < (if r.Some? then r.value else arrived) ==> !Within(frames[k], expected, tolerance)
    decreases arrived - start
  {
    if start == arrived then None
    else if Within(frames[start], expected, tolerance) then Some(start)
    else FirstWithin(frames, start + 1, arrived, expected, tolerance)
  }

  /** The camera stamps every frame, and never out of order. */
  predicate Ordered(frames: seq<Frame>) {
    && (forall k :: 0 <= k < |frames| ==> frames[k].timestamp != 0)
    && (forall j, k :: 0 <= j <= k < |frames| ==> frames[j].timestamp <= frames[k].timestamp)
  }

  /** Targets increase by more than twice the tolerance. */
  predicate Separated(requests: seq<Request>, tolerance: nat) {
    forall i, j :: 0 <= i < j < |requests| ==> requests[i].expected + 2 * tolerance < requests[j].expected
  }

  /** What the plain search says about one request. A request gets the first frame within tolerance
      when that frame is complete, fails when there is none, and otherwise can only be served by a
      later complete frame all of whose predecessors within tolerance are incomplete. */
  predicate AgreesWithSearch(frames: seq<Frame>, request: Request, tolerance: nat, outcome: Outcome)
    requires request.arrived <= |frames|
  {
    var first := FirstWithin(frames, 0, request.arrived, request.expected, tolerance);
    && (first.None? ==> !outcome.Served?)
    && (first.Some? && frames[first.value].complete ==> outcome == Served(first.value))
    && (outcome.Served? ==>
          && outcome.frame < request.arrived
          && frames[outcome.frame].complete
          && Within(frames[outcome.frame], request.expected, tolerance)
          && forall k :: 0 <= k < outcome.frame && Within(frames[k], request.expected, tolerance) ==> !frames[k].complete)
  }

  /** No complete frame before the cursor could serve a request for `expected`. */
  predicate Passed(frames: seq<Frame>, cursor: nat, expected: nat, tolerance: nat) {
    forall k :: 0 <= k < cursor && k < |frames| && frames[k].complete ==> frames[k].timestamp + tolerance < expected
  }

  lemma {:induction false} ScanSkipsOnlyStale(frames: seq<Frame>, cursor: nat, request: Request, tolerance: nat)
    requires request.expected != 0 && request.arrived <= |frames| && Ordered(frames)
    ensures var o := Scan(frames, cursor, request, tolerance);
            && (!o.TimedOut? ==> cursor <= o.frame < request.arrived && !o.NoTimestamp?)
            && (forall k :: cursor <= k < (if o.TimedOut? then request.arrived else o.frame)
                  ==> frames[k].timestamp + tolerance < request.expected)
            && (o.Served? || o.Incomplete? ==> Within(frames[o.frame], request.expected, tolerance))
            && (o.Served? ==> frames[o.frame].complete)
            && (o.Incomplete? ==> !frames[o.frame].complete)
            && (o.Skipped? ==> frames[o.frame].timestamp > request.expected + tolerance)
    decreases request.arrived - cursor
  {
    if cursor < request.arrived && Classify(frames[cursor].timestamp, request.expected, tolerance).Stale? {
      ScanSkipsOnlyStale(frames, cursor + 1, request, tolerance);
    }
  }

  lemma ScanAgrees(frames: seq<Frame>, cursor: nat, request: Request, tolerance: nat)
    requires request.expected != 0 && request.arrived <= |frames| && Ordered(frames)
    requires Passed(frames, cursor, request.expected, tolerance)
    ensures AgreesWithSearch(frames, request, tolerance, Scan(frames, cursor, request, tolerance))
  {
    ScanSkipsOnlyStale(frames, cursor, request, tolerance);
    var o := Scan(frames, cursor, request, tolerance);
    var first := FirstWithin(frames, 0, request.arrived, request.expected, tolerance);
    if first.Some? && frames[first.value].complete {
      assert cursor <= first.value;
      assert forall k :: cursor <= k < first.value ==> frames[k].timestamp <= frames[first.value].timestamp;
    }
  }

  lemma AdvancePasses(frames: seq<Frame>, cursor: nat, request: Request, tolerance: nat, next: nat)
    requires request.expected != 0 && request.arrived <= |frames| && Ordered(frames)
    requires Passed(frames, cursor, request.expected, tolerance)
    requires request.expected + 2 * tolerance < next
    ensures Passed(frames, Advance(frames, cursor, request, Scan(frames, cursor, request, tolerance)), next, tolerance)
    ensures cursor <= Advance(frames, cursor, request, Scan(frames, cursor, request, tolerance))
  {
    ScanSkipsOnlyStale(frames, cursor, request, tolerance);
  }

  /** Started with nothing behind the cursor, the worker agrees with the plain search on every
      request: whatever happened to the requests before it, none of them cost it its frame. */
  lemma {:induction false} EveryRequestAgreesWithSearch(
    frames: seq<Frame>, cursor: nat, requests: seq<Request>, tolerance: nat, i: nat)
    requires Feasible(frames, requests) && Ordered(frames) && Separated(requests, tolerance) && i < |requests|
    requires Passed(frames, cursor, requests[0].expected, tolerance)
    ensures AgreesWithSearch(frames, requests[i], tolerance, Outcomes(frames, cursor, requests, tolerance)[i])
    decreases requests
  {
    if i == 0 {
      ScanAgrees(frames, cursor, requests[0], tolerance);
    } else {
      AdvancePasses(frames, cursor, requests[0], tolerance, requests[1].expected);
      var next := Advance(frames, cursor, requests[0], Scan(frames, cursor, requests[0], tolerance));
      EveryRequestAgreesWithSearch(frames, next, requests[1..], tolerance, i - 1);
    }
  }

  /** The main case: on complete frames each request gets exactly the first frame within tolerance
      that arrived in time, and fails if and only if there is none. */
  lemma CompleteFramesAreServedExactly(frames: seq<Frame>, requests: seq<Request>, tolerance: nat, i: nat)
    requires Feasible(frames, requests) && Ordered(frames) && Separated(requests, tolerance) && i < |requests|
    requires forall k :: 0 <= k < |frames| ==> frames[k].complete
    ensures var first := FirstWithin(frames, 0, requests[i].arrived, requests[i].expected, tolerance);
            var outcome := Outcomes(frames, 0, requests, tolerance)[i];
            && (first.Some? <==> outcome.Served?)
            && (first.Some? ==> outcome == Served(first.value))
  {
    EveryRequestAgreesWithSearch(frames, 0, requests, tolerance, i);
  }

  /** A scan only moves forward, whatever the frames carry. */
  lemma {:induction false} ScanMovesForward(frames: seq<Frame>, cursor: nat, request: Request, tolerance: nat)
    requires request.expected != 0 && request.arrived <= |frames|
    ensures var o := Scan(frames, cursor, request, tolerance);
            && (!o.TimedOut? ==> cursor <= o.frame < request.arrived)
            && cursor <= Advance(frames, cursor, request, o)
            && (o.Served? ==> Advance(frames, cursor, request, o) == o.frame + 1)
    decreases request.arrived - cursor
  {
    if cursor < request.arrived && Classify(frames[cursor].timestamp, request.expected, tolerance).Stale? {
      ScanMovesForward(frames, cursor + 1, request, tolerance);
    }
  }

  lemma {:induction false} ServedFramesStartAtCursor(
    frames: seq<Frame>, cursor: nat, requests: seq<Request>, tolerance: nat, i: nat)
    requires Feasible(frames, requests) && i < |requests|
    ensures var o := Outcomes(frames, cursor, requests, tolerance)[i]; o.Served? ==> cursor <= o.frame
    decreases requests
  {
    ScanMovesForward(frames, cursor, requests[0], tolerance);
    if i > 0 {
      var next := Advance(frames, cursor, requests[0], Scan(frames, cursor, requests[0], tolerance));
      ServedFramesStartAtCursor(frames, next, requests[1..], tolerance, i - 1);
    }
  }

  /** No frame serves two requests, in any stream and however close the targets are: later requests get
      later frames. */
  lemma {:induction false} NoFrameServesTwoRequests(
    frames: seq<Frame>, cursor: nat, requests: seq<Request>, tolerance: nat, i: nat, j: nat)
    requires Feasible(frames, requests) && i < j < |requests|
    ensures var o := Outcomes(frames, cursor, requests, tolerance);
            o[i].Served? && o[j].Served? ==> o[i].frame < o[j].frame
    decreases requests
  {
    var outcome := Scan(frames, cursor, requests[0], tolerance);
    var next := Advance(frames, cursor, requests[0], outcome);
    ScanMovesForward(frames, cursor, requests[0], tolerance);
    if i == 0 {
      ServedFramesStartAtCursor(frames, next, requests[1..], tolerance, j - 1);
    } else {
      NoFrameServesTwoRequests(frames, next, requests[1..], tolerance, i - 1, j - 1);
    }
  }

  // ---------- streams of any kind ----------

  predicate TooOld(frame: Frame, request: Request, tolerance: nat) {
    frame.timestamp != 0 && frame.timestamp + tolerance < request.expected
  }

  /** The first frame at or after the cursor that is not too old decides a request, in any stream: without a
      timestamp it fails the request and is used up; within tolerance it serves the request if it is complete,
      and is used up; beyond, it shows that the action was skipped, and stays for the next request if it is
      complete. */
  lemma {:induction false} FirstUsableDecides(frames: seq<Frame>, cursor: nat, request: Request, tolerance: nat, k: nat)
    requires request.expected != 0 && cursor <= k < request.arrived <= |frames|
    requires forall i :: cursor <= i < k ==> TooOld(frames[i], request, tolerance)
    requires !TooOld(frames[k], request, tolerance)
    ensures var o := Scan(frames, cursor, request, tolerance); var f := frames[k];
            && (o == NoTimestamp(k) <==> f.timestamp == 0)
            && (o == Served(k) <==> f.timestamp != 0 && Within(f, request.expected, tolerance) && f.complete)
            && (o == Incomplete(k) <==> f.timestamp != 0 && Within(f, request.expected, tolerance) && !f.complete)
            && (o == Skipped(k) <==> f.timestamp > request.expected + tolerance)
            && Advance(frames, cursor, request, o) ==
                 if f.timestamp > request.expected + tolerance && f.complete then k else k + 1
    decreases k - cursor
  {
    if cursor < k {
      FirstUsableDecides(frames, cursor + 1, request, tolerance, k);
    }
  }

  /** A request whose frames are all too old times out, and they are used up. */
  lemma {:induction false} NothingUsableTimesOut(frames: seq<Frame>, cursor: nat, request: Request, tolerance: nat)
    requires request.expected != 0 && request.arrived <= |frames|
    ensures Scan(frames, cursor, request, tolerance) == TimedOut <==>
      forall i :: cursor <= i < request.arrived ==> TooOld(frames[i], request, tolerance)
    ensures Scan(frames, cursor, request, tolerance) == TimedOut && cursor <= request.arrived ==>
      Advance(frames, cursor, request, TimedOut) == request.arrived
    decreases request.arrived - cursor
  {
    if cursor < request.arrived && TooOld(frames[cursor], request, tolerance) {
      NothingUsableTimesOut(frames, cursor + 1, request, tolerance);
    }
  }

  // ---------- how far apart targets must be ----------

  /** Requests for the given targets, with how much of the stream has arrived when each wait ends. */
  function Queue(targets: seq<nat>, arrivals: seq<nat>): (r: seq<Request>)
    requires |arrivals| == |targets|
    ensures |r| == |targets|
  {
    seq(|targets|, i requires 0 <= i < |targets| => Request(targets[i], arrivals[i]))
  }

  predicate Arrivals(frames: seq<Frame>, targets: seq<nat>, arrivals: seq<nat>) {
    |arrivals| == |targets| && Feasible(frames, Queue(targets, arrivals))
  }

  ghost predicate AllAgree(frames: seq<Frame>, requests: seq<Request>, tolerance: nat)
    requires Feasible(frames, requests)
  {
    forall i :: 0 <= i < |requests| ==>
      AgreesWithSearch(frames, requests[i], tolerance, Outcomes(frames, 0, requests, tolerance)[i])
  }

  /** Whatever an orderly camera delivers, and whenever, every target gets what the plain search says. */
  ghost predicate AlwaysAgree(targets: seq<nat>, tolerance: nat) {
    forall frames, arrivals :: Ordered(frames) && Arrivals(frames, targets, arrivals) ==>
      AllAgree(frames, Queue(targets, arrivals), tolerance)
  }

  predicate FarApart(targets: seq<nat>, tolerance: nat) {
    forall i, j :: 0 <= i < j < |targets| ==> targets[i] + 2 * tolerance < targets[j]
  }

  /** Requests whose wait ends before anything arrives leave the stream alone. */
  lemma {:induction false} NothingArrivedYet(
    frames: seq<Frame>, requests: seq<Request>, tolerance: nat, i: nat, k: nat)
    requires Feasible(frames, requests) && i <= k < |requests| && Feasible(frames, requests[i..])
    requires forall x :: 0 <= x < i ==> requests[x].arrived == 0
    ensures Outcomes(frames, 0, requests, tolerance)[k] == Outcomes(frames, 0, requests[i..], tolerance)[k - i]
    decreases i
  {
    if i == 0 {
      assert requests[i..] == requests;
    } else {
      assert requests[1..][i - 1..] == requests[i..];
      NothingArrivedYet(frames, requests[1..], tolerance, i - 1, k - 1);
    }
  }

  /** One frame between two targets that are too close goes to the first, though the second could use it. */
  lemma CloseTargetsCompete(targets: seq<nat>, tolerance: nat, i: nat)
    requires i + 1 < |targets| && 0 < targets[i] <= targets[i + 1] <= targets[i] + 2 * tolerance
    requires forall k :: 0 <= k < |targets| ==> targets[k] > 0
    ensures !AlwaysAgree(targets, tolerance)
  {
    var frames := [Frame(targets[i] + tolerance, true)];
    var arrivals := seq(|targets|, k => if k < i then 0 else 1);
    var requests := Queue(targets, arrivals);
    assert Arrivals(frames, targets, arrivals) && Ordered(frames);
    NothingArrivedYet(frames, requests, tolerance, i, i + 1);
    var outcomes := Outcomes(frames, 0, requests, tolerance);
    var rest := requests[i..];
    assert rest[0] == requests[i] && rest[1..][0] == requests[i + 1];
    assert Scan(frames, 0, rest[0], tolerance) == Served(0);
    assert Scan(frames, 1, rest[1], tolerance) == TimedOut;
    assert Outcomes(frames, 0, rest, tolerance)[1] == TimedOut;
    assert outcomes[i + 1] == TimedOut;
    assert FirstWithin(frames, 0, 1, targets[i + 1], tolerance) == Some(0);
    assert !AgreesWithSearch(frames, requests[i + 1], tolerance, outcomes[i + 1]);
    assert !AllAgree(frames, requests, tolerance);
  }

  /** The separation of the targets is exactly what matching needs: a queue of targets is served as the
      plain search says on every orderly stream if and only if the targets are more than twice the
      tolerance apart. */
  lemma SeparationIsExact(targets: seq<nat>, tolerance: nat)
    requires forall k :: 0 <= k < |targets| ==> targets[k] > 0
    requires forall j, k :: 0 <= j <= k < |targets| ==> targets[j] <= targets[k]
    ensures AlwaysAgree(targets, tolerance) <==> FarApart(targets, tolerance)
  {
    if FarApart(targets, tolerance) {
      forall frames, arrivals | Ordered(frames) && Arrivals(frames, targets, arrivals)
        ensures AllAgree(frames, Queue(targets, arrivals), tolerance)
      {
        var requests := Queue(targets, arrivals);
        forall i | 0 <= i < |requests|
          ensures AgreesWithSearch(frames, requests[i], tolerance, Outcomes(frames, 0, requests, tolerance)[i])
        {
          EveryRequestAgreesWithSearch(frames, 0, requests, tolerance, i);
        }
      }
    } else {
      var i, j :| 0 <= i < j < |targets| && targets[j] <= targets[i] + 2 * tolerance;
      CloseTargetsCompete(targets, tolerance, i);
    }
  }
}
