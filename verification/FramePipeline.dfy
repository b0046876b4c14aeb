/** The frame pipeline of one camera session: callers add requests (or join an open one), one worker
    matches a frame to the oldest request and settles everybody who joined it, one encoder drains the
    chunk jobs, and shutdown stops whatever is still queued. Every critical section is one step. */
module FramePipeline {
  import opened Optional
  import opened FrameTimestamp

  type Ticket = nat

  /** One caller waiting for a frame: the requester of the frame or an alias that joined it.
      Tickets number the accepted callers; `expected` is the device time asked for, 0 for none. */
  datatype Delivery = Delivery(ticket: Ticket, expected: nat, chunks: bool)

  /** A frame request, named by the ticket of its first caller. */
  datatype Request = Request(first: Delivery, metering: bool, aliases: seq<Delivery>, armed: bool)

  datatype Outcome = Success(deviceTime: nat) | Failure | Stopped

  datatype Settlement = Settlement(delivery: Delivery, outcome: Outcome)

  /** What the worker is doing with the request it popped. */
  datatype Hand =
    | Idle
    | Open(id: Ticket)
    | Closed(id: Ticket, metering: bool, all: seq<Delivery>, deviceTime: nat)
    | Settling(id: Ticket, rest: seq<Delivery>, deviceTime: nat)

  datatype Session = Session(
    limit: nat,                          // encode_queue_depth
    tolerance: nat,
    requests: map<Ticket, Request>,      // the live FrameRequest objects, not yet closed
    pending: seq<Ticket>,                // pending_requests_
    scheduled: map<nat, Ticket>,         // scheduled_requests_, a map of weak pointers
    hand: Hand,
    jobs: seq<Delivery>,                 // encode_jobs_
    encoding: Option<Delivery>,
    depth: nat,                          // pipeline_depth_
    stopping: bool,
    armed: set<Ticket>,                  // completions already marked armed
    accepted: seq<Delivery>,             // history: every caller request_frame let in
    log: seq<Settlement>,                // history: every completion in order
    encoded: seq<Delivery>,              // history: every finished encode job in order
    abandoned: nat)                      // callers stopped by shutdown, never taken off the depth

  function Init(limit: nat, tolerance: nat): Session {
    Session(limit, tolerance, map[], [], map[], Idle, [], None, 0, false, {}, [], [], [], 0)
  }

  function Parts(r: Request): seq<Delivery> {
    [r.first] + r.aliases
  }

  function Tickets(deliveries: seq<Delivery>): set<Ticket> {
    set d | d in deliveries :: d.ticket
  }

  // ---------- the steps ----------

  datatype Event =
    | RequestFrame(ready: bool, expected: nat, metering: bool, chunks: bool)
    | Pop
    | Arm
    | CloseFrame(deviceTime: nat)
    | FailFrame
    | Convert
    | DeliverNext
    | EncodeStart
    | EncodeEnd
    | Shutdown

  /** What the environment and the locals of the two threads allow. Callers and shutdown exclude each
      other, and metering frames are never asked to be encoded. */
  predicate Enabled(s: Session, e: Event) {
    match e
    case RequestFrame(_, _, metering, chunks) => !s.stopping && (metering ==> !chunks)
    case Pop => s.hand.Idle? && s.pending != [] && s.pending[0] in s.requests
    case Arm => s.hand.Open? && s.hand.id in s.requests
    case CloseFrame(deviceTime) =>
      && s.hand.Open? && s.hand.id in s.requests
      && var expected := s.requests[s.hand.id].first.expected;
         expected != 0 ==> Classify(deviceTime, expected, s.tolerance).Matching?
    case FailFrame => (s.hand.Open? && s.hand.id in s.requests) || s.hand.Closed?
    case Convert => s.hand.Closed?
    case DeliverNext => s.hand.Settling?
    case EncodeStart => s.encoding.None? && s.jobs != []
    case EncodeEnd => s.encoding.Some? && s.depth > 0
    case Shutdown => !s.stopping && forall id :: id in s.pending ==> id in s.requests
  }

  /** The weak pointer still locks: its request is queued or in the worker's hand. */
  predicate Alive(s: Session, id: Ticket) {
    id in s.requests || (!s.hand.Idle? && s.hand.id == id)
  }

  function Enter(s: Session, d: Delivery): Session {
    s.(accepted := s.accepted + [d], depth := s.depth + 1)
  }

  function Join(s: Session, id: Ticket, d: Delivery): Session {
    if id in s.requests then
      var r := s.requests[id];
      Enter(s, d).(requests := s.requests[id := r.(aliases := r.aliases + [d])],
                   armed := if r.armed then s.armed + {d.ticket} else s.armed)
    else
      Enter(s, d)   // the request is already closed: this caller would never be served
  }

  function Enqueue(s: Session, d: Delivery, metering: bool): Session {
    Enter(s, d).(requests := s.requests[d.ticket := Request(d, metering, [], false)],
                 pending := s.pending + [d.ticket],
                 scheduled := if d.expected != 0 && !metering then s.scheduled[d.expected := d.ticket]
                              else s.scheduled)
  }

  function Submit(s: Session, ready: bool, expected: nat, metering: bool, chunks: bool): Session {
    if !ready || s.depth >= s.limit then s
    else
      var d := Delivery(|s.accepted|, expected, chunks);
      if expected != 0 && !metering && expected in s.scheduled && Alive(s, s.scheduled[expected])
      then Join(s, s.scheduled[expected], d)
      else Enqueue(s, d, metering)
  }

  /** close_deliveries: nobody can join this request any more. */
  function CloseScheduled(s: Session, id: Ticket): map<nat, Ticket>
    requires id in s.requests
  {
    var t := s.requests[id].first.expected;
    if t != 0 && t in s.scheduled && (s.scheduled[t] == id || !Alive(s, s.scheduled[t]))
    then s.scheduled - {t} else s.scheduled
  }

  function Settle(deliveries: seq<Delivery>, outcome: Outcome): seq<Settlement> {
    seq(|deliveries|, i requires 0 <= i < |deliveries| => Settlement(deliveries[i], outcome))
  }

  /** Takes n callers off the depth counter, an unsigned atomic in the source. */
  function Less(depth: nat, n: nat): nat {
    if depth >= n then depth - n else 0
  }

  function Fail(s: Session, deliveries: seq<Delivery>): Session {
    s.(hand := Idle, log := s.log + Settle(deliveries, Failure), depth := Less(s.depth, |deliveries|))
  }

  function Stopping(pending: seq<Ticket>, requests: map<Ticket, Request>): seq<Delivery>
    requires forall id :: id in pending ==> id in requests
  {
    if pending == [] then [] else Parts(requests[pending[0]]) + Stopping(pending[1..], requests)
  }

  function Popped(s: Session): Session
    requires s.pending != []
  {
    s.(hand := Open(s.pending[0]), pending := s.pending[1..])
  }

  function Armed(s: Session): Session
    requires s.hand.Open? && s.hand.id in s.requests
  {
    var r := s.requests[s.hand.id];
    s.(requests := s.requests[s.hand.id := r.(armed := true)], armed := s.armed + Tickets(Parts(r)))
  }

  function FrameClosed(s: Session, deviceTime: nat): Session
    requires s.hand.Open? && s.hand.id in s.requests
  {
    var r := s.requests[s.hand.id];
    s.(requests := s.requests - {s.hand.id}, scheduled := CloseScheduled(s, s.hand.id),
       hand := Closed(s.hand.id, r.metering, Parts(r), deviceTime))
  }

  function FailedOpen(s: Session): Session
    requires s.hand.Open? && s.hand.id in s.requests
  {
    Fail(s, Parts(s.requests[s.hand.id])).(
      requests := s.requests - {s.hand.id}, scheduled := CloseScheduled(s, s.hand.id))
  }

  /** The disposable frame of a metering request is settled at once: there is nothing to publish. */
  function Converted(s: Session): Session
    requires s.hand.Closed?
  {
    if s.hand.metering then
      s.(hand := Idle, log := s.log + Settle(s.hand.all, Success(s.hand.deviceTime)), depth := Less(s.depth, 1))
    else
      s.(hand := Settling(s.hand.id, s.hand.all, s.hand.deviceTime))
  }

  function Delivered(s: Session): Session
    requires s.hand.Settling?
  {
    if s.hand.rest == [] then s.(hand := Idle)
    else
      var d := s.hand.rest[0];
      s.(hand := s.hand.(rest := s.hand.rest[1..]),
         log := s.log + Settle([d], Success(s.hand.deviceTime)),
         jobs := s.jobs + if d.chunks then [d] else [],
         depth := if d.chunks then s.depth else Less(s.depth, 1))
  }

  function EncodeStarted(s: Session): Session
    requires s.jobs != []
  {
    s.(encoding := Some(s.jobs[0]), jobs := s.jobs[1..])
  }

  function EncodeEnded(s: Session): Session
    requires s.encoding.Some? && s.depth > 0
  {
    s.(encoding := None, encoded := s.encoded + [s.encoding.value], depth := s.depth - 1)
  }

  function ShutDown(s: Session): Session
    requires forall id :: id in s.pending ==> id in s.requests
  {
    var stopped := Stopping(s.pending, s.requests);
    s.(stopping := true, log := s.log + Settle(stopped, Stopped), abandoned := |stopped|,
       requests := map id | id in s.requests && id !in s.pending :: s.requests[id],
       pending := [], scheduled := map[])
  }

  function Step(s: Session, e: Event): Session
    requires Enabled(s, e)
  {
    match e
    case RequestFrame(ready, expected, metering, chunks) => Submit(s, ready, expected, metering, chunks)
    case Pop => Popped(s)
    case Arm => Armed(s)
    case CloseFrame(deviceTime) => FrameClosed(s, deviceTime)
    case FailFrame => if s.hand.Closed? then Fail(s, s.hand.all) else FailedOpen(s)
    case Convert => Converted(s)
    case DeliverNext => Delivered(s)
    case EncodeStart => EncodeStarted(s)
    case EncodeEnd => EncodeEnded(s)
    case Shutdown => ShutDown(s)
  }

  /** Any interleaving; an event that the state does not allow does not happen. */
  function Run(s: Session, events: seq<Event>): Session
    decreases events
  {
    if events == [] then s
    else Run(if Enabled(s, events[0]) then Step(s, events[0]) else s, events[1..])
  }

  // ---------- the invariant ----------

  ghost predicate Queued(s: Session) {
    && (forall i, j :: 0 <= i < j < |s.pending| ==> s.pending[i] != s.pending[j])
    && (forall id :: id in s.pending ==> id in s.requests)
    && (s.hand.Open? ==> s.hand.id in s.requests && s.hand.id !in s.pending)
    && (forall id :: id in s.requests ==> id in s.pending || (s.hand.Open? && s.hand.id == id))
  }

  predicate WellFormed(id: Ticket, r: Request) {
    && r.first.ticket == id
    && (r.metering ==> r.aliases == [] && !r.first.chunks)
    && (forall d :: d in r.aliases ==> d.expected == r.first.expected)
  }

  /** The schedule names exactly the open requests for a device time: one per time. */
  predicate Scheduled(s: Session) {
    && (forall t :: t in s.scheduled ==>
          && t != 0 && s.scheduled[t] in s.requests
          && s.requests[s.scheduled[t]].first.expected == t && !s.requests[s.scheduled[t]].metering)
    && (!s.stopping ==> forall id :: id in s.requests && s.requests[id].first.expected != 0 && !s.requests[id].metering ==>
          var t := s.requests[id].first.expected; t in s.scheduled && s.scheduled[t] == id)
  }

  function Load(r: Request): multiset<Delivery> {
    multiset(r.aliases) + multiset{r.first}
  }

  ghost function InHand(s: Session): multiset<Delivery>
    requires Queued(s)
  {
    match s.hand
    case Idle => multiset{}
    case Open(id) => Load(s.requests[id])
    case Closed(_, _, all, _) => multiset(all)
    case Settling(_, rest, _) => multiset(rest)
  }

  ghost function Waiting(pending: seq<Ticket>, requests: map<Ticket, Request>): multiset<Delivery>
    requires forall id :: id in pending ==> id in requests
  {
    if pending == [] then multiset{} else Load(requests[pending[0]]) + Waiting(pending[1..], requests)
  }

  /** Callers that are still owed an answer. */
  ghost function Owed(s: Session): multiset<Delivery>
    requires Queued(s)
  {
    InHand(s) + Waiting(s.pending, s.requests)
  }

  function Answered(log: seq<Settlement>): (r: seq<Delivery>)
    ensures |r| == |log|
  {
    seq(|log|, i requires 0 <= i < |log| => log[i].delivery)
  }

  /** Every accepted caller is owed an answer or has had exactly one, and tickets number them. */
  ghost predicate Conserved(s: Session)
    requires Queued(s)
  {
    && Owed(s) + multiset(Answered(s.log)) == multiset(s.accepted)
    && forall i :: 0 <= i < |s.accepted| ==> s.accepted[i].ticket == i
  }

  function OneIf(b: bool): nat {
    if b then 1 else 0
  }

  ghost predicate DepthCounts(s: Session)
    requires Queued(s)
  {
    && s.depth == |Owed(s)| + |s.jobs| + OneIf(s.encoding.Some?) + s.abandoned
    && (!s.stopping ==> s.abandoned == 0)
    && s.depth <= s.limit
  }

  predicate Fits(s: Session, d: Delivery, deviceTime: nat) {
    d.expected != 0 ==> Classify(deviceTime, d.expected, s.tolerance).Matching?
  }

  predicate FramesFit(s: Session) {
    && (forall e :: e in s.log && e.outcome.Success? ==> Fits(s, e.delivery, e.outcome.deviceTime))
    && (s.hand.Closed? ==> forall d :: d in s.hand.all ==> Fits(s, d, s.hand.deviceTime))
    && (s.hand.Settling? ==> forall d :: d in s.hand.rest ==> Fits(s, d, s.hand.deviceTime))
    && (s.hand.Closed? && s.hand.metering ==> |s.hand.all| == 1 && !s.hand.all[0].chunks)
  }

  /** The chunk deliveries that succeeded, in order. */
  function ChunkSuccesses(log: seq<Settlement>): seq<Delivery> {
    if log == [] then []
    else
      var last := log[|log| - 1];
      ChunkSuccesses(log[..|log| - 1]) + if last.outcome.Success? && last.delivery.chunks then [last.delivery] else []
  }

  function Encoding(s: Session): seq<Delivery> {
    if s.encoding.Some? then [s.encoding.value] else []
  }

  predicate EncodesInOrder(s: Session) {
    ChunkSuccesses(s.log) == s.encoded + Encoding(s) + s.jobs
  }

  predicate ArmedTold(s: Session) {
    forall id :: id in s.requests && s.requests[id].armed ==> Tickets(Parts(s.requests[id])) <= s.armed
  }

  ghost predicate Structure(s: Session) {
    && Queued(s)
    && (forall id :: id in s.requests ==> id < |s.accepted| && WellFormed(id, s.requests[id]))
    && Scheduled(s)
    && ArmedTold(s)
  }

  ghost predicate Accounts(s: Session) {
    Queued(s) && Conserved(s) && DepthCounts(s)
  }

  predicate Histories(s: Session) {
    FramesFit(s) && EncodesInOrder(s)
  }

  ghost predicate Inv(s: Session) {
    Structure(s) && Accounts(s) && Histories(s)
  }

  // ---------- lemmas about the queue ----------

  lemma Regroup(a: multiset<Delivery>, b: multiset<Delivery>, c: multiset<Delivery>)
    ensures (a + c) + b == (a + b) + c && a + (b + c) == (a + b) + c
  {
  }

  lemma {:induction false} WaitingSame(pending: seq<Ticket>, a: map<Ticket, Request>, b: map<Ticket, Request>)
    requires forall id :: id in pending ==> id in a && id in b && Load(a[id]) == Load(b[id])
    ensures Waiting(pending, a) == Waiting(pending, b)
  {
    if pending != [] {
      assert pending[0] in pending;
      WaitingSame(pending[1..], a, b);
    }
  }

  lemma {:induction false} WaitingAppend(pending: seq<Ticket>, id: Ticket, requests: map<Ticket, Request>)
    requires forall x :: x in pending + [id] ==> x in requests
    ensures Waiting(pending + [id], requests) == Waiting(pending, requests) + Load(requests[id])
  {
    var whole := pending + [id];
    if pending == [] {
      assert whole[0] == id && whole[1..] == [];
    } else {
      assert whole[0] == pending[0] && whole[1..] == pending[1..] + [id];
      assert forall x :: x in whole[1..] ==> x in whole;
      WaitingAppend(pending[1..], id, requests);
      Regroup(Load(requests[pending[0]]), Waiting(pending[1..], requests), Load(requests[id]));
    }
  }

  /** Joining one queued request adds exactly the new caller to what is owed. */
  lemma {:induction false} WaitingJoin(
    pending: seq<Ticket>, requests: map<Ticket, Request>, id: Ticket, d: Delivery, joined: map<Ticket, Request>)
    requires forall i, j :: 0 <= i < j < |pending| ==> pending[i] != pending[j]
    requires forall x :: x in pending ==> x in requests
    requires id in pending && id in joined
    requires Load(joined[id]) == Load(requests[id]) + multiset{d}
    requires forall x :: x in requests && x != id ==> x in joined && joined[x] == requests[x]
    ensures Waiting(pending, joined) == Waiting(pending, requests) + multiset{d}
  {
    var rest := pending[1..];
    assert forall x :: x in rest ==> x in pending;
    if pending[0] == id {
      assert id !in rest;
      WaitingSame(rest, requests, joined);
    } else {
      assert id in rest;
      WaitingJoin(rest, requests, id, d, joined);
    }
    Regroup(Load(requests[pending[0]]), Waiting(rest, requests), multiset{d});
  }

  lemma {:induction false} StoppingIsWaiting(pending: seq<Ticket>, requests: map<Ticket, Request>)
    requires forall id :: id in pending ==> id in requests
    ensures multiset(Stopping(pending, requests)) == Waiting(pending, requests)
  {
    if pending != [] {
      StoppingIsWaiting(pending[1..], requests);
      var parts := Parts(requests[pending[0]]);
      assert multiset(parts) == Load(requests[pending[0]]);
    }
  }

  lemma AnsweredAppend(log: seq<Settlement>, deliveries: seq<Delivery>, outcome: Outcome)
    ensures Answered(log + Settle(deliveries, outcome)) == Answered(log) + deliveries
  {
  }

  lemma {:induction false} ChunkSuccessesAppend(log: seq<Settlement>, deliveries: seq<Delivery>, outcome: Outcome)
    requires outcome.Success? ==> forall d :: d in deliveries ==> !d.chunks
    ensures ChunkSuccesses(log + Settle(deliveries, outcome)) == ChunkSuccesses(log)
  {
    var more := log + Settle(deliveries, outcome);
    if deliveries == [] {
      assert more == log;
    } else {
      var n := |deliveries| - 1;
      assert more[..|more| - 1] == log + Settle(deliveries[..n], outcome);
      assert more[|more| - 1] == Settlement(deliveries[n], outcome);
      assert deliveries[n] in deliveries;
      ChunkSuccessesAppend(log, deliveries[..n], outcome);
    }
  }

  // ---------- every step keeps the invariant ----------

  lemma InitKeeps(limit: nat, tolerance: nat)
    ensures Inv(Init(limit, tolerance))
  {
  }

  lemma JoinQueued(s: Session, t: Session, id: Ticket, d: Delivery)
    requires Queued(s) && id in s.requests && t == Join(s, id, d)
    ensures Queued(t) && t.requests.Keys == s.requests.Keys
  {
  }

  lemma JoinScheduled(s: Session, t: Session, id: Ticket, d: Delivery)
    requires Structure(s) && id in s.requests && s.requests[id].first.expected == d.expected != 0
    requires !s.requests[id].metering && t == Join(s, id, d)
    ensures Queued(t) && Scheduled(t)
    ensures forall x :: x in t.requests ==> x < |t.accepted| && WellFormed(x, t.requests[x])
  {
    JoinQueued(s, t, id, d);
    JoinKeepsSchedule(s, t, id, d);
    JoinWellFormed(s, t, id, d);
  }

  lemma JoinKeepsSchedule(s: Session, t: Session, id: Ticket, d: Delivery)
    requires Scheduled(s) && id in s.requests && t == Join(s, id, d)
    ensures Scheduled(t)
  {
    assert forall x :: x in t.requests ==> t.requests[x].first == s.requests[x].first;
    assert forall x :: x in t.requests ==> t.requests[x].metering == s.requests[x].metering;
  }

  lemma JoinWellFormed(s: Session, t: Session, id: Ticket, d: Delivery)
    requires forall x :: x in s.requests ==> x < |s.accepted| && WellFormed(x, s.requests[x])
    requires id in s.requests && s.requests[id].first.expected == d.expected && !s.requests[id].metering
    requires t == Join(s, id, d)
    ensures forall x :: x in t.requests ==> x < |t.accepted| && WellFormed(x, t.requests[x])
  {
    forall x | x in t.requests
      ensures x < |t.accepted| && WellFormed(x, t.requests[x])
    {
      assert WellFormed(x, s.requests[x]);
    }
  }

  lemma JoinArmed(s: Session, t: Session, id: Ticket, d: Delivery)
    requires ArmedTold(s) && id in s.requests && t == Join(s, id, d)
    ensures ArmedTold(t)
  {
    forall x | x in t.requests && t.requests[x].armed
      ensures Tickets(Parts(t.requests[x])) <= t.armed
    {
      assert Tickets(Parts(s.requests[x])) <= s.armed;
      assert x == id ==> Parts(t.requests[x]) == Parts(s.requests[x]) + [d];
    }
  }

  /** Only one request has changed, and the queue and the request in hand are the same. */
  predicate OneJoined(s: Session, t: Session, id: Ticket) {
    && id in s.requests && t.pending == s.pending && t.hand == s.hand && t.requests.Keys == s.requests.Keys
    && forall x :: x in s.requests && x != id ==> t.requests[x] == s.requests[x]
  }

  lemma JoinWaiting(s: Session, t: Session, id: Ticket, d: Delivery)
    requires Queued(s) && Queued(t) && id in s.pending && OneJoined(s, t, id)
    requires Load(t.requests[id]) == Load(s.requests[id]) + multiset{d}
    ensures Owed(t) == Owed(s) + multiset{d}
  {
    WaitingJoin(s.pending, s.requests, id, d, t.requests);
    assert InHand(t) == InHand(s);
    Regroup(InHand(s), Waiting(s.pending, s.requests), multiset{d});
  }

  lemma JoinInHand(s: Session, t: Session, id: Ticket, d: Delivery)
    requires Queued(s) && Queued(t) && id !in s.pending && id in s.requests && t == Join(s, id, d)
    requires Load(t.requests[id]) == Load(s.requests[id]) + multiset{d}
    ensures Owed(t) == Owed(s) + multiset{d}
  {
    WaitingSame(s.pending, s.requests, t.requests);
    assert InHand(t) == InHand(s) + multiset{d};
    Regroup(InHand(s), Waiting(s.pending, s.requests), multiset{d});
  }

  lemma JoinOwed(s: Session, t: Session, id: Ticket, d: Delivery)
    requires Queued(s) && Queued(t) && id in s.requests && t == Join(s, id, d)
    ensures Owed(t) == Owed(s) + multiset{d}
  {
    var was, now := s.requests[id].aliases, t.requests[id].aliases;
    assert now == was + [d] && multiset(now) == multiset(was) + multiset{d};
    assert OneJoined(s, t, id);
    if id in s.pending {
      JoinWaiting(s, t, id, d);
    } else {
      JoinInHand(s, t, id, d);
    }
  }

  lemma EnterConserved(s: Session, t: Session, d: Delivery)
    requires Queued(s) && Queued(t) && Conserved(s)
    requires d.ticket == |s.accepted| && t.accepted == s.accepted + [d] && t.log == s.log
    requires Owed(t) == Owed(s) + multiset{d}
    ensures Conserved(t)
  {
    var owed, answered := Owed(s), multiset(Answered(s.log));
    Regroup(owed, answered, multiset{d});
    assert multiset(t.accepted) == multiset(s.accepted) + multiset{d};
  }

  /** One more caller on both sides of the books. */
  lemma EnterAccounts(s: Session, t: Session, d: Delivery)
    requires Queued(s) && Queued(t) && Accounts(s) && !s.stopping && s.depth < s.limit
    requires d.ticket == |s.accepted| && t.accepted == s.accepted + [d] && t.depth == s.depth + 1
    requires t.limit == s.limit && t.log == s.log && t.jobs == s.jobs && t.encoding == s.encoding
    requires t.abandoned == s.abandoned && t.stopping == s.stopping
    requires Owed(t) == Owed(s) + multiset{d}
    ensures Accounts(t)
  {
    EnterConserved(s, t, d);
  }

  lemma HistoriesSame(s: Session, t: Session)
    requires Histories(s) && t.log == s.log && t.hand == s.hand && t.tolerance == s.tolerance
    requires t.jobs == s.jobs && t.encoding == s.encoding && t.encoded == s.encoded
    ensures Histories(t)
  {
  }

  lemma JoinKeeps(s: Session, id: Ticket, d: Delivery)
    requires Inv(s) && !s.stopping && s.depth < s.limit && d.ticket == |s.accepted|
    requires id in s.requests && s.requests[id].first.expected == d.expected != 0 && !s.requests[id].metering
    ensures Inv(Join(s, id, d))
  {
    var t := Join(s, id, d);
    JoinScheduled(s, t, id, d);
    JoinArmed(s, t, id, d);
    JoinOwed(s, t, id, d);
    EnterAccounts(s, t, d);
    HistoriesSame(s, t);
  }

  lemma EnqueueOwed(s: Session, t: Session, d: Delivery, metering: bool)
    requires Queued(s) && Queued(t) && d.ticket !in s.requests && t == Enqueue(s, d, metering)
    ensures Owed(t) == Owed(s) + multiset{d}
  {
    WaitingAppend(s.pending, d.ticket, t.requests);
    WaitingSame(s.pending, s.requests, t.requests);
    assert Load(t.requests[d.ticket]) == multiset{d};
    assert InHand(t) == InHand(s);
    Regroup(InHand(s), Waiting(s.pending, s.requests), multiset{d});
  }

  lemma EnqueueQueued(s: Session, t: Session, d: Delivery, metering: bool)
    requires Structure(s) && d.ticket == |s.accepted| && t == Enqueue(s, d, metering)
    ensures Queued(t) && t.requests.Keys == s.requests.Keys + {d.ticket} && d.ticket !in s.requests
  {
    TicketIsNew(s, d);
    assert forall id :: id in t.pending <==> id in s.pending || id == d.ticket;
    assert forall i :: 0 <= i < |s.pending| ==> t.pending[i] == s.pending[i] && s.pending[i] in s.requests;
  }

  /** Open requests are named by tickets that were given out before. */
  lemma TicketIsNew(s: Session, d: Delivery)
    requires Structure(s) && d.ticket == |s.accepted|
    ensures d.ticket !in s.requests && d.ticket !in s.pending
  {
  }

  lemma EnqueueScheduled(s: Session, t: Session, d: Delivery, metering: bool)
    requires Scheduled(s) && d.ticket !in s.requests && t == Enqueue(s, d, metering)
    requires d.expected != 0 && !metering ==> d.expected !in s.scheduled
    ensures Scheduled(t)
  {
  }

  lemma EnqueueArmed(s: Session, t: Session, d: Delivery, metering: bool)
    requires ArmedTold(s) && t == Enqueue(s, d, metering)
    ensures ArmedTold(t)
  {
    forall x | x in t.requests && t.requests[x].armed
      ensures Tickets(Parts(t.requests[x])) <= t.armed
    {
      assert Tickets(Parts(s.requests[x])) <= s.armed;
    }
  }

  lemma EnqueueStructure(s: Session, t: Session, d: Delivery, metering: bool)
    requires Structure(s) && d.ticket == |s.accepted| && t == Enqueue(s, d, metering) && (metering ==> !d.chunks)
    requires d.expected != 0 && !metering ==> d.expected !in s.scheduled
    ensures Structure(t)
  {
    EnqueueQueued(s, t, d, metering);
    EnqueueScheduled(s, t, d, metering);
    EnqueueArmed(s, t, d, metering);
    forall x | x in t.requests
      ensures x < |t.accepted| && WellFormed(x, t.requests[x])
    {
      assert x != d.ticket ==> WellFormed(x, s.requests[x]);
    }
  }

  lemma EnqueueKeeps(s: Session, d: Delivery, metering: bool)
    requires Inv(s) && !s.stopping && s.depth < s.limit && d.ticket == |s.accepted| && (metering ==> !d.chunks)
    requires d.expected != 0 && !metering ==> d.expected !in s.scheduled
    ensures Inv(Enqueue(s, d, metering))
  {
    var t := Enqueue(s, d, metering);
    EnqueueStructure(s, t, d, metering);
    EnqueueOwed(s, t, d, metering);
    EnterAccounts(s, t, d);
    HistoriesSame(s, t);
  }

  lemma ScheduledIsOpen(s: Session, expected: nat)
    requires Structure(s) && expected in s.scheduled
    ensures var id := s.scheduled[expected];
            && id in s.requests && Alive(s, id) && expected != 0
            && s.requests[id].first.expected == expected && !s.requests[id].metering
  {
  }

  lemma SubmitKeeps(s: Session, ready: bool, expected: nat, metering: bool, chunks: bool)
    requires Inv(s) && !s.stopping && (metering ==> !chunks)
    ensures Inv(Submit(s, ready, expected, metering, chunks))
  {
    if ready && s.depth < s.limit {
      var t := Submit(s, ready, expected, metering, chunks);
      var d := Delivery(|s.accepted|, expected, chunks);
      if expected != 0 && !metering && expected in s.scheduled {
        ScheduledIsOpen(s, expected);
        var joined := Join(s, s.scheduled[expected], d);
        assert t == joined;
        JoinKeeps(s, s.scheduled[expected], d);
      } else {
        var queued := Enqueue(s, d, metering);
        assert t == queued;
        EnqueueKeeps(s, d, metering);
      }
    }
  }

  lemma StructureSame(s: Session, t: Session)
    requires Structure(s) && t.requests == s.requests && t.pending == s.pending && t.scheduled == s.scheduled
    requires t.stopping == s.stopping && t.accepted == s.accepted && t.armed == s.armed
    requires s.hand.Open? || t.hand.Open? ==> t.hand == s.hand
    ensures Structure(t)
  {
  }

  lemma AccountsSame(s: Session, t: Session)
    requires Queued(s) && Queued(t) && Accounts(s) && Owed(t) == Owed(s)
    requires t.accepted == s.accepted && t.log == s.log && t.limit == s.limit
    requires t.stopping == s.stopping && t.abandoned == s.abandoned && t.depth <= s.depth
    requires t.depth == s.depth - |s.jobs| - OneIf(s.encoding.Some?) + |t.jobs| + OneIf(t.encoding.Some?)
    ensures Accounts(t)
  {
  }

  lemma PopStructure(s: Session, t: Session)
    requires Structure(s) && s.hand.Idle? && s.pending != [] && t == Popped(s)
    ensures Structure(t)
  {
    assert s.pending == [s.pending[0]] + t.pending;
  }

  lemma PopAccounts(s: Session, t: Session)
    requires Accounts(s) && Queued(t) && s.hand.Idle? && s.pending != [] && t == Popped(s)
    ensures Accounts(t)
  {
    assert Owed(t) == Owed(s);
    AccountsSame(s, t);
  }

  lemma PopKeeps(s: Session)
    requires Inv(s) && s.hand.Idle? && s.pending != []
    ensures Inv(Popped(s))
  {
    var t := Popped(s);
    PopStructure(s, t);
    PopAccounts(s, t);
    HistoriesSame(s, t.(hand := s.hand));
  }

  lemma ArmStructure(s: Session, t: Session)
    requires Structure(s) && s.hand.Open? && t == Armed(s)
    ensures Structure(t)
  {
    assert t.requests.Keys == s.requests.Keys;
    assert Queued(t) && Scheduled(t);
    forall x | x in t.requests && t.requests[x].armed
      ensures Tickets(Parts(t.requests[x])) <= t.armed
    {
      assert s.requests[x].armed ==> Tickets(Parts(s.requests[x])) <= s.armed;
      assert Parts(t.requests[x]) == Parts(s.requests[x]);
    }
  }

  lemma ArmKeeps(s: Session)
    requires Inv(s) && s.hand.Open?
    ensures Inv(Armed(s))
  {
    var t := Armed(s);
    ArmStructure(s, t);
    WaitingSame(s.pending, s.requests, t.requests);
    assert InHand(t) == InHand(s);
    AccountsSame(s, t);
    HistoriesSame(s, t);
  }

  /** Closing a request takes it, and only it, out of the schedule. */
  lemma CloseStructure(s: Session, t: Session)
    requires Structure(s) && s.hand.Open? && !t.hand.Open?
    requires t.requests == s.requests - {s.hand.id} && t.scheduled == CloseScheduled(s, s.hand.id)
    requires t.pending == s.pending && t.stopping == s.stopping && t.accepted == s.accepted && t.armed == s.armed
    ensures Structure(t)
  {
    assert Queued(t);
    forall x | x in t.scheduled
      ensures t.scheduled[x] in t.requests
    {
      assert x in s.scheduled && s.scheduled[x] in s.requests;
    }
    assert Scheduled(t);
    forall x | x in t.requests && t.requests[x].armed
      ensures Tickets(Parts(t.requests[x])) <= t.armed
    {
      assert Tickets(Parts(s.requests[x])) <= s.armed;
    }
  }

  /** What a closed or failing request owes is exactly what the open one owed. */
  lemma CloseOwed(s: Session, t: Session)
    requires Queued(s) && s.hand.Open? && Queued(t) && !t.hand.Open?
    requires t.requests == s.requests - {s.hand.id} && t.pending == s.pending
    ensures Owed(s) == multiset(Parts(s.requests[s.hand.id])) + Waiting(t.pending, t.requests)
  {
    WaitingSame(s.pending, s.requests, t.requests);
    assert multiset(Parts(s.requests[s.hand.id])) == Load(s.requests[s.hand.id]);
  }

  lemma CloseHistories(s: Session, t: Session, deviceTime: nat)
    requires Histories(s) && s.hand.Open? && s.hand.id in s.requests && t == FrameClosed(s, deviceTime)
    requires WellFormed(s.hand.id, s.requests[s.hand.id])
    requires Fits(s, s.requests[s.hand.id].first, deviceTime)
    ensures Histories(t)
  {
  }

  lemma CloseKeeps(s: Session, deviceTime: nat)
    requires Inv(s) && s.hand.Open? && Fits(s, s.requests[s.hand.id].first, deviceTime)
    ensures Inv(FrameClosed(s, deviceTime))
  {
    var t := FrameClosed(s, deviceTime);
    CloseStructure(s, t);
    CloseOwed(s, t);
    AccountsSame(s, t);
    CloseHistories(s, t, deviceTime);
  }

  /** Settling callers moves them from what is owed to what is answered. */
  lemma SettleAccounts(s: Session, t: Session, deliveries: seq<Delivery>, outcome: Outcome, queued: nat)
    requires Queued(s) && Queued(t) && Accounts(s)
    requires t.log == s.log + Settle(deliveries, outcome) && Owed(s) == Owed(t) + multiset(deliveries)
    requires t.accepted == s.accepted && t.limit == s.limit && t.stopping == s.stopping && t.abandoned == s.abandoned
    requires |t.jobs| == |s.jobs| + queued && t.encoding == s.encoding
    requires queued <= |deliveries| && t.depth == Less(s.depth, |deliveries| - queued)
    ensures Accounts(t)
  {
    AnsweredAppend(s.log, deliveries, outcome);
    var sent := multiset(deliveries);
    assert multiset(Answered(t.log)) == multiset(Answered(s.log)) + sent;
    Regroup(Owed(t), multiset(Answered(s.log)), sent);
    assert |Owed(s)| == |Owed(t)| + |deliveries|;
  }

  lemma SettleHistories(s: Session, t: Session, deliveries: seq<Delivery>, outcome: Outcome)
    requires Histories(s) && t.log == s.log + Settle(deliveries, outcome) && t.tolerance == s.tolerance
    requires t.jobs == s.jobs && t.encoding == s.encoding && t.encoded == s.encoded && t.hand.Idle?
    requires outcome.Success? ==> forall d :: d in deliveries ==> !d.chunks && Fits(s, d, outcome.deviceTime)
    ensures Histories(t)
  {
    ChunkSuccessesAppend(s.log, deliveries, outcome);
    forall e | e in t.log && e.outcome.Success?
      ensures Fits(t, e.delivery, e.outcome.deviceTime)
    {
      if e !in s.log {
        assert e in Settle(deliveries, outcome);
      } else {
        assert Fits(s, e.delivery, e.outcome.deviceTime);
      }
    }
  }

  lemma FailClosedKeeps(s: Session)
    requires Inv(s) && s.hand.Closed?
    ensures Inv(Fail(s, s.hand.all))
  {
    var t := Fail(s, s.hand.all);
    StructureSame(s, t);
    SettleAccounts(s, t, s.hand.all, Failure, 0);
    SettleHistories(s, t, s.hand.all, Failure);
  }

  lemma FailOpenAccounts(s: Session, t: Session)
    requires Accounts(s) && Queued(t) && s.hand.Open? && t == FailedOpen(s)
    requires Owed(s) == Owed(t) + multiset(Parts(s.requests[s.hand.id]))
    ensures Accounts(t)
  {
    SettleAccounts(s, t, Parts(s.requests[s.hand.id]), Failure, 0);
  }

  lemma FailOpenKeeps(s: Session)
    requires Inv(s) && s.hand.Open?
    ensures Inv(FailedOpen(s))
  {
    var t := FailedOpen(s);
    CloseStructure(s, t);
    CloseOwed(s, t);
    FailOpenAccounts(s, t);
    SettleHistories(s, t, Parts(s.requests[s.hand.id]), Failure);
  }

  lemma MeteringHistories(s: Session, t: Session)
    requires Histories(s) && s.hand.Closed? && s.hand.metering && t == Converted(s)
    ensures Histories(t) && |s.hand.all| == 1
  {
    assert forall d :: d in s.hand.all ==> d == s.hand.all[0];
    SettleHistories(s, t, s.hand.all, Success(s.hand.deviceTime));
  }

  lemma MeteringKeeps(s: Session)
    requires Inv(s) && s.hand.Closed? && s.hand.metering
    ensures Inv(Converted(s))
  {
    var t := Converted(s);
    StructureSame(s, t);
    MeteringHistories(s, t);
    SettleAccounts(s, t, s.hand.all, Success(s.hand.deviceTime), 0);
  }

  lemma ConvertHistories(s: Session, t: Session)
    requires Histories(s) && s.hand.Closed? && !s.hand.metering && t == Converted(s)
    ensures Histories(t)
  {
  }

  lemma ConvertKeeps(s: Session)
    requires Inv(s) && s.hand.Closed? && !s.hand.metering
    ensures Inv(Converted(s))
  {
    var t := Converted(s);
    StructureSame(s, t);
    assert InHand(t) == InHand(s);
    AccountsSame(s, t);
    ConvertHistories(s, t);
  }

  lemma DeliverFits(s: Session, t: Session)
    requires FramesFit(s) && s.hand.Settling? && s.hand.rest != [] && t == Delivered(s)
    ensures FramesFit(t)
  {
    var d := s.hand.rest[0];
    assert d in s.hand.rest && Fits(s, d, s.hand.deviceTime);
    assert Settle([d], Success(s.hand.deviceTime)) == [Settlement(d, Success(s.hand.deviceTime))];
    forall x | x in t.hand.rest
      ensures Fits(t, x, t.hand.deviceTime)
    {
      assert x in s.hand.rest && Fits(s, x, s.hand.deviceTime);
    }
    forall e | e in t.log && e.outcome.Success?
      ensures Fits(t, e.delivery, e.outcome.deviceTime)
    {
      if e in s.log {
        assert Fits(s, e.delivery, e.outcome.deviceTime);
      }
    }
  }

  lemma ChunkSuccessesOne(log: seq<Settlement>, d: Delivery, deviceTime: nat)
    ensures ChunkSuccesses(log + Settle([d], Success(deviceTime))) == ChunkSuccesses(log) + if d.chunks then [d] else []
  {
    var more := log + Settle([d], Success(deviceTime));
    assert more[..|more| - 1] == log;
  }

  lemma DeliverHistories(s: Session, t: Session)
    requires Histories(s) && s.hand.Settling? && s.hand.rest != [] && t == Delivered(s)
    ensures Histories(t)
  {
    DeliverFits(s, t);
    ChunkSuccessesOne(s.log, s.hand.rest[0], s.hand.deviceTime);
  }

  lemma DeliverLast(s: Session)
    requires Inv(s) && s.hand.Settling? && s.hand.rest == []
    ensures Inv(Delivered(s))
  {
    var t := Delivered(s);
    StructureSame(s, t);
    assert InHand(t) == InHand(s);
    AccountsSame(s, t);
    assert Histories(t);
  }

  lemma DeliverOwed(s: Session, t: Session)
    requires Queued(s) && Queued(t) && s.hand.Settling? && s.hand.rest != [] && t == Delivered(s)
    ensures Owed(s) == Owed(t) + multiset([s.hand.rest[0]])
  {
    assert s.hand.rest == [s.hand.rest[0]] + t.hand.rest;
  }

  lemma DeliverKeeps(s: Session)
    requires Inv(s) && s.hand.Settling? && s.hand.rest != []
    ensures Inv(Delivered(s))
  {
    var t := Delivered(s);
    var d := s.hand.rest[0];
    StructureSame(s, t);
    DeliverOwed(s, t);
    SettleAccounts(s, t, [d], Success(s.hand.deviceTime), if d.chunks then 1 else 0);
    DeliverHistories(s, t);
  }

  lemma EncodeHistories(s: Session, t: Session)
    requires Histories(s) && t.log == s.log && t.hand == s.hand && t.tolerance == s.tolerance
    requires s.encoded + Encoding(s) + s.jobs == t.encoded + Encoding(t) + t.jobs
    ensures Histories(t)
  {
  }

  lemma EncodeStartAccounts(s: Session, t: Session)
    requires Accounts(s) && Queued(t) && s.encoding.None? && s.jobs != [] && t == EncodeStarted(s)
    ensures Accounts(t)
  {
    assert InHand(t) == InHand(s);
    AccountsSame(s, t);
  }

  lemma EncodeStartHistories(s: Session, t: Session)
    requires Histories(s) && s.encoding.None? && s.jobs != [] && t == EncodeStarted(s)
    ensures Histories(t)
  {
    assert s.jobs == [s.jobs[0]] + t.jobs;
    EncodeHistories(s, t);
  }

  lemma EncodeStartKeeps(s: Session)
    requires Inv(s) && s.encoding.None? && s.jobs != []
    ensures Inv(EncodeStarted(s))
  {
    var t := EncodeStarted(s);
    StructureSame(s, t);
    EncodeStartAccounts(s, t);
    EncodeStartHistories(s, t);
  }

  lemma EncodingCounts(s: Session)
    requires Queued(s) && DepthCounts(s) && s.encoding.Some?
    ensures s.depth > 0
  {
  }

  lemma EncodeEndAccounts(s: Session, t: Session)
    requires Accounts(s) && Queued(t) && s.encoding.Some? && s.depth > 0 && t == EncodeEnded(s)
    ensures Accounts(t)
  {
    assert InHand(t) == InHand(s);
    AccountsSame(s, t);
  }

  lemma EncodeEndHistories(s: Session, t: Session)
    requires Histories(s) && s.encoding.Some? && s.depth > 0 && t == EncodeEnded(s)
    ensures Histories(t)
  {
    EncodeHistories(s, t);
  }

  lemma EncodeEndKeeps(s: Session)
    requires Inv(s) && s.encoding.Some?
    ensures s.depth > 0 && Inv(EncodeEnded(s))
  {
    EncodingCounts(s);
    var t := EncodeEnded(s);
    StructureSame(s, t);
    EncodeEndAccounts(s, t);
    EncodeEndHistories(s, t);
  }

  lemma ShutdownStructure(s: Session, t: Session)
    requires Structure(s) && t == ShutDown(s)
    ensures Structure(t)
  {
    assert Queued(t);
    forall x | x in t.requests && t.requests[x].armed
      ensures Tickets(Parts(t.requests[x])) <= t.armed
    {
      assert Tickets(Parts(s.requests[x])) <= s.armed;
    }
  }

  lemma ShutdownAccounts(s: Session, t: Session)
    requires Accounts(s) && !s.stopping && t == ShutDown(s) && Queued(t)
    ensures Accounts(t)
  {
    var stopped := Stopping(s.pending, s.requests);
    StoppingIsWaiting(s.pending, s.requests);
    var sent := multiset(stopped);
    assert InHand(t) == InHand(s);
    assert Owed(t) + sent == Owed(s);
    AnsweredAppend(s.log, stopped, Stopped);
    assert multiset(Answered(t.log)) == multiset(Answered(s.log)) + sent;
    Regroup(Owed(t), multiset(Answered(s.log)), sent);
    assert |Owed(s)| == |Owed(t)| + |stopped|;
  }

  lemma ShutdownHistories(s: Session, t: Session)
    requires Histories(s) && (forall id :: id in s.pending ==> id in s.requests) && t == ShutDown(s)
    ensures Histories(t)
  {
    var stopped := Stopping(s.pending, s.requests);
    ChunkSuccessesAppend(s.log, stopped, Stopped);
    assert forall e :: e in Settle(stopped, Stopped) ==> e.outcome == Stopped;
  }

  lemma ShutdownKeeps(s: Session)
    requires Inv(s) && !s.stopping
    ensures Inv(ShutDown(s))
  {
    var t := ShutDown(s);
    ShutdownStructure(s, t);
    ShutdownAccounts(s, t);
    ShutdownHistories(s, t);
  }

  lemma StepKeeps(s: Session, e: Event)
    requires Inv(s) && Enabled(s, e)
    ensures Inv(Step(s, e))
  {
    match e
    case RequestFrame(ready, expected, metering, chunks) => SubmitKeeps(s, ready, expected, metering, chunks);
    case Pop => PopKeeps(s);
    case Arm => ArmKeeps(s);
    case CloseFrame(deviceTime) => CloseKeeps(s, deviceTime);
    case FailFrame =>
      if s.hand.Closed? {
        FailClosedKeeps(s);
      } else {
        FailOpenKeeps(s);
      }
    case Convert =>
      if s.hand.metering {
        MeteringKeeps(s);
      } else {
        ConvertKeeps(s);
      }
    case DeliverNext =>
      if s.hand.rest == [] {
        DeliverLast(s);
      } else {
        DeliverKeeps(s);
      }
    case EncodeStart => EncodeStartKeeps(s);
    case EncodeEnd => EncodeEndKeeps(s);
    case Shutdown => ShutdownKeeps(s);
  }

  /** Every interleaving of callers, worker, encoder and shutdown keeps the invariant. */
  lemma {:induction false} InterleavingsKeepInvariant(s: Session, events: seq<Event>)
    requires Inv(s)
    ensures Inv(Run(s, events))
    decreases events
  {
    if events != [] {
      if Enabled(s, events[0]) {
        StepKeeps(s, events[0]);
        InterleavingsKeepInvariant(Step(s, events[0]), events[1..]);
      } else {
        InterleavingsKeepInvariant(s, events[1..]);
      }
    }
  }

  // ---------- what it means for callers ----------

  /** How often the caller with this ticket was told the end of its request. */
  function Completions(log: seq<Settlement>, ticket: Ticket): nat {
    if log == [] then 0
    else OneIf(log[0].delivery.ticket == ticket) + Completions(log[1..], ticket)
  }

  lemma {:induction false} CompletionsAreMultiplicity(log: seq<Settlement>, d: Delivery)
    requires forall x :: x in Answered(log) && x.ticket == d.ticket ==> x == d
    ensures Completions(log, d.ticket) == multiset(Answered(log))[d]
  {
    if log != [] {
      assert Answered(log) == [log[0].delivery] + Answered(log[1..]);
      CompletionsAreMultiplicity(log[1..], d);
    }
  }

  lemma NumberedOnce(accepted: seq<Delivery>, ticket: Ticket)
    requires forall i :: 0 <= i < |accepted| ==> accepted[i].ticket == i
    requires ticket < |accepted|
    ensures multiset(accepted)[accepted[ticket]] == 1
  {
    var d := accepted[ticket];
    var before, after := accepted[..ticket], accepted[ticket + 1..];
    assert d !in before && d !in after;
    assert accepted == before + [d] + after;
  }

  lemma ConservedMeansOnce(s: Session, ticket: Ticket)
    requires Queued(s) && Conserved(s) && ticket < |s.accepted|
    ensures Owed(s)[s.accepted[ticket]] + Completions(s.log, ticket) == 1
  {
    var d := s.accepted[ticket];
    NumberedOnce(s.accepted, ticket);
    var answered := Answered(s.log);
    forall x | x in answered && x.ticket == ticket
      ensures x == d
    {
      assert x in multiset(answered);
      assert x in multiset(s.accepted);
    }
    CompletionsAreMultiplicity(s.log, d);
  }

  lemma ReachableHolds(limit: nat, tolerance: nat, events: seq<Event>)
    ensures var s := Run(Init(limit, tolerance), events); Inv(s) && s.limit == limit && s.tolerance == tolerance
  {
    InitKeeps(limit, tolerance);
    InterleavingsKeepInvariant(Init(limit, tolerance), events);
    SettingsStay(Init(limit, tolerance), events);
  }

  lemma {:induction false} SettingsStay(s: Session, events: seq<Event>)
    ensures Run(s, events).limit == s.limit && Run(s, events).tolerance == s.tolerance
    decreases events
  {
    if events != [] {
      SettingsStay(if Enabled(s, events[0]) then Step(s, events[0]) else s, events[1..]);
    }
  }

  /** In every reachable state each accepted caller is either still owed its answer, and has had
      none, or has had exactly one. */
  lemma EveryCallerAnsweredOnce(limit: nat, tolerance: nat, events: seq<Event>, ticket: Ticket)
    requires ticket < |Run(Init(limit, tolerance), events).accepted|
    ensures var s := Run(Init(limit, tolerance), events);
            && Inv(s)
            && Owed(s)[s.accepted[ticket]] + Completions(s.log, ticket) == 1
  {
    ReachableHolds(limit, tolerance, events);
    ConservedMeansOnce(Run(Init(limit, tolerance), events), ticket);
  }

  /** Once the session is stopped and the worker is idle, nobody is left waiting: every accepted
      caller was told success, failure or shutdown exactly once. */
  lemma ShutdownLeavesNobodyWaiting(limit: nat, tolerance: nat, events: seq<Event>, ticket: Ticket)
    requires var s := Run(Init(limit, tolerance), events);
             s.stopping && s.hand.Idle? && ticket < |s.accepted|
    ensures Completions(Run(Init(limit, tolerance), events).log, ticket) == 1
  {
    var s := Run(Init(limit, tolerance), events);
    StoppedMeansEmpty(Init(limit, tolerance), events);
    EveryCallerAnsweredOnce(limit, tolerance, events, ticket);
  }

  lemma {:induction false} StoppedMeansEmpty(s: Session, events: seq<Event>)
    requires s.stopping ==> s.pending == []
    ensures Run(s, events).stopping ==> Run(s, events).pending == []
    decreases events
  {
    if events != [] {
      if Enabled(s, events[0]) {
        StoppedMeansEmpty(Step(s, events[0]), events[1..]);
      } else {
        StoppedMeansEmpty(s, events[1..]);
      }
    }
  }

  // ---------- who is taken, and in what order ----------

  /** An open request that callers for this device time join. */
  predicate OpenFor(s: Session, id: Ticket, expected: nat) {
    id in s.requests && !s.requests[id].metering && s.requests[id].first.expected == expected != 0
  }

  /** What a new caller finds: everybody got a ticket before it, and older requests come first. */
  predicate InOrder(s: Session) {
    && (forall x :: x in s.armed ==> x < |s.accepted|)
    && (forall id, d :: id in s.requests && d in Parts(s.requests[id]) ==> d.ticket < |s.accepted|)
    && (forall i :: 0 <= i < |s.pending| ==> s.pending[i] < |s.accepted|)
    && (forall i, j :: 0 <= i < j < |s.pending| ==> s.pending[i] < s.pending[j])
    && (!s.hand.Idle? ==> s.hand.id < |s.accepted| && forall i :: 0 <= i < |s.pending| ==> s.hand.id < s.pending[i])
  }

  lemma JoinInOrder(s: Session, id: Ticket, d: Delivery)
    requires InOrder(s) && d.ticket == |s.accepted|
    ensures InOrder(Join(s, id, d))
  {
    var t := Join(s, id, d);
    if id in s.requests {
      assert Parts(t.requests[id]) == Parts(s.requests[id]) + [d];
    }
    forall x, p | x in t.requests && p in Parts(t.requests[x])
      ensures p.ticket < |t.accepted|
    {
      assert p == d || p in Parts(s.requests[x]);
    }
  }

  lemma EnqueueInOrder(s: Session, d: Delivery, metering: bool)
    requires InOrder(s) && d.ticket == |s.accepted|
    ensures InOrder(Enqueue(s, d, metering))
  {
    var t := Enqueue(s, d, metering);
    forall x, p | x in t.requests && p in Parts(t.requests[x])
      ensures p.ticket < |t.accepted|
    {
      assert p == d || p in Parts(s.requests[x]);
    }
  }

  lemma SubmitInOrder(s: Session, ready: bool, expected: nat, metering: bool, chunks: bool)
    requires InOrder(s)
    ensures InOrder(Submit(s, ready, expected, metering, chunks))
  {
    var d := Delivery(|s.accepted|, expected, chunks);
    EnqueueInOrder(s, d, metering);
    if expected in s.scheduled {
      JoinInOrder(s, s.scheduled[expected], d);
    }
  }

  lemma ArmInOrder(s: Session)
    requires InOrder(s) && Enabled(s, Arm)
    ensures InOrder(Armed(s))
  {
    var t := Armed(s);
    assert Parts(t.requests[s.hand.id]) == Parts(s.requests[s.hand.id]);
    forall x, p | x in t.requests && p in Parts(t.requests[x])
      ensures p in Parts(s.requests[x])
    {
    }
  }

  lemma PopInOrder(s: Session)
    requires InOrder(s) && Enabled(s, Pop)
    ensures InOrder(Popped(s))
  {
  }

  /** Steps that leave the queue alone or clear it. */
  lemma OthersInOrder(s: Session, t: Session)
    requires InOrder(s) && t.accepted == s.accepted && t.armed == s.armed
    requires t.pending == s.pending || t.pending == []
    requires forall x :: x in t.requests ==> x in s.requests && t.requests[x] == s.requests[x]
    requires !t.hand.Idle? ==> !s.hand.Idle? && t.hand.id == s.hand.id
    ensures InOrder(t)
  {
  }

  lemma StepInOrder(s: Session, e: Event)
    requires InOrder(s) && Enabled(s, e)
    ensures InOrder(Step(s, e))
  {
    match e
    case RequestFrame(ready, expected, metering, chunks) => SubmitInOrder(s, ready, expected, metering, chunks);
    case Arm => ArmInOrder(s);
    case Pop => PopInOrder(s);
    case _ => OthersInOrder(s, Step(s, e));
  }

  lemma {:induction false} RunInOrder(s: Session, events: seq<Event>)
    requires InOrder(s)
    ensures InOrder(Run(s, events))
    decreases events
  {
    if events != [] {
      if Enabled(s, events[0]) {
        StepInOrder(s, events[0]);
        RunInOrder(Step(s, events[0]), events[1..]);
      } else {
        RunInOrder(s, events[1..]);
      }
    }
  }

  /** The last alias of one open request; nothing else changes in the queue. */
  predicate Joins(s: Session, t: Session, id: Ticket, d: Delivery) {
    && t.pending == s.pending && t.requests.Keys == s.requests.Keys && id in s.requests
    && Parts(t.requests[id]) == Parts(s.requests[id]) + [d]
    && (forall x :: x in s.requests && x != id ==> t.requests[x] == s.requests[x])
    && (d.ticket in t.armed <==> s.requests[id].armed)
  }

  /** A request of its own at the end of the queue; nobody is armed. */
  predicate Lines(s: Session, t: Session, d: Delivery, metering: bool) {
    && t.pending == s.pending + [d.ticket] && d.ticket !in s.requests && d.ticket !in t.armed
    && t.requests.Keys == s.requests.Keys + {d.ticket}
    && Parts(t.requests[d.ticket]) == [d] && t.requests[d.ticket].metering == metering
    && (forall x :: x in s.requests ==> t.requests[x] == s.requests[x])
  }

  lemma OpenIsScheduled(s: Session, id: Ticket, expected: nat)
    requires Scheduled(s) && !s.stopping && OpenFor(s, id, expected)
    ensures expected in s.scheduled && s.scheduled[expected] == id && Alive(s, id)
  {
  }

  lemma JoinJoins(s: Session, id: Ticket, d: Delivery)
    requires id in s.requests && InOrder(s) && d.ticket == |s.accepted|
    ensures Joins(s, Join(s, id, d), id, d)
  {
    assert Parts(Join(s, id, d).requests[id]) == Parts(s.requests[id]) + [d];
  }

  lemma EnqueueLines(s: Session, d: Delivery, metering: bool)
    requires Structure(s) && InOrder(s) && d.ticket == |s.accepted|
    ensures Lines(s, Enqueue(s, d, metering), d, metering)
  {
    assert d.ticket !in s.requests;
  }

  lemma SubmitPlaces(s: Session, expected: nat, metering: bool, chunks: bool, id: Ticket)
    requires Structure(s) && InOrder(s) && !s.stopping && s.depth < s.limit
    ensures var t := Submit(s, true, expected, metering, chunks); var d := Delivery(|s.accepted|, expected, chunks);
            && (!metering && OpenFor(s, id, expected) ==> Joins(s, t, id, d))
            && (metering || (forall x :: !OpenFor(s, x, expected)) ==> Lines(s, t, d, metering))
  {
    var d := Delivery(|s.accepted|, expected, chunks);
    if !metering && OpenFor(s, id, expected) {
      OpenIsScheduled(s, id, expected);
      JoinJoins(s, id, d);
    } else if metering || forall x :: !OpenFor(s, x, expected) {
      assert expected != 0 && !metering && expected in s.scheduled ==> OpenFor(s, s.scheduled[expected], expected);
      EnqueueLines(s, d, metering);
    }
  }

  lemma SubmitCounts(s: Session, ready: bool, expected: nat, metering: bool, chunks: bool)
    ensures var t := Submit(s, ready, expected, metering, chunks);
            if ready && s.depth < s.limit then
              && t.accepted == s.accepted + [Delivery(|s.accepted|, expected, chunks)]
              && t.depth == s.depth + 1 && t.log == s.log
            else t == s
  {
  }

  /** In every reachable state before shutdown a ready session below its depth takes the caller, and refuses it
      otherwise: the caller joins the one open request for its device time, and is armed at once exactly when
      that request is, or ends the queue with a request of its own. */
  lemma SubmitIsExact(limit: nat, tolerance: nat, events: seq<Event>, ready: bool, expected: nat, metering: bool,
                      chunks: bool, id: Ticket)
    requires !Run(Init(limit, tolerance), events).stopping
    ensures var s := Run(Init(limit, tolerance), events);
            var t := Submit(s, ready, expected, metering, chunks);
            var d := Delivery(|s.accepted|, expected, chunks);
            if ready && s.depth < limit then
              && t.accepted == s.accepted + [d] && t.depth == s.depth + 1 && t.log == s.log
              && (!metering && OpenFor(s, id, expected) ==> Joins(s, t, id, d))
              && (metering || (forall x :: !OpenFor(s, x, expected)) ==> Lines(s, t, d, metering))
            else t == s
  {
    var s := Run(Init(limit, tolerance), events);
    ReachableHolds(limit, tolerance, events);
    RunInOrder(Init(limit, tolerance), events);
    SubmitCounts(s, ready, expected, metering, chunks);
    if ready && s.depth < limit {
      SubmitPlaces(s, expected, metering, chunks, id);
    }
  }

  /** The requests the worker takes along a run. */
  function Taken(s: Session, events: seq<Event>): seq<Ticket>
    decreases events
  {
    if events == [] then []
    else if !Enabled(s, events[0]) then Taken(s, events[1..])
    else
      var t := Step(s, events[0]);
      (if events[0].Pop? && t.hand.Open? then [t.hand.id] else []) + Taken(t, events[1..])
  }

  predicate Later(s: Session, low: Ticket) {
    low < |s.accepted| && forall i :: 0 <= i < |s.pending| ==> low < s.pending[i]
  }

  lemma StepLater(s: Session, e: Event, low: Ticket)
    requires Later(s, low) && Enabled(s, e)
    ensures Later(Step(s, e), low)
    ensures e.Pop? ==> low < Step(s, e).hand.id
  {
    if e.RequestFrame? {
      var t := Step(s, e);
      assert t.pending == s.pending || t.pending == s.pending + [|s.accepted|];
    }
  }

  lemma {:induction false} TakenAfter(s: Session, events: seq<Event>, low: Ticket)
    requires Later(s, low)
    ensures forall x :: x in Taken(s, events) ==> low < x
    decreases events
  {
    if events != [] {
      if Enabled(s, events[0]) {
        StepLater(s, events[0], low);
        TakenAfter(Step(s, events[0]), events[1..], low);
      } else {
        TakenAfter(s, events[1..], low);
      }
    }
  }

  predicate Ascending(ids: seq<Ticket>) {
    forall i, j :: 0 <= i < j < |ids| ==> ids[i] < ids[j]
  }

  lemma AscendingFrom(low: Ticket, ids: seq<Ticket>)
    requires Ascending(ids) && forall x :: x in ids ==> low < x
    ensures Ascending([low] + ids)
  {
    assert forall i :: 0 <= i < |ids| ==> ids[i] in ids;
  }

  /** Requests are served in the order in which they were accepted. */
  lemma {:induction false} TakenInOrder(s: Session, events: seq<Event>)
    requires InOrder(s)
    ensures Ascending(Taken(s, events))
    decreases events
  {
    if events != [] {
      if Enabled(s, events[0]) {
        var t := Step(s, events[0]);
        StepInOrder(s, events[0]);
        TakenInOrder(t, events[1..]);
        if events[0].Pop? {
          TakenAfter(t, events[1..], t.hand.id);
          AscendingFrom(t.hand.id, Taken(t, events[1..]));
        }
      } else {
        TakenInOrder(s, events[1..]);
      }
    }
  }

  lemma RequestsAreTakenInOrder(limit: nat, tolerance: nat, events: seq<Event>)
    ensures Ascending(Taken(Init(limit, tolerance), events))
  {
    TakenInOrder(Init(limit, tolerance), events);
  }

  // ---------- what callers are told ----------

  /** Each of these callers is told this, in line, and nobody else is told anything. */
  predicate Tells(s: Session, t: Session, who: seq<Delivery>, outcome: Outcome) {
    && |t.log| == |s.log| + |who|
    && (forall i :: 0 <= i < |s.log| ==> t.log[i] == s.log[i])
    && (forall i :: 0 <= i < |who| ==> t.log[|s.log| + i] == Settlement(who[i], outcome))
  }

  lemma SettlingTells(s: Session, t: Session, who: seq<Delivery>, outcome: Outcome)
    requires t.log == s.log + Settle(who, outcome)
    ensures Tells(s, t, who, outcome)
  {
  }

  /** A failure is told to everybody who joined the request in hand. */
  lemma FailureIsTold(s: Session)
    requires Queued(s) && Enabled(s, FailFrame)
    ensures Tells(s, Step(s, FailFrame), if s.hand.Open? then Parts(s.requests[s.hand.id]) else s.hand.all, Failure)
    ensures Step(s, FailFrame).hand.Idle?
  {
    SettlingTells(s, Step(s, FailFrame), if s.hand.Open? then Parts(s.requests[s.hand.id]) else s.hand.all, Failure);
  }

  /** The disposable frame of a metering request is told at once. */
  lemma MeteringIsTold(s: Session)
    requires s.hand.Closed? && s.hand.metering
    ensures Tells(s, Step(s, Convert), s.hand.all, Success(s.hand.deviceTime)) && Step(s, Convert).hand.Idle?
  {
  }

  /** A stop is told to everybody in the queue, request by request. */
  lemma StopIsTold(s: Session)
    requires Queued(s) && Enabled(s, Shutdown)
    ensures Tells(s, Step(s, Shutdown), Stopping(s.pending, s.requests), Stopped) && Step(s, Shutdown).stopping
  {
  }

  function Successes(deliveries: seq<Delivery>, deviceTime: nat): set<Settlement> {
    set d | d in deliveries :: Settlement(d, Success(deviceTime))
  }

  /** What the frame in hand may still be told to. */
  function Holding(s: Session): set<Settlement> {
    match s.hand
    case Closed(_, _, all, deviceTime) => Successes(all, deviceTime)
    case Settling(_, rest, deviceTime) => Successes(rest, deviceTime)
    case _ => {}
  }

  /** Everybody who had joined a request when a frame closed it, with that frame, along a run. */
  function ClosedBy(s: Session, events: seq<Event>): set<Settlement>
    decreases events
  {
    if events == [] then {}
    else if !Enabled(s, events[0]) then ClosedBy(s, events[1..])
    else
      (if events[0].CloseFrame? then Successes(Parts(s.requests[s.hand.id]), events[0].deviceTime) else {}) +
      ClosedBy(Step(s, events[0]), events[1..])
  }

  lemma StepSucceeds(s: Session, e: Event, x: Settlement)
    requires Enabled(s, e) && x.outcome.Success?
    ensures x in Step(s, e).log ==> x in s.log || x in Holding(s)
    ensures x in Holding(Step(s, e)) ==>
      x in Holding(s) || (e.CloseFrame? && x in Successes(Parts(s.requests[s.hand.id]), e.deviceTime))
  {
    if x in Step(s, e).log && x !in s.log {
      assert !e.FailFrame? && !e.Shutdown?;
    }
  }

  lemma {:induction false} SuccessesWereClosed(s: Session, events: seq<Event>, x: Settlement)
    requires x in Run(s, events).log && x.outcome.Success?
    ensures x in s.log || x in Holding(s) || x in ClosedBy(s, events)
    decreases events
  {
    if events != [] {
      if Enabled(s, events[0]) {
        SuccessesWereClosed(Step(s, events[0]), events[1..], x);
        StepSucceeds(s, events[0], x);
      } else {
        SuccessesWereClosed(s, events[1..], x);
      }
    }
  }

  /** Over every interleaving, whoever is told a success had joined a request when a frame closed it, and is told
      the device time of that very frame. */
  lemma EverySuccessHasItsFrame(limit: nat, tolerance: nat, events: seq<Event>, x: Settlement)
    requires x in Run(Init(limit, tolerance), events).log && x.outcome.Success?
    ensures x in ClosedBy(Init(limit, tolerance), events)
  {
    SuccessesWereClosed(Init(limit, tolerance), events, x);
  }

  function Count(events: seq<Event>, e: Event): nat {
    if events == [] then 0 else OneIf(events[0] == e) + Count(events[1..], e)
  }

  /** What the worker still has to tell in this turn. */
  function Line(s: Session): seq<Settlement> {
    if !s.hand.Settling? then []
    else seq(|s.hand.rest|, i requires 0 <= i < |s.hand.rest| => Settlement(s.hand.rest[i], Success(s.hand.deviceTime)))
  }

  predicate InTurn(s: Session) {
    s.hand.Settling? || s.hand.Idle?
  }

  lemma StepInTurn(s: Session, e: Event)
    requires InTurn(s) && Enabled(s, e) && !e.Pop? && !e.Shutdown?
    ensures var t := Step(s, e);
            && InTurn(t)
            && (e.DeliverNext? && Line(s) != [] ==> t.log == s.log + [Line(s)[0]] && Line(t) == Line(s)[1..])
            && (!(e.DeliverNext? && Line(s) != []) ==> t.log == s.log && Line(t) == Line(s))
  {
    if e.DeliverNext? && s.hand.rest != [] {
      assert Settle([s.hand.rest[0]], Success(s.hand.deviceTime)) == [Line(s)[0]];
    }
  }

  /** However callers and the encoder come in between, the worker tells everybody in line of the frame in hand,
      one at a time, and nobody else is told anything until the next request is taken. */
  lemma {:induction false} TurnSurvivesInterleaving(s: Session, events: seq<Event>)
    requires InTurn(s) && forall e :: e in events ==> !e.Pop? && !e.Shutdown?
    ensures var n := Count(events, DeliverNext);
            Run(s, events).log == s.log + if n < |Line(s)| then Line(s)[..n] else Line(s)
    decreases events
  {
    if events != [] {
      var e, rest := events[0], events[1..];
      assert e in events && forall x :: x in rest ==> x in events;
      if Enabled(s, e) {
        StepInTurn(s, e);
        TurnSurvivesInterleaving(Step(s, e), rest);
        if e.DeliverNext? && Line(s) != [] {
          TakeOneMore(s.log, Line(s), Count(rest, DeliverNext));
        }
      } else {
        TurnSurvivesInterleaving(s, rest);
        assert e.DeliverNext? ==> Line(s) == [];
      }
    }
  }

  lemma TakeOneMore(log: seq<Settlement>, line: seq<Settlement>, n: nat)
    requires line != []
    ensures var rest := line[1..];
            log + [line[0]] + (if n < |rest| then rest[..n] else rest) ==
            log + if n + 1 < |line| then line[..n + 1] else line
  {
  }

  /** Arming marks everybody who has joined; whoever joins later finds the request armed. */
  lemma ArmingTellsEverybody(s: Session, ticket: Ticket)
    requires Enabled(s, Arm)
    ensures var t := Step(s, Arm); var r := s.requests[s.hand.id];
            && s.hand.id in t.requests && t.requests[s.hand.id].armed && Parts(t.requests[s.hand.id]) == Parts(r)
            && (ticket in t.armed <==> ticket in s.armed || exists d :: d in Parts(r) && d.ticket == ticket)
  {
  }

  /** Before shutdown: one open request per device time, the schedule finds it, a caller that joins
      joins an open request, the depth counter is the load, and it never passes the limit. A success
      always carries a frame that matches the time its own caller asked for. */
  lemma PipelineGuarantees(limit: nat, tolerance: nat, events: seq<Event>)
    ensures var s := Run(Init(limit, tolerance), events);
            && Queued(s)
            && (!s.stopping ==>
                  && (forall a, b :: a in s.requests && b in s.requests && a != b
                        && !s.requests[a].metering && !s.requests[b].metering && s.requests[a].first.expected != 0
                        ==> s.requests[a].first.expected != s.requests[b].first.expected)
                  && (forall t :: t in s.scheduled ==> s.scheduled[t] in s.requests)
                  && s.depth == |Owed(s)| + |s.jobs| + OneIf(s.encoding.Some?))
            && s.depth <= limit
            && (forall e :: e in s.log && e.outcome.Success? && e.delivery.expected != 0 ==>
                  Classify(e.outcome.deviceTime, e.delivery.expected, tolerance).Matching?)
            && ChunkSuccesses(s.log) == s.encoded + Encoding(s) + s.jobs
  {
    ReachableHolds(limit, tolerance, events);
    var s := Run(Init(limit, tolerance), events);
    forall e | e in s.log && e.outcome.Success? && e.delivery.expected != 0
      ensures Classify(e.outcome.deviceTime, e.delivery.expected, tolerance).Matching?
    {
      assert Fits(s, e.delivery, e.outcome.deviceTime);
    }
  }
}
