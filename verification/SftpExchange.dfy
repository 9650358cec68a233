/**
 Matching SFTP replies to the requests that wait for them (src/sftp/request-hash.c,
 src/sftp/recv.c, src/sftp/common.c).

 A thread takes a request id, sends, adds its request to the table of pending requests and sleeps until the
 request is finished or there is a reason to leave. A receiver looks up the id of a reply, takes the
 request out of the table, marks it, fills it and signals it. The two sides meet only in the table and in
 the status of the request. Every operation on the table and every check made under the signal lock
 is one atomic step; a run is any interleaving of steps of any number of threads, requests and receivers.
 */
module SftpExchange {
  import opened Errno
  import opened Options
  import opened RequestTable
  import opened Sequences

  const ID_SPACE := 0x1_0000_0000 // a request id is a uint32

  type Client = nat
  type Handle = nat   // names one request
  type Receiver = nat // names one receiving thread

  /** A reply of the server; `valid` tells that it can be handed over as it is. */
  datatype Packet = Packet(client: Client, id: nat, kind: nat, valid: bool, code: nat, linuxError: nat)

  datatype Status = Status(waiting: bool, response: bool, finish: bool, interrupt: bool,
                           timedout: bool, disconnect: bool, error: bool)

  datatype Event = Waiting | Response | Finish | Failed

  /** Where the thread of a request is. Leaving(e): about to take the request out, then report e if it is not 0. */
  datatype Pc = Sent | Checking | Sleeping | Leaving(error: nat) | Done(result: bool)

  /**
   woken: a signal was given since the thread went to sleep. nth counts the allocations of the client, history records
   the life of the request and removals how often it was taken out of the table; the code does not have these three.
   */
  datatype Request = Request(client: Client, id: nat, pc: Pc, status: Status, packet: Option<Packet>, error: nat,
                             woken: bool, nth: nat, history: seq<Event>, removals: nat)

  datatype Progress = Found | Marked | Filled

  datatype Delivery = Delivery(req: Handle, packet: Packet, progress: Progress)

  datatype State = State(counters: map<Client, nat>, requests: map<Handle, Request>, table: seq<Handle>,
                         receivers: map<Receiver, Delivery>)

  const START := State(map[], map[], [], map[])

  /** What a check finds besides the status of the request. */
  datatype Situation = Situation(interrupted: bool, broken: bool, badSequence: bool, disconnected: bool)

  datatype Step =
    | Send(r: Handle, client: Client)
    | Insert(r: Handle)
    | Check(r: Handle, now: Situation)
    | Wake(r: Handle, result: nat)
    | Leave(r: Handle)
    | Lookup(v: Receiver, packet: Packet)
    | Mark(v: Receiver)
    | Fill(v: Receiver)
    | Signal(v: Receiver)

  // ---- one step ----

  function Counter(s: State, c: Client): nat { if c in s.counters then s.counters[c] else 0 }

  function NewRequest(c: Client, n: nat): Request {
    Request(c, n % ID_SPACE, Sent, Status(true, false, false, false, false, false, false), None, 0, false, n,
            [Waiting], 0)
  }

  /** The counter of the client gives the id; it starts at 0 and wraps around. */
  function ApplySend(s: State, r: Handle, c: Client): State {
    if r in s.requests then s
    else s.(counters := s.counters[c := Counter(s, c) + 1],
            requests := s.requests[r := NewRequest(c, Counter(s, c))])
  }

  function ApplyInsert(s: State, r: Handle): State {
    if r !in s.requests || s.requests[r].pc != Sent then s
    else s.(table := s.table + [r], requests := s.requests[r := s.requests[r].(pc := Checking)])
  }

  /** The chain of tests made under the signal lock. */
  function Checked(q: Request, now: Situation): Request {
    if q.status.finish then q.(pc := Done(true))
    else if now.interrupted then
      if q.status.response then q.(status := q.status.(interrupt := false), pc := Sleeping, woken := false)
      else q.(status := q.status.(interrupt := true), error := EINTR, pc := Leaving(0))
    else if now.broken then q.(status := q.status.(disconnect := true), error := ENOTCONN, pc := Leaving(0))
    else if q.status.error then q.(pc := Done(false)) // not taken out here
    else if now.badSequence then q.(status := q.status.(error := true), error := EIO, pc := Leaving(0))
    else if now.disconnected then q.(status := q.status.(disconnect := true), error := ECONNABORTED, pc := Leaving(0))
    else q.(pc := Sleeping, woken := false)
  }

  function ApplyCheck(s: State, r: Handle, now: Situation): State {
    if r !in s.requests || s.requests[r].pc != Checking then s
    else s.(requests := s.requests[r := Checked(s.requests[r], now)])
  }

  function ApplyWake(s: State, r: Handle, result: nat): State {
    if r !in s.requests || s.requests[r].pc != Sleeping then s
    else s.(requests := s.requests[r := s.requests[r].(pc := if result == 0 then Checking else Leaving(result))])
  }

  function Left(q: Request, linked: bool): Request {
    var q1 := q.(pc := Done(false), removals := q.removals + if linked then 1 else 0);
    if !q.pc.Leaving? || q.pc.error == 0 then q1
    else if q.pc.error == ETIMEDOUT then q1.(status := q.status.(timedout := true), error := ETIMEDOUT)
    else q1.(status := q.status.(error := true), error := q.pc.error)
  }

  function ApplyLeave(s: State, r: Handle): State {
    if r !in s.requests || !s.requests[r].pc.Leaving? then s
    else s.(table := Without(s.table, r),
            requests := s.requests[r := Left(s.requests[r], r in s.table)])
  }

  function HasId(s: State, id: nat): Handle -> bool { h => h in s.requests && s.requests[h].id == id }

  /** The lookup looks at the id only, not at the client. */
  function ApplyLookup(s: State, v: Receiver, p: Packet): State {
    if v in s.receivers then s
    else match First(s.table, HasId(s, p.id))
      case None => s
      case Some(r) =>
        if r !in s.requests then s
        else s.(table := Without(s.table, r),
                requests := s.requests[r := s.requests[r].(removals := s.requests[r].removals + 1)],
                receivers := s.receivers[v := Delivery(r, p, Found)])
  }

  function Responding(q: Request): Request {
    q.(status := q.status.(waiting := false, response := true), history := q.history + [Response])
  }

  /** The status is set and the signal given under one lock, so that a thread that sleeps is woken. */
  function Signalled(q: Request, p: Packet): Request {
    var woken := q.woken || q.pc == Sleeping;
    if p.valid && q.status.response then
      q.(status := q.status.(response := false, finish := true), woken := woken, history := q.history + [Finish])
    else
      q.(status := q.status.(error := true), woken := woken, history := q.history + [Failed])
  }

  function ApplyDelivery(s: State, v: Receiver, step: Progress): State {
    if v !in s.receivers || s.receivers[v].progress != step || s.receivers[v].req !in s.requests then s
    else
      var d := s.receivers[v];
      var q := s.requests[d.req];
      match step
      case Found => s.(requests := s.requests[d.req := Responding(q)],
                       receivers := s.receivers[v := d.(progress := Marked)])
      case Marked => s.(requests := s.requests[d.req := q.(packet := Some(d.packet))],
                        receivers := s.receivers[v := d.(progress := Filled)])
      case Filled => s.(requests := s.requests[d.req := Signalled(q, d.packet)], receivers := s.receivers - {v})
  }

  function Apply(s: State, step: Step): State {
    match step
    case Send(r, c) => ApplySend(s, r, c)
    case Insert(r) => ApplyInsert(s, r)
    case Check(r, now) => ApplyCheck(s, r, now)
    case Wake(r, result) => ApplyWake(s, r, result)
    case Leave(r) => ApplyLeave(s, r)
    case Lookup(v, p) => ApplyLookup(s, v, p)
    case Mark(v) => ApplyDelivery(s, v, Found)
    case Fill(v) => ApplyDelivery(s, v, Marked)
    case Signal(v) => ApplyDelivery(s, v, Filled)
  }

  function Run(s: State, steps: seq<Step>): State
    decreases steps
  {
    if steps == [] then s else Run(Apply(s, steps[0]), steps[1..])
  }

  // ---- what every step keeps ----

  predicate Untouched(q: Request) {
    && q.status.waiting && !q.status.response && !q.status.finish
    && q.packet == None && q.history == [Waiting]
  }

  /** Finished by a valid reply with its own id, after WAITING and RESPONSE. */
  predicate Complete(q: Request) {
    && q.packet.Some? && q.packet.value.valid && q.packet.value.id == q.id
    && q.history == [Waiting, Response, Finish]
    && !q.status.waiting && !q.status.response
  }

  predicate Responded(q: Request) {
    !q.status.waiting && q.status.response && !q.status.finish && q.history == [Waiting, Response]
  }

  /** The flag and the error code that say why a thread left agree. */
  predicate ReasonOk(q: Request) {
    && (q.status.timedout <==> q.error == ETIMEDOUT)
    && (q.status.interrupt ==> q.error == EINTR)
    && (q.status.disconnect ==> q.error == ENOTCONN || q.error == ECONNABORTED)
    && (q.error != 0 ==> q.status.timedout || q.status.interrupt || q.status.disconnect || q.status.error)
  }

  predicate RequestOk(q: Request, linked: bool) {
    && q.id == q.nth % ID_SPACE
    && (q.pc == Sent ==> !linked && Untouched(q) && !q.status.error)
    && (linked ==> Untouched(q) && !q.pc.Done? && (q.status.error ==> q.pc.Leaving?))
    && q.removals == (if q.pc == Sent || linked then 0 else 1)
    && (q.pc == Done(true) ==> q.status.finish)
    && (q.status.finish ==> Complete(q))
    && (q.error != 0 ==> q.pc == Leaving(0) || q.pc == Done(false))
    && (q.pc == Leaving(0) ==> q.error != 0)
    && (q.pc == Done(false) ==> q.error != 0 || q.status.error)
    && (q.status.error && (q.pc == Checking || q.pc == Sleeping) ==> Failed in q.history)
    && (Finish in q.history ==> q.status.finish) && (Failed in q.history ==> q.status.error && q.status.response)
    && (q.pc == Sleeping && q.status.finish ==> q.woken)
    && (q.status.response <==> Response in q.history && Finish !in q.history)
    && ReasonOk(q)
  }

  predicate DeliveryOk(q: Request, d: Delivery) {
    && q.pc != Sent && q.id == d.packet.id
    && match d.progress
       case Found => Untouched(q)
       case Marked => Responded(q) && q.packet == None
       case Filled => Responded(q) && q.packet == Some(d.packet)
  }

  ghost predicate Invariant(s: State) { TableOk(s) && RequestsOk(s) && NumbersOk(s) && DeliveriesOk(s) }

  ghost predicate TableOk(s: State) { Distinct(s.table) && forall r <- s.table :: r in s.requests }

  ghost predicate RequestsOk(s: State) { forall r <- s.requests :: RequestOk(s.requests[r], r in s.table) }

  /** Every request of a client has its own number in the order of allocation. */
  ghost predicate NumbersOk(s: State) {
    && (forall r <- s.requests :: s.requests[r].nth < Counter(s, s.requests[r].client))
    && (forall r, q | r in s.requests && q in s.requests && r != q && s.requests[r].client == s.requests[q].client ::
          s.requests[r].nth != s.requests[q].nth)
  }

  /** A request is held by at most one receiver, and then it is not in the table. */
  ghost predicate DeliveriesOk(s: State) {
    && (forall v <- s.receivers ::
          var d := s.receivers[v];
          d.req in s.requests && d.req !in s.table && DeliveryOk(s.requests[d.req], d))
    && (forall v, w | v in s.receivers && w in s.receivers && v != w :: s.receivers[v].req != s.receivers[w].req)
  }

  /** A step that touches one request and leaves the table, or unlinks or links just that request. */
  lemma OneRequest(s: State, s': State, r: Handle, q: Request)
    requires Invariant(s) && r in s.requests
    requires s'.counters == s.counters && s'.requests == s.requests[r := q]
    requires q.client == s.requests[r].client && q.nth == s.requests[r].nth
    requires Distinct(s'.table) && forall x :: x != r ==> (x in s'.table <==> x in s.table)
    requires RequestOk(q, r in s'.table)
    ensures TableOk(s') && RequestsOk(s') && NumbersOk(s')
  {
    forall x | x in s'.requests ensures RequestOk(s'.requests[x], x in s'.table) {
      if x != r { assert RequestOk(s.requests[x], x in s.table); }
    }
  }

  /** A request whose delivery state is not affected stays well delivered. */
  lemma SameDeliveries(s: State, s': State, r: Handle, q: Request)
    requires Invariant(s) && r in s.requests
    requires s'.requests == s.requests[r := q] && s'.receivers == s.receivers
    requires forall x :: x != r && x in s'.table ==> x in s.table
    requires forall v <- s.receivers :: s.receivers[v].req == r ==> r !in s'.table && DeliveryOk(q, s.receivers[v])
    ensures DeliveriesOk(s')
  {
  }

  lemma SendKeeps(s: State, r: Handle, c: Client)
    requires Invariant(s)
    ensures Invariant(ApplySend(s, r, c))
  {
    if r !in s.requests {
      var s' := ApplySend(s, r, c);
      assert RequestOk(s'.requests[r], false);
      assert RequestsOk(s');
      assert NumbersOk(s') by { SendNumbers(s, r, c); }
      assert DeliveriesOk(s') by {
        assert forall x <- s.requests :: x in s'.requests && s'.requests[x] == s.requests[x];
      }
    }
  }

  lemma SendNumbers(s: State, r: Handle, c: Client)
    requires NumbersOk(s) && r !in s.requests
    ensures NumbersOk(ApplySend(s, r, c))
  {
  }

  lemma InsertKeeps(s: State, r: Handle)
    requires Invariant(s)
    ensures Invariant(ApplyInsert(s, r))
  {
    if r in s.requests && s.requests[r].pc == Sent {
      var s' := ApplyInsert(s, r);
      assert RequestOk(s.requests[r], r in s.table);
      assert forall x :: x != r ==> (x in s'.table <==> x in s.table);
      OneRequest(s, s', r, s.requests[r].(pc := Checking));
      SameDeliveries(s, s', r, s.requests[r].(pc := Checking));
    }
  }

  lemma CheckedOk(q: Request, linked: bool, now: Situation)
    requires RequestOk(q, linked) && q.pc == Checking
    ensures RequestOk(Checked(q, now), linked)
    ensures Checked(q, now).pc != Sent && Checked(q, now).id == q.id
    ensures Untouched(q) ==> Untouched(Checked(q, now))
    ensures Responded(q) ==> Responded(Checked(q, now))
    ensures Checked(q, now).packet == q.packet
    ensures Checked(q, now).client == q.client && Checked(q, now).nth == q.nth
  {
  }

  lemma LeftOk(q: Request, linked: bool)
    requires RequestOk(q, linked) && q.pc.Leaving?
    ensures RequestOk(Left(q, linked), false)
    ensures Untouched(q) ==> Untouched(Left(q, linked))
    ensures Responded(q) ==> Responded(Left(q, linked))
    ensures Left(q, linked).packet == q.packet && Left(q, linked).id == q.id && Left(q, linked).pc == Done(false)
    ensures Left(q, linked).client == q.client && Left(q, linked).nth == q.nth
  {
  }

  /** The three steps of a receiver on the request it holds. */
  lemma DeliveredOk(q: Request, d: Delivery)
    requires RequestOk(q, false) && DeliveryOk(q, d)
    ensures d.progress == Found ==> RequestOk(Responding(q), false) && DeliveryOk(Responding(q), d.(progress := Marked))
    ensures d.progress == Marked ==>
              var q' := q.(packet := Some(d.packet)); RequestOk(q', false) && DeliveryOk(q', d.(progress := Filled))
    ensures d.progress == Filled ==> RequestOk(Signalled(q, d.packet), false)
  {
  }

  lemma CheckKeeps(s: State, r: Handle, now: Situation)
    requires Invariant(s)
    ensures Invariant(ApplyCheck(s, r, now))
  {
    if r in s.requests && s.requests[r].pc == Checking {
      var q := Checked(s.requests[r], now);
      var s' := s.(requests := s.requests[r := q]);
      assert RequestOk(s.requests[r], r in s.table);
      CheckedOk(s.requests[r], r in s.table, now);
      CheckedDelivery(s.requests[r], now);
      OneRequest(s, s', r, q);
      SameDeliveries(s, s', r, q);
    }
  }

  lemma CheckedDelivery(q: Request, now: Situation)
    requires q.pc == Checking
    ensures forall d :: DeliveryOk(q, d) ==> DeliveryOk(Checked(q, now), d)
  {
    forall d | DeliveryOk(q, d) ensures DeliveryOk(Checked(q, now), d) {}
  }

  lemma WokenOk(q: Request, linked: bool, q': Request)
    requires RequestOk(q, linked) && q.pc == Sleeping
    requires q' == q.(pc := q'.pc) && (q'.pc == Checking || (q'.pc.Leaving? && q'.pc.error != 0))
    ensures RequestOk(q', linked) && forall d :: DeliveryOk(q, d) ==> DeliveryOk(q', d)
  {
  }

  lemma WakeKeeps(s: State, r: Handle, result: nat)
    requires Invariant(s)
    ensures Invariant(ApplyWake(s, r, result))
  {
    if r in s.requests && s.requests[r].pc == Sleeping {
      var q := s.requests[r].(pc := if result == 0 then Checking else Leaving(result));
      var s' := s.(requests := s.requests[r := q]);
      WokenOk(s.requests[r], r in s.table, q);
      OneRequest(s, s', r, q);
      SameDeliveries(s, s', r, q);
    }
  }

  lemma Unlinked(s: State, r: Handle)
    requires Invariant(s)
    ensures Distinct(Without(s.table, r))
    ensures forall q :: q in Without(s.table, r) <==> q in s.table && q != r
  {
    WithoutDistinct(s.table, r);
    forall q ensures q in Without(s.table, r) <==> q in s.table && q != r {
      WithoutMembers(s.table, r, q);
    }
  }

  lemma LeaveKeeps(s: State, r: Handle)
    requires Invariant(s)
    ensures Invariant(ApplyLeave(s, r))
  {
    if r in s.requests && s.requests[r].pc.Leaving? {
      var s' := ApplyLeave(s, r);
      Unlinked(s, r);
      LeftOk(s.requests[r], r in s.table);
      OneRequest(s, s', r, s'.requests[r]);
      SameDeliveries(s, s', r, s'.requests[r]);
    }
  }

  lemma LookupKeeps(s: State, v: Receiver, p: Packet)
    requires Invariant(s)
    ensures Invariant(ApplyLookup(s, v, p))
  {
    FirstMatches(s.table, HasId(s, p.id));
    var found := First(s.table, HasId(s, p.id));
    if v !in s.receivers && found.Some? {
      var r := found.value;
      var s' := ApplyLookup(s, v, p);
      Unlinked(s, r);
      assert RequestOk(s.requests[r], true);
      OneRequest(s, s', r, s'.requests[r]);
      LookupDeliveries(s, v, p, r);
    }
  }

  lemma LookupDeliveries(s: State, v: Receiver, p: Packet, r: Handle)
    requires Invariant(s) && v !in s.receivers && r in s.table && r in s.requests && s.requests[r].id == p.id
    requires First(s.table, HasId(s, p.id)) == Some(r)
    ensures DeliveriesOk(ApplyLookup(s, v, p))
  {
    var s' := ApplyLookup(s, v, p);
    Unlinked(s, r);
    assert RequestOk(s.requests[r], true);
    NewDelivery(s, s', v, r);
  }

  lemma NewDelivery(s: State, s': State, v: Receiver, r: Handle)
    requires Invariant(s) && v !in s.receivers && r in s.table && r in s'.requests && r !in s'.table
    requires forall x :: x in s'.table ==> x in s.table
    requires s'.requests == s.requests[r := s'.requests[r]]
    requires v in s'.receivers && s'.receivers == s.receivers[v := s'.receivers[v]]
    requires s'.receivers[v].req == r && DeliveryOk(s'.requests[r], s'.receivers[v])
    ensures DeliveriesOk(s')
  {
    forall w | w in s'.receivers && w != v ensures s'.receivers[w] == s.receivers[w] && s'.receivers[w].req != r {
    }
  }

  lemma DeliveryKeeps(s: State, v: Receiver, step: Progress)
    requires Invariant(s)
    ensures Invariant(ApplyDelivery(s, v, step))
  {
    if v in s.receivers && s.receivers[v].progress == step {
      DeliveryRequest(s, v);
      DeliveryReceivers(s, v);
    }
  }

  lemma DeliveryRequest(s: State, v: Receiver)
    requires Invariant(s) && v in s.receivers
    ensures var s' := ApplyDelivery(s, v, s.receivers[v].progress); TableOk(s') && RequestsOk(s') && NumbersOk(s')
  {
    var s' := ApplyDelivery(s, v, s.receivers[v].progress);
    var r := s.receivers[v].req;
    DeliveredOk(s.requests[r], s.receivers[v]);
    OneRequest(s, s', r, s'.requests[r]);
  }

  lemma DeliveryReceivers(s: State, v: Receiver)
    requires Invariant(s) && v in s.receivers
    ensures DeliveriesOk(ApplyDelivery(s, v, s.receivers[v].progress))
  {
    var d := s.receivers[v];
    var q, s' := s.requests[d.req], ApplyDelivery(s, v, d.progress);
    DeliveredOk(q, d);
    match d.progress {
      case Found => assert s'.receivers == s.receivers[v := d.(progress := Marked)];
      case Marked => assert s'.receivers == s.receivers[v := d.(progress := Filled)];
      case Filled => assert s'.receivers == s.receivers - {v};
    }
    OneDelivery(s, s', v, d.req);
  }

  lemma OneDelivery(s: State, s': State, v: Receiver, r: Handle)
    requires Invariant(s) && v in s.receivers && r == s.receivers[v].req
    requires s'.table == s.table && r in s'.requests && s'.requests == s.requests[r := s'.requests[r]]
    requires forall w <- s'.receivers :: w != v ==> w in s.receivers && s'.receivers[w] == s.receivers[w]
    requires v in s'.receivers ==> s'.receivers[v].req == r && DeliveryOk(s'.requests[r], s'.receivers[v])
    ensures DeliveriesOk(s')
  {
  }

  lemma StepKeeps(s: State, step: Step)
    requires Invariant(s)
    ensures Invariant(Apply(s, step))
  {
    match step {
      case Send(r, c) => SendKeeps(s, r, c);
      case Insert(r) => InsertKeeps(s, r);
      case Check(r, now) => CheckKeeps(s, r, now);
      case Wake(r, result) => WakeKeeps(s, r, result);
      case Leave(r) => LeaveKeeps(s, r);
      case Lookup(v, p) => LookupKeeps(s, v, p);
      case Mark(v) => DeliveryKeeps(s, v, Found);
      case Fill(v) => DeliveryKeeps(s, v, Marked);
      case Signal(v) => DeliveryKeeps(s, v, Filled);
    }
  }

  lemma {:induction false} RunKeeps(s: State, steps: seq<Step>)
    requires Invariant(s)
    ensures Invariant(Run(s, steps))
    decreases steps
  {
    if steps != [] {
      StepKeeps(s, steps[0]);
      RunKeeps(Apply(s, steps[0]), steps[1..]);
    }
  }

  lemma Reachable(steps: seq<Step>)
    ensures Invariant(Run(START, steps))
  {
    RunKeeps(START, steps);
  }

  // ---- every run: the table and the result of a wait ----

  function IdOf(s: State): Handle -> nat { h => if h in s.requests then s.requests[h].id else 0 }

  ghost predicate Held(s: State, r: Handle) { exists v <- s.receivers :: s.receivers[v].req == r }

  /**
   A request is taken out of the table at most once, by its own thread or by one receiver. When the wait has
   returned, on whatever path, it was taken out exactly once and is in no row.
   */
  lemma TakenOutOnce(steps: seq<Step>, r: Handle)
    requires r in Run(START, steps).requests
    ensures var s := Run(START, steps); var q := s.requests[r];
            && q.removals <= 1 && (q.removals == 1 ==> r !in s.table)
            && (q.pc.Done? ==> q.removals == 1 && forall b: nat :: r !in Row(s.table, IdOf(s), b))
  {
    Reachable(steps);
    var s := Run(START, steps);
    assert RequestOk(s.requests[r], r in s.table);
    forall b: nat ensures r in Row(s.table, IdOf(s), b) ==> r in s.table {
      FilterMember(s.table, InRow(IdOf(s), b), r);
    }
  }

  /**
   The wait returns 1 only for a request that went from WAITING over RESPONSE to FINISH, was filled by
   a valid reply with its own id, and is no longer used by any receiver.
   */
  lemma ReturnsOne(steps: seq<Step>, r: Handle)
    requires r in Run(START, steps).requests && Run(START, steps).requests[r].pc == Done(true)
    ensures var s := Run(START, steps); var q := s.requests[r];
            && q.history == [Waiting, Response, Finish]
            && q.packet.Some? && q.packet.value.valid && q.packet.value.id == q.id
            && !Held(s, r)
  {
    Reachable(steps);
    var s := Run(START, steps);
    assert RequestOk(s.requests[r], r in s.table);
  }

  /** The wait returns 0 with a request in no row, and with a flag and an error code that agree on the reason. */
  lemma ReturnsZero(steps: seq<Step>, r: Handle)
    requires r in Run(START, steps).requests && Run(START, steps).requests[r].pc == Done(false)
    ensures var s := Run(START, steps); var q := s.requests[r];
            && r !in s.table && q.removals == 1
            && (q.error != 0 || q.status.error)
            && (q.status.timedout <==> q.error == ETIMEDOUT)
            && (q.status.interrupt ==> q.error == EINTR)
            && (q.status.disconnect ==> q.error == ENOTCONN || q.error == ECONNABORTED)
  {
    Reachable(steps);
    var s := Run(START, steps);
    assert RequestOk(s.requests[r], r in s.table);
  }

  // ---- which way each check and each wakeup goes ----

  /** A request that leaves for a reason, with the code of it. */
  predicate LeavesWith(q: Request, code: nat) { q.pc == Leaving(0) && q.error == code }

  /**
   What a check comes to, by what receivers have done to the request and by what the check finds: exactly one of six
   ends. A finished request always returns 1; the first of the reasons decides the code.
   */
  lemma CheckedExactly(q: Request, linked: bool, now: Situation)
    requires RequestOk(q, linked) && q.pc == Checking
    ensures var c := Checked(q, now);
            var finished, failed, answered := Finish in q.history, Failed in q.history, Response in q.history;
            && (c.pc == Done(true) <==> finished)
            && (c.pc == Done(false) <==> failed && !now.interrupted && !now.broken)
            && (LeavesWith(c, EINTR) <==> now.interrupted && !answered)
            && (LeavesWith(c, ENOTCONN) <==> now.broken && !now.interrupted && !finished)
            && (LeavesWith(c, EIO) <==>
                  now.badSequence && !now.interrupted && !now.broken && !finished && !failed)
            && (LeavesWith(c, ECONNABORTED) <==>
                  now.disconnected && !now.badSequence && !now.interrupted && !now.broken && !finished && !failed)
            && (c.pc == Sleeping <==>
                  && !finished
                  && (if now.interrupted then answered
                      else !now.broken && !failed && !now.badSequence && !now.disconnected))
  {
  }

  /** The same for every check in every run. */
  lemma CheckReturns(steps: seq<Step>, r: Handle, now: Situation)
    requires var s := Run(START, steps); r in s.requests && s.requests[r].pc == Checking
    ensures var q := Run(START, steps).requests[r]; var s' := Apply(Run(START, steps), Check(r, now));
            && r in s'.requests
            && (s'.requests[r].pc == Done(true) <==> Finish in q.history)
            && (s'.requests[r].pc == Done(false) <==> Failed in q.history && !now.interrupted && !now.broken)
            && (LeavesWith(s'.requests[r], EINTR) <==> now.interrupted && Response !in q.history)
            && (LeavesWith(s'.requests[r], ENOTCONN) <==> now.broken && !now.interrupted && Finish !in q.history)
            && (LeavesWith(s'.requests[r], EIO) <==>
                  now.badSequence && !now.interrupted && !now.broken && !Ended(q))
            && (LeavesWith(s'.requests[r], ECONNABORTED) <==>
                  now.disconnected && !now.badSequence && !now.interrupted && !now.broken && !Ended(q))
  {
    Reachable(steps);
    var s := Run(START, steps);
    assert RequestOk(s.requests[r], r in s.table);
    CheckedExactly(s.requests[r], r in s.table, now);
  }

  /** A thread that leaves returns 0 with the code it left with, and its request is in no row. */
  lemma LeaveReturns(steps: seq<Step>, r: Handle)
    requires var s := Run(START, steps); r in s.requests && s.requests[r].pc.Leaving?
    ensures var q := Run(START, steps).requests[r]; var s' := Apply(Run(START, steps), Leave(r));
            && r in s'.requests && s'.requests[r].pc == Done(false) && r !in s'.table
            && s'.requests[r].error == (if q.pc.error == 0 then q.error else q.pc.error)
  {
    Reachable(steps);
    LeaveAfter(Run(START, steps), r);
  }

  /** A wait that ends with an error makes the thread return 0 with that error; one without makes it check again. */
  lemma WakeReturns(steps: seq<Step>, r: Handle, result: nat)
    requires var s := Run(START, steps); r in s.requests && s.requests[r].pc == Sleeping
    ensures var q := Run(START, steps).requests[r]; var s' := Apply(Run(START, steps), Wake(r, result));
            && r in s'.requests
            && (result == 0 ==> s'.requests[r] == q.(pc := Checking))
            && (result > 0 ==>
                  var s'' := Apply(s', Leave(r));
                  && r in s''.requests && s''.requests[r].pc == Done(false) && s''.requests[r].error == result
                  && r !in s''.table)
  {
    Reachable(steps);
    WakeAfter(Run(START, steps), r, result);
  }

  lemma WakeAfter(s: State, r: Handle, result: nat)
    requires Invariant(s) && r in s.requests && s.requests[r].pc == Sleeping
    ensures var s' := ApplyWake(s, r, result);
            && r in s'.requests
            && (result == 0 ==> s'.requests[r] == s.requests[r].(pc := Checking))
            && (result > 0 ==>
                  var s'' := ApplyLeave(s', r);
                  && r in s''.requests && s''.requests[r].pc == Done(false) && s''.requests[r].error == result
                  && r !in s''.table)
  {
    WakeKeeps(s, r, result);
    if result > 0 { LeaveAfter(ApplyWake(s, r, result), r); }
  }

  lemma LeaveAfter(s: State, r: Handle)
    requires Invariant(s) && r in s.requests && s.requests[r].pc.Leaving?
    ensures var q := s.requests[r]; var s' := ApplyLeave(s, r);
            && r in s'.requests && s'.requests[r].pc == Done(false) && r !in s'.table
            && s'.requests[r].error == (if q.pc.error == 0 then q.error else q.pc.error)
  {
    Unlinked(s, r);
  }

  // ---- a reply is handed over ----

  /** The steps of a receiver for one reply. */
  function Handover(s: State, v: Receiver): State { Apply(Apply(Apply(s, Mark(v)), Fill(v)), Signal(v)) }

  lemma HandoverKeeps(s: State, v: Receiver)
    requires Invariant(s)
    ensures Invariant(Handover(s, v))
  {
    StepKeeps(s, Mark(v));
    StepKeeps(Apply(s, Mark(v)), Fill(v));
    StepKeeps(Apply(Apply(s, Mark(v)), Fill(v)), Signal(v));
  }

  /** The request after the three steps of the receiver that holds it. */
  function Handed(q: Request, p: Packet): Request { Signalled(Responding(q).(packet := Some(p)), p) }

  lemma HandoverIs(s: State, v: Receiver, r: Handle, p: Packet)
    requires v in s.receivers && s.receivers[v] == Delivery(r, p, Found) && r in s.requests
    ensures var s' := Handover(s, v); r in s'.requests && s'.requests[r] == Handed(s.requests[r], p)
  {
    var q := s.requests[r];
    var s1 := Apply(s, Mark(v));
    assert s1.receivers[v] == Delivery(r, p, Marked) && s1.requests[r] == Responding(q);
    var s2 := Apply(s1, Fill(v));
    assert s2.receivers[v] == Delivery(r, p, Filled) && s2.requests[r] == Responding(q).(packet := Some(p));
  }

  lemma HandedIs(q: Request, p: Packet)
    requires Untouched(q)
    ensures var h := Handed(q, p);
            && h.packet == Some(p) && h.pc == q.pc
            && (Finish in h.history <==> p.valid) && (Failed in h.history <==> !p.valid)
  {
    var h := Handed(q, p);
    assert h.history == [Waiting, Response] + [if p.valid then Finish else Failed];
  }

  /**
   A reply that reaches a request finishes it, whatever the run before: after the steps of the receiver the next check
   returns 1 if and only if the reply is valid, and the request holds just that reply.
   */
  lemma ReplyReturnsOne(steps: seq<Step>, v: Receiver, p: Packet, r: Handle, now: Situation)
    requires var s := Apply(Run(START, steps), Lookup(v, p));
             && v !in Run(START, steps).receivers && v in s.receivers && s.receivers[v].req == r
             && r in s.requests && s.requests[r].pc == Checking
    ensures var s' := Apply(Handover(Apply(Run(START, steps), Lookup(v, p)), v), Check(r, now));
            && r in s'.requests && (s'.requests[r].pc == Done(true) <==> p.valid) && s'.requests[r].packet == Some(p)
  {
    var s0 := Run(START, steps);
    Reachable(steps);
    LookupKeeps(s0, v, p);
    var s := Apply(s0, Lookup(v, p));
    assert s.receivers[v] == Delivery(r, p, Found) && DeliveryOk(s.requests[r], s.receivers[v]);
    HandoverIs(s, v, r, p);
    HandedIs(s.requests[r], p);
    HandoverKeeps(s, v);
    CheckAfter(Handover(s, v), r, now);
  }

  lemma CheckAfter(s: State, r: Handle, now: Situation)
    requires Invariant(s) && r in s.requests && s.requests[r].pc == Checking
    ensures var s' := Apply(s, Check(r, now));
            && r in s'.requests && s'.requests[r].packet == s.requests[r].packet
            && (s'.requests[r].pc == Done(true) <==> Finish in s.requests[r].history)
  {
    assert RequestOk(s.requests[r], r in s.table);
    CheckedExactly(s.requests[r], r in s.table, now);
  }

  /** Sent, added, answered, checked: a run that returns 1. */
  lemma ARunThatReturnsOne(p: Packet, now: Situation)
    requires p.id == 0 && p.valid
    ensures var s := Apply(Handover(Apply(Run(START, [Send(0, 0), Insert(0)]), Lookup(0, p)), 0), Check(0, now));
            0 in s.requests && s.requests[0].pc == Done(true) && s.requests[0].packet == Some(p)
  {
    var steps := [Send(0, 0), Insert(0)];
    var q := NewRequest(0, 0).(pc := Checking);
    var s2 := State(map[0 := 1], map[0 := q], [0], map[]);
    assert Apply(Apply(START, Send(0, 0)), Insert(0)) == s2;
    assert steps[1..] == [Insert(0)];
    assert Run(Apply(START, Send(0, 0)), [Insert(0)]) == Run(s2, []) == s2;
    assert First(s2.table, HasId(s2, 0)) == Some(0);
    var s3 := Apply(s2, Lookup(0, p));
    assert s3.receivers == map[0 := Delivery(0, p, Found)] && s3.requests[0].pc == Checking;
    ReplyReturnsOne(steps, 0, p, 0, now);
  }

  /** The replies that were received in a run. */
  function Received(steps: seq<Step>): set<Packet> {
    if steps == [] then {} else (if steps[0].Lookup? then {steps[0].packet} else {}) + Received(steps[1..])
  }

  ghost predicate FromServer(s: State, ps: set<Packet>) {
    && (forall r <- s.requests :: s.requests[r].packet.Some? ==> s.requests[r].packet.value in ps)
    && (forall v <- s.receivers :: s.receivers[v].packet in ps)
  }

  lemma StepFromServer(s: State, step: Step, ps: set<Packet>)
    requires FromServer(s, ps) && (step.Lookup? ==> step.packet in ps)
    ensures FromServer(Apply(s, step), ps)
  {
    match step {
      case Mark(v) => DeliveryFromServer(s, v, Found, ps);
      case Fill(v) => DeliveryFromServer(s, v, Marked, ps);
      case Signal(v) => DeliveryFromServer(s, v, Filled, ps);
      case _ =>
    }
  }

  lemma DeliveryFromServer(s: State, v: Receiver, step: Progress, ps: set<Packet>)
    requires FromServer(s, ps)
    ensures FromServer(ApplyDelivery(s, v, step), ps)
  {
  }

  lemma {:induction false} RunFromServer(s: State, steps: seq<Step>, ps: set<Packet>)
    requires FromServer(s, ps) && Received(steps) <= ps
    ensures FromServer(Run(s, steps), ps)
    decreases steps
  {
    if steps != [] {
      StepFromServer(s, steps[0], ps);
      RunFromServer(Apply(s, steps[0]), steps[1..], ps);
    }
  }

  /** The reply a wait returns with is one that was received in the run. */
  lemma ReplyWasReceived(steps: seq<Step>, r: Handle)
    requires r in Run(START, steps).requests && Run(START, steps).requests[r].pc == Done(true)
    ensures var q := Run(START, steps).requests[r]; q.packet.Some? && q.packet.value in Received(steps)
  {
    ReturnsOne(steps, r);
    RunFromServer(START, steps, Received(steps));
  }

  // ---- who still holds a request when its wait returns ----

  predicate Waits(q: Request) { q.pc == Checking || q.pc == Sleeping || q.pc.Leaving? }

  predicate Ended(q: Request) { Finish in q.history || Failed in q.history }

  /** A request that is waited for is in the table, or with a receiver, or a receiver is done with it. */
  ghost predicate Placed(s: State) { forall r <- s.requests :: PlacedOne(s, r) }

  ghost predicate PlacedOne(s: State, r: Handle)
    requires r in s.requests
  {
    Waits(s.requests[r]) ==> r in s.table || Held(s, r) || Ended(s.requests[r])
  }

  /** A step that leaves the receivers, and whose own request is placed, leaves the others placed. */
  lemma OthersPlaced(s: State, s': State, r: Handle)
    requires Placed(s) && s'.receivers == s.receivers && r in s'.requests
    requires forall x :: x in s'.requests && x != r ==> x in s.requests && s'.requests[x] == s.requests[x]
    requires forall x :: x in s.table && x != r ==> x in s'.table
    requires PlacedOne(s', r)
    ensures Placed(s')
  {
    forall x | x in s'.requests ensures PlacedOne(s', x) {
      if x != r { assert PlacedOne(s, x); }
    }
  }

  lemma SendPlaced(s: State, r: Handle, c: Client)
    requires Placed(s)
    ensures Placed(ApplySend(s, r, c))
  {
    if r !in s.requests { OthersPlaced(s, ApplySend(s, r, c), r); }
  }

  lemma InsertPlaced(s: State, r: Handle)
    requires Placed(s)
    ensures Placed(ApplyInsert(s, r))
  {
    if r in s.requests && s.requests[r].pc == Sent { OthersPlaced(s, ApplyInsert(s, r), r); }
  }

  lemma CheckPlaced(s: State, r: Handle, now: Situation)
    requires Placed(s)
    ensures Placed(ApplyCheck(s, r, now))
  {
    if r in s.requests && s.requests[r].pc == Checking {
      assert PlacedOne(s, r);
      OthersPlaced(s, ApplyCheck(s, r, now), r);
    }
  }

  lemma WakePlaced(s: State, r: Handle, result: nat)
    requires Placed(s)
    ensures Placed(ApplyWake(s, r, result))
  {
    if r in s.requests && s.requests[r].pc == Sleeping {
      assert PlacedOne(s, r);
      OthersPlaced(s, ApplyWake(s, r, result), r);
    }
  }

  lemma LeavePlaced(s: State, r: Handle)
    requires Invariant(s) && Placed(s)
    ensures Placed(ApplyLeave(s, r))
  {
    if r in s.requests && s.requests[r].pc.Leaving? {
      Unlinked(s, r);
      var s' := ApplyLeave(s, r);
      assert s'.receivers == s.receivers && s'.requests[r].pc == Done(false);
      OthersPlaced(s, s', r);
    }
  }

  lemma LookupPlaced(s: State, v: Receiver, p: Packet)
    requires Invariant(s) && Placed(s)
    ensures Placed(ApplyLookup(s, v, p))
  {
    var s' := ApplyLookup(s, v, p);
    FirstMatches(s.table, HasId(s, p.id));
    var found := First(s.table, HasId(s, p.id));
    if v !in s.receivers && found.Some? {
      Unlinked(s, found.value);
      TakenPlaced(s, s', found.value, v);
    }
  }

  /** A step that takes r out of the table and gives it to a new receiver leaves all requests placed. */
  lemma TakenPlaced(s: State, s': State, r: Handle, v: Receiver)
    requires Placed(s) && v !in s.receivers && v in s'.receivers && s'.receivers[v].req == r
    requires s'.receivers == s.receivers[v := s'.receivers[v]]
    requires forall x :: x in s'.requests && x != r ==> x in s.requests && s'.requests[x] == s.requests[x]
    requires forall x :: x in s.table && x != r ==> x in s'.table
    ensures Placed(s')
  {
    forall x | x in s'.requests ensures PlacedOne(s', x) {
      if x == r {
        assert Held(s', x);
      } else {
        assert PlacedOne(s, x);
        if Held(s, x) { StillHeld(s, s', x, v); }
      }
    }
  }

  /** Who is held by another receiver than v stays so when only v changes. */
  lemma StillHeld(s: State, s': State, x: Handle, v: Receiver)
    requires Held(s, x) && (v in s.receivers ==> s.receivers[v].req != x)
    requires forall w <- s.receivers :: w != v ==> w in s'.receivers && s'.receivers[w] == s.receivers[w]
    ensures Held(s', x)
  {
    var w :| w in s.receivers && s.receivers[w].req == x;
    assert s'.receivers[w].req == x;
  }

  lemma DeliveryPlaced(s: State, v: Receiver, step: Progress)
    requires Invariant(s) && Placed(s)
    ensures Placed(ApplyDelivery(s, v, step))
  {
    if v in s.receivers && s.receivers[v].progress == step {
      var s' := ApplyDelivery(s, v, step);
      var r := s.receivers[v].req;
      DeliveredPlaced(s, v);
      forall x | x in s'.requests ensures PlacedOne(s', x) {
        if x != r {
          assert PlacedOne(s, x);
          if Held(s, x) { StillHeld(s, s', x, v); }
        }
      }
    }
  }

  lemma DeliveredPlaced(s: State, v: Receiver)
    requires Invariant(s) && v in s.receivers
    ensures var s' := ApplyDelivery(s, v, s.receivers[v].progress); var r := s.receivers[v].req;
            r in s'.requests && PlacedOne(s', r)
  {
    var d := s.receivers[v];
    var s' := ApplyDelivery(s, v, d.progress);
    if d.progress == Filled {
      assert Ended(Signalled(s.requests[d.req], d.packet));
    } else {
      assert s'.receivers[v].req == d.req;
    }
  }

  lemma StepPlaced(s: State, step: Step)
    requires Invariant(s) && Placed(s)
    ensures Placed(Apply(s, step))
  {
    match step {
      case Send(r, c) => SendPlaced(s, r, c);
      case Insert(r) => InsertPlaced(s, r);
      case Check(r, now) => CheckPlaced(s, r, now);
      case Wake(r, result) => WakePlaced(s, r, result);
      case Leave(r) => LeavePlaced(s, r);
      case Lookup(v, p) => LookupPlaced(s, v, p);
      case Mark(v) => DeliveryPlaced(s, v, Found);
      case Fill(v) => DeliveryPlaced(s, v, Marked);
      case Signal(v) => DeliveryPlaced(s, v, Filled);
    }
  }

  lemma {:induction false} RunPlaced(s: State, steps: seq<Step>)
    requires Invariant(s) && Placed(s)
    ensures Placed(Run(s, steps))
    decreases steps
  {
    if steps != [] {
      StepKeeps(s, steps[0]);
      StepPlaced(s, steps[0]);
      RunPlaced(Apply(s, steps[0]), steps[1..]);
    }
  }

  lemma HeldIsOpen(s: State, r: Handle)
    requires Invariant(s) && r in s.requests && Held(s, r)
    ensures r !in s.table && !Ended(s.requests[r])
  {
    var v :| v in s.receivers && s.receivers[v].req == r;
    assert DeliveryOk(s.requests[r], s.receivers[v]);
  }

  /**
   Whatever the reason to leave: when a thread leaves, its request stays with a receiver exactly when the request is no
   longer in the table and no receiver has finished it or failed it.
   */
  lemma HeldWhenLeaving(steps: seq<Step>, r: Handle)
    requires var s := Run(START, steps); r in s.requests && s.requests[r].pc.Leaving?
    ensures var s := Run(START, steps);
            Held(Apply(s, Leave(r)), r) <==> r !in s.table && !Ended(s.requests[r])
  {
    var s := Run(START, steps);
    Reachable(steps);
    RunPlaced(START, steps);
    assert PlacedOne(s, r);
    assert Apply(s, Leave(r)).receivers == s.receivers;
    if Held(s, r) { HeldIsOpen(s, r); }
  }

  /** Every return: only a thread that leaves can leave a held request behind, and then in exactly those cases. */
  lemma HeldAtReturn(steps: seq<Step>, step: Step, r: Handle)
    requires var s := Run(START, steps);
             && r in s.requests && !s.requests[r].pc.Done?
             && r in Apply(s, step).requests && Apply(s, step).requests[r].pc.Done?
    ensures var s := Run(START, steps);
            Held(Apply(s, step), r) <==> step == Leave(r) && r !in s.table && !Ended(s.requests[r])
  {
    var s := Run(START, steps);
    Reachable(steps);
    ReturnsByCheckOrLeave(s, step, r);
    if step.Leave? {
      HeldWhenLeaving(steps, r);
    } else {
      NotHeldWhenChecked(s, r, step.now);
    }
  }

  lemma ReturnsByCheckOrLeave(s: State, step: Step, r: Handle)
    requires r in s.requests && !s.requests[r].pc.Done?
    requires r in Apply(s, step).requests && Apply(s, step).requests[r].pc.Done?
    ensures (step == Leave(r) && s.requests[r].pc.Leaving?)
         || (step.Check? && step.r == r && s.requests[r].pc == Checking)
  {
  }

  lemma NotHeldWhenChecked(s: State, r: Handle, now: Situation)
    requires Invariant(s) && r in s.requests && s.requests[r].pc == Checking && Checked(s.requests[r], now).pc.Done?
    ensures !Held(ApplyCheck(s, r, now), r)
  {
    assert RequestOk(s.requests[r], r in s.table);
    assert ApplyCheck(s, r, now).receivers == s.receivers;
    if Held(s, r) { HeldIsOpen(s, r); }
  }

  /** The reply is looked up, then the thread finds a reason to leave, all before the receiver goes on. */
  function LeaveDuringDelivery(p: Packet, now: Situation): seq<Step> {
    [Send(0, 0), Insert(0), Lookup(0, p), Check(0, now), Wake(0, ETIMEDOUT), Leave(0)]
  }

  /**
   A timeout, an interrupt, a lost connection and a sequence error all can leave a request with a receiver that goes on
   to write to it.
   */
  lemma HeldAfterLeaving(p: Packet, now: Situation)
    requires p.id == 0
    ensures var s := Run(START, LeaveDuringDelivery(p, now));
            && 0 in s.requests && s.requests[0].pc == Done(false) && s.receivers == map[0 := Delivery(0, p, Found)]
            && (now == Situation(false, false, false, false) ==> s.requests[0].status.timedout)
  {
    var steps := LeaveDuringDelivery(p, now);
    var q := NewRequest(0, 0).(pc := Checking);
    var s2 := State(map[0 := 1], map[0 := q], [0], map[]);
    assert Apply(Apply(START, steps[0]), steps[1]) == s2;
    LeavingTail(s2, q, p, now);
    RunSix(START, steps);
  }

  lemma LeavingTail(s: State, q: Request, p: Packet, now: Situation)
    requires s == State(map[0 := 1], map[0 := q], [0], map[]) && q == NewRequest(0, 0).(pc := Checking) && p.id == 0
    ensures var s' := Apply(Apply(Apply(Apply(s, Lookup(0, p)), Check(0, now)), Wake(0, ETIMEDOUT)), Leave(0));
            && 0 in s'.requests && s'.requests[0].pc == Done(false) && s'.receivers == map[0 := Delivery(0, p, Found)]
            && (now == Situation(false, false, false, false) ==> s'.requests[0].status.timedout)
  {
    assert First(s.table, HasId(s, 0)) == Some(0);
    var s1 := Apply(s, Lookup(0, p));
    assert s1.requests[0] == q.(removals := q.removals + 1) && s1.receivers == map[0 := Delivery(0, p, Found)];
  }

  // ---- is a thread woken when its request is finished or failed? ----

  /** A sleeping thread whose request is finished or failed has been woken. */
  predicate Awake(q: Request) { q.pc == Sleeping && Ended(q) ==> q.woken }

  /** None of the checks of this request finds it interrupted. */
  predicate Undisturbed(steps: seq<Step>, r: Handle) {
    forall i :: 0 <= i < |steps| && steps[i].Check? && steps[i].r == r ==> !steps[i].now.interrupted
  }

  /** A finished request never sleeps on: its thread is woken, in every run. */
  lemma FinishWakes(steps: seq<Step>, r: Handle)
    requires r in Run(START, steps).requests
    ensures var q := Run(START, steps).requests[r]; q.pc == Sleeping && Finish in q.history ==> q.woken
  {
    Reachable(steps);
    var s := Run(START, steps);
    assert RequestOk(s.requests[r], r in s.table);
  }

  /** A sleeping thread has been woken only when its request is finished or failed. */
  predicate WokenRightly(q: Request) { q.pc == Sleeping && q.woken ==> Ended(q) }

  lemma StepWokenRightly(s: State, step: Step)
    requires forall r <- s.requests :: WokenRightly(s.requests[r])
    ensures forall r <- Apply(s, step).requests :: WokenRightly(Apply(s, step).requests[r])
  {
  }

  lemma {:induction false} RunWokenRightly(s: State, steps: seq<Step>)
    requires forall r <- s.requests :: WokenRightly(s.requests[r])
    ensures forall r <- Run(s, steps).requests :: WokenRightly(Run(s, steps).requests[r])
    decreases steps
  {
    if steps != [] {
      StepWokenRightly(s, steps[0]);
      RunWokenRightly(Apply(s, steps[0]), steps[1..]);
    }
  }

  /** In every run a sleeping thread is woken only when its request is over, and always when it is finished. */
  lemma WokenExactly(steps: seq<Step>, r: Handle)
    requires var s := Run(START, steps); r in s.requests && s.requests[r].pc == Sleeping
    ensures var q := Run(START, steps).requests[r];
            (Failed !in q.history ==> (q.woken <==> Finish in q.history)) && (q.woken ==> Ended(q))
  {
    RunWokenRightly(START, steps);
    FinishWakes(steps, r);
  }

  /** A check sends the thread of a request that is over back to sleep exactly when it failed and is interrupted. */
  lemma SleepsOnExactly(steps: seq<Step>, r: Handle, now: Situation)
    requires var s := Run(START, steps);
             r in s.requests && s.requests[r].pc == Checking && Ended(s.requests[r])
    ensures var s := Run(START, steps);
            Checked(s.requests[r], now).pc == Sleeping <==> Failed in s.requests[r].history && now.interrupted
  {
    Reachable(steps);
    var s := Run(START, steps);
    assert RequestOk(s.requests[r], r in s.table);
  }

  lemma CheckAwake(q: Request, linked: bool, now: Situation)
    requires RequestOk(q, linked) && q.pc == Checking && !now.interrupted
    ensures Awake(Checked(q, now))
  {
  }

  lemma StepAwake(s: State, step: Step, r: Handle)
    requires Invariant(s) && (r in s.requests ==> Awake(s.requests[r]))
    requires step.Check? && step.r == r ==> !step.now.interrupted
    ensures r in Apply(s, step).requests ==> Awake(Apply(s, step).requests[r])
  {
    match step {
      case Check(q, now) =>
        if q == r && r in s.requests && s.requests[r].pc == Checking {
          assert RequestOk(s.requests[r], r in s.table);
          CheckAwake(s.requests[r], r in s.table, now);
        }
      case Mark(v) => DeliveryAwake(s, v, Found, r);
      case Fill(v) => DeliveryAwake(s, v, Marked, r);
      case Signal(v) => DeliveryAwake(s, v, Filled, r);
      case Lookup(v, p) => LookupAwake(s, v, p, r);
      case _ => WaiterAwake(s, step, r);
    }
  }

  lemma LookupAwake(s: State, v: Receiver, p: Packet, r: Handle)
    requires r in s.requests ==> Awake(s.requests[r])
    ensures r in ApplyLookup(s, v, p).requests ==> Awake(ApplyLookup(s, v, p).requests[r])
  {
  }

  lemma WaiterAwake(s: State, step: Step, r: Handle)
    requires r in s.requests ==> Awake(s.requests[r])
    requires step.Send? || step.Insert? || step.Wake? || step.Leave?
    ensures r in Apply(s, step).requests ==> Awake(Apply(s, step).requests[r])
  {
  }

  lemma DeliveryAwake(s: State, v: Receiver, step: Progress, r: Handle)
    requires r in s.requests ==> Awake(s.requests[r])
    ensures r in ApplyDelivery(s, v, step).requests ==> Awake(ApplyDelivery(s, v, step).requests[r])
  {
  }

  lemma {:induction false} RunAwake(s: State, steps: seq<Step>, r: Handle)
    requires Invariant(s) && (r in s.requests ==> Awake(s.requests[r])) && Undisturbed(steps, r)
    ensures r in Run(s, steps).requests ==> Awake(Run(s, steps).requests[r])
    decreases steps
  {
    if steps != [] {
      StepKeeps(s, steps[0]);
      StepAwake(s, steps[0], r);
      assert Undisturbed(steps[1..], r) by {
        assert forall i :: 0 <= i < |steps[1..]| ==> steps[1..][i] == steps[i + 1];
      }
      RunAwake(Apply(s, steps[0]), steps[1..], r);
    }
  }

  /**
   No wakeup is lost, over every run: a thread sleeps on without a wakeup although its request is over only when the
   request failed and one of its checks found it interrupted.
   */
  lemma NoLostWakeup(steps: seq<Step>, r: Handle)
    requires var s := Run(START, steps); r in s.requests && !Awake(s.requests[r])
    ensures !Undisturbed(steps, r) && Failed in Run(START, steps).requests[r].history
  {
    Reachable(steps);
    FinishWakes(steps, r);
    if Undisturbed(steps, r) { RunAwake(START, steps, r); }
  }

  /** An invalid reply fails the request; its thread, interrupted at the next check, goes to sleep and is not woken. */
  lemma FailureSleptThrough(p: Packet)
    requires p.id == 0 && !p.valid
    ensures var s := Run(START, [Send(0, 0), Insert(0), Lookup(0, p), Mark(0), Fill(0), Signal(0)]);
            var s' := Apply(s, Check(0, Situation(true, false, false, false)));
            && 0 in s'.requests && s'.requests[0].pc == Sleeping && !s'.requests[0].woken
            && Failed in s'.requests[0].history && s'.receivers == map[]
  {
    var steps := [Send(0, 0), Insert(0), Lookup(0, p), Mark(0), Fill(0), Signal(0)];
    var q := NewRequest(0, 0).(pc := Checking);
    var s2 := State(map[0 := 1], map[0 := q], [0], map[]);
    assert Apply(Apply(START, steps[0]), steps[1]) == s2;
    assert First(s2.table, HasId(s2, 0)) == Some(0);
    var s3 := Apply(s2, steps[2]);
    assert s3.requests[0] == q.(removals := 1) && s3.receivers == map[0 := Delivery(0, p, Found)];
    FailingDelivery(s3, p);
    RunSix(START, steps);
  }

  lemma FailingDelivery(s: State, p: Packet)
    requires 0 in s.requests && s.requests[0] == NewRequest(0, 0).(pc := Checking, removals := 1)
    requires s.receivers == map[0 := Delivery(0, p, Found)] && !p.valid
    ensures var s' := Apply(Apply(Apply(s, Mark(0)), Fill(0)), Signal(0));
            && 0 in s'.requests && s'.requests[0].pc == Checking && s'.receivers == map[]
            && s'.requests[0].status.response && s'.requests[0].status.error && !s'.requests[0].status.finish
            && Failed in s'.requests[0].history
  {
    var s1 := Apply(s, Mark(0));
    assert s1.receivers == map[0 := Delivery(0, p, Marked)];
    var s2 := Apply(s1, Fill(0));
    assert s2.receivers == map[0 := Delivery(0, p, Filled)];
    var s3 := Apply(s2, Signal(0));
    assert s3.receivers == map[];
    assert s3.requests[0].history[2] == Failed;
  }

  lemma RunSix(s: State, steps: seq<Step>)
    requires |steps| == 6
    ensures var s3 := Apply(Apply(Apply(s, steps[0]), steps[1]), steps[2]);
            Run(s, steps) == Apply(Apply(Apply(s3, steps[3]), steps[4]), steps[5])
  {
    var s1 := Apply(s, steps[0]);
    var s2 := Apply(s1, steps[1]);
    var s3 := Apply(s2, steps[2]);
    assert steps[1..][1..] == steps[2..] && steps[2..][1..] == steps[3..];
    assert Run(s1, steps[1..]) == Run(s2, steps[2..]) && Run(s2, steps[2..]) == Run(s3, steps[3..]);
    var s4 := Apply(s3, steps[3]);
    var s5 := Apply(s4, steps[4]);
    assert steps[3..][1..] == steps[4..] && steps[4..][1..] == steps[5..] && steps[5..][1..] == [];
    assert Run(s3, steps[3..]) == Run(s4, steps[4..]) && Run(s4, steps[4..]) == Run(s5, steps[5..]);
    var s6 := Apply(s5, steps[5]);
    assert Run(s5, steps[5..]) == Run(s6, []) == s6;
  }

  // ---- routing ----

  /** Ids wrap around at 2^32, but within one window of that many allocations they do not repeat. */
  lemma IdsOfOneWindow(m: nat, n: nat, start: nat)
    requires start <= m < start + ID_SPACE && start <= n < start + ID_SPACE
    ensures m % ID_SPACE == n % ID_SPACE <==> m == n
  {
  }

  /** The reply goes to the earliest pending request with its id, exactly. */
  lemma RoutedTo(s: State, i: nat, v: Receiver, p: Packet)
    requires Invariant(s) && v !in s.receivers && i < |s.table|
    ensures var s' := ApplyLookup(s, v, p);
            (v in s'.receivers && s'.receivers[v].req == s.table[i])
            <==>
            (s.requests[s.table[i]].id == p.id && forall j | 0 <= j < i :: s.requests[s.table[j]].id != p.id)
  {
    var found := First(s.table, HasId(s, p.id));
    FirstMatches(s.table, HasId(s, p.id));
    FirstIndex(s.table, HasId(s, p.id), i);
    assert forall j | 0 <= j < |s.table| :: s.table[j] in s.requests;
  }

  lemma {:induction false} FirstIndex<T>(s: seq<T>, p: T -> bool, i: nat)
    requires i < |s| && Distinct(s)
    ensures First(s, p) == Some(s[i]) <==> p(s[i]) && forall j | 0 <= j < i :: !p(s[j])
  {
    if p(s[0]) {
    } else if i == 0 {
      FirstMatches(s[1..], p);
    } else {
      assert forall j | 0 <= j < |s[1..]| :: s[1..][j] == s[j + 1];
      FirstIndex(s[1..], p, i - 1);
      assert (forall j | 0 <= j < i :: !p(s[j])) <== (forall j | 0 <= j < i - 1 :: !p(s[1..][j])) by {
        if forall j | 0 <= j < i - 1 :: !p(s[1..][j]) {
          forall j | 0 <= j < i ensures !p(s[j]) {
            if j > 0 { assert s[1..][j - 1] == s[j]; }
          }
        }
      }
    }
  }

  /** The pending requests of client c come from one window of 2^32 allocations that starts at start. */
  ghost predicate InWindow(s: State, c: Client, start: nat) {
    forall h <- s.table :: h in s.requests && s.requests[h].client == c ==>
      start <= s.requests[h].nth < start + ID_SPACE
  }

  lemma OneIdPerClient(s: State, c: Client, start: nat, i: nat, j: nat)
    requires Invariant(s) && InWindow(s, c, start) && i < |s.table| && j < |s.table| && i != j
    requires s.requests[s.table[i]].client == c && s.requests[s.table[j]].client == c
    ensures s.requests[s.table[i]].id != s.requests[s.table[j]].id
  {
    var g, h := s.table[i], s.table[j];
    assert g in s.table && h in s.table && g != h;
    assert RequestOk(s.requests[g], true) && RequestOk(s.requests[h], true);
    IdsOfOneWindow(s.requests[g].nth, s.requests[h].nth, start);
  }

  /**
   With any number of clients: a reply reaches the pending request i exactly when it has the id of that request and no
   earlier pending request of another client has it too.
   */
  lemma ReplyReachesExactly(steps: seq<Step>, start: nat, v: Receiver, p: Packet, i: nat)
    requires var s := Run(START, steps);
             && v !in s.receivers && i < |s.table| && s.table[i] in s.requests
             && InWindow(s, s.requests[s.table[i]].client, start)
    ensures var s := Run(START, steps); var s' := Apply(s, Lookup(v, p)); var c := s.requests[s.table[i]].client;
            (v in s'.receivers && s'.receivers[v].req == s.table[i])
            <==>
            (s.requests[s.table[i]].id == p.id
             && forall j | 0 <= j < i && s.table[j] in s.requests && s.requests[s.table[j]].client != c ::
                  s.requests[s.table[j]].id != p.id)
  {
    Reachable(steps);
    var s := Run(START, steps);
    var c := s.requests[s.table[i]].client;
    RoutedTo(s, i, v, p);
    forall j | 0 <= j < i && s.requests[s.table[j]].client == c
      ensures s.requests[s.table[j]].id != s.requests[s.table[i]].id
    {
      OneIdPerClient(s, c, start, i, j);
    }
  }

  /**
   One client, pending requests from one window of 2^32 allocations: a reply reaches a request exactly when the request
   is in the table and was given the id of the reply. A reply that comes before the request is added is lost.
   */
  lemma ReplyReachesItsRequest(steps: seq<Step>, c: Client, start: nat, v: Receiver, p: Packet, r: Handle)
    requires var s := Run(START, steps);
             && v !in s.receivers && InWindow(s, c, start)
             && (forall h <- s.table :: h in s.requests ==> s.requests[h].client == c)
             && r in s.requests
    ensures var s := Run(START, steps); var s' := Apply(s, Lookup(v, p));
            (v in s'.receivers && s'.receivers[v].req == r) <==> r in s.table && s.requests[r].id == p.id
  {
    Reachable(steps);
    var s := Run(START, steps);
    if r in s.table {
      var i :| 0 <= i < |s.table| && s.table[i] == r;
      ReplyReachesExactly(steps, start, v, p, i);
    } else {
      FirstMatches(s.table, HasId(s, p.id));
    }
  }

  /** The table is shared and every client counts from 0: the reply for one client reaches a request of another. */
  lemma RepliesCrossClients(p: Packet)
    requires p.id == 0 && p.client == 1
    ensures exists steps: seq<Step> ::
              var s := Run(START, steps);
              0 in s.receivers && s.receivers[0].packet == p && s.receivers[0].req in s.requests
              && s.requests[s.receivers[0].req].client != p.client
  {
    var calm := Situation(false, false, false, false);
    var steps := [Send(0, 0), Insert(0), Send(1, 1), Insert(1), Check(0, calm), Lookup(0, p)];
    var s4 := Apply(Apply(Apply(Apply(START, steps[0]), steps[1]), steps[2]), steps[3]);
    var s5 := Apply(s4, steps[4]);
    assert s5.table == [0, 1];
    assert s5.requests[0].id == 0 && s5.requests[0].client == 0;
    assert First(s5.table, HasId(s5, 0)) == Some(0);
    var s6 := Apply(s5, steps[5]);
    RunSix(START, steps);
    assert s6.receivers[0] == Delivery(0, p, Found);
  }

  // ---- replies that come too early ----

  /** A request is added to the table after it was sent: a reply in between finds nothing and is dropped. */
  lemma EarlyReplyIsDropped(steps: seq<Step>, c: Client, start: nat, v: Receiver, p: Packet, r: Handle)
    requires var s := Run(START, steps);
             && r in s.requests && s.requests[r].pc == Sent && s.requests[r].id == p.id
             && s.requests[r].client == c && start <= s.requests[r].nth < start + ID_SPACE
             && (forall h <- s.table :: h in s.requests ==>
                   s.requests[h].client == c && start <= s.requests[h].nth < start + ID_SPACE)
    ensures Apply(Run(START, steps), Lookup(v, p)) == Run(START, steps)
  {
    Reachable(steps);
    var s := Run(START, steps);
    FirstMatches(s.table, HasId(s, p.id));
    assert RequestOk(s.requests[r], r in s.table);
    forall h | h in s.table ensures s.requests[h].id != p.id {
      assert RequestOk(s.requests[h], true);
      IdsOfOneWindow(s.requests[h].nth, s.requests[r].nth, start);
    }
  }

  predicate AnswersNot(step: Step, id: nat) { step.Lookup? ==> step.packet.id != id }

  lemma NoAnswerLookup(s: State, v: Receiver, p: Packet, r: Handle)
    requires Invariant(s) && r in s.requests && !Held(s, r) && s.requests[r].id != p.id
    ensures var s' := ApplyLookup(s, v, p); r in s'.requests && s'.requests[r] == s.requests[r] && !Held(s', r)
  {
    FirstMatches(s.table, HasId(s, p.id));
    var s' := ApplyLookup(s, v, p);
    forall w | w in s'.receivers ensures s'.receivers[w].req != r {
      if w in s.receivers { assert s'.receivers[w] == s.receivers[w]; }
    }
  }

  lemma NoAnswerDelivery(s: State, v: Receiver, step: Progress, r: Handle)
    requires r in s.requests && !Held(s, r)
    ensures var s' := ApplyDelivery(s, v, step); r in s'.requests && s'.requests[r] == s.requests[r] && !Held(s', r)
  {
    var s' := ApplyDelivery(s, v, step);
    forall w | w in s'.receivers ensures s'.receivers[w].req != r {
      assert w in s.receivers && s'.receivers[w].req == s.receivers[w].req;
    }
  }

  lemma NoAnswerStep(s: State, step: Step, r: Handle)
    requires Invariant(s) && r in s.requests && Untouched(s.requests[r]) && !Held(s, r)
    requires AnswersNot(step, s.requests[r].id)
    ensures var s' := Apply(s, step);
            r in s'.requests && s'.requests[r].id == s.requests[r].id && Untouched(s'.requests[r]) && !Held(s', r)
  {
    match step {
      case Lookup(v, p) => NoAnswerLookup(s, v, p, r);
      case Mark(v) => NoAnswerDelivery(s, v, Found, r);
      case Fill(v) => NoAnswerDelivery(s, v, Marked, r);
      case Signal(v) => NoAnswerDelivery(s, v, Filled, r);
      case _ => NoAnswerWaiter(s, step, r);
    }
  }

  /** The steps of waiting threads touch no receiver, and of the request only what its own thread does. */
  lemma NoAnswerWaiter(s: State, step: Step, r: Handle)
    requires Invariant(s) && r in s.requests && Untouched(s.requests[r]) && !Held(s, r)
    requires step.Send? || step.Insert? || step.Check? || step.Wake? || step.Leave?
    ensures var s' := Apply(s, step);
            r in s'.requests && s'.requests[r].id == s.requests[r].id && Untouched(s'.requests[r]) && !Held(s', r)
  {
    match step {
      case Check(q, now) => NoAnswerCheck(s, q, now, r);
      case Leave(q) => NoAnswerLeave(s, q, r);
      case Send(q, c) => assert ApplySend(s, q, c).receivers == s.receivers;
      case Insert(q) => assert ApplyInsert(s, q).receivers == s.receivers;
      case Wake(q, result) => assert ApplyWake(s, q, result).receivers == s.receivers;
    }
  }

  lemma NoAnswerCheck(s: State, q: Handle, now: Situation, r: Handle)
    requires Invariant(s) && r in s.requests && Untouched(s.requests[r]) && !Held(s, r)
    ensures var s' := ApplyCheck(s, q, now);
            r in s'.requests && s'.requests[r].id == s.requests[r].id && Untouched(s'.requests[r]) && !Held(s', r)
  {
    assert ApplyCheck(s, q, now).receivers == s.receivers;
    if q == r && s.requests[r].pc == Checking { CheckedOk(s.requests[r], r in s.table, now); }
  }

  lemma NoAnswerLeave(s: State, q: Handle, r: Handle)
    requires Invariant(s) && r in s.requests && Untouched(s.requests[r]) && !Held(s, r)
    ensures var s' := ApplyLeave(s, q);
            r in s'.requests && s'.requests[r].id == s.requests[r].id && Untouched(s'.requests[r]) && !Held(s', r)
  {
    assert ApplyLeave(s, q).receivers == s.receivers;
    if q == r && s.requests[r].pc.Leaving? { LeftOk(s.requests[r], r in s.table); }
  }

  /** Without a further reply that carries its id the request never finishes, whatever else happens. */
  lemma {:induction false} NoAnswerNoFinish(s: State, steps: seq<Step>, r: Handle)
    requires Invariant(s) && r in s.requests && Untouched(s.requests[r]) && !Held(s, r)
    requires forall step <- steps :: AnswersNot(step, s.requests[r].id)
    ensures var s' := Run(s, steps); r in s'.requests && Untouched(s'.requests[r]) && s'.requests[r].pc != Done(true)
    decreases steps
  {
    if steps == [] {
      assert RequestOk(s.requests[r], r in s.table);
    } else {
      NoAnswerStep(s, steps[0], r);
      StepKeeps(s, steps[0]);
      NoAnswerNoFinish(Apply(s, steps[0]), steps[1..], r);
    }
  }
}
