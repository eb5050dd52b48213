/** services/orders-svc/main.go: POST /orders, inside the metrics middleware. */
module OrdersService {
  import opened Options
  import opened HttpStatus
  import opened HttpMetrics
  import F = OrderFlow

  datatype OrderRequest = OrderRequest(customerId: string, customerEmail: string, amountMinor: int, currency: string,
                                       sku: string, quantity: int)

  datatype OrderEvent = OrderEvent(orderId: string, customerId: string, customerEmail: string, amountMinor: int,
                                   currency: string, createdAt: int)

  datatype ChargeStatus = AUTHORIZED | DECLINED | UNSPECIFIED

  /** A request and what happens to it: a body that decodes or not, a charge that returns a status or fails. */
  datatype Attempt = Attempt(body: Option<OrderRequest>, charge: Option<ChargeStatus>)

  predicate ChargeFailed(t: Attempt) {
    t.body.Some? && t.charge.None?
  }

  predicate Created(t: Attempt) {
    t.body.Some? && t.charge == Some(AUTHORIZED)
  }

  /** The status line of POST /orders. */
  function CodeFor(t: Attempt): int {
    if t.body.None? then BAD_REQUEST
    else if t.charge.None? then BAD_GATEWAY
    else if t.charge != Some(AUTHORIZED) then PAYMENT_REQUIRED
    else OK
  }

  /** What the handler does to its writer: nothing before the body on success, http.Error otherwise. */
  function ResponseOps(t: Attempt): seq<Op> {
    if Created(t) then [Body] else [Header(CodeFor(t)), Body]
  }

  /** So the code the middleware records is the one the client gets, and it is the code for the attempt. */
  lemma ResponseCode(t: Attempt)
    ensures Recorded(ResponseOps(t)) == Sent(ResponseOps(t)) == CodeFor(t)
    ensures Wire(ResponseOps(t)) == Some(CodeFor(t))
    ensures CodeFor(t) == 400 <==> t.body.None?
    ensures CodeFor(t) == 502 <==> t.body.Some? && t.charge.None?
    ensures CodeFor(t) == 402 <==> t.body.Some? && t.charge.Some? && t.charge.value != AUTHORIZED
    ensures CodeFor(t) == 200 <==> t.body.Some? && t.charge == Some(AUTHORIZED)
  {
    var ops := ResponseOps(t);
    FirstOp(ops);
    if Created(t) {
      assert ops[..|ops| - 1] == [];
      assert FirstHeader([]) == None;
      assert FirstHeader(ops) == None;
    }
  }

  class App {
    var publishingPaused: bool
    var stream: seq<OrderEvent>

    constructor ()
      ensures !publishingPaused && stream == []
    {
      publishingPaused := false;
      stream := [];
    }

    /** stored says whether the event reaches the stream, acknowledged or not. */
    method HandleCreate(w: StatusRecorder, t: Attempt, orderId: string, now: int, stored: bool)
      requires w.Valid() && w.ops == []
      modifies this`stream, w, w.inner
      ensures w.Valid() && w.ops == ResponseOps(t)
      ensures w.inner.status == Some(400) <==> t.body.None?
      ensures w.inner.status == Some(502) <==> t.body.Some? && t.charge.None?
      ensures w.inner.status == Some(402) <==> t.body.Some? && t.charge.Some? && t.charge.value != AUTHORIZED
      ensures w.inner.status == Some(200) <==> t.body.Some? && t.charge == Some(AUTHORIZED)
      ensures w.inner.status == Some(w.code)
      ensures Created(t) && !publishingPaused && stored ==>
                var req := t.body.value;
                stream == old(stream) + [OrderEvent(orderId, req.customerId, req.customerEmail, req.amountMinor, req.currency, now)]
      ensures !(Created(t) && !publishingPaused && stored) ==> stream == old(stream)
    {
      ResponseCode(t);
      if t.body.None? {
        HttpError(w, BAD_REQUEST);
        return;
      }
      var req := t.body.value;
      if t.charge.None? {
        HttpError(w, BAD_GATEWAY);
        return;
      }
      if t.charge.value != AUTHORIZED {
        HttpError(w, PAYMENT_REQUIRED);
        return;
      }
      if !publishingPaused {
        var evt := OrderEvent(orderId, req.customerId, req.customerEmail, req.amountMinor, req.currency, now);
        if stored {
          stream := stream + [evt];
        }
      }
      w.Write();
    }
  }

  /** http.Error: the status, then the message. */
  method HttpError(w: StatusRecorder, code: int)
    requires w.Valid() && w.ops == []
    modifies w, w.inner
    ensures w.Valid() && w.ops == [Header(code), Body]
  {
    w.WriteHeader(code);
    w.Write();
  }

  class Metrics {
    var requests: Counters

    constructor ()
      ensures requests == map[]
    {
      requests := map[];
    }

    /** The middleware around HandleCreate: one counter, labelled with the code that went out, goes up by one. */
    method Wrap(handler: string, verb: string, a: App, t: Attempt, orderId: string, now: int, stored: bool)
        returns (w: ResponseWriter)
      modifies this, a`stream
      ensures w.status == Some(CodeFor(t))
      ensures requests == Incremented(old(requests), Labels(handler, verb, CodeFor(t)))
      ensures var l := Labels(handler, verb, w.status.value);
              requests == old(requests)[l := (if l in old(requests) then old(requests)[l] else 0) + 1]
      ensures !(Created(t) && !a.publishingPaused && stored) ==> a.stream == old(a.stream)
    {
      w := new ResponseWriter();
      var rw := new StatusRecorder(w);
      a.HandleCreate(rw, t, orderId, now, stored);
      ResponseCode(t);
      var l := Labels(handler, verb, rw.code);
      requests := requests[l := (if l in requests then requests[l] else 0) + 1];
    }
  }

  // ----- the same handler as steps of the order flow -----

  /** Where an order that arrives in s stands after any run. */
  function Received(s: F.State, o: int, r: int, valid: bool, steps: seq<F.Step>): F.State {
    F.Exec(F.Next(s, F.Receive(o, r, valid)), steps)
  }

  /** A body that does not decode is answered 400 at once, never charged and never published, whatever follows; any other
      waits for its charge, and nothing is published meanwhile. */
  lemma {:induction false} AfterReceive(s: F.State, o: int, r: int, valid: bool, steps: seq<F.Step>)
    requires o !in s.orders && r in s.paused
    ensures var t := Received(s, o, r, valid, steps);
            && o in t.orders && t.orders[o].replica == r && r in t.paused
            && (!valid ==> t.orders[o] == F.Order(r, F.Replied(400), F.NotArrived, F.NotAsked, F.Unsent))
            && (steps == [] && valid ==> t.orders[o] == F.Order(r, F.Charging, F.NotArrived, F.NotAsked, F.Unsent))
            && (t.orders[o].pc.Charging? ==> t.orders[o].message.Unsent?)
  {
    if steps != [] {
      var before, st := steps[..|steps| - 1], steps[|steps| - 1];
      AfterReceive(s, o, r, valid, before);
      OneStep(Received(s, o, r, valid, before), st, o);
    }
  }

  lemma OneStep(s: F.State, st: F.Step, o: int)
    requires o in s.orders
    ensures s.paused.Keys <= F.Next(s, st).paused.Keys && o in F.Next(s, st).orders
    ensures F.Next(s, st).orders[o] == if F.IsFlagStep(st) || st.o != o then s.orders[o]
                                       else F.Move(s.orders[o], st, s.reservations, s.paused)
  {
  }

  /** The handler's steps once its charge is over: the reply, the check, and, if it gets there, the publish. */
  function Answer(s: F.State, o: int, delivered: bool): F.Order
    requires o in s.orders
  {
    var returned := F.Move(s.orders[o], F.ChargeReturns(o, delivered), s.reservations, s.paused);
    var checked := F.Move(returned, F.CheckFlag(o), s.reservations, s.paused);
    F.Move(F.Move(checked, F.Publish(o), s.reservations, s.paused), F.PublishReturns(o), s.reservations, s.paused)
  }

  /** What the handler in one go sees of a request: a body that decodes or not, and its charge's status if the reply is
      delivered. */
  function AttemptOf(body: Option<OrderRequest>, delivered: bool, reply: ChargeStatus): Attempt {
    Attempt(body, if delivered then Some(reply) else None)
  }

  /** From its arrival on, over any run of everything else: step by step or in one go, the handler answers the same
      code, and it publishes in exactly the same case. */
  lemma SameAnswers(s: F.State, o: int, r: int, body: Option<OrderRequest>, steps: seq<F.Step>, delivered: bool, reply: ChargeStatus)
    requires o !in s.orders && r in s.paused
    requires var t := Received(s, o, r, body.Some?, steps);
             body.Some? && o in t.orders ==>
               && t.orders[o].pc.Charging?
               && (delivered ==> if reply == AUTHORIZED then t.orders[o].charge.Authorized? else t.orders[o].charge.Declined?)
    ensures var t := Received(s, o, r, body.Some?, steps);
            var attempt := AttemptOf(body, delivered, reply);
            && o in t.orders && r in t.paused
            && Answer(t, o, delivered).pc == F.Replied(CodeFor(attempt))
            && (Answer(t, o, delivered).message.OnItsWay? <==> Created(attempt) && !t.paused[r])
  {
    AfterReceive(s, o, r, body.Some?, steps);
  }

  // ----- any run of POST /orders -----

  function LabelsOf(run: seq<Attempt>): (r: seq<Labels>)
    ensures |r| == |run|
  {
    seq(|run|, i requires 0 <= i < |run| => Labels("post_orders", "POST", CodeFor(run[i])))
  }

  function FailedCharges(run: seq<Attempt>): nat {
    if run == [] then 0 else FailedCharges(run[..|run| - 1]) + if ChargeFailed(run[|run| - 1]) then 1 else 0
  }

  lemma {:induction false} CodesOfRun(run: seq<Attempt>)
    ensures CountFrom(LabelsOf(run), 0) == |run|
    ensures CountFrom(LabelsOf(run), 500) == FailedCharges(run)
  {
    if run != [] {
      var n := |run| - 1;
      CodesOfRun(run[..n]);
      assert LabelsOf(run)[..n] == LabelsOf(run[..n]);
    }
  }

  /** Over any run the counters add up to the completed requests, and those with a server-error code to the failed
      Charge calls: a decline or a bad body never burns the SLO. */
  lemma MetricsConserve(run: seq<Attempt>)
    ensures var m := Tally(LabelsOf(run));
            && Sum(m, From(m, 0)) == |run|
            && Sum(m, From(m, 500)) == FailedCharges(run)
            && From(m, 0) == m.Keys
  {
    CountersConserve(LabelsOf(run), 0);
    CountersConserve(LabelsOf(run), 500);
    CodesOfRun(run);
    TallyCodes(LabelsOf(run));
  }

  lemma {:induction false} TallyCodes(completed: seq<Labels>)
    ensures forall l | l in Tally(completed) :: l in completed
  {
    if completed != [] {
      TallyCodes(completed[..|completed| - 1]);
    }
  }
}
