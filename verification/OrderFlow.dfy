/** The order flow and its brake as a transition system: several orders-svc replicas, each with its own copy of the
    pause flag; charges and reservations as calls whose replies can be lost or come too late; a check of the flag
    that is a separate step from the publish; a stream and its consumer. */
module OrderFlow {
  import opened Options
  import opened FlagFile
  import opened HttpStatus

  datatype LineItem = LineItem(sku: string, quantity: int)

  /** What payments-svc always reserves. */
  const DEFAULT_ITEMS := [LineItem("DEFAULT", 1)]

  /** payments-svc on behalf of one order. */
  datatype Charge = NotArrived | AwaitingStock | Authorized | Declined

  /** inventory-svc on behalf of one order: the Reserve call on its way, or executed. */
  datatype Stock = NotAsked | InFlight | Reserved(id: int)

  /** The orders-svc handler of one order. */
  datatype Pc = Charging | AtCheck | PastCheck | Publishing | Replied(code: int)

  /** The event of one order on its way to the stream. */
  datatype Message = Unsent | OnItsWay | Stored | Dropped

  datatype Order = Order(replica: int, pc: Pc, charge: Charge, stock: Stock, message: Message)

  /** flag is the ConfigMap key, files its projection into each replica's mount, paused each replica's atomic flag;
      reservations is inventory-svc's store, backlog what the consumer has not settled. */
  datatype State = State(orders: map<int, Order>, reservations: Reservations, backlog: set<int>,
                         flag: Option<string>, files: map<int, Option<string>>, paused: map<int, bool>)

  datatype Step =
    | StartReplica(r: int)
    | SetFlag(value: Option<string>)
    | Project(r: int)
    | ReadFlag(r: int, fails: bool)
    | Receive(o: int, r: int, valid: bool)
    | ChargeArrives(o: int)
    | ReserveRuns(o: int, id: int)
    | ChargeDecides(o: int, replied: bool)
    | ChargeReturns(o: int, delivered: bool)
    | CheckFlag(o: int)
    | Publish(o: int)
    | StreamStores(o: int)
    | StreamDrops(o: int)
    | PublishReturns(o: int)
    | Work(o: int, settled: bool)

  /** Where a step takes one order. */
  function Move(x: Order, st: Step, reservations: Reservations, paused: map<int, bool>): Order {
    match st
    case ChargeArrives(_) =>
      if x.pc.Charging? && x.charge.NotArrived? then x.(charge := AwaitingStock, stock := InFlight) else x
    case ReserveRuns(_, id) =>
      // may well come after the caller has given up; the reservation id is fresh
      if x.stock.InFlight? && id !in reservations then x.(stock := Reserved(id)) else x
    case ChargeDecides(_, replied) =>
      if x.charge.AwaitingStock? && (replied ==> x.stock.Reserved?) then x.(charge := if replied then Authorized else Declined)
      else x
    case ChargeReturns(_, delivered) =>
      if !x.pc.Charging? then x
      else if !delivered then x.(pc := Replied(BAD_GATEWAY))
      else if x.charge.Authorized? then x.(pc := AtCheck)
      else if x.charge.Declined? then x.(pc := Replied(PAYMENT_REQUIRED))
      else x
    case CheckFlag(_) =>
      if x.pc.AtCheck? && x.replica in paused then x.(pc := if paused[x.replica] then Replied(OK) else PastCheck) else x
    case Publish(_) =>
      if x.pc.PastCheck? then x.(pc := Publishing, message := OnItsWay) else x
    case StreamStores(_) => if x.message.OnItsWay? then x.(message := Stored) else x
    case StreamDrops(_) => if x.message.OnItsWay? then x.(message := Dropped) else x
    case PublishReturns(_) =>
      // acknowledged, failed or timed out: the order is answered all the same
      if x.pc.Publishing? then x.(pc := Replied(OK)) else x
    case _ => x
  }

  /** A step of one order, with its effect on inventory-svc's store and on the consumer's backlog. A delivery ends
      in Ack, or in Term if it does not decode; unless the server gets that, the message comes again. */
  function OnOrder(s: State, o: int, st: Step): State
    requires o in s.orders
  {
    var x := s.orders[o];
    var x' := Move(x, st, s.reservations, s.paused);
    s.(orders := s.orders[o := x'],
       reservations := if x'.stock != x.stock && x'.stock.Reserved? then s.reservations[x'.stock.id := DEFAULT_ITEMS]
                       else s.reservations,
       backlog := if x'.message != x.message && x'.message.Stored? then s.backlog + {o}
                  else if st.Work? && st.settled then s.backlog - {o}
                  else s.backlog)
  }

  predicate IsFlagStep(st: Step) {
    st.StartReplica? || st.SetFlag? || st.Project? || st.ReadFlag? || st.Receive?
  }

  /** A step that is not enabled leaves the state as it is. */
  function Next(s: State, st: Step): State {
    match st
    case StartReplica(r) =>
      // the atomic flag of a new process is false until its watcher's first read
      if r in s.paused then s else s.(files := s.files[r := s.flag], paused := s.paused[r := false])
    case SetFlag(value) => s.(flag := value)
    case Project(r) => if r in s.paused then s.(files := s.files[r := s.flag]) else s
    case ReadFlag(r, fails) =>
      if r in s.paused && r in s.files then s.(paused := s.paused[r := Paused(if fails then None else s.files[r])]) else s
    case Receive(o, r, valid) =>
      if o in s.orders || r !in s.paused then s
      else s.(orders := s.orders[o := Order(r, if valid then Charging else Replied(BAD_REQUEST), NotArrived, NotAsked, Unsent)])
    case _ => if st.o in s.orders then OnOrder(s, st.o, st) else s
  }

  function Exec(s: State, steps: seq<Step>): State {
    if steps == [] then s else Next(Exec(s, steps[..|steps| - 1]), steps[|steps| - 1])
  }

  const Initial := State(map[], map[], {}, None, map[], map[])

  // ----- what every step keeps -----

  predicate OrderOk(x: Order, reservations: Reservations) {
    && (x.charge.NotArrived? <==> x.stock.NotAsked?)
    && (x.charge.Authorized? ==> x.stock.Reserved?)
    && (x.stock.Reserved? ==> x.stock.id in reservations && reservations[x.stock.id] == DEFAULT_ITEMS)
    && (x.pc.AtCheck? || x.pc.PastCheck? || x.pc.Publishing? || x.pc == Replied(OK) ==> x.charge.Authorized?)
    && (x.pc == Replied(PAYMENT_REQUIRED) ==> x.charge.Declined?)
    && (!x.message.Unsent? ==> x.pc.Publishing? || x.pc == Replied(OK))
    && (x.pc == Replied(BAD_REQUEST) ==> x.charge.NotArrived?)
  }

  type Orders = map<int, Order>
  type Reservations = map<int, seq<LineItem>>

  predicate OrdersOk(orders: Orders, reservations: Reservations) {
    forall o | o in orders :: OrderOk(orders[o], reservations)
  }

  /** No two orders hold the same reservation. */
  predicate OwnStock(orders: Orders) {
    forall o, p | o in orders && p in orders && o != p && orders[o].stock.Reserved? && orders[p].stock.Reserved? ::
      orders[o].stock.id != orders[p].stock.id
  }

  predicate Inv(s: State) {
    && OrdersOk(s.orders, s.reservations)
    && OwnStock(s.orders)
    && (forall o | o in s.backlog :: o in s.orders && s.orders[o].message.Stored?)
    && |s.reservations| == |Reservers(s.orders)|
  }

  function Reservers(orders: Orders): set<int> {
    set o | o in orders && orders[o].stock.Reserved?
  }

  function AuthorizedOrders(s: State): set<int> {
    set o | o in s.orders && s.orders[o].charge.Authorized?
  }

  function PublishedOrders(s: State): set<int> {
    set o | o in s.orders && s.orders[o].message.Stored?
  }

  /** Stock was taken and payments-svc did not authorize (or has not yet). */
  function Orphans(s: State): set<int> {
    set o | o in s.orders && s.orders[o].stock.Reserved? && !s.orders[o].charge.Authorized?
  }

  lemma MoveKeeps(x: Order, st: Step, reservations: Reservations, paused: map<int, bool>)
    requires OrderOk(x, reservations)
    ensures var x' := Move(x, st, reservations, paused);
            && OrderOk(x', if x'.stock != x.stock && x'.stock.Reserved? then reservations[x'.stock.id := DEFAULT_ITEMS]
                           else reservations)
            && (x.stock.Reserved? ==> x'.stock == x.stock)
            && (x'.stock.Reserved? && x'.stock != x.stock ==> x'.stock.id !in reservations)
            && (x.message.Stored? ==> x'.message.Stored?)
  {
  }

  /** One order moves on without taking stock. */
  lemma Moved(s: State, o: int, x': Order, backlog: set<int>)
    requires Inv(s) && o in s.orders && OrderOk(x', s.reservations)
    requires (x'.stock.Reserved? <==> s.orders[o].stock.Reserved?) && (x'.stock.Reserved? ==> x'.stock == s.orders[o].stock)
    requires s.orders[o].message.Stored? ==> x'.message.Stored?
    requires backlog <= s.backlog || (backlog == s.backlog + {o} && x'.message.Stored?)
    ensures Inv(s.(orders := s.orders[o := x'], backlog := backlog))
  {
    assert Reservers(s.orders[o := x']) == Reservers(s.orders);
  }

  /** One order takes stock under a fresh id. */
  lemma StockTaken(orders: Orders, reservations: Reservations, o: int, id: int)
    requires OrdersOk(orders, reservations) && OwnStock(orders) && |reservations| == |Reservers(orders)|
    requires o in orders && orders[o].stock.InFlight? && id !in reservations
    ensures var orders' := orders[o := orders[o].(stock := Reserved(id))];
            var reservations' := reservations[id := DEFAULT_ITEMS];
            OrdersOk(orders', reservations') && OwnStock(orders') && |reservations'| == |Reservers(orders')|
  {
    var orders' := orders[o := orders[o].(stock := Reserved(id))];
    forall p | p in orders
      ensures OrderOk(orders[p], reservations[id := DEFAULT_ITEMS])
      ensures orders[p].stock.Reserved? ==> orders[p].stock.id != id
    {
      StaysOk(orders[p], reservations, id);
    }
    OneMoreReserver(orders, o, id);
    OneMore(reservations, id);
  }

  lemma OneMoreReserver(orders: Orders, o: int, id: int)
    requires o in orders && orders[o].stock.InFlight?
    ensures |Reservers(orders[o := orders[o].(stock := Reserved(id))])| == |Reservers(orders)| + 1
  {
    assert Reservers(orders[o := orders[o].(stock := Reserved(id))]) == Reservers(orders) + {o};
    assert o !in Reservers(orders);
  }

  lemma StaysOk(x: Order, reservations: Reservations, id: int)
    requires OrderOk(x, reservations) && id !in reservations
    ensures OrderOk(x, reservations[id := DEFAULT_ITEMS]) && (x.stock.Reserved? ==> x.stock.id != id)
  {
  }

  lemma OneMore(reservations: Reservations, id: int)
    requires id !in reservations
    ensures |reservations[id := DEFAULT_ITEMS]| == |reservations| + 1
  {
    assert reservations[id := DEFAULT_ITEMS].Keys == reservations.Keys + {id};
  }

  lemma OrderStepKeeps(s: State, o: int, st: Step)
    requires Inv(s) && o in s.orders
    ensures Inv(OnOrder(s, o, st))
  {
    var x, s' := s.orders[o], OnOrder(s, o, st);
    var x' := s'.orders[o];
    assert OrderOk(x, s.reservations);
    MoveKeeps(x, st, s.reservations, s.paused);
    if x'.stock != x.stock && x'.stock.Reserved? {
      assert st.ReserveRuns? && x.stock.InFlight?;
      StockTaken(s.orders, s.reservations, o, st.id);
    } else {
      Moved(s, o, x', s'.backlog);
    }
  }

  lemma StepKeeps(s: State, st: Step)
    requires Inv(s)
    ensures Inv(Next(s, st))
  {
    var s' := Next(s, st);
    if IsFlagStep(st) {
      assert Reservers(s'.orders) == Reservers(s.orders);
    } else if st.o in s.orders {
      OrderStepKeeps(s, st.o, st);
    }
  }

  lemma {:induction false} RunKeeps(steps: seq<Step>)
    ensures Inv(Exec(Initial, steps))
  {
    if steps == [] {
      assert Reservers(Initial.orders) == {};
    } else {
      RunKeeps(steps[..|steps| - 1]);
      StepKeeps(Exec(Initial, steps[..|steps| - 1]), steps[|steps| - 1]);
    }
  }

  // ----- causality and conservation -----

  /** In every interleaving, whatever replies are lost: an event in the stream or in the backlog belongs to an
      authorized order, an authorized order holds its own reservation, and the status a client got tells which. */
  lemma Causality(steps: seq<Step>, o: int)
    requires o in Exec(Initial, steps).orders
    ensures var s := Exec(Initial, steps);
            var x := s.orders[o];
            && (o in s.backlog ==> x.message.Stored?)
            && (x.message.Stored? ==> x.charge.Authorized?)
            && (x.charge.Authorized? ==> x.stock.Reserved?)
            && (x.stock.Reserved? ==> x.stock.id in s.reservations && s.reservations[x.stock.id] == [LineItem("DEFAULT", 1)]
                                      && forall p | p in s.orders && s.orders[p].stock == x.stock :: p == o)
            && (x.pc == Replied(200) ==> x.charge.Authorized?)
            && (x.pc == Replied(402) ==> x.charge.Declined? && x.message.Unsent?)
            && (x.pc == Replied(502) ==> x.message.Unsent?)
            && (x.pc == Replied(400) ==> x.charge.NotArrived? && x.stock.NotAsked? && x.message.Unsent?)
  {
    RunKeeps(steps);
    var s := Exec(Initial, steps);
    assert OrderOk(s.orders[o], s.reservations);
  }

  /** Every reservation is an authorized order's or an orphan, one each; and events never outnumber authorizations. */
  lemma ReservationsConserved(steps: seq<Step>)
    ensures var s := Exec(Initial, steps);
            && |s.reservations| == |AuthorizedOrders(s)| + |Orphans(s)|
            && PublishedOrders(s) <= AuthorizedOrders(s)
  {
    RunKeeps(steps);
    Conserved(Exec(Initial, steps));
  }

  lemma Conserved(s: State)
    requires Inv(s)
    ensures |s.reservations| == |AuthorizedOrders(s)| + |Orphans(s)| && PublishedOrders(s) <= AuthorizedOrders(s)
  {
    assert forall o | o in s.orders :: OrderOk(s.orders[o], s.reservations);
    var held, orphaned := AuthorizedOrders(s), Orphans(s);
    assert Reservers(s.orders) == held + orphaned && held !! orphaned;
    assert |held + orphaned| == |held| + |orphaned|;
  }

  // ----- when stock is left reserved for nobody -----

  /** payments-svc gives up on a reservation it has asked for: an error, or no reply in time. */
  predicate GivesUp(s: State, st: Step, o: int) {
    st == ChargeDecides(o, false) && o in s.orders && s.orders[o].charge.AwaitingStock?
  }

  /** inventory-svc executes the Reserve of an order, be it early or late. */
  predicate TakesStock(s: State, st: Step, o: int) {
    st.ReserveRuns? && st.o == o && o in s.orders && s.orders[o].stock.InFlight? && st.id !in s.reservations
  }

  /** Some step of the run is such a step. */
  predicate GaveUp(steps: seq<Step>, o: int) {
    steps != [] &&
    var before, st := steps[..|steps| - 1], steps[|steps| - 1];
    GivesUp(Exec(Initial, before), st, o) || GaveUp(before, o)
  }

  predicate TookStock(steps: seq<Step>, o: int) {
    steps != [] &&
    var before, st := steps[..|steps| - 1], steps[|steps| - 1];
    TakesStock(Exec(Initial, before), st, o) || TookStock(before, o)
  }

  predicate IsDeclined(s: State, o: int) {
    o in s.orders && s.orders[o].charge.Declined?
  }

  predicate IsReserved(s: State, o: int) {
    o in s.orders && s.orders[o].stock.Reserved?
  }

  lemma MoveDecides(x: Order, st: Step, reservations: Reservations, paused: map<int, bool>)
    requires OrderOk(x, reservations)
    ensures var x' := Move(x, st, reservations, paused);
            && (x'.charge.Declined? <==> x.charge.Declined? || (st.ChargeDecides? && !st.replied && x.charge.AwaitingStock?))
            && (x'.stock.Reserved? <==> x.stock.Reserved? || (st.ReserveRuns? && x.stock.InFlight? && st.id !in reservations))
  {
  }

  /** What a step of one order does to its charge and its stock. */
  lemma OwnStep(s: State, st: Step, o: int)
    requires o in s.orders && OrderOk(s.orders[o], s.reservations) && !IsFlagStep(st) && st.o == o
    ensures IsDeclined(OnOrder(s, o, st), o) <==> GivesUp(s, st, o) || IsDeclined(s, o)
    ensures IsReserved(OnOrder(s, o, st), o) <==> TakesStock(s, st, o) || IsReserved(s, o)
  {
    MoveDecides(s.orders[o], st, s.reservations, s.paused);
  }

  lemma OtherStep(s: State, st: Step, o: int)
    requires IsFlagStep(st) || st.o != o || o !in s.orders
    ensures IsDeclined(Next(s, st), o) <==> IsDeclined(s, o)
    ensures IsReserved(Next(s, st), o) <==> IsReserved(s, o)
    ensures !GivesUp(s, st, o) && !TakesStock(s, st, o)
  {
  }

  lemma StockInOrder(steps: seq<Step>, o: int)
    requires o in Exec(Initial, steps).orders
    ensures OrderOk(Exec(Initial, steps).orders[o], Exec(Initial, steps).reservations)
  {
    RunKeeps(steps);
  }

  /** Every order's charge and stock, read off the run. */
  lemma {:induction false} ReadOff(steps: seq<Step>, o: int)
    ensures IsDeclined(Exec(Initial, steps), o) <==> GaveUp(steps, o)
    ensures IsReserved(Exec(Initial, steps), o) <==> TookStock(steps, o)
  {
    if steps != [] {
      var before, st := steps[..|steps| - 1], steps[|steps| - 1];
      var s := Exec(Initial, before);
      ReadOff(before, o);
      if o in s.orders && !IsFlagStep(st) && st.o == o {
        StockInOrder(before, o);
        OwnStep(s, st, o);
      } else {
        OtherStep(s, st, o);
      }
    }
  }

  /** Over all runs: an order is declined exactly if payments-svc gave up waiting for its reservation. So an order
      whose charge is decided leaves stock reserved for nobody exactly if payments-svc gave up and inventory-svc
      executed the Reserve, before or after. */
  lemma OrphanIff(steps: seq<Step>, o: int)
    requires o in Exec(Initial, steps).orders
    ensures var s := Exec(Initial, steps);
            && (s.orders[o].charge.Declined? <==> GaveUp(steps, o))
            && (o in Orphans(s) && !s.orders[o].charge.AwaitingStock? <==> GaveUp(steps, o) && TookStock(steps, o))
  {
    ReadOff(steps, o);
    StockInOrder(steps, o);
  }

  // ----- where an event is -----

  predicate OnTheWay(s: State, o: int) {
    o in s.orders && s.orders[o].message.OnItsWay?
  }

  /** The stream has stored the event at some step of the run. */
  predicate WasStored(steps: seq<Step>, o: int) {
    steps != [] &&
    var before, st := steps[..|steps| - 1], steps[|steps| - 1];
    (st == StreamStores(o) && OnTheWay(Exec(Initial, before), o)) || WasStored(before, o)
  }

  /** Or it has been lost before that. */
  predicate WasDropped(steps: seq<Step>, o: int) {
    steps != [] &&
    var before, st := steps[..|steps| - 1], steps[|steps| - 1];
    (st == StreamDrops(o) && OnTheWay(Exec(Initial, before), o)) || WasDropped(before, o)
  }

  /** It is stored, and no delivery since has been settled. */
  predicate Outstanding(steps: seq<Step>, o: int) {
    steps != [] &&
    var before, st := steps[..|steps| - 1], steps[|steps| - 1];
    (st == StreamStores(o) && OnTheWay(Exec(Initial, before), o)) || (Outstanding(before, o) && st != Work(o, true))
  }

  predicate IsStored(s: State, o: int) {
    o in s.orders && s.orders[o].message.Stored?
  }

  predicate IsDropped(s: State, o: int) {
    o in s.orders && s.orders[o].message.Dropped?
  }

  lemma OwnMessage(s: State, st: Step, o: int)
    requires o in s.orders && OrderOk(s.orders[o], s.reservations) && !IsFlagStep(st) && st.o == o
    ensures var s' := OnOrder(s, o, st);
            && (IsStored(s', o) <==> (st == StreamStores(o) && OnTheWay(s, o)) || IsStored(s, o))
            && (IsDropped(s', o) <==> (st == StreamDrops(o) && OnTheWay(s, o)) || IsDropped(s, o))
            && (o in s'.backlog <==> (st == StreamStores(o) && OnTheWay(s, o)) || (o in s.backlog && st != Work(o, true)))
  {
  }

  lemma OtherMessage(s: State, st: Step, o: int)
    requires IsFlagStep(st) || st.o != o || o !in s.orders
    ensures var s' := Next(s, st);
            && (IsStored(s', o) <==> IsStored(s, o)) && (IsDropped(s', o) <==> IsDropped(s, o))
            && (o in s'.backlog <==> o in s.backlog)
            && !(st == StreamStores(o) && OnTheWay(s, o)) && !(st == StreamDrops(o) && OnTheWay(s, o))
  {
  }

  lemma BacklogKnown(steps: seq<Step>, o: int)
    requires o in Exec(Initial, steps).backlog
    ensures o in Exec(Initial, steps).orders
  {
    RunKeeps(steps);
  }

  /** Over all runs: an event is in the stream exactly if the stream stored it, lost exactly if it was dropped on the
      way, and in the consumer's backlog exactly if it was stored and no delivery of it has been settled since. */
  lemma {:induction false} BacklogIff(steps: seq<Step>, o: int)
    ensures var s := Exec(Initial, steps);
            && (IsStored(s, o) <==> WasStored(steps, o))
            && (IsDropped(s, o) <==> WasDropped(steps, o))
            && (o in s.backlog <==> Outstanding(steps, o))
  {
    if steps != [] {
      var before, st := steps[..|steps| - 1], steps[|steps| - 1];
      var s := Exec(Initial, before);
      BacklogIff(before, o);
      if o in s.orders && !IsFlagStep(st) && st.o == o {
        StockInOrder(before, o);
        OwnMessage(s, st, o);
      } else {
        if o in s.backlog {
          BacklogKnown(before, o);
        }
        OtherMessage(s, st, o);
      }
    }
  }

  lemma ExecOne(s: State, steps: seq<Step>, st: Step)
    ensures Exec(s, steps + [st]) == Next(Exec(s, steps), st)
  {
    assert (steps + [st])[..|steps|] == steps;
  }

  /** Such a run: when the reply to Reserve is lost the client is told the order was declined, and the
      stock stays reserved for nobody. */
  lemma OrphanReservation(r: int, o: int, id: int)
    ensures exists steps ::
              var s := Exec(Initial, steps);
              && o in s.orders && s.orders[o].pc == Replied(PAYMENT_REQUIRED) && s.orders[o].charge.Declined?
              && s.orders[o].stock == Reserved(id) && id in s.reservations
  {
    var s4 := ReachesStock(Initial, r, o, id);
    var s5, s6 := s4 + [ChargeDecides(o, false)], s4 + [ChargeDecides(o, false)] + [ChargeReturns(o, true)];
    Follow(Initial, s4, o, ChargeDecides(o, false));
    Follow(Initial, s5, o, ChargeReturns(o, true));
    assert Exec(Initial, s6).orders[o] == Order(r, Replied(PAYMENT_REQUIRED), Declined, Reserved(id), Unsent);
  }

  /** One more step of one order. */
  lemma Follow(s: State, steps: seq<Step>, o: int, st: Step)
    requires o in Exec(s, steps).orders && !IsFlagStep(st) && st.o == o
    ensures var r, r' := Exec(s, steps), Exec(s, steps + [st]);
            && o in r'.orders && r'.orders[o] == Move(r.orders[o], st, r.reservations, r.paused)
            && r'.paused == r.paused && r'.flag == r.flag
            && r'.reservations.Keys == r.reservations.Keys + if r'.orders[o].stock.Reserved? && !r.orders[o].stock.Reserved?
                                                             then {r'.orders[o].stock.id} else {}
  {
    ExecOne(s, steps, st);
  }

  /** A fresh replica takes an order as far as the reservation. */
  lemma ReachesStock(s: State, r: int, o: int, id: int) returns (steps: seq<Step>)
    requires r !in s.paused && o !in s.orders && id !in s.reservations
    ensures var t := Exec(s, steps);
            && t.flag == s.flag && t.paused == s.paused[r := false] && id in t.reservations
            && o in t.orders && t.orders[o] == Order(r, Charging, AwaitingStock, Reserved(id), Unsent)
  {
    var s1 := [StartReplica(r)];
    var s2 := s1 + [Receive(o, r, true)];
    var s3 := s2 + [ChargeArrives(o)];
    assert [] + s1 == s1;
    ExecOne(s, [], StartReplica(r));
    ExecOne(s, s1, Receive(o, r, true));
    assert Exec(s, s2).orders[o] == Order(r, Charging, NotArrived, NotAsked, Unsent);
    Follow(s, s2, o, ChargeArrives(o));
    Follow(s, s3, o, ReserveRuns(o, id));
    steps := s3 + [ReserveRuns(o, id)];
  }

  // ----- the brake -----

  predicate AllPaused(s: State) {
    forall r | r in s.paused :: s.paused[r]
  }

  /** A step that does not release the brake: no replica starts, and a read of the flag succeeds and does not find
      the word true. */
  predicate BrakeHolds(s: State, st: Step) {
    && (st.StartReplica? ==> st.r in s.paused)
    && (st.ReadFlag? && st.r in s.paused && st.r in s.files ==> !st.fails && Paused(s.files[st.r]))
  }

  /** The brake stays on in all replicas exactly over such steps. */
  lemma BrakeStaysIff(s: State, st: Step)
    requires AllPaused(s)
    ensures AllPaused(Next(s, st)) <==> BrakeHolds(s, st)
  {
    var s' := Next(s, st);
    if !BrakeHolds(s, st) {
      assert st.r in s'.paused && !s'.paused[st.r];
    }
  }

  /** Orders whose handler is past the check, or whose event is on its way. */
  function PastTheCheck(s: State): set<int> {
    set o | o in s.orders && MayPublish(s.orders[o])
  }

  /** What the consumer may still have to do. */
  function Load(s: State): nat {
    |s.backlog| + |PastTheCheck(s)|
  }

  predicate Settles(s: State, st: Step) {
    st.Work? && st.settled && st.o in s.backlog
  }

  /** With the brake on in every replica, no step adds to the load or to the events that may still be published,
      and every settled delivery takes one off the load. */
  lemma BrakedStep(s: State, st: Step)
    requires Inv(s) && AllPaused(s)
    ensures PastTheCheck(Next(s, st)) <= PastTheCheck(s)
    ensures PublishedOrders(Next(s, st)) + PastTheCheck(Next(s, st)) <= PublishedOrders(s) + PastTheCheck(s)
    ensures Load(Next(s, st)) + (if Settles(s, st) then 1 else 0) <= Load(s)
    ensures !st.StreamDrops? ==> Load(Next(s, st)) + (if Settles(s, st) then 1 else 0) == Load(s)
  {
    if !IsFlagStep(st) && st.o in s.orders {
      BrakedOrder(s, st.o, st);
    } else {
      assert PastTheCheck(Next(s, st)) == PastTheCheck(s) && PublishedOrders(Next(s, st)) == PublishedOrders(s);
    }
  }

  predicate MayPublish(x: Order) {
    x.pc.PastCheck? || x.message.OnItsWay?
  }

  /** With the flag set nobody gets past the check; who was past it leaves by the stream storing or dropping the event. */
  lemma MoveBraked(x: Order, st: Step, reservations: Reservations, paused: map<int, bool>)
    requires OrderOk(x, reservations) && forall r | r in paused :: paused[r]
    ensures var x' := Move(x, st, reservations, paused);
            && (MayPublish(x') ==> MayPublish(x))
            && (MayPublish(x) && !MayPublish(x') ==> !x.message.Stored? && (st.StreamDrops? || (st.StreamStores? && x'.message.Stored?)))
            && (x'.message.Stored? && !x.message.Stored? ==> MayPublish(x) && !MayPublish(x') && st.StreamStores?)
            && (x.message.Stored? ==> x'.message.Stored?)
  {
  }

  lemma BrakedOrder(s: State, o: int, st: Step)
    requires Inv(s) && AllPaused(s) && o in s.orders && !IsFlagStep(st) && st.o == o
    ensures var s' := OnOrder(s, o, st);
            && PastTheCheck(s') <= PastTheCheck(s)
            && PublishedOrders(s') + PastTheCheck(s') <= PublishedOrders(s) + PastTheCheck(s)
            && Load(s') + (if Settles(s, st) then 1 else 0) <= Load(s)
            && (!st.StreamDrops? ==> Load(s') + (if Settles(s, st) then 1 else 0) == Load(s))
  {
    var s' := OnOrder(s, o, st);
    var x, x' := s.orders[o], s'.orders[o];
    assert OrderOk(x, s.reservations);
    MoveBraked(x, st, s.reservations, s.paused);
    Lighter(s, o, x', s'.backlog);
  }

  /** The load when one order moves. */
  lemma Lighter(s: State, o: int, x': Order, backlog: set<int>)
    requires o in s.orders && (MayPublish(x') ==> MayPublish(s.orders[o]))
    requires x'.message.Stored? ==> s.orders[o].message.Stored? || MayPublish(s.orders[o])
    ensures var s' := s.(orders := s.orders[o := x'], backlog := backlog);
            && PastTheCheck(s') == PastTheCheck(s) - (if MayPublish(x') then {} else {o})
            && PublishedOrders(s') <= PublishedOrders(s) + PastTheCheck(s)
            && |PastTheCheck(s')| == |PastTheCheck(s)| - (if MayPublish(s.orders[o]) && !MayPublish(x') then 1 else 0)
  {
    var s' := s.(orders := s.orders[o := x'], backlog := backlog);
    assert PastTheCheck(s') == PastTheCheck(s) - (if MayPublish(x') then {} else {o});
  }

  /** The brake holds over a whole run. */
  ghost predicate BrakeHoldsThroughout(s: State, steps: seq<Step>) {
    forall i | 0 <= i < |steps| :: BrakeHolds(Exec(s, steps[..i]), steps[i])
  }

  /** Settled deliveries of a run. */
  function Settled(s: State, steps: seq<Step>): nat {
    if steps == [] then 0
    else
      var before := steps[..|steps| - 1];
      Settled(s, before) + if Settles(Exec(s, before), steps[|steps| - 1]) then 1 else 0
  }

  /** Once every replica has read a paused flag, and while no replica starts and reads keep finding the brake:
      what is published later is among the orders already past the check, and every settled delivery brings
      the load down for good, so there are at most as many as the load there was. */
  lemma {:induction false} BrakeDrains(s: State, steps: seq<Step>)
    requires Inv(s) && AllPaused(s) && BrakeHoldsThroughout(s, steps)
    ensures Inv(Exec(s, steps)) && AllPaused(Exec(s, steps))
    ensures PublishedOrders(Exec(s, steps)) <= PublishedOrders(s) + PastTheCheck(s)
    ensures PublishedOrders(Exec(s, steps)) + PastTheCheck(Exec(s, steps)) <= PublishedOrders(s) + PastTheCheck(s)
    ensures Load(Exec(s, steps)) + Settled(s, steps) <= Load(s)
  {
    if steps != [] {
      var n := |steps| - 1;
      var before, st := steps[..n], steps[n];
      forall i | 0 <= i < n
        ensures BrakeHolds(Exec(s, before[..i]), before[i])
      {
        assert before[..i] == steps[..i];
      }
      BrakeDrains(s, before);
      var r := Exec(s, before);
      assert BrakeHolds(Exec(s, steps[..n]), steps[n]);
      StepKeeps(r, st);
      BrakeStaysIff(r, st);
      BrakedStep(r, st);
    }
  }

  /** Why the brake must reach every replica, new ones included: a replica publishes until its first read. */
  lemma NewReplicaLeaks(s: State, r: int, o: int, id: int)
    requires AllPaused(s) && r !in s.paused && o !in s.orders && id !in s.reservations
    ensures exists steps ::
              var s' := Exec(s, steps);
              s'.flag == s.flag && o in PublishedOrders(s') && forall q | q in s.paused :: q in s'.paused && s'.paused[q]
  {
    var s7 := ReachesPublish(s, r, o, id);
    var s8 := s7 + [Publish(o)];
    var s9 := s8 + [StreamStores(o)];
    Follow(s, s7, o, Publish(o));
    Follow(s, s8, o, StreamStores(o));
    assert Exec(s, s9).orders[o].message.Stored?;
  }

  lemma ReachesPublish(s: State, r: int, o: int, id: int) returns (steps: seq<Step>)
    requires r !in s.paused && o !in s.orders && id !in s.reservations
    ensures var t := Exec(s, steps);
            && t.flag == s.flag && t.paused == s.paused[r := false]
            && o in t.orders && t.orders[o] == Order(r, PastCheck, Authorized, Reserved(id), Unsent)
  {
    var s4 := ReachesStock(s, r, o, id);
    var s5 := s4 + [ChargeDecides(o, true)];
    var s6 := s5 + [ChargeReturns(o, true)];
    steps := s6 + [CheckFlag(o)];
    Follow(s, s4, o, ChargeDecides(o, true));
    Follow(s, s5, o, ChargeReturns(o, true));
    Follow(s, s6, o, CheckFlag(o));
  }
}
