/** services/inventory-svc, services/payments-svc and services/email-worker. */
module Backends {
  import opened Options
  import opened OrderFlow

  class Inventory {
    var store: map<string, seq<LineItem>>

    constructor ()
      ensures store == map[]
    {
      store := map[];
    }

    /** Always OK; id is a fresh identifier. */
    method Reserve(items: seq<LineItem>, id: string)
      modifies this
      ensures store == old(store)[id := items]
    {
      store := store[id := items];
    }

    /** Releasing gives back what was reserved, once: the store is as if the reservation had never been. */
    method Release(id: string) returns (released: bool)
      modifies this
      ensures released <==> id in old(store)
      ensures store == old(store) - {id}
    {
      released := id in store;
      store := store - {id};
    }
  }

  /** Releasing a fresh reservation undoes it, once. */
  method ReserveThenRelease(inv: Inventory, items: seq<LineItem>, id: string) returns (released: bool, again: bool)
    requires id !in inv.store
    modifies inv
    ensures inv.store == old(inv.store) && released && !again
  {
    inv.Reserve(items, id);
    released := inv.Release(id);
    again := inv.Release(id);
    assert inv.store.Keys == old(inv.store).Keys;
  }

  datatype ChargeResponse = ChargeResponse(paymentId: string, authorized: bool, declineReason: string)

  /** Authorized exactly when the reply to Reserve arrives; the reservation is made whenever the request does. */
  method Charge(inv: Inventory, reserved: bool, replied: bool, reservationId: string, paymentId: string)
      returns (resp: ChargeResponse)
    modifies inv
    ensures resp.authorized <==> reserved && replied
    ensures resp.declineReason == if resp.authorized then "" else "inventory unavailable"
    ensures resp.paymentId == paymentId
    ensures inv.store == if reserved then old(inv.store)[reservationId := [LineItem("DEFAULT", 1)]] else old(inv.store)
  {
    var err := true;
    if reserved {
      inv.Reserve(DEFAULT_ITEMS, reservationId);
      err := !replied;
    }
    if err {
      return ChargeResponse(paymentId, false, "inventory unavailable");
    }
    return ChargeResponse(paymentId, true, "");
  }

  datatype Incoming = Incoming(orderId: string, customerEmail: string)

  datatype Settlement = Ack | Term

  /** One delivery of a message by the stream; attempts are the settlements sent for it, and the message leaves the
      consumer when one gets through. */
  class Delivery {
    const data: Option<Incoming>
    var gone: bool
    ghost var attempts: seq<Settlement>

    constructor (data: Option<Incoming>)
      ensures this.data == data && !gone && attempts == []
    {
      this.data := data;
      gone := false;
      attempts := [];
    }

    method Settle(how: Settlement, delivered: bool)
      modifies this
      ensures gone == (old(gone) || delivered) && attempts == old(attempts) + [how]
    {
      gone := gone || delivered;
      attempts := attempts + [how];
    }
  }

  /** Every delivery is settled by exactly one call, Term if it does not decode and Ack otherwise, and stays with the
      consumer only if that call is lost. */
  method Handle(msg: Delivery, delivered: bool)
    modifies msg
    ensures msg.attempts == old(msg.attempts) + [if msg.data.None? then Term else Ack]
    ensures msg.gone == (old(msg.gone) || delivered)
  {
    match msg.data {
      case None =>
        msg.Settle(Term, delivered);
        return;
      case Some(evt) =>
        msg.Settle(Ack, delivered);
    }
  }
}
