/** The "orders.created" subscription callback of internal/infra/nats_listener.go:
    decode the payload, call CreateOrder, and Nak on either failure or Ack on
    success. Decoding is an input here: `None` is a payload that did not
    unmarshal, `Some(o)` the order it decoded to. Errors returned by Ack and
    Nak are only logged by the source and are left out. */
module Listener {
  import opened Domain
  import opened Repository
  import opened Services

  /** The callback on one delivery: the disposition it gives and the new store.
      A create that fails for any reason, a duplicate id included, is Nak'ed. */
  function OnCreatedStep(s: Store, payload: Option<Order>): (r: (Disposition, Store))
    ensures r.0 == Ack || r.0 == Nak
    ensures r.0 == Ack <==> payload.Some? && payload.value.id != "" && payload.value.id !in s
    ensures r.0 == Nak ==> r.1 == s
    ensures r.0 == Ack ==>
              Find(r.1, payload.value.id) == (payload.value.(status := Created), Pass) &&
              r.1 == s[payload.value.id := payload.value.(status := Created)]
  {
    match payload
    case None => (Nak, s)
    case Some(ord) =>
      var (err, s') := CreateStep(s, ord);
      if err != Pass then (Nak, s') else (Ack, s')
  }

  /** The dispositions given to a run of deliveries, in order, and the final store. */
  function DeliverAll(s: Store, payloads: seq<Option<Order>>): (r: (seq<Disposition>, Store))
    ensures |r.0| == |payloads|
    decreases |payloads|
  {
    if payloads == [] then ([], s)
    else
      var step := OnCreatedStep(s, payloads[0]);
      var rest := DeliverAll(step.1, payloads[1..]);
      ([step.0] + rest.0, rest.1)
  }

  /** Redelivering a create whose id is already stored is Nak'ed every time and
      never changes the store. */
  lemma {:induction false} DuplicatesAreNakked(s: Store, order: Order, n: nat)
    requires order.id in s
    ensures DeliverAll(s, Repeat(Some(order), n)) == (Repeat(Nak, n), s)
    decreases n
  {
    if n > 0 {
      assert Repeat(Some(order), n)[1..] == Repeat(Some(order), n - 1);
      DuplicatesAreNakked(s, order, n - 1);
    }
  }

  /** Delivering the same valid create n >= 1 times: the first delivery is
      Ack'ed, the other n - 1 are Nak'ed, and the store holds that one order
      with status "created". */
  lemma RedeliveredCreateAckedOnce(s: Store, order: Order, n: nat)
    requires n >= 1 && order.id != "" && order.id !in s
    ensures DeliverAll(s, Repeat(Some(order), n)) ==
            ([Ack] + Repeat(Nak, n - 1), s[order.id := order.(status := Created)])
  {
    var s' := s[order.id := order.(status := Created)];
    assert OnCreatedStep(s, Some(order)) == (Ack, s');
    assert Repeat(Some(order), n)[1..] == Repeat(Some(order), n - 1);
    DuplicatesAreNakked(s', order, n - 1);
  }

  class NATSListener {
    const orderService: OrderService

    constructor (orderService: OrderService)
      ensures this.orderService == orderService
    {
      this.orderService := orderService;
    }

    ghost predicate Valid()
      reads this, orderService, orderService.repo
    {
      orderService.Valid()
    }

    /** The subscription callback: exactly one disposition per delivery. */
    method OnOrderCreated(payload: Option<Order>) returns (d: Disposition)
      requires Valid()
      modifies orderService.repo
      ensures Valid()
      ensures (d, orderService.repo.data) == OnCreatedStep(old(orderService.repo.data), payload)
    {
      if payload.None? {
        return Nak;
      }
      var err := orderService.CreateOrder(payload.value);
      if err != Pass {
        return Nak;
      }
      d := Ack;
    }
  }
}
