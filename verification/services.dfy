/** The order service of internal/services/order_service.go: the two-state
    life cycle of an order (absent -> "created" -> "processed") over the store.
    CreateOrder validates the id, refuses an id already present, forces the
    status to "created" and saves; ProcessOrder loads the order, demands the
    status "created", sets "processed" and updates; GetOrder delegates to the
    store. */
module Services {
  import opened Domain
  import opened Repository

  /** CreateOrder on a store. The duplicate guard is the source's own: a found
      order whose id is non-empty. A found entry with an empty id falls through
      to Save, whose duplicate check then reports the same error. */
  function CreateStep(s: Store, order: Order): (r: (Outcome, Store))
    ensures order.id == "" ==> r == (Fail(EmptyId), s)
    ensures order.id != "" && order.id in s ==> r == (Fail(AlreadyExists(order.id)), s)
    ensures r.0 == Pass <==> order.id != "" && order.id !in s
    ensures r.0 == Pass ==> Find(r.1, order.id) == (order.(status := Created), Pass)
    ensures r.0 == Pass ==> r.1.Keys == s.Keys + {order.id}
    ensures forall k :: k != order.id ==> Find(r.1, k) == Find(s, k)
    ensures KeyedById(s) ==> KeyedById(r.1)
  {
    if order.id == "" then (Fail(EmptyId), s)
    else
      var (existing, err) := Find(s, order.id);
      if err == Pass && existing.id != "" then (Fail(AlreadyExists(order.id)), s)
      else SaveStep(s, order.(status := Created))
  }

  /** ProcessOrder on a store. The updated order is keyed by its own id, so the
      entry changed is the one under `id` only in a store keyed by id. */
  function ProcessStep(s: Store, id: string): (r: (Outcome, Store))
    ensures id !in s ==> r == (Fail(FindFailed(id, NotFound)), s)
    ensures id in s && s[id].status != Created ==> r == (Fail(InvalidStatus(s[id].status)), s)
    ensures r.0 != Pass ==> r.1 == s
    ensures r.1.Keys == s.Keys
    ensures KeyedById(s) ==> KeyedById(r.1)
    ensures KeyedById(s) ==>
              (r.0 == Pass <==> id in s && s[id].status == Created)
    ensures KeyedById(s) && r.0 == Pass ==>
              Find(r.1, id) == (s[id].(status := Processed), Pass)
    ensures KeyedById(s) ==> forall k :: k != id ==> Find(r.1, k) == Find(s, k)
  {
    var (ord, err) := Find(s, id);
    if err != Pass then (Fail(FindFailed(id, err.error)), s)
    else if ord.status != Created then (Fail(InvalidStatus(ord.status)), s)
    else UpdateStep(s, ord.(status := Processed))
  }

  /** A second CreateOrder with the same id always fails and changes nothing. */
  lemma CreateTwiceFails(s: Store, order: Order)
    ensures var s1 := CreateStep(s, order).1;
            CreateStep(s1, order).0 != Pass && CreateStep(s1, order).1 == s1
  {
  }

  /** A second ProcessOrder after a successful one fails with the status
      "processed" and changes nothing. */
  lemma ProcessTwiceFails(s: Store, id: string)
    requires KeyedById(s)
    requires ProcessStep(s, id).0 == Pass
    ensures var s1 := ProcessStep(s, id).1;
            ProcessStep(s1, id) == (Fail(InvalidStatus(Processed)), s1)
  {
  }

  /** The whole life cycle of one order: a create followed by a process leaves
      the order, items unchanged, in status "processed", and nothing else in
      the store differs. */
  lemma CreateThenProcess(s: Store, order: Order)
    requires KeyedById(s) && order.id != "" && order.id !in s
    ensures var s1 := CreateStep(s, order).1;
            ProcessStep(s1, order.id) == (Pass, s[order.id := order.(status := Processed)])
  {
    var s1 := CreateStep(s, order).1;
    var done := order.(status := Processed);
    assert s1 == s[order.id := order.(status := Created)];
    assert Find(s1, order.id) == (order.(status := Created), Pass);
    assert order.(status := Created).(status := Processed) == done;
    assert UpdateStep(s1, done) == (Pass, s1[order.id := done]);
    assert s1[order.id := done] == s[order.id := done];
  }

  /** The stores the service can produce: keyed by id, no empty key, and only
      the two statuses the service writes. */
  ghost predicate ServiceStore(s: Store) {
    && KeyedById(s)
    && "" !in s
    && forall k :: k in s ==> s[k].status == Created || s[k].status == Processed
  }

  /** One request to the service. */
  datatype Request = CreateOrder(order: Order) | ProcessOrder(id: string) | GetOrder(id: string)

  function Serve(s: Store, q: Request): Store {
    match q
    case CreateOrder(o) => CreateStep(s, o).1
    case ProcessOrder(id) => ProcessStep(s, id).1
    case GetOrder(_) => s
  }

  function ServeAll(s: Store, qs: seq<Request>): Store
    decreases |qs|
  {
    if qs == [] then s else ServeAll(Serve(s, qs[0]), qs[1..])
  }

  /** Each request moves every entry forward along absent -> created ->
      processed, or leaves it as it was; nothing else is ever written. */
  lemma StatusTransitionsAreForward(s: Store, q: Request, k: string)
    requires ServiceStore(s)
    ensures var s' := Serve(s, q);
            || Find(s', k) == Find(s, k)
            || (k !in s && q.CreateOrder? && s'[k] == q.order.(status := Created))
            || (k in s && s[k].status == Created && s'[k] == s[k].(status := Processed))
  {
  }

  /** Whatever requests arrive, starting from a store the service could have
      built, only "created" and "processed" orders under non-empty ids filed
      by their own id are ever stored, and no order disappears. */
  lemma {:induction false} ServeAllKeepsServiceStore(s: Store, qs: seq<Request>)
    requires ServiceStore(s)
    ensures ServiceStore(ServeAll(s, qs))
    ensures s.Keys <= ServeAll(s, qs).Keys
    decreases |qs|
  {
    if qs != [] {
      var s' := Serve(s, qs[0]);
      forall k | k in s'
        ensures s'[k].status == Created || s'[k].status == Processed
      {
        StatusTransitionsAreForward(s, qs[0], k);
      }
      ServeAllKeepsServiceStore(s', qs[1..]);
    }
  }

  class OrderService {
    const repo: MemoryOrderRepository

    /** The service's invariant is its store's: every entry filed under its own id. */
    ghost predicate Valid()
      reads this, repo
    {
      repo.Valid()
    }

    constructor (repo: MemoryOrderRepository)
      ensures this.repo == repo
    {
      this.repo := repo;
    }

    method CreateOrder(order: Order) returns (err: Outcome)
      requires Valid()
      modifies repo
      ensures Valid()
      ensures (err, repo.data) == CreateStep(old(repo.data), order)
    {
      if order.id == "" {
        return Fail(EmptyId);
      }
      var existing, findErr := repo.FindByID(order.id);
      if findErr == Pass && existing.id != "" {
        return Fail(AlreadyExists(order.id));
      }
      var created := order.(status := Created);
      err := repo.Save(created);
    }

    /** Delegates to the store and changes nothing. */
    method GetOrder(id: string) returns (ord: Order, err: Outcome)
      ensures (ord, err) == Find(repo.data, id)
    {
      ord, err := repo.FindByID(id);
    }

    /** In a valid store: succeeds iff the order under `id` is "created", and
        then only that entry changes, to "processed" (see ProcessStep). */
    method ProcessOrder(id: string) returns (err: Outcome)
      requires Valid()
      modifies repo
      ensures Valid()
      ensures (err, repo.data) == ProcessStep(old(repo.data), id)
      ensures err == Pass <==> id in old(repo.data) && old(repo.data)[id].status == Created
    {
      var ord, findErr := repo.FindByID(id);
      if findErr != Pass {
        return Fail(FindFailed(id, findErr.error));
      }
      if ord.status != Created {
        return Fail(InvalidStatus(ord.status));
      }
      var processed := ord.(status := Processed);
      err := repo.Update(processed);
    }
  }
}
