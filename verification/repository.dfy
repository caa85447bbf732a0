/** The in-memory order store of internal/repository/memory_order_repository.go:
    a map from order id to order with Save (insert, rejecting duplicates),
    FindByID (lookup) and Update (replace, rejecting absent ids). The pure
    functions below give the meaning of each call on a map; the class
    `MemoryOrderRepository` is the store itself, whose methods change its `data`
    field exactly as those functions say. The read/write mutex is left out:
    every call is one atomic step. */
module Repository {
  import opened Domain

  type Store = map<string, Order>

  /** Every entry is filed under its own id. Save and Update key by the order's
      id, so a store built only through them always has this shape. */
  ghost predicate KeyedById(s: Store) {
    forall k :: k in s ==> s[k].id == k
  }

  /** FindByID: the stored order, or the zero order and "order not found". */
  function Find(s: Store, id: string): (r: (Order, Outcome))
    ensures r.1 == Pass <==> id in s
    ensures id in s ==> r.0 == s[id]
    ensures id !in s ==> r.0 == ZeroOrder && r.1 == Fail(NotFound)
  {
    if id in s then (s[id], Pass) else (ZeroOrder, Fail(NotFound))
  }

  /** Save: insert under the order's id unless that id is already a key. No
      validation of the id itself: the empty id is a key like any other. */
  function SaveStep(s: Store, order: Order): (r: (Outcome, Store))
    ensures r.0 == Pass <==> order.id !in s
    ensures r.0 != Pass ==> r.0 == Fail(AlreadyExists(order.id)) && r.1 == s
    ensures r.0 == Pass ==> Find(r.1, order.id) == (order, Pass) && r.1.Keys == s.Keys + {order.id}
    ensures forall k :: k != order.id ==> Find(r.1, k) == Find(s, k)
    ensures KeyedById(s) ==> KeyedById(r.1)
  {
    if order.id in s then (Fail(AlreadyExists(order.id)), s)
    else (Pass, s[order.id := order])
  }

  /** Update: replace the entry under the order's id, which must be a key. */
  function UpdateStep(s: Store, order: Order): (r: (Outcome, Store))
    ensures r.0 == Pass <==> order.id in s
    ensures r.0 != Pass ==> r.0 == Fail(NotFoundForUpdate) && r.1 == s
    ensures r.0 == Pass ==> Find(r.1, order.id) == (order, Pass)
    ensures r.1.Keys == s.Keys
    ensures forall k :: k != order.id ==> Find(r.1, k) == Find(s, k)
    ensures KeyedById(s) ==> KeyedById(r.1)
  {
    if order.id !in s then (Fail(NotFoundForUpdate), s)
    else (Pass, s[order.id := order])
  }

  /** One call on the store, for reasoning about any sequence of calls. */
  datatype Call = SaveCall(order: Order) | FindCall(id: string) | UpdateCall(order: Order)

  function Apply(s: Store, c: Call): Store {
    match c
    case SaveCall(o) => SaveStep(s, o).1
    case FindCall(_) => s
    case UpdateCall(o) => UpdateStep(s, o).1
  }

  function Run(s: Store, calls: seq<Call>): Store
    decreases |calls|
  {
    if calls == [] then s else Run(Apply(s, calls[0]), calls[1..])
  }

  /** No call ever removes a key, and every entry stays filed under its own id,
      whatever the sequence of Save, FindByID and Update calls. */
  lemma {:induction false} RunNeverRemovesKeys(s: Store, calls: seq<Call>)
    ensures s.Keys <= Run(s, calls).Keys
    ensures KeyedById(s) ==> KeyedById(Run(s, calls))
    decreases |calls|
  {
    if calls != [] {
      RunNeverRemovesKeys(Apply(s, calls[0]), calls[1..]);
    }
  }

  /** After a successful Save, FindByID of that id returns exactly the saved
      order, and it keeps doing so through any later sequence of calls that
      contains no Update. */
  lemma {:induction false} SavedOrderStaysFindable(s: Store, order: Order, calls: seq<Call>)
    requires order.id !in s
    requires forall i :: 0 <= i < |calls| ==> !calls[i].UpdateCall?
    ensures Find(Run(SaveStep(s, order).1, calls), order.id) == (order, Pass)
    decreases |calls|
  {
    if calls != [] {
      var s' := SaveStep(s, order).1;
      var next := Apply(s', calls[0]);
      assert Find(next, order.id) == (order, Pass);
      assert next == SaveStep(next - {order.id}, order).1;
      SavedOrderStaysFindable(next - {order.id}, order, calls[1..]);
    }
  }

  class MemoryOrderRepository {
    var data: Store

    /** The store's invariant: every entry is filed under its own id. */
    ghost predicate Valid()
      reads this
    {
      KeyedById(data)
    }

    constructor ()
      ensures Valid() && data == map[]
    {
      data := map[];
    }

    method Save(order: Order) returns (err: Outcome)
      requires Valid()
      modifies this
      ensures Valid()
      ensures (err, data) == SaveStep(old(data), order)
    {
      if order.id in data {
        return Fail(AlreadyExists(order.id));
      }
      data := data[order.id := order];
      err := Pass;
    }

    /** A read-only lookup: the store is unchanged (no modifies clause). */
    method FindByID(id: string) returns (ord: Order, err: Outcome)
      ensures err == Pass <==> id in data
      ensures err == Pass ==> ord == data[id]
      ensures err != Pass ==> ord == ZeroOrder && err == Fail(NotFound)
    {
      if id !in data {
        return ZeroOrder, Fail(NotFound);
      }
      ord, err := data[id], Pass;
    }

    method Update(order: Order) returns (err: Outcome)
      requires Valid()
      modifies this
      ensures Valid()
      ensures (err, data) == UpdateStep(old(data), order)
    {
      if order.id !in data {
        return Fail(NotFoundForUpdate);
      }
      data := data[order.id := order];
      err := Pass;
    }
  }
}
