/** Values shared by every layer of the order pipeline: the order record of
    domain/order.go, the errors the repository and the service return, and
    what a message handler did with a delivery. */
module Domain {

  /** An order as it travels in messages and sits in the store. The status is a
      free string: the service compares raw strings, it has no enum. */
  datatype Order = Order(id: string, items: seq<string>, status: string)

  /** The Go zero value `domain.Order{}`: empty id, no items, empty status. */
  const ZeroOrder := Order("", [], "")

  /** The two status values the service writes. */
  const Created := "created"
  const Processed := "processed"

  /** The errors of the repository and the service, one constructor per message. */
  datatype Error =
    | AlreadyExists(id: string)            // "order with ID=<id> already exists" (store and service)
    | NotFound                             // "order not found"
    | NotFoundForUpdate                    // "order not found for update"
    | EmptyId                              // "order ID must not be empty"
    | FindFailed(id: string, cause: Error) // "failed to find order with ID=<id>: <cause>"
    | InvalidStatus(status: string)        // "cannot process order with current status: <status>"

  /** A Go `error` result: nil (Pass) or an error value. */
  datatype Outcome = Pass | Fail(error: Error)

  datatype Option<T> = None | Some(value: T)

  /** What a subscription callback did with one delivery: called `Ack()`,
      called `Nak()`, or returned without calling either. */
  datatype Disposition = Ack | Nak | NoDisposition

  /** `n` copies of `x`: the same message delivered `n` times. */
  function Repeat<T>(x: T, n: nat): (r: seq<T>)
    ensures |r| == n
    ensures forall i :: 0 <= i < n ==> r[i] == x
  {
    if n == 0 then [] else [x] + Repeat(x, n - 1)
  }
}
