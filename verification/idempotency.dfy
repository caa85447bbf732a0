/** The raw-id consumer of main.go: a process-wide map of processed ids,
    `alreadyProcessed` (membership), `markProcessed` (set to true) and
    `handleOrderMessage`, which Acks a known id without processing it, and
    otherwise marks the id, processes it (observable only as the "Processing
    order" log line, kept here as `processing`) and Acks, except for
    "order-3", whose failure is simulated by returning without any
    disposition. The id is marked before the outcome is known, so a
    redelivered "order-3" is Acked as a duplicate and never processed again. */
module Idempotency {
  import opened Domain

  /** The id main.go treats as failing. */
  const FailingId := "order-3"

  /** `alreadyProcessed`: Go's map read, where a missing key reads as the zero
      value false. */
  predicate IsProcessed(ids: map<string, bool>, id: string): (b: bool)
    ensures id !in ids ==> !b
    ensures id in ids ==> (b <==> ids[id])
  {
    id in ids && ids[id]
  }

  /** `markProcessed`: the id is processed afterwards and no other id changes. */
  function Mark(ids: map<string, bool>, id: string): (r: map<string, bool>)
    ensures IsProcessed(r, id)
    ensures forall k :: k != id ==> (IsProcessed(r, k) <==> IsProcessed(ids, k))
  {
    ids[id := true]
  }

  /** Marking is idempotent and never unmarks anything. */
  lemma MarkIdempotent(ids: map<string, bool>, id: string)
    ensures Mark(Mark(ids, id), id) == Mark(ids, id)
    ensures forall k :: IsProcessed(ids, k) ==> IsProcessed(Mark(ids, id), k)
  {
  }

  function MarkAll(ids: map<string, bool>, marked: seq<string>): map<string, bool>
    decreases |marked|
  {
    if marked == [] then ids else MarkAll(Mark(ids, marked[0]), marked[1..])
  }

  /** Starting from the empty map, `alreadyProcessed(id)` holds exactly when
      `markProcessed(id)` was called earlier. */
  lemma {:induction false} ProcessedIffMarked(ids: map<string, bool>, marked: seq<string>, id: string)
    ensures IsProcessed(MarkAll(ids, marked), id) <==> IsProcessed(ids, id) || id in marked
    decreases |marked|
  {
    if marked != [] {
      ProcessedIffMarked(Mark(ids, marked[0]), marked[1..], id);
      assert id in marked <==> id == marked[0] || id in marked[1..];
    }
  }

  /** The global state: the processed-id map and the ids processed so far. */
  datatype Tracker = Tracker(processed: map<string, bool>, processing: seq<string>)

  /** `handleOrderMessage` on one delivery of `id`. */
  function HandleStep(t: Tracker, id: string): (r: (Disposition, Tracker))
    ensures r.0 != Nak
    ensures IsProcessed(r.1.processed, id)
    ensures IsProcessed(t.processed, id) ==> r == (Ack, t)
    ensures !IsProcessed(t.processed, id) ==>
              r.1 == Tracker(Mark(t.processed, id), t.processing + [id]) &&
              (r.0 == NoDisposition <==> id == FailingId)
  {
    if IsProcessed(t.processed, id) then (Ack, t)
    else
      var t' := Tracker(Mark(t.processed, id), t.processing + [id]);
      if id == FailingId then (NoDisposition, t') else (Ack, t')
  }

  function HandleAll(t: Tracker, ids: seq<string>): (r: (seq<Disposition>, Tracker))
    ensures |r.0| == |ids|
    decreases |ids|
  {
    if ids == [] then ([], t)
    else
      var step := HandleStep(t, ids[0]);
      var rest := HandleAll(step.1, ids[1..]);
      ([step.0] + rest.0, rest.1)
  }

  /** A first delivery of "order-3" is marked and processed but gets no Ack;
      its redelivery is Acked as a duplicate without being processed. */
  lemma FailingIdAckedOnRedelivery(t: Tracker)
    requires !IsProcessed(t.processed, FailingId)
    ensures HandleAll(t, [FailingId, FailingId]) ==
            ([NoDisposition, Ack], Tracker(Mark(t.processed, FailingId), t.processing + [FailingId]))
  {
    var t' := HandleStep(t, FailingId).1;
    var two, one := [FailingId, FailingId], [FailingId];
    assert two[1..] == one && one[1..] == [];
    assert HandleStep(t', FailingId) == (Ack, t');
    assert HandleAll(t', one).0 == [Ack] && HandleAll(t', one).1 == t';
    assert HandleAll(t, two).0 == [NoDisposition, Ack];
    assert HandleAll(t, two).1 == t';
  }

  function Occurrences(s: seq<string>, x: string): nat
    decreases |s|
  {
    if s == [] then 0 else (if s[0] == x then 1 else 0) + Occurrences(s[1..], x)
  }

  lemma {:induction false} OccurrencesAppend(s: seq<string>, x: string, y: string)
    ensures Occurrences(s + [y], x) == Occurrences(s, x) + (if y == x then 1 else 0)
    decreases |s|
  {
    if s != [] {
      assert (s + [y])[1..] == s[1..] + [y];
      OccurrencesAppend(s[1..], x, y);
    }
  }

  /** Delivering the same id n >= 1 times processes it exactly once in all:
      once if it was new, not at all if it was already processed. */
  lemma {:induction false} RepeatedDeliveryProcessedOnce(t: Tracker, id: string, n: nat)
    requires n >= 1
    ensures var t' := HandleAll(t, Repeat(id, n)).1;
            IsProcessed(t'.processed, id) &&
            Occurrences(t'.processing, id) ==
              Occurrences(t.processing, id) + (if IsProcessed(t.processed, id) then 0 else 1)
    decreases n
  {
    var t1 := HandleStep(t, id).1;
    OccurrencesAppend(t.processing, id, id);
    assert Repeat(id, n)[1..] == Repeat(id, n - 1);
    if n > 1 {
      RepeatedDeliveryProcessedOnce(t1, id, n - 1);
    }
  }

  predicate NoDuplicates(s: seq<string>) {
    forall i, j :: 0 <= i < j < |s| ==> s[i] != s[j]
  }

  /** The processed map and the processing log agree, and nothing was
      processed twice. */
  ghost predicate Consistent(t: Tracker) {
    && NoDuplicates(t.processing)
    && forall k :: IsProcessed(t.processed, k) <==> k in t.processing
  }

  /** Over any run of deliveries from a consistent state, every id is processed
      at most once, and an id is marked exactly when it has been processed. */
  lemma {:induction false} HandleAllProcessesEachIdOnce(t: Tracker, ids: seq<string>)
    requires Consistent(t)
    ensures var t' := HandleAll(t, ids).1;
            Consistent(t') &&
            forall k :: k in t'.processing <==> k in t.processing || k in ids
    decreases |ids|
  {
    if ids != [] {
      var t1 := HandleStep(t, ids[0]).1;
      assert Consistent(t1);
      HandleAllProcessesEachIdOnce(t1, ids[1..]);
      forall k ensures k in ids <==> k == ids[0] || k in ids[1..] {
      }
    }
  }

  /** The process-wide idempotency state of main.go, as an object. */
  class OrderHandler {
    var processedIDs: map<string, bool>
    var processing: seq<string>

    constructor ()
      ensures processedIDs == map[] && processing == []
      ensures Consistent(Tracker(processedIDs, processing))
    {
      processedIDs := map[];
      processing := [];
    }

    /** `alreadyProcessed`: a read-only membership check. */
    method AlreadyProcessed(id: string) returns (b: bool)
      ensures b <==> IsProcessed(processedIDs, id)
    {
      b := id in processedIDs && processedIDs[id];
    }

    method MarkProcessed(id: string)
      modifies this`processedIDs
      ensures processedIDs == Mark(old(processedIDs), id)
    {
      processedIDs := processedIDs[id := true];
    }

    /** `handleOrderMessage` on one delivery carrying the raw id. */
    method HandleOrderMessage(id: string) returns (d: Disposition)
      modifies this
      ensures (d, Tracker(processedIDs, processing)) ==
              HandleStep(old(Tracker(processedIDs, processing)), id)
    {
      var seen := AlreadyProcessed(id);
      if seen {
        return Ack;
      }
      MarkProcessed(id);
      processing := processing + [id];
      if id == FailingId {
        return NoDisposition;
      }
      d := Ack;
    }
  }
}
