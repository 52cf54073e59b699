/** The messages of the event service's protobuf package (`eventspb`) that the core reads:
    a tick's events grouped by transaction. The generated package itself is not part of
    this model; the shapes below are the fields the core code uses. */
module Proto {
  import opened Bytes

  datatype EventHeader = EventHeader(epoch: uint32, tick: uint32, eventId: uint64, eventDigest: uint64)

  datatype Event = Event(header: EventHeader, eventType: uint32, eventSize: uint32, eventData: GoString)

  datatype TransactionEvents = TransactionEvents(txId: GoString, events: seq<Event>)

  datatype TickEvents = TickEvents(tick: uint32, txEvents: seq<TransactionEvents>)

  /** The number of events of all the transactions: the sum of their `len(Events)`. */
  function EventCount(txs: seq<TransactionEvents>): nat
  {
    if txs == [] then 0 else EventCount(txs[..|txs| - 1]) + |txs[|txs| - 1].events|
  }

  lemma {:induction false} EventCountAppend(a: seq<TransactionEvents>, b: seq<TransactionEvents>)
    ensures EventCount(a + b) == EventCount(a) + EventCount(b)
    decreases |b|
  {
    if b == [] {
      assert a + b == a;
    } else {
      var b' := b[..|b| - 1];
      EventCountAppend(a, b');
      assert (a + b)[..|a + b| - 1] == a + b';
    }
  }

  /** Counting from the front gives the same sum. */
  lemma EventCountFront(txs: seq<TransactionEvents>)
    requires txs != []
    ensures EventCount(txs) == |txs[0].events| + EventCount(txs[1..])
  {
    EventCountAppend([txs[0]], txs[1..]);
    assert [txs[0]] + txs[1..] == txs;
    assert [txs[0]][..0] == [];
  }
}
