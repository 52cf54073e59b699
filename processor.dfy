/** The older batch processor (`sync/event_processor.go`): it flattens all of a tick's events
    into one list, serialises that list into a single record keyed by the tick, produces it
    synchronously and ignores produce errors. It declares its own `Event`, `KafkaClient` and
    `EventPublisher`, alternatives to those of the publisher module. */
module Processor {
  import opened Wrappers
  import opened Bytes
  import Proto
  import opened Kgo

  /** The event as this version serialises it: no id, and the tick of the event's header. */
  datatype Event = Event(
    epoch: uint32, tick: uint32, eventId: uint64, eventDigest: uint64,
    transactionHash: GoString, eventType: uint32, eventSize: uint32, eventData: GoString)

  /** The event built from a source event of the transaction `transactionHash`. */
  function FromSource(e: Proto.Event, transactionHash: GoString): Event
  {
    Event(e.header.epoch, e.header.tick, e.header.eventId, e.header.eventDigest,
          transactionHash, e.eventType, e.eventSize, e.eventData)
  }

  /** The events of one transaction, in order. */
  function TransactionEventsOf(tx: Proto.TransactionEvents): (r: seq<Event>)
    ensures |r| == |tx.events|
    ensures forall j :: 0 <= j < |r| ==> r[j] == FromSource(tx.events[j], tx.txId)
  {
    seq(|tx.events|, j requires 0 <= j < |tx.events| => FromSource(tx.events[j], tx.txId))
  }

  /** All events of the transactions, in transaction order and then event order. */
  function Flatten(txs: seq<Proto.TransactionEvents>): seq<Event>
  {
    if txs == [] then [] else Flatten(txs[..|txs| - 1]) + TransactionEventsOf(txs[|txs| - 1])
  }

  lemma {:induction false} FlattenLength(txs: seq<Proto.TransactionEvents>)
    ensures |Flatten(txs)| == Proto.EventCount(txs)
  {
    if txs != [] {
      FlattenLength(txs[..|txs| - 1]);
    }
  }

  /** Event `j` of transaction `i` sits at position `EventCount(txs[..i]) + j` of the flattened
      list, with the tick of its own header and the hash of its enclosing transaction. */
  lemma {:induction false} FlattenOrder(txs: seq<Proto.TransactionEvents>, i: nat, j: nat)
    requires i < |txs| && j < |txs[i].events|
    ensures Proto.EventCount(txs[..i]) + j < |Flatten(txs)|
    ensures Flatten(txs)[Proto.EventCount(txs[..i]) + j] == FromSource(txs[i].events[j], txs[i].txId)
    ensures Flatten(txs)[Proto.EventCount(txs[..i]) + j].tick == txs[i].events[j].header.tick
    ensures Flatten(txs)[Proto.EventCount(txs[..i]) + j].transactionHash == txs[i].txId
    decreases |txs|
  {
    var init := txs[..|txs| - 1];
    FlattenLength(init);
    FlattenLength(txs);
    if i == |txs| - 1 {
      assert txs[..i] == init;
    } else {
      FlattenOrder(init, i, j);
      assert init[..i] == txs[..i];
      assert init[i] == txs[i];
    }
  }

  /** Whether serialising the tick's events fails; only then does processing fail. */
  predicate MarshalFails(tickEvents: Proto.TickEvents, marshal: seq<Event> -> Option<seq<byte>>)
  {
    var events := Flatten(tickEvents.txEvents);
    |events| > 0 && marshal(events).None?
  }

  /** The records a tick produces: none for a tick without events or when serialising fails,
      otherwise the one record carrying all events, keyed by the tick. */
  function Produced(tickEvents: Proto.TickEvents, marshal: seq<Event> -> Option<seq<byte>>): seq<Record>
  {
    var events := Flatten(tickEvents.txEvents);
    if |events| == 0 then []
    else match marshal(events)
      case None => []
      case Some(payload) => [Record(LittleEndian32(tickEvents.tick), EventsTopic, payload)]
  }

  /** At most one record per tick; exactly one when the tick has events and they serialise,
      carrying all of them in order, under the partition key of the tick and the events topic. */
  lemma ProducedShape(tickEvents: Proto.TickEvents, marshal: seq<Event> -> Option<seq<byte>>)
    ensures |Produced(tickEvents, marshal)| <= 1
    ensures Proto.EventCount(tickEvents.txEvents) == 0 ==> Produced(tickEvents, marshal) == []
    ensures MarshalFails(tickEvents, marshal) ==> Produced(tickEvents, marshal) == []
    ensures Proto.EventCount(tickEvents.txEvents) > 0 && !MarshalFails(tickEvents, marshal) ==>
      |Produced(tickEvents, marshal)| == 1 &&
      Some(Produced(tickEvents, marshal)[0].value) == marshal(Flatten(tickEvents.txEvents)) &&
      LittleEndianUint32(Produced(tickEvents, marshal)[0].key) == tickEvents.tick &&
      Produced(tickEvents, marshal)[0].topic == EventsTopic
  {
    FlattenLength(tickEvents.txEvents);
    LittleEndian32RoundTrip(tickEvents.tick);
  }

  /** The processor's error. */
  datatype ProcessError = MarshalFailed

  /** The synchronous Kafka client of this version: `ProduceSync` returns once the broker
      answered. `records` logs every record handed to it; `fails` says which calls, by their
      position in that log, the broker rejects. */
  class KafkaClient {
    const fails: nat -> bool
    var records: seq<Record>

    constructor (fails: nat -> bool)
      ensures this.fails == fails && records == []
    {
      this.fails := fails;
      records := [];
    }

    /** `ProduceSync(ctx, record).FirstErr()`: true when the broker reports an error. */
    method ProduceSync(r: Record) returns (failed: bool)
      modifies this
      ensures records == old(records) + [r]
      ensures failed == fails(|old(records)|)
    {
      failed := fails(|records|);
      records := records + [r];
    }
  }

  class EventPublisher {
    const kafkaClient: KafkaClient
    /** `json.Marshal` of an event list, which the model leaves abstract. */
    const marshal: seq<Event> -> Option<seq<byte>>

    constructor (client: KafkaClient, marshal: seq<Event> -> Option<seq<byte>>)
      ensures kafkaClient == client && this.marshal == marshal
    {
      kafkaClient := client;
      this.marshal := marshal;
    }

    /** The nested loop over transactions and their events: the flattened events and their
        count, the sum of the transactions' event counts. */
    method CollectEvents(tickEvents: Proto.TickEvents) returns (events: seq<Event>, eventCount: nat)
      ensures events == Flatten(tickEvents.txEvents)
      ensures eventCount == Proto.EventCount(tickEvents.txEvents) == |events|
    {
      var txs := tickEvents.txEvents;
      events, eventCount := [], 0;
      var i := 0;
      while i < |txs|
        invariant 0 <= i <= |txs|
        invariant events == Flatten(txs[..i])
        invariant eventCount == Proto.EventCount(txs[..i])
      {
        var tx := txs[i];
        eventCount := eventCount + |tx.events|;
        var j := 0;
        while j < |tx.events|
          invariant 0 <= j <= |tx.events|
          invariant events == Flatten(txs[..i]) + TransactionEventsOf(tx)[..j]
        {
          events := events + [FromSource(tx.events[j], tx.txId)];
          j := j + 1;
        }
        assert TransactionEventsOf(tx)[..j] == TransactionEventsOf(tx);
        assert txs[..i + 1][..i] == txs[..i];
        i := i + 1;
      }
      assert txs[..i] == txs;
      FlattenLength(txs);
    }

    /** Produces the tick's events as one record, or nothing when the tick has no events.
        A produce error is only reported on the console; the only error returned is a
        failure to serialise. */
    method ProcessTickEvents(tickEvents: Proto.TickEvents) returns (err: Option<ProcessError>)
      modifies kafkaClient
      ensures kafkaClient.records == old(kafkaClient.records) + Produced(tickEvents, marshal)
      ensures err == (if MarshalFails(tickEvents, marshal) then Some(MarshalFailed) else None)
    {
      var events, eventCount := CollectEvents(tickEvents);
      if |events| > 0 {
        var payload := marshal(events);
        if payload.None? {
          return Some(MarshalFailed);
        }
        var key := LittleEndian32(tickEvents.tick);
        var record := Record(key, EventsTopic, payload.value);
        var produceFailed := kafkaClient.ProduceSync(record);
      }
      return None;
    }
  }
}
