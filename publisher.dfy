/** The tick publisher (`sync/event_publisher.go`): every event of a tick becomes its own
    record with a content-derived unique id; records are handed to the Kafka client one by
    one and the outcome of each is collected in its completion callback. The client is the
    synchronous fake of the package's tests, whose callback runs before `Produce` returns. */
module Publisher {
  import opened Wrappers
  import opened Bytes
  import Base64
  import Proto
  import opened Kgo

  /** The event as this version serialises it, with its unique id. */
  datatype Event = Event(
    id: string, epoch: uint32, tick: uint32, eventId: uint64, eventDigest: uint64,
    transactionHash: GoString, eventType: uint32, eventSize: uint32, eventData: GoString)

  /** A K12 digest: `common.K12Hash` returns a `[32]byte`. */
  type Digest = d: seq<byte> | |d| == 32 witness seq(32, _ => 0)

  /** The two library calls the model leaves abstract: the K12 hash (`common.K12Hash`) and
      `json.Marshal` of an event. Each may fail. */
  datatype Library = Library(k12Hash: seq<byte> -> Option<Digest>, marshal: Event -> Option<seq<byte>>)

  datatype BuildError = HashFailed | MarshalFailed

  // ---- the unique id ----

  /** The bytes that are hashed: epoch and tick as little-endian 32-bit words, event id and
      event digest as little-endian 64-bit words, then the bytes of the transaction hash. */
  function UniqueIdPreimage(e: Event): (p: seq<byte>)
    ensures |p| == 24 + |e.transactionHash|
  {
    LittleEndian32(e.epoch) + LittleEndian32(e.tick) + LittleEndian64(e.eventId)
      + LittleEndian64(e.eventDigest) + e.transactionHash
  }

  /** Distinct key fields give distinct preimages. */
  lemma UniqueIdPreimageInjective(a: Event, b: Event)
    requires UniqueIdPreimage(a) == UniqueIdPreimage(b)
    ensures a.epoch == b.epoch && a.tick == b.tick && a.eventId == b.eventId
    ensures a.eventDigest == b.eventDigest && a.transactionHash == b.transactionHash
  {
    var p, q := UniqueIdPreimage(a), UniqueIdPreimage(b);
    assert p[..4] == LittleEndian32(a.epoch) && q[..4] == LittleEndian32(b.epoch);
    assert p[4..8] == LittleEndian32(a.tick) && q[4..8] == LittleEndian32(b.tick);
    assert p[8..16] == LittleEndian64(a.eventId) && q[8..16] == LittleEndian64(b.eventId);
    assert p[16..24] == LittleEndian64(a.eventDigest) && q[16..24] == LittleEndian64(b.eventDigest);
    assert p[24..] == a.transactionHash && q[24..] == b.transactionHash;
    LittleEndian32Injective(a.epoch, b.epoch);
    LittleEndian32Injective(a.tick, b.tick);
    LittleEndian64Injective(a.eventId, b.eventId);
    LittleEndian64Injective(a.eventDigest, b.eventDigest);
  }

  /** The base 64 form of the K12 digest of the preimage. Writing fixed-size words into a
      byte buffer cannot fail, so hashing is the only way this fails. */
  function CreateUniqueId(e: Event, k12Hash: seq<byte> -> Option<Digest>): (r: Result<string, BuildError>)
    ensures r.Failure? <==> k12Hash(UniqueIdPreimage(e)).None?
    ensures r.Failure? ==> r.error == HashFailed
  {
    match k12Hash(UniqueIdPreimage(e))
    case None => Failure(HashFailed)
    case Some(digest) => Success(Base64.Encode(digest))
  }

  /** Every unique id is the 44-character encoding of a 32-byte digest: 43 alphabet characters
      and one final `=`. */
  lemma UniqueIdShape(e: Event, k12Hash: seq<byte> -> Option<Digest>)
    requires CreateUniqueId(e, k12Hash).Success?
    ensures var id := CreateUniqueId(e, k12Hash).value;
      |id| == 44 && id[43] == Base64.Pad && forall i :: 0 <= i < 43 ==> Base64.InAlphabet(id[i])
  {
    Base64.DigestEncodingShape(k12Hash(UniqueIdPreimage(e)).value);
  }

  /** The id depends on the five key fields only: events that agree on them get the same id
      whatever their type, size, data or current id. */
  lemma UniqueIdIgnoresPayload(a: Event, b: Event, k12Hash: seq<byte> -> Option<Digest>)
    requires a.epoch == b.epoch && a.tick == b.tick && a.eventId == b.eventId
    requires a.eventDigest == b.eventDigest && a.transactionHash == b.transactionHash
    ensures CreateUniqueId(a, k12Hash) == CreateUniqueId(b, k12Hash)
  {
  }

  // ---- the record of one event ----

  /** The event built from a source event: the tick is the tick being published, not the
      one in the event's header. */
  function EventOf(src: Proto.Event, tick: uint32, transactionHash: GoString): Event
  {
    Event("", src.header.epoch, tick, src.header.eventId, src.header.eventDigest,
          transactionHash, src.eventType, src.eventSize, src.eventData)
  }

  /** The record for one event: the serialised event, with its id, under the partition key
      of the tick and the events topic. */
  function CreateEventRecord(src: Proto.Event, tick: uint32, transactionHash: GoString, lib: Library)
    : (r: Result<Record, BuildError>)
    ensures r.Success? ==> |r.value.key| == 4 && LittleEndianUint32(r.value.key) == tick
    ensures r.Success? ==> r.value.topic == EventsTopic
    ensures r.Failure? <==>
      (var e := EventOf(src, tick, transactionHash);
       var id := CreateUniqueId(e, lib.k12Hash);
       id.Failure? || lib.marshal(e.(id := id.value)).None?)
  {
    var event := EventOf(src, tick, transactionHash);
    match CreateUniqueId(event, lib.k12Hash)
    case Failure(err) => Failure(err)
    case Success(id) =>
      var identified := event.(id := id);
      match lib.marshal(identified)
      case None => Failure(MarshalFailed)
      case Some(payload) =>
        LittleEndian32RoundTrip(tick);
        Success(Record(LittleEndian32(tick), EventsTopic, payload))
  }

  /** The serialised event carries the tick argument, the epoch and ids of the header and the
      hash of the enclosing transaction, and its id is the encoded digest of its key fields. */
  lemma RecordPayload(src: Proto.Event, tick: uint32, transactionHash: GoString, lib: Library)
    requires CreateEventRecord(src, tick, transactionHash, lib).Success?
    ensures exists e: Event ::
      lib.marshal(e) == Some(CreateEventRecord(src, tick, transactionHash, lib).value.value) &&
      e.tick == tick && e.epoch == src.header.epoch && e.transactionHash == transactionHash &&
      e.eventId == src.header.eventId && e.eventDigest == src.header.eventDigest &&
      e.eventType == src.eventType && e.eventSize == src.eventSize && e.eventData == src.eventData &&
      Success(e.id) == CreateUniqueId(e, lib.k12Hash)
  {
    var e0 := EventOf(src, tick, transactionHash);
    var e := e0.(id := CreateUniqueId(e0, lib.k12Hash).value);
    UniqueIdIgnoresPayload(e0, e, lib.k12Hash);
    assert lib.marshal(e) == Some(CreateEventRecord(src, tick, transactionHash, lib).value.value);
  }

  /** The tick in the event's header plays no part in its record. */
  lemma RecordIgnoresHeaderTick(src: Proto.Event, headerTick: uint32, tick: uint32, transactionHash: GoString, lib: Library)
    ensures CreateEventRecord(src.(header := src.header.(tick := headerTick)), tick, transactionHash, lib)
         == CreateEventRecord(src, tick, transactionHash, lib)
  {
    assert EventOf(src.(header := src.header.(tick := headerTick)), tick, transactionHash)
        == EventOf(src, tick, transactionHash);
  }

  /** All records of one tick share one partition key, and records of different ticks do not. */
  lemma PartitionByTick(a: Record, b: Record, tickA: uint32, tickB: uint32,
                        srcA: Proto.Event, srcB: Proto.Event, hashA: GoString, hashB: GoString, lib: Library)
    requires CreateEventRecord(srcA, tickA, hashA, lib) == Success(a)
    requires CreateEventRecord(srcB, tickB, hashB, lib) == Success(b)
    ensures a.key == b.key <==> tickA == tickB
  {
    assert a.key == LittleEndian32(tickA) && b.key == LittleEndian32(tickB);
    LittleEndian32Injective(tickA, tickB);
  }

  // ---- publishing a tick: the specification ----

  datatype PublishError =
    | BuildFailed(eventId: uint64, transactionHash: GoString, cause: BuildError)
    | SendFailed(eventId: uint64, transactionHash: GoString)

  /** The error `ProcessTickEvents` returns: the number of collected errors and the tick. */
  datatype TickError = TickError(count: nat, tick: uint32)

  /** What publishing has done so far: every record handed to the client (its whole log, so
      that a record's position is its call number), the confirmed sends, the errors. */
  datatype Tally = Tally(produced: seq<Record>, sent: nat, errs: seq<PublishError>)

  function SendErrors(errs: seq<PublishError>): nat
  {
    if errs == [] then 0
    else SendErrors(errs[..|errs| - 1]) + (if errs[|errs| - 1].SendFailed? then 1 else 0)
  }

  function BuildErrors(errs: seq<PublishError>): nat
  {
    if errs == [] then 0
    else BuildErrors(errs[..|errs| - 1]) + (if errs[|errs| - 1].BuildFailed? then 1 else 0)
  }

  /** How a record is built for an event of a transaction. */
  type Builder = (Proto.Event, GoString) -> Result<Record, BuildError>

  /** The builder of a tick: `createEventRecord` with the tick and the libraries fixed. */
  function TickBuilder(tick: uint32, lib: Library): Builder
  {
    (e: Proto.Event, transactionHash: GoString) => CreateEventRecord(e, tick, transactionHash, lib)
  }

  /** One produced record and the outcome of its completion callback. */
  function SendOne(t: Tally, record: Record, eventId: uint64, transactionHash: GoString, fails: nat -> bool): Tally
  {
    if fails(|t.produced|) then
      Tally(t.produced + [record], t.sent, t.errs + [SendFailed(eventId, transactionHash)])
    else
      Tally(t.produced + [record], t.sent + 1, t.errs)
  }

  /** The events of one transaction, in order: a record that builds is produced and its
      callback counts the send or records its error; the first record that does not build
      records one error and ends this transaction (the `break` of the inner loop). */
  function PublishEvents(t: Tally, evs: seq<Proto.Event>, transactionHash: GoString,
                         build: Builder, fails: nat -> bool): Tally
    decreases |evs|
  {
    if evs == [] then t
    else
      match build(evs[0], transactionHash)
      case Failure(cause) =>
        t.(errs := t.errs + [BuildFailed(evs[0].header.eventId, transactionHash, cause)])
      case Success(record) =>
        PublishEvents(SendOne(t, record, evs[0].header.eventId, transactionHash, fails),
                      evs[1..], transactionHash, build, fails)
  }

  /** The transactions in order. Nothing between two transactions looks at the errors. */
  function PublishTransactions(t: Tally, txs: seq<Proto.TransactionEvents>, build: Builder, fails: nat -> bool): Tally
    decreases |txs|
  {
    if txs == [] then t
    else PublishTransactions(PublishEvents(t, txs[0].events, txs[0].txId, build, fails), txs[1..], build, fails)
  }

  // ---- publishing a tick: its properties ----

  /** `r` continues `t`: it only adds records and errors, never uncounts a send, and every
      record added is either a confirmed send or a send error. */
  ghost predicate Extends(t: Tally, r: Tally)
  {
    t.produced <= r.produced && t.errs <= r.errs && t.sent <= r.sent &&
    r.sent + |t.produced| <= t.sent + |r.produced| &&
    r.sent + SendErrors(r.errs) + |t.produced| == t.sent + SendErrors(t.errs) + |r.produced|
  }

  lemma ExtendsTransitive(a: Tally, b: Tally, c: Tally)
    requires Extends(a, b) && Extends(b, c)
    ensures Extends(a, c)
  {
  }

  lemma SendOneExtends(t: Tally, record: Record, eventId: uint64, transactionHash: GoString, fails: nat -> bool)
    ensures Extends(t, SendOne(t, record, eventId, transactionHash, fails))
    ensures |SendOne(t, record, eventId, transactionHash, fails).produced| == |t.produced| + 1
  {
    var e := SendFailed(eventId, transactionHash);
    assert (t.errs + [e])[..|t.errs|] == t.errs;
  }

  lemma {:induction false} PublishEventsAccounting(t: Tally, evs: seq<Proto.Event>, transactionHash: GoString,
                                                   build: Builder, fails: nat -> bool)
    ensures Extends(t, PublishEvents(t, evs, transactionHash, build, fails))
    ensures |PublishEvents(t, evs, transactionHash, build, fails).produced| <= |t.produced| + |evs|
    decreases |evs|
  {
    if evs != [] {
      match build(evs[0], transactionHash)
      case Failure(cause) =>
        var e := BuildFailed(evs[0].header.eventId, transactionHash, cause);
        assert (t.errs + [e])[..|t.errs|] == t.errs;
      case Success(record) =>
        var next := SendOne(t, record, evs[0].header.eventId, transactionHash, fails);
        SendOneExtends(t, record, evs[0].header.eventId, transactionHash, fails);
        PublishEventsAccounting(next, evs[1..], transactionHash, build, fails);
    }
  }

  /** With a synchronous client, confirmed sends plus send errors equal the calls to
      `Produce`, and neither the calls nor the confirmed sends exceed the tick's events. */
  lemma {:induction false} PublishAccounting(t: Tally, txs: seq<Proto.TransactionEvents>, build: Builder, fails: nat -> bool)
    ensures Extends(t, PublishTransactions(t, txs, build, fails))
    ensures |PublishTransactions(t, txs, build, fails).produced| <= |t.produced| + Proto.EventCount(txs)
    ensures PublishTransactions(t, txs, build, fails).sent <= t.sent + Proto.EventCount(txs)
    decreases |txs|
  {
    if txs != [] {
      var mid := PublishEvents(t, txs[0].events, txs[0].txId, build, fails);
      var r := PublishTransactions(mid, txs[1..], build, fails);
      PublishEventsAccounting(t, txs[0].events, txs[0].txId, build, fails);
      PublishAccounting(mid, txs[1..], build, fails);
      ExtendsTransitive(t, mid, r);
      Proto.EventCountFront(txs);
    }
  }

  /** Whether every event of the transactions has a record that builds. */
  ghost predicate AllBuild(txs: seq<Proto.TransactionEvents>, build: Builder)
  {
    forall i, j :: 0 <= i < |txs| && 0 <= j < |txs[i].events| ==> build(txs[i].events[j], txs[i].txId).Success?
  }

  lemma {:induction false} PublishEventsAllBuild(t: Tally, evs: seq<Proto.Event>, transactionHash: GoString,
                                                 build: Builder, fails: nat -> bool)
    requires forall j :: 0 <= j < |evs| ==> build(evs[j], transactionHash).Success?
    ensures var r := PublishEvents(t, evs, transactionHash, build, fails);
      |r.produced| == |t.produced| + |evs| &&
      ((forall k :: |t.produced| <= k < |r.produced| ==> !fails(k)) ==> r.sent == t.sent + |evs| && r.errs == t.errs) &&
      ((forall k :: |t.produced| <= k < |r.produced| ==> fails(k)) ==> r.sent == t.sent && |r.errs| == |t.errs| + |evs|)
    decreases |evs|
  {
    if evs != [] {
      var record := build(evs[0], transactionHash).value;
      var next := SendOne(t, record, evs[0].header.eventId, transactionHash, fails);
      PublishEventsAllBuild(next, evs[1..], transactionHash, build, fails);
    }
  }

  /** When every record builds, every event is produced exactly once; when moreover every
      send succeeds, all are counted and there is no error, and when every send fails, none
      is counted and each adds one error. */
  lemma {:induction false} PublishAllBuild(t: Tally, txs: seq<Proto.TransactionEvents>, build: Builder, fails: nat -> bool)
    requires AllBuild(txs, build)
    ensures var r := PublishTransactions(t, txs, build, fails);
      |r.produced| == |t.produced| + Proto.EventCount(txs) &&
      ((forall k :: |t.produced| <= k < |r.produced| ==> !fails(k)) ==>
         r.sent == t.sent + Proto.EventCount(txs) && r.errs == t.errs) &&
      ((forall k :: |t.produced| <= k < |r.produced| ==> fails(k)) ==>
         r.sent == t.sent && |r.errs| == |t.errs| + Proto.EventCount(txs))
    decreases |txs|
  {
    if txs != [] {
      assert forall j :: 0 <= j < |txs[0].events| ==> build(txs[0].events[j], txs[0].txId).Success?;
      PublishEventsAllBuild(t, txs[0].events, txs[0].txId, build, fails);
      var mid := PublishEvents(t, txs[0].events, txs[0].txId, build, fails);
      assert AllBuild(txs[1..], build) by {
        forall i, j | 0 <= i < |txs[1..]| && 0 <= j < |txs[1..][i].events|
          ensures build(txs[1..][i].events[j], txs[1..][i].txId).Success?
        {
          assert txs[1..][i] == txs[i + 1];
        }
      }
      PublishAllBuild(mid, txs[1..], build, fails);
      Proto.EventCountFront(txs);
    }
  }

  /** A build error on event `k` of a transaction ends it: the records of the events before
      `k` are produced in order, and none from `k` on. */
  lemma {:induction false} BuildErrorEndsTransaction(t: Tally, evs: seq<Proto.Event>, k: nat, records: seq<Record>,
                                                     transactionHash: GoString, build: Builder, fails: nat -> bool)
    requires k < |evs| && |records| == k
    requires forall j :: 0 <= j < k ==> build(evs[j], transactionHash) == Success(records[j])
    requires build(evs[k], transactionHash).Failure?
    ensures PublishEvents(t, evs, transactionHash, build, fails).produced == t.produced + records
    decreases k
  {
    if k == 0 {
      assert t.produced + records == t.produced;
    } else {
      var next := SendOne(t, records[0], evs[0].header.eventId, transactionHash, fails);
      assert forall j :: 0 <= j < k - 1 ==> evs[1..][j] == evs[j + 1] && records[1..][j] == records[j + 1];
      BuildErrorEndsTransaction(next, evs[1..], k - 1, records[1..], transactionHash, build, fails);
      assert next.produced + records[1..] == t.produced + records;
    }
  }

  /** A build error on event `k` of a transaction adds exactly one build error, the last one
      recorded, naming that event and its cause. */
  lemma {:induction false} BuildErrorRecorded(t: Tally, evs: seq<Proto.Event>, k: nat, transactionHash: GoString,
                                              build: Builder, fails: nat -> bool)
    requires k < |evs|
    requires forall j :: 0 <= j < k ==> build(evs[j], transactionHash).Success?
    requires build(evs[k], transactionHash).Failure?
    ensures var r := PublishEvents(t, evs, transactionHash, build, fails);
      BuildErrors(r.errs) == BuildErrors(t.errs) + 1 &&
      r.errs[|r.errs| - 1] == BuildFailed(evs[k].header.eventId, transactionHash, build(evs[k], transactionHash).error)
    decreases k
  {
    if k == 0 {
      var e := BuildFailed(evs[0].header.eventId, transactionHash, build(evs[0], transactionHash).error);
      assert (t.errs + [e])[..|t.errs|] == t.errs;
    } else {
      var record := build(evs[0], transactionHash).value;
      var next := SendOne(t, record, evs[0].header.eventId, transactionHash, fails);
      assert BuildErrors(next.errs) == BuildErrors(t.errs) by {
        if fails(|t.produced|) {
          assert next.errs[..|next.errs| - 1] == t.errs;
        }
      }
      assert forall j :: 0 <= j < k - 1 ==> evs[1..][j] == evs[j + 1];
      BuildErrorRecorded(next, evs[1..], k - 1, transactionHash, build, fails);
    }
  }

  /** What later transactions do is independent of the errors collected so far: two runs that
      have produced the same records and counted the same sends continue identically. */
  lemma {:induction false} ErrorsDoNotStopLaterTransactions(t: Tally, u: Tally, txs: seq<Proto.TransactionEvents>,
                                                            build: Builder, fails: nat -> bool)
    requires t.produced == u.produced && t.sent == u.sent
    ensures PublishTransactions(t, txs, build, fails).produced == PublishTransactions(u, txs, build, fails).produced
    ensures PublishTransactions(t, txs, build, fails).sent == PublishTransactions(u, txs, build, fails).sent
    decreases |txs|
  {
    if txs != [] {
      EventsIgnoreErrors(t, u, txs[0].events, txs[0].txId, build, fails);
      ErrorsDoNotStopLaterTransactions(
        PublishEvents(t, txs[0].events, txs[0].txId, build, fails),
        PublishEvents(u, txs[0].events, txs[0].txId, build, fails),
        txs[1..], build, fails);
    }
  }

  lemma {:induction false} EventsIgnoreErrors(t: Tally, u: Tally, evs: seq<Proto.Event>, transactionHash: GoString,
                                              build: Builder, fails: nat -> bool)
    requires t.produced == u.produced && t.sent == u.sent
    ensures PublishEvents(t, evs, transactionHash, build, fails).produced == PublishEvents(u, evs, transactionHash, build, fails).produced
    ensures PublishEvents(t, evs, transactionHash, build, fails).sent == PublishEvents(u, evs, transactionHash, build, fails).sent
    decreases |evs|
  {
    if evs != [] {
      match build(evs[0], transactionHash)
      case Failure(_) =>
      case Success(record) =>
        EventsIgnoreErrors(
          SendOne(t, record, evs[0].header.eventId, transactionHash, fails),
          SendOne(u, record, evs[0].header.eventId, transactionHash, fails),
          evs[1..], transactionHash, build, fails);
    }
  }

  /** Publishing `a` then `b` is publishing `a + b`. */
  lemma {:induction false} PublishTransactionsAppend(t: Tally, a: seq<Proto.TransactionEvents>, b: seq<Proto.TransactionEvents>,
                                                     build: Builder, fails: nat -> bool)
    ensures PublishTransactions(t, a + b, build, fails)
         == PublishTransactions(PublishTransactions(t, a, build, fails), b, build, fails)
    decreases |a|
  {
    if a == [] {
      assert a + b == b;
    } else {
      assert (a + b)[0] == a[0] && (a + b)[1..] == a[1..] + b;
      PublishTransactionsAppend(PublishEvents(t, a[0].events, a[0].txId, build, fails), a[1..], b, build, fails);
    }
  }

  /** Unfolding one transaction of the remaining work. */
  lemma TransactionsStep(t: Tally, txs: seq<Proto.TransactionEvents>, i: nat, build: Builder, fails: nat -> bool)
    requires i < |txs|
    ensures PublishTransactions(t, txs[i..], build, fails)
         == PublishTransactions(PublishEvents(t, txs[i].events, txs[i].txId, build, fails), txs[i + 1..], build, fails)
  {
    assert txs[i..][0] == txs[i] && txs[i..][1..] == txs[i + 1..];
  }

  /** Unfolding one event of the remaining work. */
  lemma EventsStep(t: Tally, evs: seq<Proto.Event>, j: nat, transactionHash: GoString, build: Builder, fails: nat -> bool)
    requires j < |evs|
    ensures var record := build(evs[j], transactionHash);
      PublishEvents(t, evs[j..], transactionHash, build, fails)
      == if record.Failure? then
           t.(errs := t.errs + [BuildFailed(evs[j].header.eventId, transactionHash, record.error)])
         else
           PublishEvents(SendOne(t, record.value, evs[j].header.eventId, transactionHash, fails),
                         evs[j + 1..], transactionHash, build, fails)
  {
    assert evs[j..][0] == evs[j] && evs[j..][1..] == evs[j + 1..];
  }

  // ---- the client and the publisher ----

  /** The synchronous fake Kafka client of the package's tests: each `Produce` logs the record
      and calls the completion callback at once. The test fake fails every call with one fixed
      error or none; `fails` generalises that to a per-call outcome, by call number. */
  class FakeKafkaClient {
    const fails: nat -> bool
    var records: seq<Record>

    constructor (fails: nat -> bool)
      ensures this.fails == fails && records == []
    {
      this.fails := fails;
      records := [];
    }

    /** The error passed to the completion callback; true when the send failed. */
    method Produce(r: Record) returns (failed: bool)
      modifies this
      ensures records == old(records) + [r]
      ensures failed == fails(|old(records)|)
    {
      failed := fails(|records|);
      records := records + [r];
    }
  }

  class EventPublisher {
    const kcl: FakeKafkaClient
    const lib: Library

    constructor (client: FakeKafkaClient, lib: Library)
      ensures kcl == client && this.lib == lib
    {
      kcl := client;
      this.lib := lib;
    }

    /** Publishes one tick. Returns the confirmed sends and, when any build or send failed,
        an error reporting how many. */
    method ProcessTickEvents(tickEvents: Proto.TickEvents) returns (sent: nat, err: Option<TickError>)
      modifies kcl
      ensures var r := PublishTransactions(Tally(old(kcl.records), 0, []), tickEvents.txEvents,
                                           TickBuilder(tickEvents.tick, lib), kcl.fails);
        kcl.records == r.produced && sent == r.sent &&
        err == (if |r.errs| > 0 then Some(TickError(|r.errs|, tickEvents.tick)) else None)
    {
      var sentEvents: nat := 0;
      var tick := tickEvents.tick;
      var errs: seq<PublishError> := [];
      var txs := tickEvents.txEvents;
      ghost var build := TickBuilder(tick, lib);
      ghost var final := PublishTransactions(Tally(kcl.records, 0, []), txs, build, kcl.fails);
      var i := 0;
      while i < |txs|
        invariant 0 <= i <= |txs|
        invariant PublishTransactions(Tally(kcl.records, sentEvents, errs), txs[i..], build, kcl.fails) == final
      {
        var transactionHash := txs[i].txId;
        var evs := txs[i].events;
        TransactionsStep(Tally(kcl.records, sentEvents, errs), txs, i, build, kcl.fails);
        var j := 0;
        while j < |evs|
          invariant 0 <= j <= |evs|
          invariant PublishTransactions(
            PublishEvents(Tally(kcl.records, sentEvents, errs), evs[j..], transactionHash, build, kcl.fails),
            txs[i + 1..], build, kcl.fails) == final
        {
          var e := evs[j];
          var eventId := e.header.eventId;
          ghost var before := Tally(kcl.records, sentEvents, errs);
          EventsStep(before, evs, j, transactionHash, build, kcl.fails);
          var record := CreateEventRecord(e, tick, transactionHash, lib);
          assert record == build(e, transactionHash);
          if record.Failure? {
            errs := errs + [BuildFailed(eventId, transactionHash, record.error)];
            break;
          }
          var sendFailed := kcl.Produce(record.value);
          if sendFailed {
            errs := errs + [SendFailed(eventId, transactionHash)];
          } else {
            sentEvents := sentEvents + 1;
          }
          assert Tally(kcl.records, sentEvents, errs) == SendOne(before, record.value, eventId, transactionHash, kcl.fails);
          j := j + 1;
        }
        assert evs[|evs|..] == [];
        i := i + 1;
      }
      assert txs[|txs|..] == [];
      sent := sentEvents;
      if |errs| > 0 {
        return sent, Some(TickError(|errs|, tick));
      }
      return sent, None;
    }
  }

  // ---- the publisher's tests, stated over its contracts ----

  function EmptyEvent(eventId: uint64): Proto.Event
  {
    Proto.Event(Proto.EventHeader(0, 0, eventId, 0), 0, 0, [])
  }

  /** Every record of a tick builds when neither library call fails. */
  lemma TotalLibraryBuilds(txs: seq<Proto.TransactionEvents>, tick: uint32, lib: Library)
    requires forall b :: lib.k12Hash(b).Some?
    requires forall e :: lib.marshal(e).Some?
    ensures AllBuild(txs, TickBuilder(tick, lib))
  {
  }

  /** Two transactions with two and three events: all five are sent and counted. */
  method AllSent(lib: Library) returns (count: nat, err: Option<TickError>, calls: nat)
    requires forall b :: lib.k12Hash(b).Some?
    requires forall e :: lib.marshal(e).Some?
    ensures count == 5 && err == None && calls == 5
  {
    var client := new FakeKafkaClient(_ => false);
    var pub := new EventPublisher(client, lib);
    var txs := [Proto.TransactionEvents([1], [EmptyEvent(0), EmptyEvent(0)]),
                Proto.TransactionEvents([2], [EmptyEvent(0), EmptyEvent(0), EmptyEvent(0)])];
    var tickEvents := Proto.TickEvents(12345, txs);
    assert Proto.EventCount(txs) == 5 by {
      assert txs[..1][..0] == [] && txs[..1] == [txs[0]];
    }
    TotalLibraryBuilds(txs, 12345, lib);
    PublishAllBuild(Tally([], 0, []), txs, TickBuilder(12345, lib), _ => false);
    count, err := pub.ProcessTickEvents(tickEvents);
    calls := |client.records|;
  }

  /** When every send fails, the code produces all three events, counts none, and reports
      three errors; the package's test expects only two `Produce` calls here. */
  method AllSendsFail(lib: Library) returns (count: nat, err: Option<TickError>, calls: nat)
    requires forall b :: lib.k12Hash(b).Some?
    requires forall e :: lib.marshal(e).Some?
    ensures count == 0 && err == Some(TickError(3, 12345)) && calls == 3
  {
    var client := new FakeKafkaClient(_ => true);
    var pub := new EventPublisher(client, lib);
    var txs := [Proto.TransactionEvents([1], [EmptyEvent(1), EmptyEvent(2)]),
                Proto.TransactionEvents([2], [EmptyEvent(3)])];
    var tickEvents := Proto.TickEvents(12345, txs);
    assert Proto.EventCount(txs) == 3 by {
      assert txs[..1][..0] == [] && txs[..1] == [txs[0]];
    }
    TotalLibraryBuilds(txs, 12345, lib);
    PublishAllBuild(Tally([], 0, []), txs, TickBuilder(12345, lib), _ => true);
    count, err := pub.ProcessTickEvents(tickEvents);
    calls := |client.records|;
  }

  /** A tick without transactions sends nothing and reports no error. */
  method NoEvents(lib: Library) returns (count: nat, err: Option<TickError>, calls: nat)
    ensures count == 0 && err == None && calls == 0
  {
    var client := new FakeKafkaClient(_ => false);
    var pub := new EventPublisher(client, lib);
    count, err := pub.ProcessTickEvents(Proto.TickEvents(12345, []));
    calls := |client.records|;
  }
}
