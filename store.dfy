/** The checkpoint store (`sync/store.go`): the last processed tick of each epoch, kept in an
    ordered key-value engine under a one-byte prefix followed by the big-endian epoch, with
    the big-endian tick as value. The engine is a map from keys to values here. */
module Store {
  import opened Wrappers
  import opened Bytes

  /** The namespace prefix of the checkpoint keys. */
  const LastProcessedTickPerEpochKey: byte := 0x00

  /** The key under which the checkpoint of `epoch` is stored. */
  function Key(epoch: uint32): (k: seq<byte>)
    ensures |k| == 5 && k[0] == LastProcessedTickPerEpochKey
    ensures BigEndianUint32(k[1..]) == epoch
  {
    BigEndian32RoundTrip(epoch);
    [LastProcessedTickPerEpochKey] + BigEndian32(epoch)
  }

  /** The stored form of a checkpointed tick. */
  function Value(tick: uint32): (v: seq<byte>)
    ensures |v| == 4 && BigEndianUint32(v) == tick
  {
    BigEndian32RoundTrip(tick);
    BigEndian32(tick)
  }

  /** Distinct epochs never share a key. */
  lemma KeyInjective(a: uint32, b: uint32)
    ensures Key(a) == Key(b) ==> a == b
  {
    if Key(a) == Key(b) {
      assert Key(a)[1..] == Key(b)[1..];
    }
  }

  /** Every value the store can hold decodes to exactly one tick, and back. */
  lemma ValueRoundTrip(v: seq<byte>)
    requires |v| == 4
    ensures Value(BigEndianUint32(v)) == v
  {
    BigEndianUint32RoundTrip(v);
  }

  /** The two errors of the store: `ErrNotFound` when nothing was written for the epoch, and
      any error of the engine, which the store wraps and returns. */
  datatype StoreError = ErrNotFound | EngineError

  /** A checkpoint as written: (epoch, tick). */
  datatype Checkpoint = Checkpoint(epoch: uint32, tick: uint32)

  class PebbleStore {
    /** The engine's contents. */
    var db: map<seq<byte>, seq<byte>>

    /** The abstract view: the last processed tick of each checkpointed epoch. */
    ghost var Checkpoints: map<uint32, uint32>

    /** Every successful write, in order. */
    ghost var History: seq<Checkpoint>

    /** The engine's failures: which reads, and which writes, it reports an error for. */
    const getFails: uint32 -> bool
    const setFails: (uint32, uint32) -> bool

    ghost predicate Valid()
      reads this
    {
      (forall e: uint32 :: Key(e) in db <==> e in Checkpoints) &&
      (forall e: uint32 :: e in Checkpoints ==> db[Key(e)] == Value(Checkpoints[e]))
    }

    /** An empty store. Opening the engine on disk is not part of this model. */
    constructor (getFails: uint32 -> bool, setFails: (uint32, uint32) -> bool)
      ensures Valid()
      ensures Checkpoints == map[] && History == []
      ensures this.getFails == getFails && this.setFails == setFails
    {
      db := map[];
      Checkpoints := map[];
      History := [];
      this.getFails := getFails;
      this.setFails := setFails;
    }

    /** Writes `tick` as the checkpoint of `epoch`, overwriting any earlier one. */
    method SetLastProcessedTick(epoch: uint32, tick: uint32) returns (err: Option<StoreError>)
      requires Valid()
      modifies this
      ensures Valid()
      ensures err == (if setFails(epoch, tick) then Some(EngineError) else None)
      ensures err.None? ==> Checkpoints == old(Checkpoints)[epoch := tick]
      ensures err.None? ==> History == old(History) + [Checkpoint(epoch, tick)]
      ensures err.None? ==> db == old(db)[Key(epoch) := Value(tick)]
      ensures err.Some? ==> db == old(db) && Checkpoints == old(Checkpoints) && History == old(History)
    {
      var key := [LastProcessedTickPerEpochKey] + BigEndian32(epoch);
      assert key == Key(epoch);
      var value := BigEndian32(tick);
      assert value == Value(tick);
      if setFails(epoch, tick) {
        return Some(EngineError);
      }
      db := db[key := value];
      Checkpoints := Checkpoints[epoch := tick];
      History := History + [Checkpoint(epoch, tick)];
      forall e: uint32
        ensures Key(e) in db <==> e in Checkpoints
        ensures e in Checkpoints ==> db[Key(e)] == Value(Checkpoints[e])
      {
        KeyInjective(e, epoch);
      }
      return None;
    }

    /** Reads the checkpoint of `epoch`; when nothing was written for it, the result is
        `(0, ErrNotFound)`, which callers can tell from a stored tick 0. */
    method GetLastProcessedTick(epoch: uint32) returns (tick: uint32, err: Option<StoreError>)
      requires Valid()
      ensures getFails(epoch) ==> tick == 0 && err == Some(EngineError)
      ensures !getFails(epoch) && epoch !in Checkpoints ==> tick == 0 && err == Some(ErrNotFound)
      ensures !getFails(epoch) && epoch in Checkpoints ==> tick == Checkpoints[epoch] && err == None
    {
      var key := [LastProcessedTickPerEpochKey] + BigEndian32(epoch);
      assert key == Key(epoch);
      if getFails(epoch) {
        return 0, Some(EngineError);
      }
      if key !in db {
        return 0, Some(ErrNotFound);
      }
      tick := BigEndianUint32(db[key]);
      err := None;
    }
  }

  // ---- the store's tests, stated over its contracts ----

  /** A Set followed by a Get for the same epoch returns the stored tick. */
  method SetAndGet(epoch: uint32, tick: uint32) returns (retrieved: uint32, err: Option<StoreError>)
    ensures err == None && retrieved == tick
  {
    var store := new PebbleStore(_ => false, (_, _) => false);
    var setErr := store.SetLastProcessedTick(epoch, tick);
    retrieved, err := store.GetLastProcessedTick(epoch);
  }

  /** A Get for an epoch nothing was written for reports `ErrNotFound` with tick 0. */
  method GetNotSet(epoch: uint32) returns (retrieved: uint32, err: Option<StoreError>)
    ensures err == Some(ErrNotFound) && retrieved == 0
  {
    var store := new PebbleStore(_ => false, (_, _) => false);
    retrieved, err := store.GetLastProcessedTick(epoch);
  }

  /** A second Set for an epoch overwrites the first. */
  method Overwrite(epoch: uint32, initialTick: uint32, newTick: uint32)
    returns (first: uint32, second: uint32)
    ensures first == initialTick && second == newTick
  {
    var store := new PebbleStore(_ => false, (_, _) => false);
    var err := store.SetLastProcessedTick(epoch, initialTick);
    first, err := store.GetLastProcessedTick(epoch);
    err := store.SetLastProcessedTick(epoch, newTick);
    second, err := store.GetLastProcessedTick(epoch);
  }

  /** Sets for one epoch leave the checkpoint of another epoch as it was. */
  method MultipleEpochs(epoch1: uint32, tick1: uint32, epoch2: uint32, tick2: uint32)
    returns (retrieved1: uint32, retrieved2: uint32)
    requires epoch1 != epoch2
    ensures retrieved1 == tick1 && retrieved2 == tick2
  {
    var store := new PebbleStore(_ => false, (_, _) => false);
    var err := store.SetLastProcessedTick(epoch1, tick1);
    err := store.SetLastProcessedTick(epoch2, tick2);
    retrieved1, err := store.GetLastProcessedTick(epoch1);
    retrieved2, err := store.GetLastProcessedTick(epoch2);
  }
}
