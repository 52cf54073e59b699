/** The reader (`sync/event_reader.go`): each sync cycle asks the event service for its status,
    finds the first tick range of some epoch that the checkpoint store has not yet recorded,
    hands every tick of that range to the event processor and checkpoints it, and passes the
    epoch it worked on to the next cycle. The processor is the error-only batch processor of
    `sync/event_processor.go`, the store the checkpoint store of `sync/store.go`. */
module Reader {
  import opened Wrappers
  import opened Bytes
  import opened Client
  import Proto
  import Kgo
  import Store
  import Processor

  /** The event service as the reader sees it: its status and the events of each tick, where
      `None` stands for a failed call. */
  datatype Source = Source(status: Option<EventStatus>, tickEvents: uint32 -> Option<Proto.TickEvents>)

  /** Everything outside the reader's own control flow that a sync cycle depends on: the
      service, the store's engine failures, and the processor's serialiser. */
  datatype Env = Env(
    source: Source,
    getFails: uint32 -> bool,
    setFails: (uint32, uint32) -> bool,
    marshal: seq<Processor.Event> -> Option<seq<byte>>)

  /** The errors a cycle can end with, each naming where it arose. */
  datatype ReaderError =
    | StatusFailed
    | CheckpointReadFailed(epoch: uint32)
    | EventsFailed(tick: uint32)
    | ProcessingFailed(tick: uint32)
    | CheckpointWriteFailed(tick: uint32)

  /** The four results of `calculateTickRange`. */
  datatype TickRange = TickRange(start: uint32, end: uint32, epoch: uint32, err: Option<ReaderError>)

  /** The result that means there is nothing to sync. */
  const Sentinel := TickRange(0, 0, 0, None)

  function Max(a: uint32, b: uint32): uint32
  {
    if a >= b then a else b
  }

  function Min(a: uint32, b: uint32): uint32
  {
    if a <= b then a else b
  }

  // ---- finding the range: the specification ----

  /** The checkpoint of an epoch as the reader uses it: the store's `ErrNotFound` comes with
      tick 0, which the reader then takes as the last processed tick. */
  function LastProcessed(checkpoints: map<uint32, uint32>, epoch: uint32): uint32
  {
    if epoch in checkpoints then checkpoints[epoch] else 0
  }

  /** The index, from `k` on, of the first interval that ends after `last`. */
  function FirstPendingFrom(ivs: seq<ProcessedTickInterval>, last: uint32, k: nat): (r: Option<nat>)
    requires k <= |ivs|
    ensures r.Some? ==> k <= r.value < |ivs| && ivs[r.value].to > last
    ensures r.Some? ==> forall j :: k <= j < r.value ==> ivs[j].to <= last
    ensures r.None? <==> forall j :: k <= j < |ivs| ==> ivs[j].to <= last
    decreases |ivs| - k
  {
    if k == |ivs| then None
    else if ivs[k].to > last then Some(k)
    else FirstPendingFrom(ivs, last, k + 1)
  }

  /** The index of the first interval, in the service's order, that ends after `last`. */
  function FirstPending(ivs: seq<ProcessedTickInterval>, last: uint32): Option<nat>
  {
    FirstPendingFrom(ivs, last, 0)
  }

  /** Whether the scan passes over `epoch`: the service reports no intervals for it, or the
      store reads fine and every interval ends at or before the epoch's checkpoint. */
  predicate Skipped(st: EventStatus, checkpoints: map<uint32, uint32>, getFails: uint32 -> bool, epoch: uint32)
  {
    epoch !in st.intervals ||
    (!getFails(epoch) && FirstPending(st.intervals[epoch], LastProcessed(checkpoints, epoch)).None?)
  }

  /** The scan from `epoch` up to the status epoch. The status epoch must be below 2^32-1:
      at that value the source's increment wraps and the scan may never end. */
  function Scan(st: EventStatus, checkpoints: map<uint32, uint32>, getFails: uint32 -> bool, epoch: nat): TickRange
    requires st.epoch < MAX_UINT32 && epoch <= st.epoch + 1
    decreases st.epoch + 1 - epoch
  {
    if epoch > st.epoch then Sentinel
    else if epoch !in st.intervals then Scan(st, checkpoints, getFails, epoch + 1)
    else if getFails(epoch) then TickRange(0, 0, epoch, Some(CheckpointReadFailed(epoch)))
    else
      var ivs := st.intervals[epoch];
      var last := LastProcessed(checkpoints, epoch);
      match FirstPending(ivs, last)
      case None => Scan(st, checkpoints, getFails, epoch + 1)
      case Some(k) => TickRange(Max(ivs[k].from, last + 1), ivs[k].to, epoch, None)
  }

  /** The precondition of the scan, on the service's answer. */
  predicate ScanBounded(source: Source)
  {
    source.status.Some? ==> source.status.value.epoch < MAX_UINT32
  }

  /** `calculateTickRange`: a failed status call reports the start epoch; otherwise the scan
      starts at the smaller of the start epoch and the status epoch. */
  function TickRangeOf(source: Source, checkpoints: map<uint32, uint32>, getFails: uint32 -> bool, startEpoch: uint32): TickRange
    requires ScanBounded(source)
  {
    match source.status
    case None => TickRange(0, 0, startEpoch, Some(StatusFailed))
    case Some(st) => Scan(st, checkpoints, getFails, Min(startEpoch, st.epoch))
  }

  // ---- finding the range: its properties ----

  /** The sentinel comes back exactly when every epoch from the scan's start up to the status
      epoch is skipped. */
  lemma {:induction false} ScanSentinel(st: EventStatus, checkpoints: map<uint32, uint32>, getFails: uint32 -> bool, epoch: nat)
    requires st.epoch < MAX_UINT32 && epoch <= st.epoch + 1
    ensures Scan(st, checkpoints, getFails, epoch) == Sentinel <==>
      forall e: uint32 :: epoch <= e <= st.epoch ==> Skipped(st, checkpoints, getFails, e)
    decreases st.epoch + 1 - epoch
  {
    if epoch <= st.epoch {
      ScanSentinel(st, checkpoints, getFails, epoch + 1);
      if epoch in st.intervals && !getFails(epoch) {
        var ivs := st.intervals[epoch];
        var last := LastProcessed(checkpoints, epoch);
        match FirstPending(ivs, last)
        case None =>
        case Some(k) =>
          assert Scan(st, checkpoints, getFails, epoch).end == ivs[k].to > last;
          assert !Skipped(st, checkpoints, getFails, epoch as uint32);
      } else if epoch in st.intervals {
        assert !Skipped(st, checkpoints, getFails, epoch as uint32);
      }
    }
  }

  /** Any other result names an epoch between the scan's start and the status epoch that has
      intervals, and every epoch before it was skipped. */
  lemma {:induction false} ScanStops(st: EventStatus, checkpoints: map<uint32, uint32>, getFails: uint32 -> bool, epoch: nat)
    requires st.epoch < MAX_UINT32 && epoch <= st.epoch + 1
    ensures var r := Scan(st, checkpoints, getFails, epoch);
      r != Sentinel ==>
        epoch <= r.epoch <= st.epoch && r.epoch in st.intervals &&
        (forall e: uint32 :: epoch <= e < r.epoch ==> Skipped(st, checkpoints, getFails, e)) &&
        (r.err.Some? ==> r == TickRange(0, 0, r.epoch, Some(CheckpointReadFailed(r.epoch))) && getFails(r.epoch)) &&
        (r.err.None? ==> !getFails(r.epoch))
    decreases st.epoch + 1 - epoch
  {
    if epoch <= st.epoch {
      ScanStops(st, checkpoints, getFails, epoch + 1);
    }
  }

  /** A found range comes from the first interval, in list order, that ends after the epoch's
      checkpoint: it starts after the checkpoint at the later of the interval's start and the
      tick after the checkpoint, ends where the interval ends, and is non-empty when the
      interval is. */
  lemma ScanFound(st: EventStatus, checkpoints: map<uint32, uint32>, getFails: uint32 -> bool, epoch: nat)
    requires st.epoch < MAX_UINT32 && epoch <= st.epoch + 1
    requires Scan(st, checkpoints, getFails, epoch) != Sentinel
    requires Scan(st, checkpoints, getFails, epoch).err.None?
    ensures var r := Scan(st, checkpoints, getFails, epoch);
      r.epoch in st.intervals &&
      var ivs := st.intervals[r.epoch];
      var last := LastProcessed(checkpoints, r.epoch);
      FirstPending(ivs, last).Some? &&
      var iv := ivs[FirstPending(ivs, last).value];
      r.start == Max(iv.from, last + 1) && r.end == iv.to &&
      last < r.start && 0 < r.start && 0 < r.end &&
      (iv.from <= iv.to ==> r.start <= r.end)
  {
    ScanStops(st, checkpoints, getFails, epoch);
    ScanFoundAt(st, checkpoints, getFails, epoch);
  }

  lemma {:induction false} ScanFoundAt(st: EventStatus, checkpoints: map<uint32, uint32>, getFails: uint32 -> bool, epoch: nat)
    requires st.epoch < MAX_UINT32 && epoch <= st.epoch + 1
    requires Scan(st, checkpoints, getFails, epoch) != Sentinel
    requires Scan(st, checkpoints, getFails, epoch).err.None?
    ensures var r := Scan(st, checkpoints, getFails, epoch);
      r.epoch in st.intervals &&
      FirstPending(st.intervals[r.epoch], LastProcessed(checkpoints, r.epoch)).Some? &&
      r.start == Max(st.intervals[r.epoch][FirstPending(st.intervals[r.epoch], LastProcessed(checkpoints, r.epoch)).value].from,
                     LastProcessed(checkpoints, r.epoch) + 1) &&
      r.end == st.intervals[r.epoch][FirstPending(st.intervals[r.epoch], LastProcessed(checkpoints, r.epoch)).value].to
    decreases st.epoch + 1 - epoch
  {
    var r := Scan(st, checkpoints, getFails, epoch);
    if epoch <= st.epoch && r != Scan(st, checkpoints, getFails, epoch + 1) {
    } else {
      ScanFoundAt(st, checkpoints, getFails, epoch + 1);
    }
  }

  /** Skipped epochs can be passed over: starting the scan after a run of skipped epochs gives
      the same result. */
  lemma {:induction false} ScanSkips(st: EventStatus, checkpoints: map<uint32, uint32>, getFails: uint32 -> bool, epoch: nat, later: nat)
    requires st.epoch < MAX_UINT32 && epoch <= later <= st.epoch + 1
    requires forall e: uint32 :: epoch <= e < later ==> Skipped(st, checkpoints, getFails, e)
    ensures Scan(st, checkpoints, getFails, epoch) == Scan(st, checkpoints, getFails, later)
    decreases later - epoch
  {
    if epoch < later {
      assert Skipped(st, checkpoints, getFails, epoch as uint32);
      ScanSkips(st, checkpoints, getFails, epoch + 1, later);
    }
  }

  /** The scan reads the checkpoints of the epochs it visits only: maps that agree on the
      epochs from `epoch` on give the same result. */
  lemma {:induction false} ScanReadsVisited(st: EventStatus, c1: map<uint32, uint32>, c2: map<uint32, uint32>,
                                            getFails: uint32 -> bool, epoch: nat)
    requires st.epoch < MAX_UINT32 && epoch <= st.epoch + 1
    requires forall e: uint32 :: epoch <= e <= st.epoch ==> LastProcessed(c1, e) == LastProcessed(c2, e)
    ensures Scan(st, c1, getFails, epoch) == Scan(st, c2, getFails, epoch)
    decreases st.epoch + 1 - epoch
  {
    if epoch <= st.epoch {
      assert LastProcessed(c1, epoch as uint32) == LastProcessed(c2, epoch as uint32);
      ScanReadsVisited(st, c1, c2, getFails, epoch + 1);
    }
  }

  /** The error results of `calculateTickRange`: a failed status call yields `(0, 0, startEpoch)`
      with an error, a failed checkpoint read `(0, 0, searchEpoch)` with an error. `ErrNotFound`
      is not among them: it reads as checkpoint 0. */
  lemma TickRangeErrors(source: Source, checkpoints: map<uint32, uint32>, getFails: uint32 -> bool, startEpoch: uint32)
    requires ScanBounded(source)
    ensures var r := TickRangeOf(source, checkpoints, getFails, startEpoch);
      (source.status.None? ==> r == TickRange(0, 0, startEpoch, Some(StatusFailed))) &&
      (source.status.Some? && r.err.Some? ==>
         r == TickRange(0, 0, r.epoch, Some(CheckpointReadFailed(r.epoch))) && getFails(r.epoch) &&
         Min(startEpoch, source.status.value.epoch) <= r.epoch <= source.status.value.epoch)
    ensures (forall e: uint32 :: !getFails(e)) ==> TickRangeOf(source, checkpoints, getFails, startEpoch).err != Some(StatusFailed) ==>
      TickRangeOf(source, checkpoints, getFails, startEpoch).err.None?
  {
    if source.status.Some? {
      ScanStops(source.status.value, checkpoints, getFails, Min(startEpoch, source.status.value.epoch));
    }
  }

  // ---- processing a range: the specification ----

  /** What the reader's cycles change: the store's checkpoints and its log of writes, and the
      records handed to the Kafka client. */
  datatype SyncState = SyncState(checkpoints: map<uint32, uint32>, history: seq<Store.Checkpoint>, records: seq<Kgo.Record>)

  datatype Outcome = Outcome(state: SyncState, err: Option<ReaderError>)

  /** `processTickEvents`: fetch the tick's events, then let the processor publish them. */
  function ProcessTick(env: Env, s: SyncState, tick: uint32): Outcome
  {
    match env.source.tickEvents(tick)
    case None => Outcome(s, Some(EventsFailed(tick)))
    case Some(te) =>
      if Processor.MarshalFails(te, env.marshal) then Outcome(s, Some(ProcessingFailed(tick)))
      else Outcome(s.(records := s.records + Processor.Produced(te, env.marshal)), None)
  }

  /** `processTickEventsRange`: the ticks `from` to `toExcl - 1` in turn, each processed and
      then checkpointed; the first failure ends the run. */
  function RunRange(env: Env, s: SyncState, epoch: uint32, from: uint32, toExcl: uint32): Outcome
    decreases toExcl as int - from
  {
    if from >= toExcl then Outcome(s, None)
    else
      var o := ProcessTick(env, s, from);
      if o.err.Some? then o
      else if env.setFails(epoch, from) then Outcome(o.state, Some(CheckpointWriteFailed(from)))
      else
        var next := o.state.(checkpoints := o.state.checkpoints[epoch := from],
                             history := o.state.history + [Store.Checkpoint(epoch, from)]);
        RunRange(env, next, epoch, from + 1, toExcl)
  }

  /** How tick `tick` of `epoch` fails, if it does: fetching, processing, or checkpointing. */
  function TickFailure(env: Env, epoch: uint32, tick: uint32): Option<ReaderError>
  {
    match env.source.tickEvents(tick)
    case None => Some(EventsFailed(tick))
    case Some(te) =>
      if Processor.MarshalFails(te, env.marshal) then Some(ProcessingFailed(tick))
      else if env.setFails(epoch, tick) then Some(CheckpointWriteFailed(tick))
      else None
  }

  /** The first tick of `[from, toExcl)` that fails, or `toExcl` when none does. */
  function FirstFailure(env: Env, epoch: uint32, from: uint32, toExcl: uint32): (r: uint32)
    ensures from <= toExcl ==> from <= r <= toExcl
    ensures from > toExcl ==> r == from
    ensures forall t: uint32 :: from <= t < r ==> TickFailure(env, epoch, t).None?
    ensures r < toExcl ==> TickFailure(env, epoch, r).Some?
    decreases toExcl as int - from
  {
    if from >= toExcl || TickFailure(env, epoch, from).Some? then from
    else FirstFailure(env, epoch, from + 1, toExcl)
  }

  /** The checkpoints `(epoch, from)`, ..., `(epoch, toExcl - 1)`, in that order. */
  function CheckpointSeq(epoch: uint32, from: uint32, toExcl: uint32): (c: seq<Store.Checkpoint>)
    requires from <= toExcl
    ensures |c| == toExcl as int - from
    ensures forall i: int :: 0 <= i < |c| ==> c[i] == Store.Checkpoint(epoch, from + i)
    decreases toExcl as int - from
  {
    if from == toExcl then [] else [Store.Checkpoint(epoch, from)] + CheckpointSeq(epoch, from + 1, toExcl)
  }

  /** The records the processor produces for one tick, when its events can be fetched. */
  function ProducedAt(env: Env, tick: uint32): seq<Kgo.Record>
  {
    match env.source.tickEvents(tick)
    case None => []
    case Some(te) => Processor.Produced(te, env.marshal)
  }

  /** The records produced for the ticks `from` to `toExcl - 1`, in tick order. */
  function RecordsOver(env: Env, from: uint32, toExcl: uint32): seq<Kgo.Record>
    decreases toExcl as int - from
  {
    if from >= toExcl then [] else ProducedAt(env, from) + RecordsOver(env, from + 1, toExcl)
  }

  // ---- processing a range: its properties ----

  /** The run ends with the error of the first failing tick, and without error exactly when no
      tick fails. */
  lemma {:induction false} RunRangeError(env: Env, s: SyncState, epoch: uint32, from: uint32, toExcl: uint32)
    requires from <= toExcl
    ensures var stop := FirstFailure(env, epoch, from, toExcl);
      RunRange(env, s, epoch, from, toExcl).err == (if stop < toExcl then TickFailure(env, epoch, stop) else None)
    decreases toExcl as int - from
  {
    if from < toExcl && TickFailure(env, epoch, from).None? {
      var o := ProcessTick(env, s, from);
      var next := o.state.(checkpoints := o.state.checkpoints[epoch := from],
                           history := o.state.history + [Store.Checkpoint(epoch, from)]);
      RunRangeError(env, next, epoch, from + 1, toExcl);
    }
  }

  /** Checkpoints are written only for ticks that were fetched and processed, in strictly
      increasing order, exactly for the ticks before the first failure; the epoch's checkpoint
      is then the last of them and other epochs keep theirs. */
  lemma {:induction false} RunRangeCheckpoints(env: Env, s: SyncState, epoch: uint32, from: uint32, toExcl: uint32)
    requires from <= toExcl
    ensures var stop := FirstFailure(env, epoch, from, toExcl);
      var o := RunRange(env, s, epoch, from, toExcl);
      o.state.history == s.history + CheckpointSeq(epoch, from, stop) &&
      o.state.checkpoints == (if from < stop then s.checkpoints[epoch := stop - 1] else s.checkpoints)
    decreases toExcl as int - from
  {
    var stop := FirstFailure(env, epoch, from, toExcl);
    if from < toExcl && TickFailure(env, epoch, from).None? {
      var o := ProcessTick(env, s, from);
      var next := o.state.(checkpoints := o.state.checkpoints[epoch := from],
                           history := o.state.history + [Store.Checkpoint(epoch, from)]);
      RunRangeCheckpoints(env, next, epoch, from + 1, toExcl);
      assert CheckpointSeq(epoch, from, stop) == [Store.Checkpoint(epoch, from)] + CheckpointSeq(epoch, from + 1, stop);
      assert next.history + CheckpointSeq(epoch, from + 1, stop) == s.history + CheckpointSeq(epoch, from, stop);
      if from + 1 < stop {
        assert next.checkpoints[epoch := stop - 1] == s.checkpoints[epoch := stop - 1];
      }
    }
  }

  /** A run whose first tick fails has produced that tick's records and no others. */
  lemma RunRangeRecordsAtFailure(env: Env, s: SyncState, epoch: uint32, from: uint32, toExcl: uint32)
    requires from < toExcl && TickFailure(env, epoch, from).Some?
    ensures RunRange(env, s, epoch, from, toExcl).state.records == s.records + RecordsOver(env, from, from + 1)
  {
    var o := ProcessTick(env, s, from);
    assert RunRange(env, s, epoch, from, toExcl).state == o.state;
    assert RecordsOver(env, from + 1, from + 1) == [];
    assert RecordsOver(env, from, from + 1) == ProducedAt(env, from);
    match env.source.tickEvents(from) {
      case None =>
        assert o.state.records == s.records;
      case Some(te) =>
        Processor.ProducedShape(te, env.marshal);
        assert o.state.records == s.records + Processor.Produced(te, env.marshal);
    }
  }

  /** The records produced are those of the ticks up to and including the failing one (a tick
      whose checkpoint write fails has already been published), or of the whole range. */
  lemma {:induction false} RunRangeRecords(env: Env, s: SyncState, epoch: uint32, from: uint32, toExcl: uint32)
    requires from <= toExcl
    ensures var stop := FirstFailure(env, epoch, from, toExcl);
      RunRange(env, s, epoch, from, toExcl).state.records
        == s.records + RecordsOver(env, from, if stop < toExcl then stop + 1 else toExcl)
    decreases toExcl as int - from
  {
    if from < toExcl {
      if TickFailure(env, epoch, from).Some? {
        RunRangeRecordsAtFailure(env, s, epoch, from, toExcl);
      } else {
        var o := ProcessTick(env, s, from);
        var next := o.state.(checkpoints := o.state.checkpoints[epoch := from],
                             history := o.state.history + [Store.Checkpoint(epoch, from)]);
        RunRangeRecordsStep(env, s, epoch, from, toExcl);
        RunRangeRecords(env, next, epoch, from + 1, toExcl);
        var stop := FirstFailure(env, epoch, from, toExcl);
        var upTo := if stop < toExcl then stop + 1 else toExcl;
        assert RecordsOver(env, from, upTo) == ProducedAt(env, from) + RecordsOver(env, from + 1, upTo);
        assert s.records + ProducedAt(env, from) + RecordsOver(env, from + 1, upTo) == s.records + RecordsOver(env, from, upTo);
      }
    } else {
      assert s.records + [] == s.records;
    }
  }

  /** A tick that succeeds adds its records, and the run goes on from the next tick. */
  lemma RunRangeRecordsStep(env: Env, s: SyncState, epoch: uint32, from: uint32, toExcl: uint32)
    requires from < toExcl && TickFailure(env, epoch, from).None?
    ensures var o := ProcessTick(env, s, from);
      var next := o.state.(checkpoints := o.state.checkpoints[epoch := from],
                           history := o.state.history + [Store.Checkpoint(epoch, from)]);
      next.records == s.records + ProducedAt(env, from) &&
      RunRange(env, s, epoch, from, toExcl) == RunRange(env, next, epoch, from + 1, toExcl) &&
      FirstFailure(env, epoch, from, toExcl) == FirstFailure(env, epoch, from + 1, toExcl)
  {
  }

  // ---- one sync cycle: the specification ----

  /** What `sync` returns and leaves behind. */
  datatype SyncResult = SyncResult(epoch: uint32, state: SyncState, err: Option<ReaderError>)

  /** Whether `sync` declines to process the range. */
  predicate NoTicks(r: TickRange)
  {
    r.start > r.end || r.start == 0 || r.end == 0 || r.epoch == 0
  }

  /** `sync`: a range error or a processing error keeps the start epoch; otherwise the cycle
      reports the epoch of the range, 0 for the sentinel. The exclusive end is `end + 1` in
      32-bit arithmetic. */
  function SyncSpec(env: Env, s: SyncState, startEpoch: uint32): SyncResult
    requires ScanBounded(env.source)
  {
    var r := TickRangeOf(env.source, s.checkpoints, env.getFails, startEpoch);
    if r.err.Some? then SyncResult(startEpoch, s, r.err)
    else if NoTicks(r) then SyncResult(r.epoch, s, None)
    else
      var o := RunRange(env, s, r.epoch, r.start, Add32(r.end, 1));
      if o.err.Some? then SyncResult(startEpoch, o.state, o.err)
      else SyncResult(r.epoch, o.state, None)
  }

  /** Whether the service's answers satisfy the scan's precondition in the cycles `count` to
      `count + cycles - 1`. */
  predicate LoopBounded(envs: nat -> Env, count: nat, cycles: nat)
  {
    forall c: nat :: count <= c < count + cycles ==> ScanBounded(envs(c).source)
  }

  /** The epoch and state after `cycles` cycles of `SyncInLoop`, numbered from `count`; cycle
      `c` sees the surroundings `envs(c)`, so the service may answer differently each cycle. */
  function LoopSpec(envs: nat -> Env, s: SyncState, epoch: uint32, count: nat, cycles: nat): (uint32, SyncState)
    requires LoopBounded(envs, count, cycles)
    decreases cycles
  {
    if cycles == 0 then (epoch, s)
    else
      var r := SyncSpec(envs(count), s, epoch);
      LoopSpec(envs, r.state, r.epoch, count + 1, cycles - 1)
  }

  // ---- one sync cycle: its properties ----

  /** A cycle that fails keeps the start epoch; a cycle whose scan returns the sentinel changes
      nothing and reports epoch 0, so the next cycle scans again from epoch 0. */
  lemma SyncEpochCarry(env: Env, s: SyncState, startEpoch: uint32)
    requires ScanBounded(env.source)
    ensures SyncSpec(env, s, startEpoch).err.Some? ==> SyncSpec(env, s, startEpoch).epoch == startEpoch
    ensures TickRangeOf(env.source, s.checkpoints, env.getFails, startEpoch) == Sentinel ==>
      SyncSpec(env, s, startEpoch) == SyncResult(0, s, None)
  {
  }

  /** A range ending at tick 2^32-1 has exclusive end `end + 1 = 0`: the cycle processes
      nothing and yet reports the range's epoch as synced. */
  lemma {:induction false} SyncEndWraps(env: Env, s: SyncState, startEpoch: uint32)
    requires ScanBounded(env.source)
    requires TickRangeOf(env.source, s.checkpoints, env.getFails, startEpoch).err.None?
    requires TickRangeOf(env.source, s.checkpoints, env.getFails, startEpoch).end == MAX_UINT32
    ensures SyncSpec(env, s, startEpoch) ==
      SyncResult(TickRangeOf(env.source, s.checkpoints, env.getFails, startEpoch).epoch, s, None)
  {
    assert Add32(MAX_UINT32, 1) == 0;
  }

  /** A cycle that processes a range writes the checkpoints of its ticks up to the first
      failure, in order; it succeeds exactly when no tick fails, and then the epoch's
      checkpoint is the range's end. */
  lemma {:induction false} SyncProcesses(env: Env, s: SyncState, startEpoch: uint32)
    requires ScanBounded(env.source)
    requires TickRangeOf(env.source, s.checkpoints, env.getFails, startEpoch).err.None?
    requires !NoTicks(TickRangeOf(env.source, s.checkpoints, env.getFails, startEpoch))
    requires TickRangeOf(env.source, s.checkpoints, env.getFails, startEpoch).end < MAX_UINT32
    ensures var r := TickRangeOf(env.source, s.checkpoints, env.getFails, startEpoch);
      var stop := FirstFailure(env, r.epoch, r.start, r.end + 1);
      var out := SyncSpec(env, s, startEpoch);
      out.state.history == s.history + CheckpointSeq(r.epoch, r.start, stop) &&
      (stop <= r.end ==> out.epoch == startEpoch && out.err == TickFailure(env, r.epoch, stop)) &&
      (stop == r.end + 1 ==> out.epoch == r.epoch && out.err.None? && out.state.checkpoints == s.checkpoints[r.epoch := r.end])
  {
    var r := TickRangeOf(env.source, s.checkpoints, env.getFails, startEpoch);
    assert Add32(r.end, 1) == r.end + 1;
    RunRangeError(env, s, r.epoch, r.start, r.end + 1);
    RunRangeCheckpoints(env, s, r.epoch, r.start, r.end + 1);
  }

  /** A successful cycle that processes a range moves the epoch's checkpoint strictly forward
      and leaves every other epoch's checkpoint alone. */
  lemma SyncAdvances(env: Env, s: SyncState, startEpoch: uint32)
    requires ScanBounded(env.source)
    requires TickRangeOf(env.source, s.checkpoints, env.getFails, startEpoch).err.None?
    requires !NoTicks(TickRangeOf(env.source, s.checkpoints, env.getFails, startEpoch))
    requires TickRangeOf(env.source, s.checkpoints, env.getFails, startEpoch).end < MAX_UINT32
    requires SyncSpec(env, s, startEpoch).err.None?
    ensures var r := TickRangeOf(env.source, s.checkpoints, env.getFails, startEpoch);
      var out := SyncSpec(env, s, startEpoch);
      LastProcessed(out.state.checkpoints, r.epoch) > LastProcessed(s.checkpoints, r.epoch) &&
      forall e: uint32 :: e != r.epoch ==> LastProcessed(out.state.checkpoints, e) == LastProcessed(s.checkpoints, e)
  {
    var r := TickRangeOf(env.source, s.checkpoints, env.getFails, startEpoch);
    var st := env.source.status.value;
    ScanFound(st, s.checkpoints, env.getFails, Min(startEpoch, st.epoch));
    SyncProcesses(env, s, startEpoch);
  }

  /** Raising the checkpoint past earlier intervals but not past the end of the first pending
      one leaves that interval the first pending one. */
  lemma FirstPendingRaised(ivs: seq<ProcessedTickInterval>, last: uint32, raised: uint32)
    requires FirstPending(ivs, last).Some?
    requires last <= raised < ivs[FirstPending(ivs, last).value].to
    ensures FirstPending(ivs, raised) == FirstPending(ivs, last)
  {
    var k := FirstPending(ivs, last).value;
    var r := FirstPending(ivs, raised);
    assert r.Some? by {
      assert !(ivs[k].to <= raised);
    }
    assert forall j :: 0 <= j < k ==> ivs[j].to <= raised;
    assert ivs[k].to > raised;
  }

  /** The range depends on the service's status only, not on its answers for the ticks. */
  lemma TickRangeOfStatus(a: Source, b: Source, checkpoints: map<uint32, uint32>, getFails: uint32 -> bool, startEpoch: uint32)
    requires ScanBounded(a) && a.status == b.status
    ensures ScanBounded(b)
    ensures TickRangeOf(a, checkpoints, getFails, startEpoch) == TickRangeOf(b, checkpoints, getFails, startEpoch)
  {
  }

  /** A cycle that fails while processing its range returns its start epoch, and the range's
      epoch is checkpointed at the tick before the failing one, if any tick succeeded. */
  lemma FailedCycleCheckpoints(env: Env, s: SyncState, startEpoch: uint32)
    requires ScanBounded(env.source)
    requires TickRangeOf(env.source, s.checkpoints, env.getFails, startEpoch).err.None?
    requires !NoTicks(TickRangeOf(env.source, s.checkpoints, env.getFails, startEpoch))
    requires TickRangeOf(env.source, s.checkpoints, env.getFails, startEpoch).end < MAX_UINT32
    requires SyncSpec(env, s, startEpoch).err.Some?
    ensures var r := TickRangeOf(env.source, s.checkpoints, env.getFails, startEpoch);
      var out := SyncSpec(env, s, startEpoch);
      var stop := FirstFailure(env, r.epoch, r.start, r.end + 1);
      out.epoch == startEpoch && r.start <= stop <= r.end &&
      out.state.checkpoints == (if r.start < stop then s.checkpoints[r.epoch := stop - 1] else s.checkpoints)
  {
    var r := TickRangeOf(env.source, s.checkpoints, env.getFails, startEpoch);
    assert Add32(r.end, 1) == r.end + 1;
    RunRangeCheckpoints(env, s, r.epoch, r.start, r.end + 1);
    RunRangeError(env, s, r.epoch, r.start, r.end + 1);
  }

  /** The scan after a failed cycle, against the same service, starts at the failing tick. */
  lemma ResumeScan(env: Env, s: SyncState, startEpoch: uint32)
    requires ScanBounded(env.source)
    requires TickRangeOf(env.source, s.checkpoints, env.getFails, startEpoch).err.None?
    requires !NoTicks(TickRangeOf(env.source, s.checkpoints, env.getFails, startEpoch))
    requires TickRangeOf(env.source, s.checkpoints, env.getFails, startEpoch).end < MAX_UINT32
    requires SyncSpec(env, s, startEpoch).err.Some?
    ensures var r := TickRangeOf(env.source, s.checkpoints, env.getFails, startEpoch);
      var out := SyncSpec(env, s, startEpoch);
      out.epoch == startEpoch &&
      TickRangeOf(env.source, out.state.checkpoints, env.getFails, out.epoch)
        == TickRange(FirstFailure(env, r.epoch, r.start, r.end + 1), r.end, r.epoch, None)
  {
    var r := TickRangeOf(env.source, s.checkpoints, env.getFails, startEpoch);
    var out := SyncSpec(env, s, startEpoch);
    var st := env.source.status.value;
    var e0 := Min(startEpoch, st.epoch);
    var stop := FirstFailure(env, r.epoch, r.start, r.end + 1);
    FailedCycleCheckpoints(env, s, startEpoch);
    ScanStops(st, s.checkpoints, env.getFails, e0);
    ScanFound(st, s.checkpoints, env.getFails, e0);
    var ck := out.state.checkpoints;
    assert forall e: uint32 :: e0 <= e < r.epoch ==> Skipped(st, ck, env.getFails, e) by {
      forall e: uint32 | e0 <= e < r.epoch ensures Skipped(st, ck, env.getFails, e) {
        assert LastProcessed(ck, e) == LastProcessed(s.checkpoints, e);
        assert Skipped(st, s.checkpoints, env.getFails, e);
      }
    }
    ScanSkips(st, ck, env.getFails, e0, r.epoch);
    var ivs := st.intervals[r.epoch];
    var last := LastProcessed(s.checkpoints, r.epoch);
    var raised := LastProcessed(ck, r.epoch);
    assert raised == (if r.start < stop then stop - 1 else last);
    FirstPendingRaised(ivs, last, raised);
  }

  /** A cycle that fails at tick `stop` of its range returns its start epoch, and a next
      cycle whose service reports the same status, whatever it answers for the ticks, resumes
      at `stop`: the failing tick is processed again and no tick is skipped. */
  lemma SyncResumesAtFailure(env: Env, s: SyncState, startEpoch: uint32, next: Source)
    requires ScanBounded(env.source)
    requires TickRangeOf(env.source, s.checkpoints, env.getFails, startEpoch).err.None?
    requires !NoTicks(TickRangeOf(env.source, s.checkpoints, env.getFails, startEpoch))
    requires TickRangeOf(env.source, s.checkpoints, env.getFails, startEpoch).end < MAX_UINT32
    requires SyncSpec(env, s, startEpoch).err.Some?
    requires next.status == env.source.status
    ensures var r := TickRangeOf(env.source, s.checkpoints, env.getFails, startEpoch);
      var out := SyncSpec(env, s, startEpoch);
      out.epoch == startEpoch &&
      TickRangeOf(next, out.state.checkpoints, env.getFails, out.epoch)
        == TickRange(FirstFailure(env, r.epoch, r.start, r.end + 1), r.end, r.epoch, None)
  {
    var out := SyncSpec(env, s, startEpoch);
    ResumeScan(env, s, startEpoch);
    TickRangeOfStatus(env.source, next, out.state.checkpoints, env.getFails, out.epoch);
  }

  /** A found range with `start > end`, which an interval with `From > To` ending after the
      checkpoint yields, passes the guard as "no ticks": the cycle reports the range's epoch,
      writes nothing, and the next cycle from that epoch finds the same range again. The same
      holds for a range found in epoch 0. */
  lemma SyncStallsOnEmptyRange(env: Env, s: SyncState, startEpoch: uint32)
    requires ScanBounded(env.source)
    requires TickRangeOf(env.source, s.checkpoints, env.getFails, startEpoch).err.None?
    requires NoTicks(TickRangeOf(env.source, s.checkpoints, env.getFails, startEpoch))
    requires TickRangeOf(env.source, s.checkpoints, env.getFails, startEpoch) != Sentinel
    ensures var r := TickRangeOf(env.source, s.checkpoints, env.getFails, startEpoch);
      SyncSpec(env, s, startEpoch) == SyncResult(r.epoch, s, None) &&
      TickRangeOf(env.source, s.checkpoints, env.getFails, r.epoch) == r &&
      SyncSpec(env, s, r.epoch) == SyncResult(r.epoch, s, None)
  {
    var r := TickRangeOf(env.source, s.checkpoints, env.getFails, startEpoch);
    var st := env.source.status.value;
    var e0 := Min(startEpoch, st.epoch);
    ScanStops(st, s.checkpoints, env.getFails, e0);
    ScanSkips(st, s.checkpoints, env.getFails, e0, r.epoch);
  }

  /** The interval `[10, 8]` of epoch 5, with nothing checkpointed: the scan returns `(10, 8, 5)`
      and the cycle returns epoch 5 having processed nothing. */
  lemma ReversedIntervalStalls(env: Env, s: SyncState)
    requires env.source.status == Some(EventStatus(5, 0, map[5 := [ProcessedTickInterval(10, 8)]]))
    requires s.checkpoints == map[] && forall e :: !env.getFails(e)
    ensures TickRangeOf(env.source, s.checkpoints, env.getFails, 5) == TickRange(10, 8, 5, None)
    ensures SyncSpec(env, s, 5) == SyncResult(5, s, None)
  {
    var st := env.source.status.value;
    assert FirstPending(st.intervals[5], 0) == Some(0);
    assert Scan(st, s.checkpoints, env.getFails, 6) == Sentinel;
  }

  // ---- the sync loop: its properties ----

  /** One cycle of the loop is one sync cycle, whose returned epoch is the next start epoch. */
  lemma LoopOneCycle(envs: nat -> Env, s: SyncState, epoch: uint32, count: nat)
    requires LoopBounded(envs, count, 1)
    ensures ScanBounded(envs(count).source)
    ensures LoopSpec(envs, s, epoch, count, 1)
         == (SyncSpec(envs(count), s, epoch).epoch, SyncSpec(envs(count), s, epoch).state)
  {
    assert count <= count < count + 1;
  }

  /** Running `m` cycles and then `n` more is running `m + n` cycles. */
  lemma {:induction false} LoopSpecSplit(envs: nat -> Env, s: SyncState, epoch: uint32, count: nat, m: nat, n: nat)
    requires LoopBounded(envs, count, m + n)
    ensures LoopBounded(envs, count, m) && LoopBounded(envs, count + m, n)
    ensures LoopSpec(envs, s, epoch, count, m + n)
         == LoopSpec(envs, LoopSpec(envs, s, epoch, count, m).1, LoopSpec(envs, s, epoch, count, m).0, count + m, n)
    decreases m
  {
    if m > 0 {
      assert count <= count < count + m + n;
      var r := SyncSpec(envs(count), s, epoch);
      LoopSpecSplit(envs, r.state, r.epoch, count + 1, m - 1, n);
      assert m + n - 1 == (m - 1) + n;
    }
  }

  /** Cycles that each return their own start epoch and change nothing leave the loop where it
      is. */
  lemma {:induction false} LoopFixedPoint(envs: nat -> Env, s: SyncState, epoch: uint32, count: nat, n: nat)
    requires LoopBounded(envs, count, n)
    requires forall c: nat :: count <= c < count + n ==> SyncSpec(envs(c), s, epoch) == SyncResult(epoch, s, None)
    ensures LoopSpec(envs, s, epoch, count, n) == (epoch, s)
    decreases n
  {
    if n > 0 {
      assert count <= count < count + n;
      LoopFixedPoint(envs, s, epoch, count + 1, n - 1);
    }
  }

  /** While the service keeps answering as it did, a loop that stalls on a range it cannot
      process reports that range's epoch in every later cycle and never writes again. */
  lemma LoopStallsOnEmptyRange(envs: nat -> Env, s: SyncState, startEpoch: uint32, count: nat, n: nat)
    requires forall c: nat :: count <= c < count + n + 1 ==> envs(c) == envs(count)
    requires ScanBounded(envs(count).source)
    requires TickRangeOf(envs(count).source, s.checkpoints, envs(count).getFails, startEpoch).err.None?
    requires NoTicks(TickRangeOf(envs(count).source, s.checkpoints, envs(count).getFails, startEpoch))
    requires TickRangeOf(envs(count).source, s.checkpoints, envs(count).getFails, startEpoch) != Sentinel
    ensures LoopBounded(envs, count, n + 1)
    ensures LoopSpec(envs, s, startEpoch, count, n + 1)
         == (TickRangeOf(envs(count).source, s.checkpoints, envs(count).getFails, startEpoch).epoch, s)
  {
    var env := envs(count);
    var r := TickRangeOf(env.source, s.checkpoints, env.getFails, startEpoch);
    SyncStallsOnEmptyRange(env, s, startEpoch);
    assert LoopBounded(envs, count, n + 1);
    LoopSpecSplit(envs, s, startEpoch, count, 1, n);
    LoopOneCycle(envs, s, startEpoch, count);
    LoopFixedPoint(envs, s, r.epoch, count + 1, n);
  }

  // ---- the reader ----

  class EventReader {
    /** The event service, as its answers in each sync cycle: cycle `count` sees
        `eventClient(count)`, so a status can grow and a failed call can succeed later. */
    const eventClient: nat -> Source
    const eventProcessor: Processor.EventPublisher
    const dataStore: Store.PebbleStore

    constructor (client: nat -> Source, processor: Processor.EventPublisher, store: Store.PebbleStore)
      ensures eventClient == client && eventProcessor == processor && dataStore == store
    {
      eventClient := client;
      eventProcessor := processor;
      dataStore := store;
    }

    /** The reader's surroundings in cycle `count`, as the specification functions take them. */
    function Environment(count: nat): Env
    {
      Env(eventClient(count), dataStore.getFails, dataStore.setFails, eventProcessor.marshal)
    }

    /** The surroundings of every cycle. */
    function Environments(): nat -> Env
    {
      (count: nat) => Environment(count)
    }

    /** The state the reader's cycles change. */
    ghost function State(): SyncState
      reads dataStore, eventProcessor.kafkaClient
    {
      SyncState(dataStore.Checkpoints, dataStore.History, eventProcessor.kafkaClient.records)
    }

    /** Scans the epochs for the first range to process, with the service's status in cycle
        `count`; reads the store, changes nothing. */
    method CalculateTickRange(startEpoch: uint32, count: nat) returns (start: uint32, end: uint32, epoch: uint32, err: Option<ReaderError>)
      requires dataStore.Valid() && ScanBounded(eventClient(count))
      ensures TickRange(start, end, epoch, err) == TickRangeOf(eventClient(count), dataStore.Checkpoints, dataStore.getFails, startEpoch)
    {
      var status := eventClient(count).status;
      if status.None? {
        return 0, 0, startEpoch, Some(StatusFailed);
      }
      var eventStatus := status.value;
      ghost var checkpoints := dataStore.Checkpoints;
      ghost var result := Scan(eventStatus, checkpoints, dataStore.getFails, Min(startEpoch, eventStatus.epoch));
      var searchEpoch := Min(startEpoch, eventStatus.epoch);
      while searchEpoch <= eventStatus.epoch
        invariant searchEpoch <= eventStatus.epoch + 1
        invariant Scan(eventStatus, checkpoints, dataStore.getFails, searchEpoch) == result
        decreases eventStatus.epoch - searchEpoch as int
      {
        if searchEpoch !in eventStatus.intervals {
          searchEpoch := searchEpoch + 1;
        } else {
          var tickIntervals := eventStatus.intervals[searchEpoch];
          var lastProcessedTick, getErr := dataStore.GetLastProcessedTick(searchEpoch);
          if getErr.Some? && getErr != Some(Store.ErrNotFound) {
            return 0, 0, searchEpoch, Some(CheckpointReadFailed(searchEpoch));
          }
          var k := 0;
          while k < |tickIntervals|
            invariant 0 <= k <= |tickIntervals|
            invariant FirstPendingFrom(tickIntervals, lastProcessedTick, k) == FirstPending(tickIntervals, lastProcessedTick)
          {
            var tickInterval := tickIntervals[k];
            if tickInterval.to > lastProcessedTick {
              return Max(tickInterval.from, lastProcessedTick + 1), tickInterval.to, searchEpoch, None;
            }
            k := k + 1;
          }
          searchEpoch := searchEpoch + 1;
        }
      }
      return 0, 0, 0, None;
    }

    /** Fetches one tick's events in cycle `count` and hands them to the processor. */
    method ProcessTickEvents(tick: uint32, count: nat) returns (err: Option<ReaderError>)
      modifies eventProcessor.kafkaClient
      ensures State() == ProcessTick(Environment(count), old(State()), tick).state
      ensures err == ProcessTick(Environment(count), old(State()), tick).err
    {
      var tickEvents := eventClient(count).tickEvents(tick);
      if tickEvents.None? {
        return Some(EventsFailed(tick));
      }
      var processErr := eventProcessor.ProcessTickEvents(tickEvents.value);
      if processErr.Some? {
        return Some(ProcessingFailed(tick));
      }
      return None;
    }

    /** Processes and checkpoints the ticks `from` to `toExcl - 1`, stopping at the first failure. */
    method ProcessTickEventsRange(epoch: uint32, from: uint32, toExcl: uint32, count: nat) returns (err: Option<ReaderError>)
      requires dataStore.Valid()
      modifies dataStore, eventProcessor.kafkaClient
      ensures dataStore.Valid()
      ensures State() == RunRange(Environment(count), old(State()), epoch, from, toExcl).state
      ensures err == RunRange(Environment(count), old(State()), epoch, from, toExcl).err
    {
      var tick: uint32 := from;
      while tick < toExcl
        invariant from <= tick
        invariant dataStore.Valid()
        invariant RunRange(Environment(count), State(), epoch, tick, toExcl)
               == RunRange(Environment(count), old(State()), epoch, from, toExcl)
        decreases toExcl as int - tick
      {
        err := ProcessTickEvents(tick, count);
        if err.Some? {
          return err;
        }
        var setErr := dataStore.SetLastProcessedTick(epoch, tick);
        if setErr.Some? {
          return Some(CheckpointWriteFailed(tick));
        }
        tick := tick + 1;
      }
      return None;
    }

    /** Sync cycle number `count`; returns the epoch for the next one. */
    method Sync(startEpoch: uint32, count: nat) returns (epoch: uint32, err: Option<ReaderError>)
      requires dataStore.Valid() && ScanBounded(eventClient(count))
      modifies dataStore, eventProcessor.kafkaClient
      ensures dataStore.Valid()
      ensures SyncResult(epoch, State(), err) == SyncSpec(Environment(count), old(State()), startEpoch)
    {
      var start, end, rangeEpoch, rangeErr := CalculateTickRange(startEpoch, count);
      if rangeErr.Some? {
        return startEpoch, rangeErr;
      }
      if start > end || start == 0 || end == 0 || rangeEpoch == 0 {
        return rangeEpoch, None;
      }
      err := ProcessTickEventsRange(rangeEpoch, start, Add32(end, 1), count);
      if err.Some? {
        return startEpoch, err;
      }
      return rangeEpoch, None;
    }

    /** The first `cycles` cycles of the sync loop, numbered from 0, each starting from the
        epoch the previous one returned. */
    method SyncInLoop(startEpoch: uint32, cycles: nat) returns (epoch: uint32)
      requires dataStore.Valid() && LoopBounded(Environments(), 0, cycles)
      modifies dataStore, eventProcessor.kafkaClient
      ensures dataStore.Valid()
      ensures (epoch, State()) == LoopSpec(Environments(), old(State()), startEpoch, 0, cycles)
    {
      epoch := startEpoch;
      var count := 0;
      while count < cycles
        invariant count <= cycles
        invariant dataStore.Valid()
        invariant LoopBounded(Environments(), count, cycles - count)
        invariant LoopSpec(Environments(), State(), epoch, count, cycles - count)
               == LoopSpec(Environments(), old(State()), startEpoch, 0, cycles)
      {
        assert count <= count < count + (cycles - count);
        assert Environments()(count) == Environment(count);
        var latestProcessedEpoch, err := Sync(epoch, count);
        epoch := latestProcessedEpoch;
        count := count + 1;
      }
    }
  }

  // ---- the reader's test scenario, stated over its contracts ----

  /** The service of the reader's test: status epoch 123, intervals for epochs 120 and 123
      only, and every tick without events. */
  function ScenarioSource(): Source
  {
    var intervals := map[
      120 := [ProcessedTickInterval(1230, 1233), ProcessedTickInterval(1234, 1234)],
      123 := [ProcessedTickInterval(12340, 12345)]];
    Source(Some(EventStatus(123, 12345, intervals)), (t: uint32) => Some(Proto.TickEvents(t, [])))
  }

  /** The test's surroundings: its service, and a store and processor that never fail. */
  ghost predicate ScenarioEnv(env: Env)
  {
    env.source == ScenarioSource() && (forall e :: !env.getFails(e)) && (forall e, t :: !env.setFails(e, t))
  }

  lemma ScenarioNoFailures(env: Env)
    requires ScenarioEnv(env)
    ensures forall e: uint32, t: uint32 :: TickFailure(env, e, t).None?
  {
    forall e: uint32, t: uint32 ensures TickFailure(env, e, t).None? {
      assert Processor.Flatten(Proto.TickEvents(t, []).txEvents) == [];
    }
  }

  /** From epoch 115 with no checkpoints: epochs 115 to 119 have no intervals, and epoch 120
      is processed from 1230 to 1233. */
  lemma ScenarioFirstSync(env: Env, s: SyncState)
    requires ScenarioEnv(env) && s.checkpoints == map[]
    ensures SyncSpec(env, s, 115).epoch == 120 && SyncSpec(env, s, 115).err.None?
    ensures SyncSpec(env, s, 115).state.checkpoints == map[120 := 1233]
  {
    var st := env.source.status.value;
    ScanSkips(st, s.checkpoints, env.getFails, 115, 120);
    assert Scan(st, s.checkpoints, env.getFails, 120) == TickRange(1230, 1233, 120, None);
    ScenarioNoFailures(env);
    SyncProcesses(env, s, 115);
  }

  /** From epoch 120 with checkpoint 1233: the second interval of epoch 120 is processed. */
  lemma ScenarioSecondSync(env: Env, s: SyncState)
    requires ScenarioEnv(env) && s.checkpoints == map[120 := 1233]
    ensures SyncSpec(env, s, 120).epoch == 120 && SyncSpec(env, s, 120).err.None?
    ensures SyncSpec(env, s, 120).state.checkpoints == map[120 := 1234]
  {
    var st := env.source.status.value;
    assert FirstPending(st.intervals[120], 1233) == Some(1);
    assert Scan(st, s.checkpoints, env.getFails, 120) == TickRange(1234, 1234, 120, None);
    ScenarioNoFailures(env);
    SyncProcesses(env, s, 120);
  }

  /** From epoch 120 with checkpoint 1234: epoch 120 is done, 121 and 122 have no intervals,
      and epoch 123 is processed from 12340 to 12345. */
  lemma ScenarioThirdSync(env: Env, s: SyncState)
    requires ScenarioEnv(env) && s.checkpoints == map[120 := 1234]
    ensures SyncSpec(env, s, 120).epoch == 123 && SyncSpec(env, s, 120).err.None?
    ensures SyncSpec(env, s, 120).state.checkpoints == map[120 := 1234, 123 := 12345]
  {
    var st := env.source.status.value;
    assert FirstPending(st.intervals[120], 1234).None?;
    ScanSkips(st, s.checkpoints, env.getFails, 120, 123);
    assert Scan(st, s.checkpoints, env.getFails, 123) == TickRange(12340, 12345, 123, None);
    ScenarioNoFailures(env);
    SyncProcesses(env, s, 120);
  }

  /** Once everything is checkpointed, a cycle from any epoch up to 123 finds nothing and
      returns the sentinel epoch 0. */
  lemma ScenarioSynced(env: Env, s: SyncState, startEpoch: uint32)
    requires ScenarioEnv(env) && s.checkpoints == map[120 := 1234, 123 := 12345]
    requires startEpoch <= 123
    ensures SyncSpec(env, s, startEpoch) == SyncResult(0, s, None)
  {
    var st := env.source.status.value;
    assert FirstPending(st.intervals[120], 1234).None?;
    assert FirstPending(st.intervals[123], 12345).None?;
    ScanSentinel(st, s.checkpoints, env.getFails, startEpoch);
  }

  /** Once the test's service is fully checkpointed, the loop from any epoch up to 123 moves
      to epoch 0 after one cycle and stays there, writing nothing. */
  lemma ScenarioLoopSettles(envs: nat -> Env, s: SyncState, startEpoch: uint32, count: nat, n: nat)
    requires forall c: nat :: ScenarioEnv(envs(c))
    requires s.checkpoints == map[120 := 1234, 123 := 12345]
    requires startEpoch <= 123
    ensures LoopBounded(envs, count, n + 1)
    ensures LoopSpec(envs, s, startEpoch, count, n + 1) == (0, s)
  {
    assert LoopBounded(envs, count, n + 1) by {
      forall c: nat | count <= c < count + n + 1 ensures ScanBounded(envs(c).source) {
        assert ScenarioEnv(envs(c));
      }
    }
    ScenarioSynced(envs(count), s, startEpoch);
    forall c: nat | count + 1 <= c < count + 1 + n
      ensures SyncSpec(envs(c), s, 0) == SyncResult(0, s, None)
    {
      ScenarioSynced(envs(c), s, 0);
    }
    LoopSpecSplit(envs, s, startEpoch, count, 1, n);
    LoopOneCycle(envs, s, startEpoch, count);
    LoopFixedPoint(envs, s, 0, count + 1, n);
  }

  /** The reader's test: cycles from epochs 115, 120 and 120 return 120, 120 and 123; the
      next cycle, from 123, finds nothing and returns 0, and the one after, from 0, rescans
      every epoch and again returns 0. */
  method SyncScenario(marshal: seq<Processor.Event> -> Option<seq<byte>>)
    returns (first: uint32, second: uint32, third: uint32, fourth: uint32, fifth: uint32)
    ensures first == 120 && second == 120 && third == 123 && fourth == 0 && fifth == 0
  {
    var store := new Store.PebbleStore(_ => false, (_, _) => false);
    var kafkaClient := new Processor.KafkaClient(_ => false);
    var processor := new Processor.EventPublisher(kafkaClient, marshal);
    var reader := new EventReader(_ => ScenarioSource(), processor, store);
    var env := reader.Environment(1);
    assert ScenarioEnv(env);
    var err;
    ghost var s := reader.State();
    ScenarioFirstSync(env, s);
    first, err := reader.Sync(115, 1);
    s := reader.State();
    ScenarioSecondSync(env, s);
    second, err := reader.Sync(120, 1);
    s := reader.State();
    ScenarioThirdSync(env, s);
    third, err := reader.Sync(120, 1);
    s := reader.State();
    ScenarioSynced(env, s, 123);
    fourth, err := reader.Sync(123, 1);
    s := reader.State();
    ScenarioSynced(env, s, 0);
    fifth, err := reader.Sync(0, 1);
  }

  // ---- a record the broker rejects is checkpointed ----

  /** A service whose status has one pending tick, tick 10 of epoch 5, which carries one event. */
  function RejectedSendSource(): Source
  {
    var event := Proto.Event(Proto.EventHeader(5, 10, 1, 1), 0, 0, []);
    var tx := Proto.TransactionEvents([], [event]);
    Source(Some(EventStatus(5, 10, map[5 := [ProcessedTickInterval(10, 10)]])),
           (t: uint32) => Some(Proto.TickEvents(t, if t == 10 then [tx] else [])))
  }

  /** The cycle hands tick 10's one record to the Kafka client and checkpoints the tick. The
      broker's answer is no input of the cycle, since the processor only prints a produce error:
      a record the broker rejects is checkpointed all the same and is never sent again. */
  lemma RejectedSendCheckpointed(env: Env, s: SyncState)
    requires env.source == RejectedSendSource() && s.checkpoints == map[]
    requires (forall e :: !env.getFails(e)) && (forall e, t :: !env.setFails(e, t))
    requires forall events :: env.marshal(events).Some?
    ensures var out := SyncSpec(env, s, 5);
      out.epoch == 5 && out.err.None? && out.state.checkpoints == map[5 := 10] &&
      |out.state.records| == |s.records| + 1 && out.state.records[..|s.records|] == s.records &&
      LittleEndianUint32(out.state.records[|s.records|].key) == 10
  {
    var st := env.source.status.value;
    assert Scan(st, s.checkpoints, env.getFails, 5) == TickRange(10, 10, 5, None);
    var te := env.source.tickEvents(10).value;
    assert Processor.Flatten(te.txEvents) == Processor.Flatten(te.txEvents[..0]) + Processor.TransactionEventsOf(te.txEvents[0]);
    assert |Processor.Flatten(te.txEvents)| == 1;
    Processor.ProducedShape(te, env.marshal);
    assert TickFailure(env, 5, 10).None?;
    assert FirstFailure(env, 5, 10, 11) == 11;
    SyncProcesses(env, s, 5);
    RunRangeRecords(env, s, 5, 10, 11);
    assert RecordsOver(env, 10, 11) == ProducedAt(env, 10) + RecordsOver(env, 11, 11);
  }

  /** The same cycle run by a reader whose broker rejects every record: `sync` reports epoch 5
      without error, the store then answers tick 10 for epoch 5, and the one record handed to the
      client was rejected. */
  method RejectedSendScenario(marshal: seq<Processor.Event> -> Option<seq<byte>>)
    returns (epoch: uint32, err: Option<ReaderError>, checkpoint: uint32, getErr: Option<Store.StoreError>,
             produced: nat, rejected: bool)
    requires forall events :: marshal(events).Some?
    ensures epoch == 5 && err.None?
    ensures checkpoint == 10 && getErr.None?
    ensures produced == 1 && rejected
  {
    var store := new Store.PebbleStore(_ => false, (_, _) => false);
    var kafkaClient := new Processor.KafkaClient(_ => true);
    var processor := new Processor.EventPublisher(kafkaClient, marshal);
    var reader := new EventReader(_ => RejectedSendSource(), processor, store);
    RejectedSendCheckpointed(reader.Environment(0), reader.State());
    epoch, err := reader.Sync(5, 0);
    checkpoint, getErr := store.GetLastProcessedTick(5);
    produced := |kafkaClient.records|;
    rejected := kafkaClient.fails(0);
  }
}
