/** The event service's status, as the client package hands it to the reader: the service's
    own frontier and, per epoch, the tick intervals it has processed. */
module Client {
  import opened Bytes

  /** An inclusive run of ticks `[from, to]` that the service reports as available. */
  datatype ProcessedTickInterval = ProcessedTickInterval(from: uint32, to: uint32)

  /** `intervals` maps an epoch to its interval list in the service's order. An epoch absent from
      the map is Go's nil slice; an epoch mapped to `[]` is an empty but non-nil slice, which is
      what the client builds for an epoch reported without intervals. */
  datatype EventStatus = EventStatus(epoch: uint32, tick: uint32, intervals: map<uint32, seq<ProcessedTickInterval>>)
}
