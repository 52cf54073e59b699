/** The record type of the Kafka client library (`kgo.Record`), restricted to the fields the
    publishers set, and the topic both publishers write to. */
module Kgo {
  import opened Bytes

  datatype Record = Record(key: seq<byte>, topic: string, value: seq<byte>)

  const EventsTopic: string := "qubic-events"
}
