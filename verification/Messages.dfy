/** What the services read from and write to Kafka. */
module Messages {
  import opened Wrappers
  import opened Events
  import Pipeline
  import Containment

  /** A decoded value, as far as the schema of each consumer accepts it. */
  datatype Value = Value(asTx: Option<Tx>, asAuth: Option<Auth>, asDetection: Option<Detection>)

  datatype Body =
    | DetectionMsg(d: Detection)
    | RefusalMsg(item: Pipeline.Item)
    | AuditMsg(det: Detection, actions: seq<Containment.Action>)

  datatype TopicPartition = TopicPartition(topic: string, partition: nat)

  /** What decoding makes of the raw value. */
  datatype Payload = Tombstone | Undecodable | Readable(value: Value)

  datatype Rec = Rec(tp: TopicPartition, offset: nat, payload: Payload)

  /** Messages a consumer loop's producer carries: handler output and dead letters. */
  datatype Msg = Output(body: Body) | DeadLetter(rec: Rec)
}
