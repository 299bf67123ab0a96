/** The message fields and public values the stream engines work on (src/iscp/types.rs, src/message). */
module Types {
  import opened Base

  /** Sixteen bytes. */
  type Uuid = b: Bytes | |b| == 16 witness [0, 0, 0, 0, 0, 0, 0, 0, 0, 0, 0, 0, 0, 0, 0, 0]

  datatype DataId = DataId(name: string, type_: string)

  datatype DataPoint = DataPoint(elapsedTime: int, payload: Bytes)

  datatype DataPointGroup = DataPointGroup(dataId: DataId, dataPoints: seq<DataPoint>)

  datatype UpstreamInfo = UpstreamInfo(sessionId: string, streamId: Uuid, sourceNodeId: string)

  /** An upstream's description as it travels: the stream id is a byte string of any length. */
  datatype InfoMessage = InfoMessage(sessionId: string, streamId: Bytes, sourceNodeId: string)

  datatype DataIdOrAlias = Id(dataId: DataId) | Alias(alias: U32)

  datatype DownstreamChunk =
    DownstreamChunk(sequenceNumber: U32, dataPointGroups: seq<DataPointGroup>, upstream: UpstreamInfo)

  datatype QoS = Unreliable | Reliable | Partial

  datatype Error = InvalidValue | TooManyUpstreams | Reordering(stream: Uuid)
}
