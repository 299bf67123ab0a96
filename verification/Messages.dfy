/** The parts of wire messages that decide where a message goes (src/message/mod.rs:97-278). */
module Messages {
  import opened Base

  datatype Kind =
    | ConnectRequest | ConnectResponse | Disconnect
    | UpstreamOpenRequest | UpstreamOpenResponse | UpstreamResumeRequest | UpstreamResumeResponse
    | UpstreamCloseRequest | UpstreamCloseResponse | UpstreamChunk | UpstreamChunkAck
    | UpstreamMetadata | UpstreamMetadataAck
    | DownstreamOpenRequest | DownstreamOpenResponse | DownstreamResumeRequest | DownstreamResumeResponse
    | DownstreamCloseRequest | DownstreamCloseResponse | DownstreamChunk | DownstreamChunkAck
    | DownstreamChunkAckComplete | DownstreamMetadata | DownstreamMetadataAck
    | Ping | Pong | UpstreamCall | UpstreamCallAck | DownstreamCall

  /** A decoded message; fields its kind does not have are ignored. */
  datatype Message = Empty | Body(kind: Kind, requestIdField: U32, streamIdAlias: U32, callId: string, resultCode: int)
  {
    function RequestId(): Option<U32> {
      if Empty? then None
      else
        match kind
        case Disconnect | UpstreamChunk | UpstreamChunkAck | DownstreamChunk | DownstreamChunkAck
           | DownstreamChunkAckComplete | UpstreamCall | UpstreamCallAck | DownstreamCall => None
        case _ => Some(requestIdField)
    }
  }

  /** The kind of response a request waits for; None for messages that are not requests. */
  function ResponseKind(k: Kind): Option<Kind> {
    match k
    case ConnectRequest => Some(ConnectResponse)
    case DownstreamCloseRequest => Some(DownstreamCloseResponse)
    case DownstreamMetadata => Some(DownstreamMetadataAck)
    case DownstreamOpenRequest => Some(DownstreamOpenResponse)
    case DownstreamResumeRequest => Some(DownstreamResumeResponse)
    case UpstreamCloseRequest => Some(UpstreamCloseResponse)
    case UpstreamMetadata => Some(UpstreamMetadataAck)
    case UpstreamOpenRequest => Some(UpstreamOpenResponse)
    case UpstreamResumeRequest => Some(UpstreamResumeResponse)
    case _ => None
  }

  const SUCCEEDED := 0

  /** The result codes of the protocol (src/message/proto/iscp2.v1.rs:117-157). */
  predicate KnownCode(code: int) {
    0 <= code <= 3 || 64 <= code <= 94 || 128 <= code <= 131
  }
}
