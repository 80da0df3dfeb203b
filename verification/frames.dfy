/** Decoded RSocket frames, reduced to what the demultiplexer looks at:
    the frame type and the stream identifier. Payload, metadata and flags
    are the codec's business and are not modelled. */
module Frames {

  /** The frame types of the RSocket protocol (section "Frame Types" of the
      RSocket Protocol specification). */
  datatype FrameType =
    | Reserved
    | Setup
    | Lease
    | KeepAlive
    | RequestResponse
    | RequestFnf
    | RequestStream
    | RequestChannel
    | RequestN
    | Cancel
    | Payload
    | Error
    | MetadataPush
    | Resume
    | ResumeOk
    | Ext

  datatype Frame = Frame(kind: FrameType, streamId: int)

  /** Frame types that only ever travel on stream 0. ERROR is absent on
      purpose: it exists both as a connection error and as a stream error. */
  predicate ConnectionOnlyType(t: FrameType) {
    t.Setup? || t.Lease? || t.KeepAlive? || t.MetadataPush? || t.Resume? || t.ResumeOk?
  }

  /** The four frame types that open a new stream. */
  predicate RequestType(t: FrameType) {
    t.RequestFnf? || t.RequestResponse? || t.RequestStream? || t.RequestChannel?
  }

  /** A connection-scoped frame: stream identifier 0, or a type that can only
      be connection-scoped. */
  predicate IsConnection(f: Frame) {
    f.streamId == 0 || ConnectionOnlyType(f.kind)
  }

  /** A frame that asks the receiver to open a new stream. */
  predicate IsRequest(f: Frame) {
    RequestType(f.kind)
  }
}
