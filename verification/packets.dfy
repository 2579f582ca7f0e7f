/**
 * The wire entities the handshake reads: fixed-width integers, the closed set
 * of frame variants that matter at handshake time, and the reply packet.
 * Byte-level encoding and decoding belong to the packet unpacker, which is not
 * part of this model.
 */
module Packets {

  /** An unsigned 32-bit value (C# `UInt32`), the width of a connection id. */
  newtype uint32 = x: int | 0 <= x < 0x1_0000_0000

  /** An unsigned 64-bit value (C# `UInt64`), the width of the stream limit. */
  newtype uint64 = x: int | 0 <= x < 0x1_0000_0000_0000_0000

  /** The frame variants the handshake distinguishes; every other variant is `OtherFrame`. */
  datatype Frame =
    | PaddingFrame
    | ConnectionCloseFrame(reasonPhrase: string)
    | MaxStreamsFrame(maximumStreams: uint64)
    | OtherFrame

  /**
   * A packet as returned by the unpacker. Only an initial packet carries the
   * source connection id the client adopts; any other packet type makes the
   * downcast in Connect fail.
   */
  datatype Packet =
    | InitialPacket(destinationConnectionId: uint32, sourceConnectionId: uint32, frames: seq<Frame>)
    | OtherPacket(frames: seq<Frame>)
}
