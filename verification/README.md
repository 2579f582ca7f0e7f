# QuicNet client handshake — Dafny model

This project models how the QuicNet client (`QuicClient`) bootstraps a QUIC
connection. It follows the steps of `Connect` and `ConnectAsync`:

1. resolve the peer's address and port;
2. build an initial packet seeded with connection ids (0, 0);
3. send it, then read exactly one reply;
4. scan the reply's frames (`HandleInitialFrames`);
5. unless the scan met a close frame, build a connection (`EstablishConnection`) whose local and peer ids are both the reply's source connection id.

Modules:

- `Wrappers` (`wrappers.dfy`): `Option` and `Result`.
- `Packets` (`packets.dfy`): `uint32`/`uint64`, the closed frame variant set
  {padding, connection close(reason), max streams(n), other}, and the reply packet.
- `FrameScan` (`frame_scan.dfy`): the reverse frame scan, written as the loop is
  (`Scan`), and an independent reference definition of which indices the
  scan visits (`ReachedFrom`, `Reached`), with the lemmas that connect the two.
- `QuicClient` (`quic_client.dfy`): the client's instance state, the event
  trace of one attempt, and `Handshake`, the single function behind both
  `Connect` (blocking mode) and `ConnectAsync` (suspending mode).

The scan is kept exactly as written:

- The loop counts down from the last index while the index is greater than 0, so the frame at index 0 is never inspected. A close frame there is ignored (`ScanSkipsIndexZero`, `IndexZeroCloseIsIgnored`).
- A padding frame ends the scan. Frames at lower indices have no effect.
- Max-streams frames are written in descending index order, so the visited one with the lowest index wins.
- The stream limit is a field of the client. Writes the scan makes before it meets a close frame therefore survive the failed call, and a later `Connect` on the same client starts from that value.

The scan result carries both the final limit and the optional close reason for this reason.

Consequences of the code as written:

- A close frame fails the call only when the scan reaches it. One at index 0, or at a lower index than a padding frame the scan meets, is ignored.
- The stream limit is instance state and persists across calls, including after a failed call.
- A reply with no reached max-streams frame keeps the prior limit. That limit is `QuicSettings.MaximumStreamId` only on a fresh client.

## Model

| member | source | states |
|---|---|---|
| FrameScan.HandleInitialFrames | QuicNet/QuicClient.cs:107-130 | The scan aborts with a close reason exactly when it visits a close frame, and then with that frame's reason phrase. The limit it leaves is the value of the visited max-streams frame with the lowest index, or the prior limit if none is visited. "Visited" is the reference definition `Reached`. |
| FrameScan.ScanCloseFrom | QuicNet/QuicClient.cs:110-118 | For a scan from any starting index: a close result implies a reached close frame with the same reason, and every reached close frame determines the reason. |
| FrameScan.ScanMaxStreamsFrom | QuicNet/QuicClient.cs:120-124 | For a scan from any starting index: with no reached max-streams frame the prior limit survives; otherwise the lowest reached one's value is the result ("last write wins" in descending order). |
| FrameScan.ScanCloseIgnoresLimit | QuicNet/QuicClient.cs:113-124 | Whether the scan aborts, and with which reason, does not depend on the limit it starts from. |
| FrameScan.ScanReadsFrom | QuicNet/QuicClient.cs:110-128 | The scan reads no frame below index 1, and no frame below a padding frame. Sequences that agree from that index upward give the same result. |
| FrameScan.ScanSkipsIndexZero | QuicNet/QuicClient.cs:110 | Replacing the frame at index 0 by any frame never changes the outcome. A reply with one frame always passes and keeps the limit. |
| FrameScan.IndexZeroCloseIsIgnored | QuicNet/QuicClient.cs:110-118 | Worked example of the index-0 skip: a reply whose only frame is a close frame passes the scan with the limit unchanged. |
| FrameScan.ScanStopsAtPadding | QuicNet/QuicClient.cs:126-128 | Once a padding frame at index p is met, any frames at indices below p may be substituted without changing the outcome, and none of them counts as visited. |
| QuicClient.Handshake | QuicNet/QuicClient.cs:51-72 | Ordering: a bad address fails with no I/O and no state change, and a bad port fails with `PortOutOfRange`. Otherwise the peer endpoint is recorded (and kept even if the call fails later), the initial packet is built with seeds (0, 0) and sent to that endpoint, and after a successful send exactly one read from the same endpoint follows; at most four steps are taken, and a failing call stops at the failing step (at most three steps, no retry). Errors: a send or read failure surfaces unchanged, and a reply that is not an initial packet fails the cast. Close: a reached close fails with exactly its reason and builds nothing. Success: a scanned reply whose scan reaches no close always connects; the fourth and last step establishes the connection, both ids equal the reply's source connection id, and the client's connection is replaced only here. Limit: it changes only through the scan, keeping its writes even on a close. |
| QuicClient.Connect | QuicNet/QuicClient.cs:51-72 | The blocking entry point is `Handshake(Blocking, ..)`: its send and read steps are all labelled blocking; everything else is `Handshake`'s contract. |
| QuicClient.ConnectAsync | QuicNet/QuicClient.cs:80-101 | The suspending entry point is `Handshake(Suspending, ..)`: its send and read steps are all labelled suspending; everything else is `Handshake`'s contract. |
| QuicClient.NewClient | QuicNet/QuicClient.cs:35-43 | A fresh client: no peer, no connection, and the stream limit set to the settings' maximum stream id. No contract of its own; `FreshClientKeepsDefaultLimit` states what it is used for. |
| QuicClient.ConnectAsyncMatchesConnect | QuicNet/QuicClient.cs:80-101 | The suspending entry point returns the same outcome and leaves the same client state as the blocking one. Its trace is the same step for step, except for the call-mode label. |
| QuicClient.OutcomeIgnoresClientState | QuicNet/QuicClient.cs:66-71 | The result (success or failure, the error, the connection built) and the steps taken do not depend on the client's earlier state. |
| QuicClient.FreshClientKeepsDefaultLimit | QuicNet/QuicClient.cs:35 | On a fresh client, a reply with no visited max-streams frame leaves the limit at the settings' maximum stream id. |
| QuicClient.SecondConnectInheritsLimit | QuicNet/QuicClient.cs:120-124 | A second Connect on the same client inherits the first call's limit and keeps it when its own reply has no visited max-streams frame. |
| QuicClient.ShortReplyConnects | QuicNet/QuicClient.cs:66-71 | A reply with at most one frame, even a lone close frame, always yields a connection and leaves the stream limit unchanged. |

## Left out

- Network I/O (`UdpClient`, `PacketWireTransfer` send/read and their async variants) is not modelled. A `Network` value scripts the outcome of the one send and the one read. Transport errors surface unchanged as `SendFailed`/`ReadFailed`.
- `async`/`await` scheduling is not modelled. The two entry points differ only in the call-mode label on their send and read events.
- `IPAddress.Parse` is a platform call. It is a parameter `parse: string -> Option<IpAddress>`.
- The port range check of the platform's `IPEndPoint` constructor (0 to 65535) is modelled as `PortOutOfRange`, after the parse as in the source. Null arguments cannot occur in the model.
- `InitialPacketCreator` and the packet's contents are external code. Only its seeds are recorded (`CreateInitialPacket(0, 0)`).
- `Unpacker` and byte encoding are external code. A reply is an abstract packet with ids and a frame sequence.
- The `(InitialPacket)` downcast is modelled as the `NotInitialPacket` error rather than as a precondition.
- The internals of `QuicConnection`/`ConnectionData` are not modelled. A connection is its channel's endpoint and its two ids.
- The unused `_stream` field and the client constructor's `UdpClient` are not modelled.
- `QuicSettings` is not part of this model. Its `MaximumStreamId` value is the parameter of `NewClient`.
