# UIO-Experiment: framing, epoll classification and server dispatch in Dafny

This project models the sequential core of UIO-Experiment. That repository is an
IPC experiment in which clients talk to a server over a Unix stream socket and
send file descriptors alongside their messages. The core has three parts.

- **Stream framing** (`StreamFraming`, libuio/src/socket.rs). A packet goes on
  the wire as the frame `u16 LE payload length L | u16 LE fd count C | L bytes`,
  and its descriptors travel as ancillary data. `PartialPacket` queues received
  bytes and received descriptors separately:
  - `try_drain_packet` cuts one frame off the front and binds the next C
    queued descriptors to it;
  - `drain_packets` repeats that until no complete frame is left;
  - `read_packets` appends one receive to the queues, then drains;
  - `write_packet` builds the frame.

  The model has a class `PartialPacket` with two `seq` fields. Its methods are
  proved against the functions `Drain` and `DrainAll`. The lemmas prove three
  things:
  - nothing is lost, duplicated or reordered;
  - the header decodes little-endian;
  - an encoded packet drains back to itself, however the stream is split
    across receives.
- **Epoll classification** (`Epoll`, uio-server/src/epoll.rs). `poll` walks the
  events the kernel wrote into an 8-slot array. It converts each event's `u64`
  back into a key and panics when that fails. It turns the flags into at most
  one `Ready`, `Broken` or `Hup` message per event, in event order. The loop is
  the method `Poll`, proved against `PollSpec`.
- **Server dispatch** (`Server`, uio-server/src/main.rs). The main loop keeps a
  table of clients keyed by their descriptor and the set of keys registered with
  the epoll. It dispatches each polled message:
  - accept and register;
  - handle a ready client;
  - drop a broken client;
  - die when the listening socket breaks.

  The class `EventLoop` holds the table, the registrations and a status. Its
  methods are proved against the function `Dispatch`. The lemmas prove the
  invariant that the registered client keys are exactly the table's
  descriptors.

The panics the model covers are explicit outcomes:
- the out-of-range slice of `try_drain_packet` as written is `SliceOutOfRange`
  of `DrainAsWritten`;
- the two `expect`s of `write_packet` are a `WriteError` of `BuildFrame`;
- a failed key conversion in `poll` is `KeyPanic`;
- the `expect`s on `poll` and `accept`, the `assert!` on a reused descriptor
  and the `panic!` on a broken socket in `main` are a `Panicked` status.

The panics listed under "## Left out" are not modelled. The class methods of
`PartialPacket` and `StreamChannel` model the code with the corrected length
guard, and `Poll` models the loop with the corrected classification; the code
as written is `DrainAsWritten` and `ClassifyAsWritten`.

Linux may set several condition bits in one event. The code's `continue` after
each push (uio-server/src/epoll.rs:101, 105, 109) reports at most one message per
event, and `Classify` does the same: `Ready` wins over `Broken`, and `Broken`
wins over `Hup`. This matches the comment on `Hup` at
uio-server/src/epoll.rs:40.

The module `PollId` (uio-server/src/poll.rs) is not part of this model. Its type
`Socket | Client(RawFd)` follows from its use in main.rs. Its `u64` encoding is
an assumption: `Client(fd)` is stored as `fd`, and `Socket` is stored as
`u64::MAX`. The encoding is chosen so that the round trip `K -> u64 -> K`
required at uio-server/src/epoll.rs:26-28 holds.

## Model

| member | source | states |
|---|---|---|
| `StreamFraming.U16FromLE` | libuio/src/socket.rs:42 | A header field is `lo + 256*hi` (little-endian) and never exceeds 65535. |
| `StreamFraming.LE16` | libuio/src/socket.rs:242-243 | `u16::to_le_bytes` gives two bytes that decode back to the value. |
| `StreamFraming.LE16OfU16` | libuio/src/socket.rs:47 | Re-encoding a decoded header field gives back the same two bytes. |
| `StreamFraming.Frame` | libuio/src/socket.rs:241-244 | The frame of a packet is header plus payload and is 4 bytes longer than the payload. |
| `StreamFraming.Drain` | libuio/src/socket.rs:37-62 | A frame is cut exactly when at least 4 bytes, at least `4+L` bytes and at least `C` descriptors are queued. Otherwise the result is None, which covers fewer than 4 bytes and too few descriptors. The packet gets `L` bytes and `C` descriptors, and both queues shrink by exactly that much. |
| `StreamFraming.DrainConserves` | libuio/src/socket.rs:52-57 | Old bytes equal the packet's frame (header re-encoded) followed by the remaining bytes. Old descriptors equal the packet's descriptors followed by the remaining ones. |
| `StreamFraming.DrainAsWritten` | libuio/src/socket.rs:37-62 | `try_drain_packet` as written. It never cuts an incomplete frame and never reports a complete one as missing; when it cuts a frame it cuts the same one as `Drain`; its slice runs out of range only on buffers holding at least the header and `L` bytes but no complete frame. |
| `StreamFraming.AsWrittenPanicsExactly` | libuio/src/socket.rs:42-57 | As written, the slice at line 52 runs out of range exactly when `L <= len < 4+L` and enough descriptors are queued. On every other input, the code as written agrees with the corrected guard. |
| `StreamFraming.GuardBugWitness` | libuio/src/socket.rs:43-52 | The 4-byte header `[1,0,0,0]` with no payload makes the code as written panic. The corrected guard waits for more bytes instead. |
| `StreamFraming.DrainAll` | libuio/src/socket.rs:65-71 | Every drained packet fits the wire format, and no complete frame is left behind. |
| `StreamFraming.DrainAllConserves` | libuio/src/socket.rs:65-71 | The frames of the drained packets, in order, followed by the leftover bytes are the original bytes. The same holds for descriptors. |
| `StreamFraming.ConservesStep` | libuio/src/socket.rs:65-71 | One packet in front of already-conserved leftovers still conserves bytes and descriptors. |
| `StreamFraming.FramesCons` | libuio/src/socket.rs:241-244 | The frames and descriptors of a packet list split at its first packet. |
| `StreamFraming.FramesAppend` | libuio/src/socket.rs:241-244 | Framing a concatenation of packet lists gives the concatenation of their frames, and likewise for their descriptors. |
| `StreamFraming.DrainAllUnfold` | libuio/src/socket.rs:67-68 | Once a frame is cut, draining continues on the remainder and puts that packet first. |
| `StreamFraming.DrainFrame` | libuio/src/socket.rs:52-57 | Round trip of one frame. If the buffer starts with the frame of `p` and at least as many descriptors as `p` carries are queued, draining yields `p`'s payload and that many queued descriptors from the front, and leaves the suffixes. |
| `StreamFraming.DrainFrameExact` | libuio/src/socket.rs:52-57 | If the queued descriptors start with `p`'s own, draining the frame of `p` gives back exactly `p`. |
| `StreamFraming.DrainExtend` | libuio/src/socket.rs:37-62 | Appending more input does not change the frame already cut from the front. |
| `StreamFraming.DrainAllAppend` | libuio/src/socket.rs:212-236 | Draining, appending and draining again gives the same packets, in the same order, and the same leftover as appending first and draining once. |
| `StreamFraming.AppendGlue` | libuio/src/socket.rs:212-236 | The two drains together account for all the input of both reads. |
| `StreamFraming.DrainAllFrames` | libuio/src/socket.rs:65-71 | The frames of `ps` followed by an incomplete remainder drain to exactly `ps`, with the remainder left queued. |
| `StreamFraming.ChunkingIrrelevant` | libuio/src/socket.rs:174-237 | Successive `read_packets` calls yield what one read of all the input would yield. |
| `StreamFraming.ReadEach` | libuio/src/socket.rs:174-237 | Successive `read_packets` calls, one per receive. Packets already returned stay in front, in order, every packet fits the wire format, and after at least one receive no complete frame is left queued. |
| `StreamFraming.StreamRoundTrip` | libuio/src/socket.rs:239-244 | However the frames and descriptors of `ps` are split across receives, a fresh buffer yields exactly `ps` and ends empty. |
| `StreamFraming.BuildFrame` | libuio/src/socket.rs:241-244 | It fails exactly when a header field does not fit a u16, and reports `PacketTooBig` exactly when the payload is over 65535 bytes. Otherwise it returns the frame, 4 bytes longer than the payload, and that frame drains back to `p` with nothing left. |
| `StreamFraming.PartialPacket.constructor` | libuio/src/socket.rs:73-78 | Both queues start empty. |
| `StreamFraming.PartialPacket.TryDrainPacket` | libuio/src/socket.rs:37-62 | It returns `Drain`'s packet and leaves `Drain`'s remainders. When no frame is complete it returns None and changes nothing. |
| `StreamFraming.PartialPacket.DrainPackets` | libuio/src/socket.rs:65-71 | It returns `DrainAll`'s packets in extraction order and leaves `DrainAll`'s leftovers in the queues. |
| `StreamFraming.PartialPacket.Append` | libuio/src/socket.rs:212-213 | Received bytes and descriptors are appended to the end of their queues. |
| `StreamFraming.StreamChannel.constructor` | libuio/src/socket.rs:143-145 | A new channel starts with empty, freshly allocated queues. |
| `StreamFraming.StreamChannel.ReadPackets` | libuio/src/socket.rs:174-237 | A failed receive is an error and leaves the buffer alone. Otherwise the result is exactly `DrainAll` of the old queues extended by the received bytes and descriptors, and the buffer keeps its leftovers. |
| `Epoll.Classify` | uio-server/src/epoll.rs:34-42 | An event gives `Ready` exactly when `EPOLLIN` is set. It gives `Broken` exactly on `EPOLLERR` without `EPOLLIN`, and `Hup` exactly on `EPOLLHUP` with neither. The message carries the event's key. |
| `Epoll.ClassifyAsWritten` | uio-server/src/epoll.rs:99-110 | The classification as written. Any message it produces is `Ready` with the event's key. |
| `Epoll.AsWrittenOnlyReady` | uio-server/src/epoll.rs:99-110 | As written, the classification yields a message exactly when `EPOLLIN` is set, and it is always `Ready`. It agrees with the intended classification exactly on events that have `EPOLLIN` or neither error nor hang-up. |
| `Epoll.UnreachableBranchWitness` | uio-server/src/epoll.rs:103-110 | `EPOLLERR`, `EPOLLHUP` and both together each yield nothing as written, but yield `Broken`, `Hup` and `Broken` as intended. |
| `Epoll.PollSpec` | uio-server/src/epoll.rs:90-111 | When no key conversion fails, there is at most one message per event. |
| `Epoll.PollOne` | uio-server/src/epoll.rs:92-110 | A single event converts its key, panicking on failure, and then classifies its flags. |
| `Epoll.PollSnoc` | uio-server/src/epoll.rs:91-110 | One more event appends that event's message after the earlier ones. |
| `Epoll.PollAppend` | uio-server/src/epoll.rs:91 | Events are processed in order: the messages of `a + b` are those of `a` followed by those of `b`. |
| `Epoll.PollPanicIff` | uio-server/src/epoll.rs:94-97 | `poll` panics exactly when some event's data does not convert back to a key. |
| `Epoll.Poll` | uio-server/src/epoll.rs:79-113 | A negative count is an OS error. The method panics exactly when one of the `numEvents` filled slots has an unconvertible key. Otherwise it returns `PollSpec` of the filled prefix, which is at most 8 messages. |
| `Server.EncodeKey` | uio-server/src/epoll.rs:26-28 | Decoding an encoded key gives it back (`K -> u64 -> K`). |
| `Server.DecodeKey` | uio-server/src/epoll.rs:94-97 | The `u64 -> PollId` conversion `poll` applies. It gives `Socket` exactly for `u64::MAX` and `Client(fd)` only for `fd` itself. |
| `Server.DecodeKeyExact` | uio-server/src/epoll.rs:94-97 | Decoding succeeds exactly on encoded keys and re-encodes to the same `u64`. |
| `Server.RegisteredKeysNeverPanic` | uio-server/src/epoll.rs:26-28 | If every event carries a registered key, `poll` does not panic. |
| `Server.Initial` | uio-server/src/main.rs:39-48 | After setup, only the listening socket is registered, the table is empty, and the state is consistent. |
| `Server.Dispatch` | uio-server/src/main.rs:56-93 | Every message keeps the registered client keys equal to the table's descriptors, with the socket still registered. |
| `Server.ReadyUnknownSkipped` | uio-server/src/main.rs:61 | `Ready(Client(fd))` with no table entry changes nothing. |
| `Server.ReadyHandlesOnlyItsClient` | uio-server/src/main.rs:59-63 | `Ready(Client(fd))` runs the handler on that client only. Every other entry, the registrations and the status are unchanged. |
| `Server.AcceptRegisters` | uio-server/src/main.rs:64-81 | The accepted client is registered under `Client(fd)` and inserted at `fd`. The server keeps running exactly when `fd` was not already in use, and otherwise dies on the assertion. |
| `Server.AcceptRefusedFatal` | uio-server/src/main.rs:66 | A failed `accept` stops the server. |
| `Server.Closed` | uio-server/src/main.rs:83-90 | `Broken` or `Hup` on a key. On a client, its descriptor leaves the table and the status is unchanged. On the socket, the server panics. Consistency is preserved. |
| `Server.CloseRemoves` | uio-server/src/main.rs:83-89 | `Broken` or `Hup` on a client removes its entry and its registration. A missing entry is ignored. |
| `Server.CloseIdempotent` | uio-server/src/main.rs:86 | Closing the same client twice is the same as closing it once. |
| `Server.SocketBrokenFatal` | uio-server/src/main.rs:90 | `Broken` or `Hup` on the listening socket stops the server. |
| `Server.DispatchAll` | uio-server/src/main.rs:56-93 | The messages of one poll, dispatched in order. A panic is never undone: a running result comes only from a running state. |
| `Server.DispatchAllConsistent` | uio-server/src/main.rs:56-93 | A whole batch of messages keeps the table consistent. |
| `Server.PanicIsFinal` | uio-server/src/main.rs:80-90 | After a panic, no further message changes anything. |
| `Server.DispatchAllAppend` | uio-server/src/main.rs:56 | Messages are handled sequentially in the order returned: a batch is its two halves one after the other. |
| `Server.Round` | uio-server/src/main.rs:51-93 | One turn of the main loop. A server that has already panicked does not poll again and is left unchanged. A running result means the wait succeeded and every key converted. |
| `Server.RoundConsistent` | uio-server/src/main.rs:51-93 | Every turn of the main loop keeps the table consistent. |
| `Server.EventLoop.constructor` | uio-server/src/main.rs:40-48 | The loop starts in the initial, consistent state. |
| `Server.EventLoop.Close` | uio-server/src/main.rs:83-91 | The new state is `Closed` of the old one. |
| `Server.EventLoop.HandleEvent` | uio-server/src/main.rs:57-92 | The new state is `Dispatch` of the old one, and consistency is preserved. |
| `Server.EventLoop.HandleEvents` | uio-server/src/main.rs:56-93 | The new state is the in-order dispatch of the whole batch, stopping at the first panic. |
| `Server.EventLoop.RunOnce` | uio-server/src/main.rs:51-93 | The new state is `Round` of the old one: one poll followed by dispatch of its messages. A failed poll or a bad key stops a running server, and a server that has already panicked is left as it is. Consistency is preserved. |

## Left out

- Raw syscalls are left out: `socket`, `bind`, `listen`, `accept`, `connect`, `recvmsg`, `sendmsg` and `epoll_create`/`epoll_ctl`/`epoll_wait`. A receive is an input `Recv`, which is a chunk of bytes and descriptors or a failure. `accept` is an input `Accept`, and the kernel's event array and count are inputs to `Poll`.
- The first, discarded `rustix` wait in `poll` (uio-server/src/epoll.rs:76-77) is left out. Only the `libc::epoll_wait` count is modelled.
- Failures of `Epoll::add` and `Epoll::delete` (uio-server/src/main.rs:70-71, 87-88) are not modelled. Registration always succeeds, so the model does not capture `EEXIST` from registering a descriptor twice. That case would panic before the assertion at main.rs:80, which the model reports as `FdInUse`.
- The receive flag checks and the credential and unknown-ancillary-data panics of `read_packets` (libuio/src/socket.rs:216-232) are left out. So are the partial-send panic of `write_packet` and its `sendmsg` plumbing (libuio/src/socket.rs:246-269).
- A receive is at most 16 KiB and 32 descriptors (libuio/src/socket.rs:175-180). The model allows chunks of any size.
- The bincode conversions (libuio/src/socket.rs:84-100) and the message types are left out. The client handler (uio-server/src/handler.rs) is an opaque function `C -> C` applied to the client's table entry. Handler panics are not modelled.
- The setup of `main` (uio-server/src/main.rs:22-37) and all `println!` logging are left out, as is close-on-drop of `OwnedFd`. Descriptors are plain numbers.
- `PollId` and its `u64` conversion (uio-server/src/poll.rs) are not part of this model. The encoding in `Server.EncodeKey` is an assumption chosen to satisfy the round-trip law.
- `Epoll.Classify` reports one condition per event, following the code's `continue`s at uio-server/src/epoll.rs:101, 105 and 109. An event with `EPOLLIN` and `EPOLLHUP` set gives `Ready` only.
- Epoll flag words are `bv32`. The cast `event.events as i32` does not change any bit, so it is not modelled.

## Findings

| source | as written | input that shows it | evidently intended | confidence | as-written member | corrected member |
|---|---|---|---|---|---|---|
| libuio/src/socket.rs:43 | The length guard tests `data.len() < packet_length`, so a header with only part of its payload passes, and the slice `data[4 .. 4+L]` at line 52 runs past the end. | Buffer `[1, 0, 0, 0]` (L = 1, C = 0) with no descriptors queued: the guard passes, and slicing `4..5` of a 4-byte buffer panics. | Compare against `4 + L` and return None until the whole frame has arrived. | high; not executed | `StreamFraming.GuardBugWitness` | `StreamFraming.Drain` |
| uio-server/src/epoll.rs:103-110 | The `Broken` and `Hup` branches test `EPOLLIN` again. They only run after the `EPOLLIN` test failed, so they are unreachable, and error and hang-up events produce no message. | An event with flags `EPOLLERR` (0x8) only: no message, so main.rs never removes the broken client. | Test `EPOLLERR` for `Broken` and `EPOLLHUP` for `Hup`, as the comments at lines 38-41 say. | high; not executed | `Epoll.UnreachableBranchWitness` | `Epoll.Classify` |
