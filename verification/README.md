# KA9Q NOS: models and proofs

KA9Q NOS is a TCP/IP and AX.25 stack for small machines, with its own scheduler and heap. These Dafny modules model
its hardware-free state machines and data structures, and prove what they are for.

Where the source updates an object in place, the model is a class with the source's fields. Its `Value()` (for the
heap, the ghost `mem`) gives the state as a value, and each method's contract equates the new value with a step
function of the old one. The theorems are about those step functions and about whole runs of them.

| files | what is modelled | main results |
|---|---|---|
| `LapbFrame`, `LapbSpec`, `LapbMachine`, `LapbLocal`, `LapbLink`, `LapbOpen`, `LapbLive`, `LapbSegment` | the LAPB link of AX.25 version 2.0, section 2.4: control octets, the control block with its timers, two endpoints over lossy channels, segmentation | `Delivery`, `EndToEnd`, `EarlyEndToEnd`, `NeverWaitsOnNothing`, `RecoveryIsTimed` |
| `Ip`, `IpReasm`, `IpDelivery` | IP fragmentation and reassembly (section 3.2 of RFC 791) | `FragmentThenReassemble`, `Refragment`, `FirstPieceLast`, `FaultIff` |
| `Cksum`, `IpHdr`, `IpHop` | the Internet checksum (section 2 of RFC 1071), the IP header, and a datagram with options over many hops (RFC 1141) | `Checksum`, `HeaderRoundTrip`, `CrossVerifies`, `HopsOnWire` |
| `Route` | hashed chains with a cache, against longest-prefix match; merging of redundant routes | `Lookup`, `MergeExactly`, `MergeHarmless` |
| `Mbuf` | shared, reference-counted buffers, as flat runs of octets | `CachedIff`, `OthersFlat`, the methods of `Buffers`, among them `PushPull` |
| `Alloc` | first-fit, address-ordered, coalescing heap | `Malloc`, `Free`, `Determined`, `FreeUndoesMalloc` |
| `Kernel`, `KernelMachine` | ready, wait and suspend lists, and the signal queue | `RunsKeep`, `KSigReadies`, `NoLostWakeup`, `SuspendsItselfIff`, `QueuedAre` |
| `Pool` | the dynamic address pool of the BOOTP server | `Conserved`, `CanStop` with `ReclaimStops` |
| `Crc`, `Ahdlc` | CRC-16 and asynchronous HDLC framing (section 4.2 and appendix C.2 of RFC 1662) | `RoundTrip`, `BurstDetected`, `TooBig` |
| `Dns` | names of RFC 1035, sections 3.1 and 4.1.4 | `RoundTrip`, `Compressed`, `OneTooMany`, `PointerFollowed`, `SettledIff` |
| `Ax25` | AX.25 address headers, digipeating, learned routes | `RoundTrip`, `RelayedInOrder`, `LearnsReversePath` |
| `Bytes`, `Lists` | octets; optional values and lists without repeats | |

## Where the code and what it promises differ

Each of these is modelled as the code has it, and what is proved says exactly when the promise holds. One line, the
store through `bpp` in reassembly, is modelled as it is meant, with the condition for the code as it stands beside it.

- **Segment size** (`lapb.c:637`). A packet one octet longer than the segment size is sent whole, so an I-field can
  exceed that size by one. `LapbSegment.SegmentSizes`: all I-fields fit if and only if the packet is not exactly one octet
  over.
- **RNR** (`lapb.c:170`, `lapb.c:258`). `control == RNR` compares the whole octet, so only an RNR with N(R) = 0 and no
  P/F bit is taken for busy. `LapbFrame.BusyTestIsPartial`: that octet and no other.
- **T1 in RECOVERY** (`lapb.c:256-278`, `ax25.c:339-340`). With an AX.25 version 1 peer, such an RNR in RECOVERY leaves
  neither T1 nor T3 running while data waits; and a frame whose addresses carry no command or response sense makes the
  peer one of version 1. `LapbLive.RecoveryIsTimed`: while all frames carry a sense, T1 runs in RECOVERY in every life
  if and only if the link is configured for version 2; over all lives it does so for no configuration. `LapbLive.StopsT1`
  is the life that ends with both timers stopped, for every configuration that has one.
- **Reading before the answer** (`ax25user.c:121-146`, `lapb.c:431-439`). Asking for a link does not clear the receive
  sequence number or what was received over an earlier one. A read before the answer arrives can then send an RR with the
  old number, and the peer frees frames that were not accepted. `LapbOpen.ReadsIff`: with a full receive queue left, the
  peer frees only what was accepted, over all runs until the answer, if and only if the number left is 0;
  `LapbOpen.ReadTooSoon` is the run. `LapbOpen.EarlyEndToEnd` is for links with no such number, or nothing left to read.
- **A packet not finished** (`lapb.c:73-92`, `lapb.c:568-619`). Nor does it clear the reassembler.
  `LapbSegment.NextPacketIff`: the next packet is handed up as it was sent if and only if no segments are waited for, or
  none of the octets of the earlier packet is held and just as many segments are waited for as this one has.
- **Reading everything** (`ax25user.c:121-146`). Asked for all there is, `recv_ax25` counts the octets of the first
  mbuf only before it decides whether to tell a peer that the link is no longer busy. `LapbLocal.RecvReopens`: a read
  that makes room in a full queue tells the peer if and only if it asked for a number of octets, or the first mbuf alone
  fills the window. `LapbLocal.RecvForgets` is a queue of two mbufs of which the peer is not told.
- **IP options** (`iproute.c:116-219`). A node on the way writes its address into a record of the route that has room,
  and drops a datagram whose record has room for less than an address. `IpHop.CalmIff` says for exactly which options it
  passes the header on as it was, `IpHop.RouteRecorded` gives an option of each of the other kinds, and
  `IpHop.CrossVerifies` says that whatever comes through verifies, options or not.
- **TTL 0** (`iproute.c:243-257`). A datagram that arrives with a time to live of 0 leaves with 255, and its patched
  checksum no longer verifies. `IpHdr.HopVerifies`: a hop keeps a verifying header verifying if and only if the time to
  live was not 0.
- **Merging routes** (`iproute.c:684-778`). `rt_merge` drops a route that matches any enclosing route with the same
  interface and gateway, even when a different one lies between. `Route.MergeMisroutes` is such a table.
  `Route.MergeExactly`, for every table: the choice for an address stays the same if and only if what serves it stays, or
  the next entry around it that stays has the same interface and gateway. `Route.MergeHarmless`, without looking at
  addresses: when every dropped route is the best for some address of its own, merging changes nobody's route if and only
  if none lies between.
- **Oversize HDLC frames** (`ahdlc.c:33-39`). The receiver remembers an escape while it hunts for a flag, and so can take
  the next flag for data. `Ahdlc.TooBig` says for exactly which oversize frames the closing flag does not end the hunt;
  `Ahdlc.TwoFlags` says that two flags in a row always do.
- **Compression pointers** (`domhdr.c:247-295`). `dn_expand` does not follow a pointer found where another one points:
  it takes it for the length of a label of at least 192 octets.
  `Dns.PointerFollowed`: a pointer is followed to the name it leads to, of up to 192 octets, if and only if its target is not
  itself a pointer. `Dns.PointerLost` is a pointer to a pointer to the root that is not found.
- **The end of the message** (`domhdr.c:247-295`). `dn_expand` has a parameter for it, and does not look at it.
  `Dns.SettledIff`: the name read is the same whatever follows the message in memory if and only if the octets of the
  message alone take its reader to its end (`Dns.Read`); for names that do not come to half a pointer at the very end,
  which takes a message that ends in one (`Dns.HalvedAtEnd`). `Dns.CutShort` is a message whose name depends on the next
  octet.
- **The end of a name** (`domhdr.c:277-292`). `dn_expand` counts the NUL, and the dot of the root, only after it has
  looked for room, and so can write one octet more than it was given. `Dns.OneTooMany`: what is written for any name but
  the root fits if and only if its text does not fill the buffer; for the root, if the buffer holds two octets.
  `Dns.EightLabels`: eight labels of 63 octets make it write 513 octets into the 512 that its callers have.
- **The source's E bit** (`ax25hdr.c:8-62`). `htonax25` does not clear the address extension bit of the source when
  digipeaters follow. `Ax25.RoundTrip`: decoding gives the header back if and only if there are none or the bit was clear.
- **The reclaim count** (`bootpdip.c:696`). `da_get_old_addr` takes an address off the reclaim queue without
  counting it. `Pool.Conserved`: the count is right if and only if this never happened. `Pool.CanStop` reaches any drift up to 15,
  and `Pool.ReclaimStops` says that from 15 on no address ever becomes free again.
- **Superseded fragments** (`ip.c:279-286`). The code tests `tfp->next` where `nextfrag->next` is needed. When it has
  superseded the last fragment of the list it goes through a null pointer; when the last but one, the link back of the
  last stays as it was, to an entry that is freed, and is followed when that one is superseded in turn. The outcome in the
  model is then `Fault`. `IpReasm.FaultIff` says exactly when, for any list; `IpDelivery.ChainFaultIff`: among
  fragments of one datagram that have not overlapped so far, if and only if a fragment begins before the last entry held
  and covers it. `IpReasm.FaultReached` are two fragments that lead to the one, `IpReasm.StaleReached` five to the other.
- **The store through `bpp`** (`ip.c:318`, `ip.c:344`). The code has `bpp = NULL` where `*bpp = NULL` is meant, which is
  what the model has, and stores through `bpp` when the datagram is complete. As it stands, that is a store through a null
  pointer. `IpDelivery.PrependIff` and `IpDelivery.FirstPieceLast`: over any history of arrivals, it comes to that if and
  only if the piece that completes the datagram is the first of several. `IpReasm.NullStored` is the shortest.
- **Repeated signals** (`kernel.c:404-407`). From an interrupt, a signal for the event signalled last is dropped while
  signals are queued, whatever its count. `Kernel.QueuedAre`: of any signals given while none is applied, the queue holds
  the first of each run for one event, up to its 200 places. `Kernel.BroadcastLost` loses a signal for all waiters behind
  one for a single waiter.
- **Suspending oneself** (`kernel.c:206-218`, `kernel.c:307-313`). `suspend` leaves it to `kwait` to give up the processor,
  which does not when nobody else is ready. `Kernel.SuspendsItselfIff`: a process that suspends itself goes on running,
  marked as suspended, if and only if no other is ready and the queued signals are for nobody who waits.

## Model

| member | source | states |
|---|---|---|
| LapbFrame.EncodeDecode | lapb.h:27-50 | Every control octet, read as a frame and written again, is the same octet. |
| LapbFrame.DecodeEncode | ax25subr.c:220-230 | Every legal frame kind, with its sequence numbers and P/F bit, survives writing and reading. |
| LapbFrame.BusyTestIsPartial | lapb.c:168-174 | The code's test for RNR holds of exactly one octet: N(R) = 0 and no P/F bit. |
| LapbMachine.AxCb.LapbInput | lapb.c:23-361 | The whole control block after a frame is `Input` of the block before it, which is what the link theorems are about. |
| LapbMachine.AxCb.InputDisconnected | lapb.c:73-92 | DISCONNECTED: SABM opens the link with fresh counters and round-trip time, DM is ignored, any other polled command is refused with DM. |
| LapbMachine.AxCb.InputSetup | lapb.c:93-117 | SETUP: UA completes the opening, DM refuses it and drops the queue, SABM and DISC are answered, all else is ignored. |
| LapbMachine.AxCb.InputDiscPending | lapb.c:118-136 | DISCPENDING: UA or DM completes the release, DISC is answered with UA, SABM and polled commands with DM. |
| LapbMachine.AxCb.InputUp | lapb.c:137-348 | CONNECTED and RECOVERY: the frame kinds go where `InUp` sends them, with RR and RNR of CONNECTED handled in place. |
| LapbMachine.AxCb.InputUpU | lapb.c:139-167 | Unnumbered frames while the link is up: SABM resets it, DISC and DM take it down, UA and FRMR re-establish it; only SABM and DISC differ in RECOVERY. |
| LapbMachine.AxCb.InputUpS | lapb.c:175-306 | REJ in CONNECTED, and RR, RNR and REJ in RECOVERY: acknowledge, go back, and leave RECOVERY on a final response (any response of an old peer) that acknowledges everything. |
| LapbMachine.AxCb.InputUpI | lapb.c:188-344 | I frames acknowledge first; a full receive queue drops them (with RNR), else only the one in sequence is taken. |
| LapbMachine.AxCb.RejectI | lapb.c:201-210 | An I frame out of sequence is answered by one REJ until the gap closes (by one each for an old peer), later polls by a status. |
| LapbMachine.AxCb.ReceiveI | lapb.c:201-220 | An I frame in sequence moves V(R), clears the REJ condition, reaches `procdata`, and asks for RR or RNR. |
| LapbMachine.AxCb.FlushResponse | lapb.c:352-359 | A response still owed after output is sent, once. |
| LapbMachine.AxCb.AckOurs | lapb.c:366-427 | The loop over N(R) is the recursive window slide of `LapbSpec.AckOurs`; it fails only when frames are counted that are not queued. |
| LapbMachine.AxCb.EstablishLink | lapb.c:431-439 | Start of a link: exceptions and retries cleared, SABM sent, T1 started; sequence numbers and the reassembler are left. |
| LapbMachine.AxCb.EnquiryResponse | lapb.c:452-461 | The answer to a poll: RR with F, or RNR with F when the receive queue is full. |
| LapbMachine.AxCb.InvokeRetransmission | lapb.c:464-470 | Go back: V(S) returns to the oldest unacknowledged frame. |
| LapbMachine.AxCb.LapbOutput | lapb.c:485-537 | The loop sends the frames the window allows, and its count is what the window grew by. |
| LapbMachine.AxCb.LapbState | lapb.c:550-566 | A change of state; on DISCONNECTED both timers stop and the queue is dropped. |
| LapbMachine.AxCb.ProcessData | lapb.c:568-619 | The reassembler: first segment, later segments in order, a gap, and unsegmented data. |
| LapbMachine.AxCb.Recover | lapbtime.c:13-60 | Expiry of T1 in each state: back off, retry or give up. |
| LapbMachine.AxCb.PollThem | lapbtime.c:65-80 | Expiry of T3: an idle link is polled. |
| LapbMachine.AxCb.TransmitEnquiry | lapbtime.c:83-109 | The poll: RR or RNR, or the oldest I frame again if it is short or the peer is old. |
| LapbMachine.AxCb.OpenAx25 | ax25user.c:15-73 | An open is refused in every state but DISCONNECTED, whatever the switch behind that test has for them; else an active one asks for the link and a passive one listens. |
| LapbMachine.AxCb.AxInput | ax25.c:339-343 | A frame whose addresses carry no sense makes the peer one of version 1, before the frame itself is processed. |
| LapbMachine.AxCb.SendQueue | ax25user.c:114-117 | Packets that carry their own PID are queued as they are, then transmitted. |
| LapbMachine.AxCb.SendAx25 | ax25user.c:83-118 | The packetizing loop queues exactly `Packetize` of the data, then transmits. |
| LapbMachine.AxCb.RecvAx25 | ax25user.c:121-146 | What is read, followed by what is left, is what was there; RR is sent when the count shows that the queue is no longer full. |
| LapbMachine.AxCb.DiscAx25 | ax25user.c:149-174 | A release in each state; it is a listening control block that is to be deleted. |
| LapbLocal.AckLoopFrees | lapb.c:382-410 | With modulo-8 numbers that stand for absolute ones at most 7 apart, the loop frees exactly the frames below N(R), up to what is outstanding. |
| LapbLocal.AckOursSlides | lapb.c:366-427 | So the whole call keeps the window: freed plus unacknowledged is the number sent so far. |
| LapbLocal.SendLoopFills | lapb.c:485-537 | The send loop sends truthful I frames until `unack` is the smaller of the window and the queue. |
| LapbLocal.InputKeeps | lapb.c:23-361 | One frame with truthful numbers: the window stays sound, everything sent is truthful, and the data accepted grows by exactly this frame's if it is next. |
| LapbLocal.RecoverKeeps | lapbtime.c:13-60 | Expiry of T1 accepts and frees nothing and sends only truthful frames. |
| LapbLocal.PollThemKeeps | lapbtime.c:65-80 | The same of T3. |
| LapbLocal.SendFieldsKeeps | ax25user.c:83-118 | Sending appends exactly these I-fields to what was queued and sends only truthful frames. |
| LapbLocal.RecvKeeps | ax25user.c:121-146 | Reading accepts and frees nothing, for every value of the mbuf count. |
| LapbLocal.RecvReopens | ax25user.c:121-146 | A read that makes room in a full receive queue sends RR if and only if it asked for a number of octets, or the first mbuf alone fills the window; nothing else is ever sent. |
| LapbLocal.RecvForgets | ax25user.c:121-146 | Two mbufs of one octet in a window of two, all read at once: there is room, and no RR is sent. |
| LapbLocal.DiscKeeps | ax25user.c:149-174 | A release accepts and frees nothing, and takes the link down. |
| LapbLink.AcceptedIsNext | lapb.c:188-220 | An I frame whose modulo-8 number equals V(R) is the very next one in absolute numbers. |
| LapbLink.NextKeeps | lapb.c:23-361 | Every step at either end (arrival, loss, T1, T3, send, read, release) keeps the invariant of both directions. |
| LapbLink.RunKeeps | lapb.c:23-361 | So does every run. |
| LapbLink.Delivery | lapb.c:366-427 | In every run, the I-fields accepted are a prefix of those queued by the peer, in order and without repeats; `ackours` frees only frames the peer has accepted, and is at most a window behind. |
| LapbOpen.EarlyKeeps | lapb.c:73-117 | While the answer to the SABM is under way, anything at the accepting end, and sends, reads, losses and T3 at the opening end, keep the invariant of the link behind that answer. |
| LapbOpen.AnswerArrives | lapb.c:93-117 | When the answer arrives, the opening end is up, sends what was queued meanwhile, and the invariant of the link holds. |
| LapbOpen.EarlyDelivery | lapb.c:73-117 | Delivery from the answer on: I frames sent before the opener has processed the UA are accepted as a prefix of what was queued, in order and without repeats. |
| LapbOpen.OpeningAsks | ax25user.c:15-73 | Two new control blocks: the open, what is offered at once, and the answer to the SABM lead to the start of these theorems. |
| LapbOpen.ReadsIff | ax25user.c:121-146 | With a full receive queue left from an earlier link, the peer frees only what was accepted, over all runs until the answer, if and only if no sequence number is left with it. |
| LapbOpen.ReadTooSoon | ax25user.c:121-146 | The run otherwise: a frame sent, the queue read, and the frame freed that was not accepted. |
| LapbLive.StaysLive | lapb.c:137-361 | Every frame, timer or user call, in every state, keeps: the window full when the peer is not busy, T1 running whenever a frame is unacknowledged. |
| LapbLive.NeverWaitsOnNothing | lapb.c:485-537 | Over every life of a control block, frames that make the peer an old one included: `unack` is the smaller of the window and the queue, T1 runs while frames wait and in RECOVERY, but for a busy version 1 peer. |
| LapbLive.RecoveryIsTimed | lapb.c:256-278 | T1 runs in RECOVERY in every life in which all frames carry a sense if and only if the link is configured for version 2; over all lives, for no configuration. |
| LapbLive.StopsT1 | lapb.c:256-278 | A life that ends in RECOVERY with data queued and no timer running: for every version 1 configuration, and for any at all when the frames carry no sense. |
| LapbSegment.Segmenter | lapb.c:623-662 | The cutting loop builds exactly `Segment`. |
| LapbSegment.SegmentAbsorb | lapb.c:568-619 | Reassembling the segments of a packet hands up exactly that packet, PID split off, and leaves the reassembler idle. |
| LapbSegment.UpKeepsAssembler | lapb.c:73-167 | No unnumbered frame and no open clears the reassembler. |
| LapbSegment.NextPacketIff | lapb.c:568-619 | A packet that arrives over any state of the reassembler is handed up as it was sent if and only if no segments are waited for; or as many as it has, of a packet of which no octet is held. |
| LapbSegment.SegmentSizes | lapb.c:623-662 | Segments never exceed the size by more than one octet, and fit if and only if the packet is not one octet over. |
| LapbSegment.StreamWhole | ax25user.c:83-118 | The I-fields of a stream carry its octets, none lost or added, each within the packet length and its PID. |
| LapbSegment.StreamAbsorb | ax25user.c:83-118 | Receiving the I-fields of a stream hands up its chunks in order. |
| LapbSegment.AllAbsorb | lapb.c:568-619 | Receiving the I-fields of a list of packets and streams hands up those packets and chunks in order. |
| LapbSegment.RunEffect | lapb.c:188-220 | In every run, at both ends, what reached `procdata` is what was accepted, and what was queued is what the user offered. |
| LapbSegment.EndToEnd | ax25.c:85-101 | Over every lossy run, whatever was queued before the link came up, the calls to `handleit` carry a prefix of the original packets and chunks, and all of them once every I-field is accepted. |
| LapbOpen.EarlyEndToEnd | ax25.c:85-101 | The same in both directions from the answer to the SABM on: packets queued while the link is still being opened, as `axui_send` does, and those the other end sends before the opener has its answer. |
| Ip.Fragment | iproute.c:313-353 | The fragmenting loop terminates and emits the fragments of `FragmentFrom`, for every starting offset, MF and sufficient MTU. |
| IpReasm.Reassembler.Lookup | ip.c:397-417 | The search finds the descriptor of a key if there is one and moves it to the front, losing none. |
| IpReasm.Reassembler.CreateFront | ip.c:422-440 | A new empty descriptor goes in front; all others are found as before. |
| IpReasm.Reassembler.FreeFront | ip.c:444-471 | The freed descriptor is no longer found; all others are. |
| IpReasm.Reassembler.Timeout | ip.c:475-480 | Expiry removes exactly this datagram's descriptor, wherever it has moved to. |
| IpReasm.Reassembler.FragHandle | ip.c:207-355 | A fragment has the outcome and leaves the descriptor that `Handle` gives for its own datagram; every other datagram's is untouched. |
| IpReasm.InsertFragment | ip.c:249-337 | The search, trim and the four ways to join a fragment with its neighbours are `Insert`, which also keeps account of links back that are left to freed entries. |
| IpReasm.TrimSuccessors | ip.c:268-289 | The trimming loop stops at the first fragment past the new one's end with the list trimmed and unlinked as `Sweep` says, or follows a bad link exactly when that is `Lost`. |
| IpReasm.FaultIff | ip.c:268-289 | For any list and any fragment: a bad link is followed if and only if the fragment adds octets and covers, among those it comes to, the last entry, or a stale one behind one it does not cover. |
| IpReasm.FaultReached | ip.c:284-285 | Octets 8 to 16 and then 0 to 24 of a datagram, more to follow, end in the null pointer. |
| IpReasm.StaleReached | ip.c:279-286 | Five overlapping fragments: a link back is left to a freed entry, and followed. |
| IpReasm.NullStored | ip.c:315-344 | Octets 8 to 16, the last, and then 0 to 8: as the code stands, a store through a null pointer. |
| IpDelivery.InsertKeeps | ip.c:249-337 | A fragment that overlaps nothing joins the ordered, never touching list of slices of the datagram, and adds exactly its octets. |
| IpDelivery.DoneIsFull | ip.c:338-354 | The test for completion holds if and only if every octet has arrived. |
| IpDelivery.Arrival | ip.c:207-355 | A fragment that is new or repeats, under any header that says the same of it: complete with the original data exactly when it was the last missing one. |
| IpDelivery.ChainFaultIff | ip.c:268-289 | A fragment of a datagram of which disjoint ones are held, overlapping them or not, follows a bad link if and only if it begins before the last entry held and covers it. |
| IpDelivery.PrependIff | ip.c:290-337 | The octets that complete a datagram are joined to the entry after them, and to no other, if and only if they are its first. |
| IpDelivery.FirstPieceLast | ip.c:315-344 | As the code stands, over any history of arrivals: a store through a null pointer if and only if the piece that completes the datagram is the first of several. |
| IpDelivery.FragmentTiles | iproute.c:313-353 | Fragments of a datagram, or of a fragment of it, partition its octets in order, with the right offsets and MF. |
| IpDelivery.FragmentFits | iproute.c:313-353 | Every fragment fits the MTU, and a payload that is not empty yields some. |
| IpDelivery.RouteTiles | iproute.c:313-353 | A whole datagram is cut into a partition that fits. |
| IpDelivery.Refragment | iproute.c:313-353 | A router on the way may cut any fragment again: the result still partitions the original. |
| IpDelivery.History | ip.c:207-355 | After any arrivals, in any order, repeated, and expiries, the descriptor holds exactly the octets that have arrived since the last completion or expiry. |
| IpDelivery.FragmentThenReassemble | ip.c:207-355 | Fragments fed in any order with any repeats, each under the header its way has left it with: complete exactly when all have arrived, and then with the original octets and header, but for the time to live and checksum (or what else was changed) of the last to arrive. |
| Cksum.Eac | iphdr.c:105-113 | The end-around carry is the repeated fold of the sum into 16 bits. |
| Cksum.FoldUnique | iphdr.c:105-113 | Sums congruent modulo 65535, zero together, fold to the same word. |
| Cksum.SwapsParity | iphdr.c:153-162 | Summing words at odd positions is summing them at even ones and swapping the octets of the result. |
| Cksum.LcSumMeans | iphdr.c:153-162 | The word summer, with its octet swap where needed, agrees with the position-weighted sum. |
| Cksum.SumSegment | iphdr.c:140-171 | One mbuf, with an odd leading and trailing octet and the swap flag, adds the sum of its octets at their true positions. |
| Cksum.SumChain | iphdr.c:138-173 | The loop over mbufs adds the sum of the first `len` octets of the whole chain, if its sixteen-bit count of them does not wrap while there is more to sum. |
| Cksum.Checksum | iphdr.c:115-176 | The checksum equals that of RFC 1071 over the pseudo-header and the first `len` flat octets, whatever the split, odd lengths and odd addresses, on the same condition. |
| IpHdr.HeaderChecksum | iphdr.c:115-176 | Applied to a header, wherever it lies in memory, it is `HeaderSum`. |
| IpHdr.HtonIp | iphdr.c:13-62 | The header written is `Hton`, with the saved or a fresh checksum. |
| IpHdr.HeaderRoundTrip | iphdr.c:65-102 | `ntohip` undoes `htonip` for every legal header and gives back what follows it. |
| IpHdr.NewVerifies | iphdr.c:13-62 | A header with a fresh checksum verifies to 0. |
| IpHdr.HopVerifies | iproute.c:243-257 | After the time to live is decremented and the checksum patched, the rebuilt header verifies if and only if the time to live was not 0. |
| IpHdr.HeadersAfter | iproute.c:243-257 | After n hops only the time to live (less n) and the checksum have changed, and it verifies. |
| IpHdr.SendVerifies | ip.c:62-121 | The header that leaves the sender verifies as it stands. |
| IpHop.ProcessOptions | iproute.c:116-219 | The loop over the options, which edits the header as it goes, is `OptionsFrom`: drop, or pass with a record of what was changed. |
| IpHop.OptionsKeep | iproute.c:116-219 | Options change nothing but themselves and the destination; and nothing at all unless the checksum is to be computed anew. |
| IpHop.CalmIff | iproute.c:116-219 | A node that is not the destination passes a datagram with its header as it was if and only if its options are well formed and hold no record of the route with room left. |
| IpHop.RouteRecorded | iproute.c:181-217 | A record of the route of three octets has the datagram dropped; one with room for an address is written to, and the checksum computed anew. |
| IpHop.HopKeeps | iproute.c:94-257 | What a node sends on, with any options, is again a packet whose header verifies, with the time to live one less and else only options, destination and checksum changed. |
| IpHop.CrossVerifies | iproute.c:94-257 | The same of any sequence of nodes: whatever comes through has a header that verifies and has lost one of its time to live at each. |
| IpHop.HopsOnWire | iproute.c:94-257 | On the octets: a verifying datagram with such calm options crosses nodes that have a way for it, each checking, patching and rebuilding, with nothing but time to live and checksum changed, if and only if they are fewer than its time to live. |
| Route.LongestIsBest | iproute.c:701-722 | The descending search is the longest usable prefix that covers the address, or else the default route. |
| Route.Router.Search | iproute.c:741-745 | The search of a chain stops at the first entry for the target, or at the end. |
| Route.Router.Scan | iproute.c:706-714 | The scan of a chain passes over entries for other targets and over an encapsulation entry that is its own gateway. |
| Route.Router.BLookup | iproute.c:726-747 | The hashed lookup is the table's entry for the masked target, or none. |
| Route.Router.Add | iproute.c:479-545 | Adding or refusing an entry: the set of entries changes by exactly this one, the chains stay well placed, the cache stays coherent. |
| Route.Router.Drop | iproute.c:551-591 | Dropping removes exactly this entry, and says whether there was one. |
| Route.Router.Lookup | iproute.c:684-723 | The cached, hashed lookup is longest-prefix match over the entries, in every state that can be reached. |
| Route.Router.FindSame | iproute.c:763-774 | The search for an enclosing route with the same interface and gateway succeeds exactly when the table has one. |
| Route.Router.Merge | iproute.c:752-778 | Merging leaves exactly the entries that were not redundant in the table it started from, though it deletes as it goes. |
| Route.MergeKeepsRouting | iproute.c:752-778 | If no different route lies between a dropped route and the one it matched, every address keeps its interface and gateway. |
| Route.MergeHarmless | iproute.c:752-778 | And only if, provided each dropped route is the best for some address. |
| Route.MergeExactly | iproute.c:752-778 | For every table and address: merging leaves interface and gateway as they were if and only if what serves the address stays, or the next entry around it that stays has the same. |
| Route.MergeMisroutes | iproute.c:752-778 | Three nested routes for which merging changes the interface chosen. |
| Alloc.Heap.constructor | alloc.c:106-110 | The empty heap: `Base` alone on the list, of size 1. |
| Alloc.Heap.Search | alloc.c:111-146 | The circular walk finds the first block that is large enough, or returns to `Base`. |
| Alloc.Heap.Take | alloc.c:113-136 | The block found becomes a live block of the size asked for, at most one unit more; all other blocks are kept. |
| Alloc.Heap.TakeEnd | alloc.c:123-135 | A larger block is cut at its far end and stays on the list. |
| Alloc.Heap.Malloc | alloc.c:85-161 | First fit, or one `morecore` and again; the new block is large enough, of formerly free units, all other live blocks kept; it fails exactly when there is no room and no more core. |
| Alloc.Heap.MoreCore | alloc.c:163-230 | New units join the free ones and make room for the request. |
| Alloc.Heap.FindPlace | alloc.c:268-273 | The walk stops at the gap where the block belongs in address order, across the top of memory. |
| Alloc.Heap.Link | alloc.c:274-295 | Linking and joining with both neighbours frees exactly the block's units and restores the invariant, `Availmem` included. |
| Alloc.Heap.Free | alloc.c:233-302 | A live block is returned; null does nothing; anything else is counted as invalid and changes nothing. |
| Alloc.PutBackKeeps | alloc.c:274-295 | Inserted at its place and merged, a block leaves the list ordered, with no two adjacent free blocks, and the free total up by its size. |
| Alloc.CarveKeeps | alloc.c:123-128 | Cutting a block keeps the partition of the heap units into live and free blocks and the order of the list. |
| Alloc.WholeKeeps | alloc.c:115-122 | So does taking a block whole. |
| Alloc.GrownKeeps | alloc.c:163-230 | New core enters as a live block and breaks nothing. |
| Alloc.RoomMade | alloc.c:163-230 | A run of free units holds a free block at least as long, because free blocks never touch. |
| Alloc.Determined | alloc.c:233-302 | The free list, with its order and sizes, is determined by the set of free units. |
| Alloc.FreeUndoesMalloc | alloc.c:233-302 | Freeing what was just allocated gives back the same list and live blocks. |
| Alloc.Disjoint | alloc.c:85-161 | Two blocks, at least one of them live, never overlap. |
| Mbuf.CachedIff | mbuf.c:115-158 | Under the invariant that every operation keeps, an mbuf is in the free cache if and only if no live header is its own or sees its octets. |
| Mbuf.OthersFlat | mbuf.c:429-455 | What an operation does not name keeps its octets: any packet disjoint from the mbufs it works on reads as before. |
| Mbuf.DupKeeps | mbuf.c:248-300 | Sharing a buffer keeps every count exact, and no duplicate names a duplicate. |
| Mbuf.WriteKeeps | mbuf.c:429-455 | Writing in place is safe when the buffer has one reference. |
| Mbuf.UnrefKeeps | mbuf.c:115-158 | Dropping a reference owed keeps all other counts exact; the last one puts the buffer in the cache, once. |
| Mbuf.FreeOwn | mbuf.c:115-158 | Freeing a header of its own buffer. |
| Mbuf.FreeDup | mbuf.c:115-158 | Freeing a duplicate: its own header and a reference to the owner's buffer. |
| Mbuf.Buffers.AllocMbuf | mbuf.c:24-67 | A new header, not live before, of the rounded size, from the cache or the heap; all packets keep their octets. |
| Mbuf.Buffers.FreeMbuf | mbuf.c:115-158 | Exactly this header is gone, all counts are exact, other packets keep their octets. |
| Mbuf.Buffers.FreeP | mbuf.c:163-176 | All headers of a packet, and no others, are let go. |
| Mbuf.Buffers.LenP | mbuf.c:189-198 | The length of the flat octets. |
| Mbuf.Buffers.Trim | mbuf.c:210-238 | The packet becomes the first `length` octets of it, and the rest is freed. |
| Mbuf.Buffers.DupP | mbuf.c:248-300 | The duplicate reads as that slice of the packet, shares its buffers, and leaves the packet as it was. |
| Mbuf.Buffers.CopyP | mbuf.c:302-323 | A copy in one buffer of its own. |
| Mbuf.Buffers.PullUp | mbuf.c:327-368 | The octets taken, followed by those left, are those there were; as many as asked for or all there are. |
| Mbuf.Buffers.Extract | mbuf.c:373-400 | The slice from `offset`, up to `len` octets, across mbufs. |
| Mbuf.Buffers.Append | mbuf.c:402-421 | Concatenation of two packets. |
| Mbuf.Buffers.PushDown | mbuf.c:429-455 | The octets come in front, in place or in a new mbuf; no other packet sees a change. |
| Mbuf.Buffers.PushInPlace | mbuf.c:429-455 | The in-place path, taken only for a buffer with one reference, changes what nobody else can see. |
| Mbuf.Buffers.PushPull | mbuf.c:327-455 | `pullup` undoes `pushdown`: the octets come back, the packet reads as it did, and so does every packet that shares no header with it. |
| Mbuf.Buffers.Crunch | mbuf.c:567-588 | The packet in a single mbuf, with the same octets. |
| Kernel.MoveKeeps | kernel.c:519-569 | A process taken off its list, changed, and added again is on exactly the list its new flags and event select. |
| Kernel.KSigKeeps | kernel.c:451-510 | A signal keeps every process but those set aside on exactly one list, the right one. |
| Kernel.KSigReadies | kernel.c:451-510 | It readies exactly the first n waiters on the event, in list order, behind those ready already. |
| Kernel.PicksAre | kernel.c:451-510 | The walk along the list picks the first n of the processes that wait on the event. |
| Kernel.WaitSeesQueued | kernel.c:269-336 | A signal queued before a wait on its event is applied only after the waiter is on its list, and readies it. |
| Kernel.NoLostWakeup | kernel.c:419-443 | A waiter stays on its list or becomes ready through any queued signals, and a signal for all on its event readies it. |
| Kernel.WaitKeeps | kernel.c:269-383 | Through a wait, every process is on its one list; the one that runs next is on none. |
| Kernel.NewKeeps | kernel.c:73-124 | A new process is placed on exactly one list. |
| Kernel.KillKeeps | kernel.c:130-171 | A killed process is on no list, and those waiting for it are readied. |
| Kernel.SuspendsItselfIff | kernel.c:206-218 | A process that suspends itself goes on running, marked as suspended, if and only if no other is ready and the queued signals are for nobody; otherwise another runs and it is on the suspend list. |
| Kernel.StaysPending | kernel.c:385-418 | An event signalled from an interrupt is pending unless the queue was full. |
| Kernel.QueuedAre | kernel.c:385-418 | Of any signals given from interrupts while none is applied, the queue holds the first of each run for one event, up to the size of the ring. |
| Kernel.BroadcastLost | kernel.c:404-407 | A signal for all waiters, behind one for a single waiter, is dropped as its repeat. |
| Kernel.RunsKeep | kernel.c:123-510 | Over every run of calls and interrupts, each process but the running one is on exactly one list, the one its flags and event select. |
| KernelMachine.SignalQueue.Post | kernel.c:385-418 | The ring buffer with its wrap-around is a queue: one signal at its end, or dropped as a repeat or for want of room. |
| KernelMachine.SignalQueue.Take | kernel.c:419-443 | The ring buffer gives its oldest signal. |
| KernelMachine.Scheduler.AddProc | kernel.c:541-569 | The process goes to the end of the list its flags and event select. |
| KernelMachine.Scheduler.DelProc | kernel.c:520-539 | The process leaves that list. |
| KernelMachine.Scheduler.DoSig | kernel.c:451-510 | The two walks, wait list then suspend list, with their count. |
| KernelMachine.Scheduler.ProcSigs | kernel.c:419-443 | All queued signals are applied, oldest first, and the queue is empty. |
| KernelMachine.Scheduler.KSignal | kernel.c:385-418 | With interrupts on, applied at once after the signals queued before it; with interrupts off, queued. |
| KernelMachine.Scheduler.KWait | kernel.c:269-383 | Post the caller, apply the queued signals, idle while none is ready, switch to the first: the state is that of `Wait`, for any signals that arrive while idle. |
| KernelMachine.Scheduler.NewProc | kernel.c:73-124 | The new process is listed and everything else is as before. |
| KernelMachine.Scheduler.KillProc | kernel.c:130-171 | Signal those who wait for it, then remove it. |
| KernelMachine.Scheduler.SuspendProc | kernel.c:206-218 | Another process moves to the suspend list or is marked; the running one gives way. |
| KernelMachine.Scheduler.ResumeProc | kernel.c:220-228 | The process moves back. |
| KernelMachine.Scheduler.AlertProc | kernel.c:234-253 | The process stops waiting, with the value given. |
| Pool.AssignKeeps | bootpdip.c:567-621 | An assignment keeps every address on exactly one queue and all counts, but for one drift of the reclaim count if it took an address from that queue. |
| Pool.FillKeeps | bootpdip.c:528-557 | Filling the reclaim queue keeps them, up to 15 addresses. |
| Pool.DoVerifyKeeps | bootpdip.c:446-519 | Verifying keeps them: an address that answers goes back to used, one that stays silent becomes free, and the next one to verify is on the reclaim queue. |
| Pool.TaskKeeps | bootpdip.c:328-396 | One pass of the periodic process keeps the invariant. |
| Pool.FreshInv | bootpdip.c:819-861 | A fresh range has every address on the used queue, counts right, and reclamation under way. |
| Pool.RunKeeps | bootpdip.c:328-396 | The invariant over every run, with the drift being the number of assignments from the reclaim queue. |
| Pool.Conserved | bootpdip.c:663-712 | From a fresh range, over every run: each address on exactly one queue, the free count exact, the reclaim length at most its count and 15, the address being verified on that queue; the count is exact if and only if no assignment took from it. |
| Pool.CanStop | bootpdip.c:663-712 | Runs from a fresh range that drift the reclaim count by any number up to 15. |
| Pool.ReclaimStops | bootpdip.c:528-557 | Once the drift is 15, the free queue never grows again. |
| Pool.CycleDrifts | bootpdip.c:663-712 | One turn of assigning, letting the address be reclaimed, and assigning it again to the same host drifts the count by one. |
| Pool.RangeDesc.GetOldAddr | bootpdip.c:663-712 | A host gets its former address from the used, reclaim or free queue, in that order. |
| Pool.RangeDesc.GetFreeAddr | bootpdip.c:647-658 | Or the head of the free queue. |
| Pool.RangeDesc.AssignAddr | bootpdip.c:567-621 | The address assigned is last on the used queue, and reclamation starts or hurries when few are left. |
| Pool.RangeDesc.FillReclaim | bootpdip.c:528-557 | The loop moves addresses off the head of the used queue until it is full or the next is too fresh. |
| Pool.RangeDesc.VerifyOne | bootpdip.c:446-519 | One step of verification is `DoVerify`: the address answered, timed out, or is still pending. |
| Pool.RangeDesc.RunTask | bootpdip.c:328-396 | One pass is `Task`: start, verify, relax, in this order. |
| Crc.Lookup | crc.c:6-39 | Every entry of the 256-entry table is the CCITT polynomial applied to its index eight times. |
| Crc.FcsSplit | crc.c:43-54 | The table step of one octet is the bitwise step of its eight bits. |
| Crc.FcsStep | crc.c:43-54 | And so is the step the code takes. |
| Crc.Residue | crc.c:56-69 | Any state followed by its own complement, low octet first, gives 0xf0b8. |
| Crc.Checks | crc.c:56-69 | So every buffer with its check sequence verifies. |
| Crc.PairInjective | crc.c:43-54 | From one state, different pairs of octets lead to different states. |
| Crc.BurstDetected | crc.c:43-54 | Any change confined to two adjacent octets of a verifying frame is detected. |
| Crc.CrcOf | crc.c:43-54 | The loop computes the state after the buffer. |
| Crc.CrcCheck | crc.c:43-54 | The check passes if and only if the buffer verifies. |
| Crc.CrcGen | crc.c:56-69 | The last two octets are filled so that the buffer verifies, and nothing else is written. |
| Ahdlc.Receiver.Receive | ahdlc.c:26-121 | One octet changes the receiver as `Step` says, and yields the frame it completes. |
| Ahdlc.PutByte | ahdlc.c:148-163 | One octet is added in stuffed form: two octets if it is a flag or an escape, else one. |
| Ahdlc.Transmit | ahdlc.c:123-147 | The frame on the line: data and complemented check sequence, stuffed, and a flag. |
| Ahdlc.TakeAll | ahdlc.c:26-121 | Stuffed octets are taken as they were before stuffing, up to the maximum size. |
| Ahdlc.WholeFrame | ahdlc.c:26-121 | A stuffed frame and a flag yield its payload if it verifies, else a count of CRC errors, and an idle receiver in both cases. |
| Ahdlc.RoundTrip | ahdlc.c:26-163 | The concatenated output for any list of payloads that fit yields exactly those payloads, in order. |
| Ahdlc.DamageDropped | ahdlc.c:26-163 | A frame damaged in two adjacent octets is never delivered. |
| Ahdlc.TwoFlags | ahdlc.c:26-121 | Two flags in a row bring the receiver to idle from every state it can be in. |
| Ahdlc.HuntEnds | ahdlc.c:33-83 | One flag ends a hunt if and only if no escape was skipped. |
| Ahdlc.TooBig | ahdlc.c:26-121 | An oversize frame yields nothing and is counted; its closing flag brings the receiver to idle if and only if nothing escaped follows the point where it overflowed. |
| Ahdlc.StepKeepsSound | ahdlc.c:26-121 | The receiver's flags, state and stored octets agree after every octet. |
| Dns.DnExpand | domhdr.c:247-295 | The loop terminates on every memory, cyclic compression included, with `Expand` as its result; what it has written is then the text and a NUL, and on failure no more than the buffer holds. |
| Dns.MakeName | domain.c:1365-1388 | The writer's loop writes `Encode` of the name. |
| Dns.Encodes | domain.c:1365-1388 | A normalized name is written as its labels, each behind its length, and a zero. |
| Dns.LabelsHeld | domhdr.c:247-295 | Reading past any held labels adds exactly those labels, or fails if the output is full. |
| Dns.RoundTrip | domhdr.c:247-295 | What is written for any normalized name, the root included, reads back as that name with its encoded length if and only if its labels and dots are not longer than the buffer; and it stays within the buffer if and only if there is room for the NUL as well. |
| Dns.OneTooMany | domhdr.c:277-292 | Whatever memory holds: if the name is expanded, what is written fits the buffer if and only if the text is not as long as the buffer (for the root: the buffer has two octets). |
| Dns.EightLabels | domhdr.c:277-292 | Eight labels of 63 octets are expanded into 512 octets, and 513 are written. |
| Dns.RootTooLong | domhdr.c:287-292 | The root is expanded into one octet, and two are written. |
| Dns.Compressed | domhdr.c:247-295 | A name in any number of runs of labels, each but the last ended by a pointer to the next that is not a pointer itself, reads as all its labels, and takes up the octets of its first run and pointer only. |
| Dns.ThroughPointer | domhdr.c:247-295 | A compression pointer to labels is followed. |
| Dns.PointerFollowed | domhdr.c:247-295 | A pointer that leads, over any number of pointers, to a name of up to 192 octets is expanded to it if and only if its target is not itself a pointer. |
| Dns.PointerLost | domhdr.c:247-295 | A pointer to a pointer to the root is not expanded. |
| Dns.SettledIff | domhdr.c:247-295 | Unless it comes to half a pointer at the end of the message, the name is the same whatever follows the message in memory if and only if the message alone takes its reader to its end. |
| Dns.HalvedAtEnd | domhdr.c:247-295 | Only a message that ends in the first octet of a pointer can come to that. |
| Dns.CutShort | domhdr.c:247-295 | A message of two octets whose name has the third in it. |
| Ax25.Hton | ax25hdr.c:8-64 | The header put in front of the packet, unless there are too many digipeaters. |
| Ax25.Ntoh | ax25hdr.c:65-105 | The header read from the packet, with what is left. |
| Ax25.RoundTrip | ax25hdr.c:8-105 | Addresses, repeated flags, command or response sense and payload survive writing and reading, if and only if the source's E bit does not hide the digipeaters. |
| Ax25.Reencode | ax25.c:249-268 | A header that was read and is sent on is written as the one sent first, but for one more repeated flag. |
| Ax25.AxRecv | ax25.c:193-291 | The station's decision on a frame is `Receive`: ignore it, repeat it, or pass it up. |
| Ax25.Hop | ax25.c:199-275 | A station repeats a frame only if it is the next digipeater, and takes it only after the last. |
| Ax25.RelayedInOrder | ax25.c:199-275 | A frame gets through a sequence of stations if and only if they are the listed ones, in order, once each; it then carries that many repeated flags and is otherwise as sent. |
| Ax25.ReversePath | ax25.c:280-291 | The path turned round has the digipeaters in reverse order, with their flags cleared. |
| Ax25.LearnsReversePath | ax25.c:276-291 | The path learned from an accepted frame is the reverse of the one it took. |
| Ax25.FrontFinds | ax25.c:346-367 | Moving an entry to the front changes no lookup. |
| Ax25.Routes.Lookup | ax25.c:346-367 | The route for a target is found if there is one, and moved to the front. |
| Ax25.Routes.Add | ax25.c:370-394 | The target's route is this one afterwards, every other target's is unchanged. |
| Ax25.Routes.Learn | ax25.c:276-291 | A route is learned from a digipeated frame unless one set by hand is known. |

## Left out

- LapbMachine.AxCb.DiscAx25: says that the control block of a listening station is to be deleted, but does not delete it; an object has no end here.
- LapbMachine.AxCb.OpenAx25: is about a control block that exists, not its creation, its clone flag or its upcalls.
- LapbMachine.AxCb.LapbState: does not make the upcalls on state changes, transmission and reception.
- LapbMachine.AxCb.LapbOutput: takes allocation to succeed and queued I-fields not to be empty, because V(S) is moved before `dup_p` can fail.
- LapbLink.Delivery: covers one incarnation of a link, from connection (in `LapbOpen.EarlyDelivery`, from the answer to the SABM) until after release, with a window of 1 to 7; a SABM that is repeated begins another one.
- LapbOpen.EarlyKeeps: leaves out a loss of that answer and an expiry of T1 before it arrives, after which the SABM is repeated.
- Ip.Fragment: takes lengths and offsets to stay below 65536, and the MTU to hold a header and 8 octets.
- IpDelivery.FragmentThenReassemble: is about fragments cut from one datagram, and has `*bpp` set to null at `ip.c:318`, where the code has `bpp`. The branches for partial overlap are modelled in `IpReasm.Insert`, but what they restore is not stated, as the code's trimming steps past a fragment it has trimmed.
- IpReasm.Reassembler.FragHandle: ends with the first bad link that is followed; what the code then makes of memory it has freed is not modelled.
- Cksum.Checksum: takes no mbuf at an odd address to be empty, since the code would read an octet of it, and no chain whose octets, counted in 16 bits, wrap before `len` of them have been summed.
- Route.Router.Lookup: leaves out timers, use counts and metrics of routes; any hash of a target into 0 to 6 will do.
- IpHop.HopsOnWire: takes a packet to hold as many octets as its header length says, where `ip_route` ignores a failure of `ntohip`; broadcast, ICMP messages, fragmentation on the way and security associations are left out.
- Alloc.Heap.constructor: does at once what the first `malloc` does; headers are never overwritten by users.
- Alloc.Heap.Free: takes the header of a live block to be as `malloc` left it.
- Mbuf.Buffers.AllocMbuf: takes memory to be available and counts to fit 16 bits.
- Mbuf.Buffers.PullUp: is about a single packet, not one that others follow in a queue.
- KernelMachine.Scheduler.AddProc: keeps each list as a sequence, not by forward and backward links.
- KernelMachine.Scheduler.KillProc: leaves out a process that kills itself, which is done by another process on its behalf.
- KernelMachine.Scheduler.KWait: takes a context switch to be a change of the running process; interrupts come between calls and while idle, and those that arrive in idle rounds are a parameter.
- Pool.FreshInv: starts from a range served for the first time, not one whose bounds change.
- Dns.RoundTrip: leaves out the walk over a whole message.
- Ax25.AxRecv: stops at the choice to ignore, repeat or accept; what LAPB or IP do with an accepted frame is in the other modules.
- `realloc`, `calloc`, packet queues (`enqueue`, `dequeue`), `ax_drop`, the DNS cache and the ARP table: easier members than those modelled.
- Clocks and random choices are parameters; memory exhaustion is not modelled.
- Device drivers, commands, tracing, applications and the display: register traffic, printing and user interface.
- ICMP, ARP and Ethernet header codecs: only easy round trips.
