# A verified model of the multipath TUN tunnel

This project models, in Dafny, the two parts of the tunnel that carry its guarantees, and proves what
they guarantee for all inputs and all runs.

**The multipath packet pump.** A client reads packets from a TUN device and writes each as a
length-prefixed frame to one of several QUIC streams, chosen in rotation among the paths that are not
cooling down after a failure. A failed write removes the path and retries the packet on another;
receivers and one reconnect loop per path id work on the same path set concurrently. The server does
the same without retries. It is modelled twice:

- *imperatively*: `ClientPaths.ClientPathSet`, `ServerSession.ServerTUNSession`,
  `Backoff.ReconnectBackoff`, `Multipath.RoundRobin`, `Stats.Counters` and the loops around them update
  their fields in place and are proved against specification functions on values (`PathSet`, `Pump`,
  `Framing`). Between any two operations of one loop on the shared path set the others may perform
  theirs, arbitrarily (`Sharing`); the operations themselves are atomic, as under the source's mutexes.
  A stream is a handle into `Framing.Network`, whose `Write` accepts everything or, nondeterministically,
  fails while the frame is incomplete;
- *as an interleaved step system* (`Protocol`): every atomic step is one mutex-protected method, one
  `Write` call, one dial, or one frame handled at the far end. `Membership`, `Transfer`, `Safety` and
  `History` prove properties of every reachable state, that is of every interleaving, every run length
  and every pattern of failures.

**The echo codec.** IPv4/ICMP echo packets and the Internet checksum, byte by byte, with the 32-bit
wrap-around of the checksum's accumulator and the 64-bit wrap-around of durations written out.

The files in reading order: `Bytes`, `Checksum`, `Packets`, `Echo`, `Framing`, `Policy`, `Responder`;
then `PathSet`, `Fairness`, `Backoff`, `ClientPaths`, `Sharing`, `Reconnect`, `Pump`, `ServerSession`; then
`Protocol`, `Membership`, `Transfer`, `Safety`, `History`.

Some properties one would expect are not true of the code. For these the exact condition is proved, and
an input on the failing side is given:

- `Checksum` is the standard ones' complement checksum (RFC 1071, section 1) for every input up to
  65537 words; beyond, the 32-bit sum can lose carries, and it is right exactly if the number lost is
  a multiple of 65535 and does not leave a zero sum behind (`Checksum.MatchesStandard`). 65538 words of
  ones are the first failing input (`Checksum.FirstWrongChecksum`). Only a direct caller can observe it:
  `BuildICMPEchoRequest` (internal/packet/ipv4.go:79-81) computes such a checksum too, and then discards
  the packet as too large. Writing the checksum into its own field, by contrast, makes the buffer verify
  at every length (`Checksum.SelfVerifying`).
- The client notices a damaged byte exactly if one of its two checksums covers it
  (`Echo.DamageRejectedExactly`). A byte after the total length (`Echo.TrailingByteUnnoticed`) and header
  options (`Echo.OptionsUnnoticed`) are not covered. The replies this code builds have neither.
- Reconnect delays are `min(min * 2^k, max)` exactly if the first doubling that reaches `max` fits an
  int64 (`Backoff.ClosedFormExactly`); otherwise a delay turns negative, as with a minimum of 2^62 + 1 ns
  and the largest maximum, which normalisation accepts (`Backoff.NegativeDelay`).
- Removing a path leaves the turn with the same path exactly if the removed path stood at or after the
  cursor, or a single path is left (`PathSet.RemovalKeepsTurn`). It can go wrong only with three or more
  paths, so on the server: a session has as many paths as handlers, and the neighbour of a path that
  fails can be passed over (`ServerSession.PassedOver`). The client has two paths at most, and there the
  turn always survives (`History.ClientTurnSurvives`). Fairness is stated for standing membership.
- A frame cut right after its header ends in a plain end of file, like a cut between frames
  (`Framing.Truncation`).

## Model

| member | source | states |
|---|---|---|
| Bytes.BigEndian16 | internal/packet/ipv4.go:76-79 | the most significant byte of a 16-bit field comes first |
| Bytes.BigEndian32 | internal/quictransport/framing.go:21-22 | the four bytes of a frame length, the most significant first |
| Checksum.Checksum | internal/packet/checksum.go:4-21 | the deferred-carry loops, with uint32 wrap-around and at most two folds, compute the complement of the reduced word sum of every input |
| Checksum.FoldKeepsReduce | internal/packet/checksum.go:16-18 | a carry fold keeps the value modulo 65535 (and zero stays the only zero), and shrinks any sum over 16 bits |
| Checksum.OnesComplementSumReduces | internal/packet/checksum.go:7-18 | adding the words one at a time with end-around carry gives the same as summing first and reducing at the end |
| Checksum.MatchesStandard | internal/packet/checksum.go:4-21 | for every input: the code agrees with the ones' complement checksum if and only if the carries lost from the 32-bit sum do not matter |
| Checksum.OverflowBound | internal/packet/checksum.go:5-14 | all n-word inputs stay within uint32 if and only if n is at most 65537 |
| Checksum.RefinesStandard | internal/packet/checksum.go:4-21 | up to 65537 words, so for every packet and frame, the result is the ones' complement checksum |
| Checksum.WrongChecksums | internal/packet/checksum.go:5-18 | on 65538 and up to 131074 words of ones the result is never the ones' complement checksum |
| Checksum.FirstWrongChecksum | internal/packet/checksum.go:5-18 | some input of 65538 words, one more than the safe bound, gets a wrong checksum |
| Checksum.SelfVerifying | internal/packet/ipv4.go:76-79 | storing the checksum into a zero field at an even offset makes the whole buffer sum to zero, any content, any length |
| Checksum.OneByteChangesChecksum | internal/packet/checksum.go:4-21 | two strings that differ in exactly one byte have different checksums, whatever their length |
| Packets.BuildEchoMessage | internal/packet/ipv4.go:73-79 | the buffer filled in place is the ICMP echo message with its checksum |
| Packets.BuildIPv4ICMPPacket | internal/packet/ipv4.go:122-151 | the buffer filled in place is header and message, with the error for each non-IPv4 address and for size |
| Packets.BuildICMPEchoRequest | internal/packet/ipv4.go:72-82 | the method computes the request that RequestMeaning and RoundTrip are about |
| Packets.BuildICMPEchoReply | internal/packet/ipv4.go:85-120 | the method computes the reply, or the error of the first check that fails, that ReplyMeaning is about |
| Echo.EchoMessageMeaning | internal/packet/icmp.go:24-37 | a built echo message parses back to its type, identifier, sequence and payload, and sums to zero |
| Echo.HeaderMeaning | internal/packet/ipv4.go:137-147 | the built header sums to zero and has version, lengths, zero identification and flags, TTL 64, protocol and addresses where RFC 791 section 3.1 puts them |
| Echo.PacketMeaning | internal/packet/ipv4.go:29-69 | a built packet parses back to its addresses, length and message |
| Echo.RequestMeaning | internal/packet/ipv4.go:72-82 | given IPv4 addresses, building fails exactly for payloads over 65507 bytes; both checksums of a built request verify and it parses back |
| Echo.AcceptedExactly | internal/packet/ipv4.go:95-109 | which bytes count as an echo request to this server, with header options and trailing bytes allowed |
| Echo.ReplyMeaning | internal/packet/ipv4.go:85-120 | for arbitrary request bytes: a reply exists exactly for answerable ones, "too large" cannot happen, its length, addresses, type and copied tail, and both checksums verify |
| Echo.RoundTrip | internal/quictransport/client.go:716-759 | any request built, answered by the server and validated by the client is accepted |
| Echo.ReplyAcceptedExactly | internal/quictransport/client.go:716-759 | what acceptance means, read off the reply bytes: checksums, versions, lengths, addresses, type and code, identifier, sequence and payload, in both directions |
| Echo.DamageRejectedExactly | internal/quictransport/client.go:716-759 | for any accepted reply and any one changed byte: it is rejected if and only if a checksum covers that byte |
| Echo.TrailingByteUnnoticed | internal/quictransport/client.go:720-736 | any accepted reply stays accepted with any byte appended, which no checksum covers |
| Echo.OptionsUnnoticed | internal/quictransport/client.go:720-736 | a reply with one word of header options is accepted whatever that word is |
| Echo.OneByteDamageRejected | internal/quictransport/client.go:720-736 | no single damaged byte of a reply this code builds is ever accepted, whatever the client expects |
| Framing.DecodeEncoded | internal/quictransport/framing.go:32-52 | reading a written frame returns its payload and leaves what follows |
| Framing.DecodesExactlyEncodings | internal/quictransport/framing.go:32-52 | reading succeeds on exactly the image of writing |
| Framing.PrefixFree | internal/quictransport/framing.go:21-28 | no frame is a proper prefix of another |
| Framing.DecodeAllEncoded | internal/quictransport/framing.go:31-52 | repeated reading of whole frames and a tail returns the frames, then what the tail gives |
| Framing.StreamRoundTrip | internal/quictransport/framing.go:13-52 | repeated reading of written frames returns exactly the payloads, then end of file |
| Framing.EncodeAllInjective | internal/quictransport/framing.go:13-29 | different lists of payloads never give the same bytes |
| Framing.Truncation | internal/quictransport/framing.go:34-49 | any truncation gives exactly the whole frames before the cut, then end of file at a boundary or right after a header, and an unexpected one elsewhere |
| Framing.CutGracefully | internal/quictransport/server.go:433-440 | a cut stream of frames ends gracefully exactly between frames or after a header when it finished, and exactly for application error code 0 when it broke |
| Framing.BadLength | internal/quictransport/framing.go:38-44 | a bad length yields no frame and no graceful end |
| Framing.FramedLength | internal/quictransport/framing.go:21-28 | the bytes of a stream are four per frame and the lengths of the payloads |
| Framing.WriteFrame | internal/quictransport/framing.go:13-29 | the size errors write nothing; otherwise the two writes put the frame on the stream, or an error leaves a strict prefix of it |
| Framing.ReadFrame | internal/quictransport/framing.go:32-52 | the two reads return what the frame decoder says, and consume the frame, only the header after a bad length, or everything when the stream ends early |
| Framing.Reader.ReadFull | internal/quictransport/framing.go:34-36 | the bytes asked for, or the end of the stream: plain when nothing was read, unexpected otherwise |
| Policy.ContainsIsRange | internal/quictransport/packet_policy.go:36-36 | an address is in the network exactly if it lies in the block of 2^(32-prefix) addresses from its base |
| Policy.AllowExactly | internal/quictransport/packet_policy.go:27-58 | without a network everything is admitted; with one, exactly the well-formed IPv4 packets, of any protocol, whose source and destination both lie in its block |
| Policy.AllowedCounts | internal/quictransport/server.go:255-259 | filtering keeps every admitted packet as often as it occurs and nothing else |
| Policy.AllowedPrefix | internal/quictransport/server.go:255-259 | filtering keeps the order |
| Policy.EndpointsAgreeWithParser | internal/quictransport/packet_policy.go:39-58 | the filter reads the same addresses from a packet as the IPv4 parser, and accepts what the parser accepts apart from the protocol check |
| Responder.HandleQUICStream | internal/quictransport/server.go:275-305 | for any input stream: the output is the framed replies to exactly the answerable frames, in order, and every counter is accounted for; also when a write fails midway |
| Responder.RepliesFitFrames | internal/quictransport/server.go:296-296 | every reply to a read frame passes the frame size checks |
| Responder.HandledMeaning | internal/quictransport/server.go:285-301 | every request is answered or dropped, and dropped exactly if it is not answerable; bytes sent are the lengths of the replies on the stream |
| Responder.Conversation | internal/quictransport/server.go:275-305 | any list of pings, framed, answered and framed back, yields one reply per ping in order, each accepted for its ping |
| PathSet.CursorAlwaysValid | internal/quictransport/client.go:324-381 | every history of operations, of the client's kind or the server's, keeps the cursor within the set |
| PathSet.HealthIsHistory | internal/quictransport/client.go:395-411 | after every history an id has an entry exactly if it failed since its last success, with that count and the cooldown from its last failure; adds, removes and picks never touch it |
| PathSet.FailuresSinceSuccess | internal/quictransport/client.go:395-411 | the failures counted are all those of the id after its last success |
| PathSet.LastFailureIs | internal/quictransport/client.go:402-411 | the cooldown runs from the time of the id's last failure |
| PathSet.CoolingExactly | internal/quictransport/client.go:427-429 | a path is cooling down exactly if its id has an entry whose cooldown is not over |
| PathSet.CoolingIsHistory | internal/quictransport/client.go:402-429 | in terms of the history: exactly from a failure that no success followed to the end of the cooldown |
| PathSet.CooldownTable | internal/quictransport/client.go:431-439 | cooldowns are 1, 2, 4, 8 and from then on 16 seconds |
| PathSet.PickAvoidsCooling | internal/quictransport/client.go:347-361 | a cooling path is never picked while another is active that is not |
| PathSet.NoPickDuringCooldown | internal/quictransport/client.go:339-362 | after any history a failed id is not picked during its cooldown, even removed and reconnected, while a path that is not cooling is active |
| PathSet.FirstWarmIsPicked | internal/quictransport/client.go:347-361 | the first path from the cursor on that is not cooling is picked |
| PathSet.CooldownEnds | internal/quictransport/client.go:347-361 | after any history the path in turn is picked if it has not failed since its last success or its cooldown is over |
| PathSet.AddEffect | internal/quictransport/client.go:324-337 | an added path takes the place of its id, or the end; every other path stays in its place |
| PathSet.RemoveEffect | internal/quictransport/client.go:364-381 | a removal takes out the path on that stream and no other |
| PathSet.RemovalKeepsTurn | internal/quictransport/client.go:368-377 | the path next in turn is the same after a removal (or, if it was removed, the one following it) if and only if the removed path stood at or after the cursor or one path remains |
| PathSet.FailoverPassesOver | internal/quictransport/client.go:359-375 | which path is next in turn after the one just picked is removed |
| Fairness.RunFollowsRound | internal/quictransport/client.go:347-361 | the picks are the eligible positions in cyclic order from the cursor |
| Fairness.OneTurn | internal/quictransport/client.go:339-362 | as many picks as there are eligible paths hit each of them exactly once |
| Fairness.EveryWindow | internal/quictransport/client.go:339-362 | so does every such window of consecutive picks in a run of any length, cooling paths being skipped or, if all cool, all used |
| Fairness.Balanced | internal/quictransport/client.go:339-362 | over any run eligible paths are used equally often, give or take one, and others never |
| Multipath.NewRoundRobin | internal/multipath/scheduler.go:12-18 | an error for every count that is not positive, otherwise a scheduler of that count at index 0 |
| Multipath.RoundRobin.Next | internal/multipath/scheduler.go:21-25 | returns the cursor and moves it on, wrapping after the last path |
| Multipath.TakeTurns | internal/multipath/scheduler.go:21-25 | m calls of Next return the index sequence the agreement lemmas speak of |
| Multipath.TurnsAt | internal/multipath/scheduler.go:21-25 | the i-th turn is i positions past the cursor, cyclically |
| Multipath.AgreesWithRoundRobin | internal/quictransport/client.go:347-360 | with nothing cooling, the client's index sequence is the scheduler's from the same cursor |
| ServerSession.ServerAgreesWithRoundRobin | internal/quictransport/server.go:419-420 | with standing membership, the server's index sequence is the scheduler's |
| ServerSession.SessionRotates | internal/quictransport/server.go:398-421 | while packets are admitted, no write fails and nobody else uses the session, the packets take its paths in turn from the cursor on |
| ServerSession.PassedOver | internal/quictransport/server.go:347-355 | with three paths, the first of which fails, the next packet goes to the third and not to the second |
| ClientPaths.ClientPathSpecs | internal/quictransport/client.go:225-234 | id 0 with the first address and id 1 with the second, each exactly if its address is given |
| ClientPaths.ClientPathSet.constructor | internal/quictransport/client.go:316-322 | a set of the given paths, cursor 0, no health entries |
| ClientPaths.ClientPathSet.Add | internal/quictransport/client.go:324-337 | replaces the first path of that id and returns it, or appends |
| ClientPaths.ClientPathSet.NextPath | internal/quictransport/client.go:339-362 | returns the first path from the cursor on that is not cooling, or the one at the cursor, and moves the cursor past it |
| ClientPaths.ClientPathSet.Remove | internal/quictransport/client.go:364-381 | takes out the first path on that stream and returns it, keeping the cursor in range |
| ClientPaths.ClientPathSet.HasPathID | internal/quictransport/client.go:383-393 | true exactly if a path has that id |
| ClientPaths.ClientPathSet.MarkSuccess | internal/quictransport/client.go:395-400 | forgets the id's failures |
| ClientPaths.ClientPathSet.MarkFailure | internal/quictransport/client.go:402-411 | counts the failure and sets the cooldown it earns |
| Backoff.NormalizeIntervals | internal/quictransport/client.go:682-699 | intervals that pass are positive and ordered; positive ones pass unchanged or fail for their order; a negative minimum and a negative maximum have errors of their own |
| Backoff.ZeroIsDefault | internal/quictransport/client.go:683-688 | zero stands for the default of its side, and normalised intervals normalise to themselves |
| Backoff.ReconnectBackoff.Next | internal/quictransport/client.go:655-664 | returns the current delay and doubles it up to the maximum, in int64 arithmetic |
| Backoff.ReconnectBackoff.Reset | internal/quictransport/client.go:666-668 | back to the minimum |
| Backoff.ClosedForm | internal/quictransport/client.go:647-668 | the k-th delay is min(min * 2^k, max) and within [min, max] whenever the doubling fits |
| Backoff.Overflow | internal/quictransport/client.go:655-664 | when it does not fit, some delay is negative |
| Backoff.ClosedFormExactly | internal/quictransport/client.go:647-668 | the closed form holds for every k if and only if the first doubling that reaches the maximum fits an int64 |
| Backoff.NegativeDelay | internal/quictransport/client.go:655-664 | intervals that normalise and whose second delay in a row is negative |
| Backoff.SafeIntervals | internal/quictransport/client.go:655-699 | maxima up to 2^62 ns are safe: ideal delays, within bounds, never shrinking before a reset |
| Backoff.LoopDelays | internal/quictransport/client.go:611-632 | with normalised intervals a turn that finds the path up sleeps the minimum, and the k-th failed dial in a row min(min * 2^k, max), whatever came before |
| Backoff.FailedSinceDialed | internal/quictransport/client.go:618-632 | the failed dials counted are those since the last successful one |
| Reconnect.ReconnectClientPath | internal/quictransport/client.go:592-639 | for every sequence of dial results and of what others do to the set before each look and during each dial: what the set becomes, every sleep and error, which streams get a receiver, and that no path is replaced or closed |
| Reconnect.TurnEffect | internal/quictransport/client.go:611-637 | a turn leaves an id that is up alone, and brings a missing one back, at the end, exactly if the dial succeeds |
| Reconnect.JoinedExactly | internal/quictransport/client.go:637-637 | one receiver for every successful dial |
| Pump.FatalExactly | internal/quictransport/client.go:494-513 | an open, uncancelled device ends the pump exactly on a non-retryable error or the 101st retryable one in a row |
| Pump.ReadAllExactly | internal/quictransport/client.go:493-518 | the packets a read loop gets are the nonempty ones before the event that ends it, in order; its retries are the failures before that event, and at it when cancelled asleep; and which end it is |
| Pump.PacketsExactly | internal/quictransport/client.go:514-519 | each nonempty packet as often as it is read |
| Pump.SendPacket | internal/quictransport/client.go:525-546 | with others using the path set all the while, the retry loop terminates after no more tries than paths there were and were added; each try takes the path the set chooses; the packet goes out whole on one path, or is dropped when the set is found empty; a failed path is removed, and closed unless another removed it first; cursor and health follow the history; byte logs and counters |
| Pump.TriedOnce | internal/quictransport/client.go:525-546 | while nobody adds a path, every path is tried at most once, and exactly the paths that the sender or others removed are gone |
| Pump.Undisturbed | internal/quictransport/client.go:525-546 | when nobody else touches the set, exactly the failed paths leave it and are closed, in that order, and the packet is dropped exactly when that were all |
| Pump.FailuresRecorded | internal/quictransport/client.go:533-542 | the health table gets one failure per failed attempt of the id, and none for the id that took the packet |
| Pump.TryPath | internal/quictransport/client.go:526-546 | one turn of that loop: no path, a failed write with all its consequences, or the packet sent |
| Pump.ReadNext | internal/quictransport/client.go:494-518 | one read, with the error counting and the endings of the read loop |
| Pump.GiveUp | internal/quictransport/client.go:533-541 | a failed write counts an error, marks the id, and removes that path and closes it, if it is still there |
| Pump.SendTUNPackets | internal/quictransport/client.go:490-548 | for every script of reads and outcomes: packets handled are the nonempty reads in order, each as the policy and the retry loop say from the set its predecessors left; streams, path set, closes and counters change by exactly that |
| Pump.PumpConserves | internal/quictransport/client.go:490-548 | conservation over the script: nonempty packets read up to the end are sent or dropped, bytes are the lengths of those sent, errors are failed reads and failed writes, a quiet end excepted |
| Pump.PumpRotates | internal/quictransport/client.go:347-361 | while packets are admitted, no write fails, nobody else uses the set and nothing is cooling, the packets take its paths in turn |
| ServerSession.ServerTUNSession.AddPath | internal/quictransport/server.go:335-341 | appends the path and keeps the cursor within the set |
| ServerSession.ServerTUNSession.RemovePath | internal/quictransport/server.go:343-359 | takes out the path on that stream, with the client's cursor rule, and keeps the cursor within the set |
| ServerSession.ServerTUNSession.WriteNextPath | internal/quictransport/server.go:413-431 | tries exactly the path in turn; on success the cursor moves one on and the paths stay; on failure that path leaves, whatever handlers did to the session meanwhile, and an error is counted |
| ServerSession.ForwardDevicePackets | internal/quictransport/server.go:369-411 | for every script, handlers joining and leaving all the while: as the client's pump, but one attempt per packet, and a failed write loses it |
| ServerSession.ReceiveFrames | internal/quictransport/client.go:558-589 | for any byte stream: the device gets, in order, what the policy allows, up to the end of the stream or a device failure, and which of these count an error |
| ServerSession.ReceivedMeaning | internal/quictransport/client.go:569-586 | every frame read is passed on or dropped, as the policy says, and counted so |
| ServerSession.CutQuietly | internal/quictransport/client.go:560-563 | which cut streams end a receive loop without an error, on either side |
| ServerSession.ReceivePathPackets | internal/quictransport/client.go:550-590 | whatever ends the loop and whatever others did to the set meanwhile, its stream leaves the set and is closed only if it was still there |
| ServerSession.HandleTUNQUICConnection | internal/quictransport/server.go:239-273 | the stream joins the session; when its frames are handled it is out of the session, whoever removed it, and closed; the others stay in order |
| Membership.StepKeeps | internal/quictransport/client.go:303-411 | every atomic step keeps the membership invariant |
| Membership.UniquePaths | internal/quictransport/client.go:607-637 | in every reachable state no two paths share a stream and, on the client, an id |
| Membership.ReconnectNeverReplaces | internal/quictransport/client.go:633-635 | in every run the reconnect loop's add never replaces a path |
| Membership.RemovedAndClosedOnce | internal/quictransport/client.go:550-556 | each stream is removed at most once and closed at most once, on the client exactly when removed |
| Membership.RemovedForGood | internal/quictransport/client.go:364-381 | a removed stream never comes back into the set |
| Membership.StaleEvictsNothingElse | internal/quictransport/client.go:533-541 | a sender or receiver giving up its stream takes out that path and no other, so never the fresh stream of the same id |
| Membership.AttemptsBounded | internal/quictransport/client.go:525-546 | counted over the steps of any run: attempts for the packet in hand never exceed the paths active when it was read plus those added since |
| Transfer.HandlerSeesCommitted | internal/quictransport/server.go:244-253 | a handler can decode a frame if and only if the next committed packet of its stream arrived whole, and then it is that packet |
| Transfer.NothingLeftBehind | internal/quictransport/server.go:244-253 | with everything arrived and nothing left to decode, the handler has dealt with every packet committed to its stream |
| Transfer.StepKeeps | internal/quictransport/client.go:525-546 | every atomic step keeps the data-plane invariant |
| Safety.StreamDelivery | internal/quictransport/server.go:244-272 | in every run the far device gets, per stream, what its policy allows of a prefix of the packets committed to the stream, unchanged and in order |
| Safety.AllDelivered | internal/quictransport/server.go:244-272 | in every run, once a stream's bytes all arrived and no frame is left, the far device has everything its policy allows of the packets committed to that stream |
| Safety.CommittedOnce | internal/quictransport/client.go:525-546 | a packet read is committed to at most one stream, once |
| Safety.AtMostOnce | internal/quictransport/client.go:490-548 | over all streams together the far device gets every packet at most as often as it was read, despite retries, and nothing else |
| Safety.ActivePathsHoldWholeFrames | internal/quictransport/framing.go:24-28 | every active stream holds whole frames of its committed packets, except from the sender's header write to it until the payload is written or, after a failed write, the path is removed |
| Safety.TornStreamsStayTorn | internal/quictransport/client.go:533-541 | a torn stream ends in a strict part of one frame, is leaving or has left the set, and no step ever adds a byte to it |
| Safety.DeniedNeverSent | internal/quictransport/client.go:520-524 | what the sending policy denies is never committed to a stream |
| History.ActiveIsHistory | internal/quictransport/client.go:303-411 | in every interleaving, on client and server, the path set is the replay of one history of operations, and every recorded failure time lies between the start and now |
| History.CursorInEveryRun | internal/quictransport/server.go:335-359 | in every interleaving, on client and server, the cursor is within the set |
| History.HealthInEveryRun | internal/quictransport/client.go:395-411 | in every interleaving the health table is exactly the failures since the last success and the cooldown they earned |
| History.NeverPicksCooling | internal/quictransport/client.go:347-361 | in every interleaving the sender never picks an id during its cooldown, reconnected or not, while some active path is not cooling |
| History.PicksAfterCooldown | internal/quictransport/client.go:347-361 | in every interleaving the path in turn is picked once its cooldown is over, or if it has not failed since its last success |
| History.ClientTurnSurvives | internal/quictransport/client.go:225-234 | the client never has more than two active paths, and whichever of two is removed, the turn is the other's |
| Safety.PacketsAccountedFor | internal/quictransport/client.go:514-546 | in every reachable state packets read are sent, dropped or in the sender's hands |
| Safety.DropsExactly | internal/quictransport/client.go:520-531 | a step drops a packet exactly if the policy denies it, the path set is empty, or the server's one attempt failed |
| Safety.SenderGoesOn | internal/quictransport/client.go:525-546 | in every reachable state the sender can take its next step, whatever a write's outcome |
| Safety.StreamsGoOn | internal/quictransport/client.go:550-590 | in every reachable state any receiver may stop, any bytes arrive and any frame that arrived be handled |
| Safety.LoopsGoOn | internal/quictransport/client.go:607-637 | in every reachable state every reconnect loop can take its next step, and dials exactly if its id is missing |

## Left out

- QUIC itself, TLS, dialling, listening and accepting: a stream is a byte log, a write succeeds or fails after a strict prefix, a dial gives a fresh stream or an error.
- TUN devices and system configuration; a device read is an event of a script, a device write succeeds or fails.
- Logging and the rendering of statistics.
- Shutdown: cancellation is an event of the read scripts and a parameter of the receive loops, but not a step of `Protocol`; the path-set guarantees are for runs before pumpTUN is cancelled, after which a path may be closed twice.
- Liveness: nothing is claimed about packets eventually arriving, which depends on the network.
- Real time: clocks are arbitrary and never go back; saturation of time arithmetic is not modelled, and durations wrap at 64 bits only in the backoff.
- The wrap-around of the statistics counters at 2^64, which are natural numbers here; the failure count in the health table does wrap.
- Parsing CIDR strings: a policy is given as an address and a prefix length.
- The one-shot echo client with its deadlines; only its reply validation is modelled.
- ReconnectClientPath: does not model cancellation, which ends the loop between two of the turns modelled or drops the error of a dial.
- Closes by others: `Network.closed` records the closes of the loop at hand; each stream being closed once over all of them is a theorem of `Membership`.
- The accept error at the start of handleTUNQUICConnection.
