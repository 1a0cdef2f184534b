# FakeFlow, verified

FakeFlow runs inside Linux traffic control. It watches the packets of a WAN device, decides when a TCP
handshake or an early UDP datagram should be answered by an injection, clones the packet to a private
builder device, rewrites the clone into a complete fake packet, and recognises that fake when it crosses
the WAN egress hook. A daemon publishes configuration generations and payload templates to it; a web form
reads and writes the configuration text.

This project models that logic in Dafny 4.11 and proves what it promises. `dafny verify dfyconfig.toml`
checks everything.

| file | part |
|---|---|
| `Bytes`, `Common`, `Abi`, `SocketBuffer` | machine words, byte buffers, optional values and numerals, shared constants, a packet with the kernel helpers that change it |
| `Checksum` | one's-complement sums and the contracts of the kernel's checksum helpers (RFC 1071 sections 1 and 2, RFC 1624 section 3) |
| `Packets` | the packet parser and the mirror image of a frame |
| `Builder`, `BuilderSteps`, `BuilderParse`, `BuilderChecksum` | the fake frame, the code that builds it in place, and what holds of it |
| `TcpOptions`, `OptionsRewrite` | the 40-step option scan and the rewrite of a SYN |
| `TcpFlow`, `TcpTrigger`, `UdpWindow`, `TokenBucket`, `RuleRotation` | the triggers, the rate limit and the rotation of payload rules |
| `RequestProtocol`, `RequestLifetime`, `Emission` | the one-shot requests as interleaved steps, how long a request stays in the map, and what bounds the attempts |
| `Generations`, `TemplateLookup` | publication and reaping of generations, and how a request finds its template |
| `EndToEnd` | trigger, pick and builder put together |
| `ClientHello`, `SipTemplate`, `Rendering` | the two payload printers, with the reader and the search that go with them, and the rendering of all variants |
| `ConfigText`, `ConfigRoundTrip`, `ConfigEditor` | the configuration text: printer, parser, round trip, and the code as it runs |

Code that changes things step by step is a method over an array, a class or a packet, and its `ensures`
equates the result with a function; the theorems are about that function. The request protocol is a state
machine whose steps are the atomic actions of producer, builder and consumer.

Standards followed: RFC 791 section 3.1, RFC 9293 section 3.1, RFC 8200 sections 4.5 and 8.1, RFC 2516
section 4, RFC 7413 section 4.1.1, RFC 5925 section 2.2, RFC 8446 section 4.1.2, RFC 6066 section 3, RFC 7301 section 3.1, RFC 7685 section 3.

## What was found

- An older clock value wraps and reads as a long idle time: the token bucket is the ideal one exactly if the
  clock did not run backwards or the bucket was full anyway (`TokenBucket.HonestExactly`). Two calls, the second
  with an older reading, are both granted from a bucket that holds one (`TokenBucket.BackwardClockRefills`).
- The rotation gives the next connection the same rule exactly with one rule, or with three where the cursor's
  low word wraps (`RuleRotation.RepeatsExactly`). One or two rules share every window fairly. Three rules share
  a window fairly exactly if no wrap lies in it, or one wrap with the pinnings before or after it a multiple of
  3 or both 2 modulo 3, or two wraps with both multiples of 3 (`RuleRotation.FairExactly`).
- The second guard of the UDP trigger follows from the first over all runs exactly for settings below 2^32 - 1
  (`UdpWindow.GuardRedundantExactly`). The configuration reader accepts 1 to 32 (ebpf/user/config.c:181), so it
  is redundant for every setting in use.
- A request whose fake is lost on the way or shot at the hook stays in the request map for good, and only such a
  request does: every other entry can still leave it (`RequestLifetime.StaysExactly`). The map takes no request
  any more exactly when all its 256 entries are such (`RequestLifetime.NoRoomExactly`), and runs reach that state
  (`RequestLifetime.StuckReachable`, `RequestLifetime.NoRoomReachable`).
- Before the first section of the configuration text, a line with the key `_proto__` and a quoted string is
  accepted and changes nothing (`ConfigRoundTrip.PrototypeKey`).
- The SIP template exists exactly for URIs that contain neither `;branch=z9hG4bK` nor `;tag=` and do not end in
  `Call-ID:`; no other URI makes the search find the wrong place (`SipTemplate.LocatesExactly`).
- The path of a custom payload enters the configuration text unchecked. The text is read back as it was
  written exactly if every quoted string is free of quotes, backslashes, control characters and the line
  separators U+2028 and U+2029 (`ConfigRoundTrip.RoundTrip`, `ConfigRoundTrip.QuoteInPath`).

## Model

| member | source | states |
|---|---|---|
| Checksum.FoldChecksumComplements | ebpf/bpf/builder.bpf.c:4-8 | the folding of a 64-bit accumulator is the complement of the one's-complement value of any 32-bit sum |
| Checksum.CsumDiff | ebpf/bpf/builder.bpf.c:76 | the difference helper adds modulo 65535: its result folds to seed plus complement of the old words plus the new words |
| Checksum.WordSumSplice | ebpf/bpf/builder.bpf.c:107-118 | replacing aligned bytes changes the word sum by exactly their difference |
| Packets.ReadTags | ebpf/bpf/parse.h:23-33 | the two-round tag loop collects the tag stack the recursive run finds, offloaded tag first |
| Packets.Parse | ebpf/bpf/parse.h:15-97 | the parser, whose link layer advances over the tags step by step, returns exactly the packet, or the rejection, of the layered grammar |
| Packets.ParsedBounds | ebpf/bpf/parse.h:19-96 | every accepted packet has l4 + hlen <= end <= frame length <= 4096, its payload size is the difference without underflow, and its addresses and ports lie where the header offsets say |
| Packets.MirrorSameFlow | ebpf/bpf/parse.h:56-63 | a frame parsed in one direction and its mirror image (MACs, addresses, ports swapped) parsed in the other succeed together with the same flow key and fields |
| Packets.MirrorTwice | ebpf/bpf/parse.h:56-63 | the mirror image of the mirror image is the frame |
| BuilderSteps.SumOriginal | ebpf/bpf/builder.bpf.c:67-77 | the 64 chunks of 64 bytes cover the whole old segment: the sum folds like the sum of all its words, odd tail included |
| BuilderSteps.SumPayload | ebpf/bpf/builder.bpf.c:118-128 | the chunks of 80 bytes add exactly the payload to the header, because the template is zero behind its length |
| BuilderSteps.DeltaFolds | ebpf/bpf/builder.bpf.c:129-130 | the 32-bit delta of two partial sums folds like the difference of the whole sums |
| BuilderSteps.FillEthernet | ebpf/bpf/builder.bpf.c:85-93 | MACs swapped in reverse and the PPPoE length replaced, everything else kept |
| BuilderSteps.FillIpv4 | ebpf/bpf/builder.bpf.c:94-100 | the IPv4 header with new addresses, length, TTL and checksum and without fragment fields |
| BuilderSteps.FillIpv6 | ebpf/bpf/builder.bpf.c:101-106 | the IPv6 header with new addresses, length and hop limit and without the Fragment header |
| BuilderSteps.FillTransport | ebpf/bpf/builder.bpf.c:107-117 | ports, sequence numbers or length, and the old checksum as a seed |
| BuilderSteps.Build | ebpf/bpf/builder.bpf.c:32-168 | succeeds exactly on a packet that parses, whose template exists with 1 to 1200 bytes and fits the link, and leaves exactly the rebuilt frame |
| BuilderChecksum.IncrementalKeeps | ebpf/bpf/builder.bpf.c:64-77 | outside fragments the incremental checksum of the fake verifies over its new pseudo-header if and only if the original's did, both directions, every template |
| BuilderChecksum.IncrementalResidue | ebpf/bpf/builder.bpf.c:161-165 | modulo 65535 the two updates add old data, subtract new data and swap the lengths |
| BuilderChecksum.FreshVerifies | ebpf/bpf/builder.bpf.c:132-146 | for first fragments and atomic fragments the checksum built from 0xffff verifies over the whole fake and is never 0 |
| BuilderChecksum.FromNothingResidue | ebpf/bpf/builder.bpf.c:161-164 | the two-step update never ends in 0, also when the value or the intermediate one is 0, and is the complement of the sums |
| BuilderChecksum.AbsentStaysAbsent | ebpf/bpf/builder.bpf.c:161-165 | a UDP fake has checksum 0 exactly if the original had none and was no fragment |
| BuilderChecksum.Ipv4HeaderVerifies | ebpf/bpf/builder.bpf.c:94-100 | the rewritten IPv4 header sums to 0xffff, and folds to zero |
| BuilderParse.BuildThenParse | ebpf/bpf/builder.bpf.c:78-160 | the built frame parses on the WAN side to the same flow key (addresses, ports, tags, session, peer) with the template as payload, the ordered TTL, no fragment flags, the exact frame length and the right sequence numbers |
| BuilderParse.RebuiltLayers | ebpf/bpf/builder.bpf.c:147-160 | layer by layer the built frame reads as the fake's link, network and transport headers |
| TcpOptions.RefusedExactly | ebpf/bpf/tcp.h:29-43 | an option area is refused exactly if an option that starts before end-of-list is malformed or of kind 19 or 29 |
| TcpOptions.StripsExactly | ebpf/bpf/tcp.h:29-43 | otherwise every byte of a kind-34 option becomes a NOP and every other byte is kept |
| TcpOptions.SecondPass | ebpf/bpf/tcp.h:29-43 | a second pass over the result changes nothing |
| TcpOptions.VerdictIndependent | ebpf/bpf/tcp.h:29-43 | the verdict does not depend on whether options are stripped |
| TcpOptions.Scan | ebpf/bpf/tcp.h:46-55 | the index-driven loop of 40 steps ends with the verdict and the replacement of the recursive walk |
| OptionsRewrite.Options | ebpf/bpf/tcp.h:46-70 | the packet is either exactly as it was or carries exactly the rewritten options and the updated checksum, under every helper fault |
| OptionsRewrite.RewriteKeepsVerdict | ebpf/bpf/tcp.h:60-67 | after the rewrite the TCP checksum verifies if and only if it did before |
| TokenBucket.RefillIsIdeal | ebpf/bpf/observer.bpf.c:12-16 | the guarded 64-bit refill equals min(limit, tokens + elapsed * rate) over the integers and never overflows |
| TokenBucket.HonestExactly | ebpf/bpf/observer.bpf.c:12-18 | exactly when the refill is the ideal one: the clock did not run backwards, or the bucket ends up full anyway |
| TokenBucket.BackwardClockRefills | ebpf/bpf/observer.bpf.c:12-18 | a clock value one step back fills an empty bucket |
| TokenBucket.WindowBound | ebpf/bpf/observer.bpf.c:52-55 | in any window of a run the copies times 10^9 are at most burst * 10^9 + rate * window |
| TokenBucket.FullBucketGrants | ebpf/bpf/observer.bpf.c:14-18 | after a refilling time a bucket with burst >= repeat grants |
| TokenBucket.Budget.Reserve | ebpf/bpf/observer.bpf.c:5-21 | the locked update leaves the state and gives the verdict of the 64-bit machine |
| RuleRotation.Rotation.NextRule | ebpf/bpf/tcp.h:74-90 | the cursor advances by one and the rule is the one its old value selects |
| RuleRotation.FairShare | ebpf/bpf/tcp.h:74-90 | m consecutive pinnings inside one 32-bit turn, and any with one or two rules, give each of k rules floor(m/k) or ceil(m/k) connections |
| RuleRotation.ShareOfThree | ebpf/bpf/tcp.h:74-90 | the exact share of each of three rules in any window of the 64-bit cursor, wraps included |
| RuleRotation.FairExactly | ebpf/bpf/tcp.h:74-90 | every enabled rule gets the floor or the ceiling of its share exactly with at most two rules or in a fair window |
| RuleRotation.RepeatsExactly | ebpf/bpf/tcp.h:74-90 | two connections in a row get one rule exactly with one rule, or with three at the wrap of the low word |
| RuleRotation.WrapRepeatsARule | ebpf/bpf/tcp.h:74-90 | the first such input: two connections at the wrap both get the first of three rules |
| UdpWindow.UdpFlow.Trigger | ebpf/bpf/udp.h:14-29 | the locked update and verdict of one packet |
| UdpWindow.Counters | ebpf/bpf/udp.h:14-29 | what the fields count since the last idle reset; batches never exceed packets |
| UdpWindow.WindowBound | ebpf/bpf/udp.h:20-26 | between idle resets at most udp_packets batches fire, within the first udp_packets packets; an ingress batch only in both-mode after an egress packet of the window |
| UdpWindow.BatchExactly | ebpf/bpf/udp.h:23-26 | over every run a packet fires exactly within the packet budget, below the batch budget and, on ingress, in both-mode after an egress packet of the window |
| UdpWindow.GuardRedundantExactly | ebpf/bpf/udp.h:24 | over all runs the batch guard follows from the packet guard exactly for settings below 2^32 - 1 |
| UdpWindow.BatchGuardImplied | ebpf/bpf/udp.h:24 | below the largest setting it follows at every packet of every run |
| UdpWindow.BatchGuardNeeded | ebpf/bpf/udp.h:24 | at the largest setting the packet after a burst of 2^32 - 1 passes the first guard and not the second |
| UdpWindow.ResetsAreIdle | ebpf/bpf/udp.h:16-18 | with a clock that does not run backwards a window ends only after a real idle time |
| TcpFlow.FlowTable.Trigger | ebpf/bpf/tcp.h:99-141 | given the verdict on the options, one packet's effect on its entry, on no other, and its verdict, hop estimate and rule |
| TcpTrigger.ParsedSegment | ebpf/bpf/parse.h:78-95 | every TCP packet the parser accepts is a segment the trigger can read |
| TcpTrigger.TriggerOn | ebpf/bpf/tcp.h:91-142 | the whole trigger on a packet: the options are rewritten or read first, and the flow sees exactly their verdict |
| TcpTrigger.SynAckRefusedExactly | ebpf/bpf/tcp.h:122-129 | a SYN-ACK is refused exactly if an option before end-of-list is malformed or authenticates |
| TcpTrigger.BatchOnCleanOptions | ebpf/bpf/tcp.h:98-134 | no batch fires on a handshake whose SYN or SYN-ACK carries such an option |
| TcpFlow.Meaning | ebpf/bpf/tcp.h:97-140 | over every run the entry's fields are the SYN, the data, the batches, the silence and the times of its generation |
| TcpFlow.HandshakeBatch | ebpf/bpf/tcp.h:130-137 | every batch answers a SYN-ACK without data from the other side than its generation's SYN, acknowledging that SYN with or without its largest data, in a generation never silenced and within tcp_batches |
| TcpFlow.BatchExactly | ebpf/bpf/tcp.h:121-138 | over every run a batch fires exactly on a dataless, accepted SYN-ACK from the other, covered side that acknowledges its generation's SYN, in a generation never silenced, seen within 30 s, below its budget and 200 ms after its last batch |
| TcpFlow.BatchesApart | ebpf/bpf/tcp.h:133-134 | batches of one generation are at least 200 ms apart |
| TcpFlow.RetransmissionKeepsBudget | ebpf/bpf/tcp.h:111-117 | over every run a SYN with its generation's number opens a new one exactly after 30 s of silence; within 30 s of the generation's SYN the generation, its budget and its silence stay |
| TcpFlow.SilenceIsReal | ebpf/bpf/tcp.h:126-129 | with a clock that does not run backwards the measured time since the entry was last seen is the real one, so only 30 s of real silence end or silence a generation |
| TcpFlow.RulePinnedOnce | ebpf/bpf/tcp.h:103 | an entry keeps the rule pinned at its creation across all its generations |
| RequestProtocol.StepKeeps | ebpf/bpf/observer.bpf.c:52-103 | every step of producer, builder, consumer and network keeps the invariant |
| RequestProtocol.OneShot | ebpf/bpf/builder.bpf.c:175-181 | over every interleaving an id goes from 0 to 1 and from 2 to 3 at most once |
| RequestProtocol.TransitionsCounted | ebpf/bpf/observer.bpf.c:95-101 | an entry's state word moves only one up at a time, and each move is counted |
| RequestProtocol.FakesRecognised | ebpf/bpf/observer.bpf.c:90-102 | a fake at the hook always finds its entry in state 2: it is spent with its packet's control block restored, or shot, and never triggers again |
| RequestProtocol.OnlyClonesAnswered | ebpf/bpf/observer.bpf.c:90-95 | only the control block of a clone under way gets any answer but falling through, so no other packet is ever spent or shot |
| RequestProtocol.LeftoversAreBuilt | ebpf/bpf/observer.bpf.c:82-86 | an entry no producer holds any more is one whose clone was built and not spent |
| RequestProtocol.OriginalRestored | ebpf/bpf/observer.bpf.c:66-69 | outside the redirect call the original packet carries its own control block |
| RequestProtocol.OriginalFixed | ebpf/bpf/observer.bpf.c:66-69 | no step replaces what the original's control block was |
| RequestProtocol.Totals | ebpf/bpf/observer.bpf.c:70-81 | no real packet is shot, fake_submit_ok never exceeds fake_build_ok, and the request map stays within 256 entries |
| RequestLifetime.StuckForGood | ebpf/bpf/observer.bpf.c:82-95 | over every run a request whose fake was lost or shot stays in the map |
| RequestLifetime.StaysExactly | ebpf/bpf/observer.bpf.c:82-101 | in every reachable state an entry is in the map however the run goes on if and only if its submitted fake was lost or shot |
| RequestLifetime.LeftoverStuckExactly | ebpf/bpf/observer.bpf.c:82-95 | an entry no producer holds is stuck exactly if its clone is not on its way to the hook any more |
| RequestLifetime.StuckEntriesExhaust | ebpf/bpf/observer.bpf.c:64 | once 256 are stuck, every later insertion fails |
| RequestLifetime.NoRoomExactly | ebpf/bpf/observer.bpf.c:64 | no continuation inserts a request if and only if the map holds 256 entries and all are stuck |
| RequestLifetime.StuckReachable | ebpf/bpf/observer.bpf.c:52-87 | for every number up to 256 a run from the start leaves that many entries, all stuck: each was posted, built, redirected, lost, counted as submitted and kept by its producer |
| RequestLifetime.NoRoomReachable | ebpf/bpf/observer.bpf.c:64 | a run from the start reaches a state after which no attempt inserts anything |
| Emission.AttemptsBounded | ebpf/bpf/observer.bpf.c:36-64 | in any stretch of any interleaved run the requests attempted on a WAN are bounded by its burst, its rate over the time between the calls in it, and what earlier calls had left open |
| Emission.OneStep | ebpf/bpf/observer.bpf.c:52-54 | each of the sixteen steps opens at most what a call asks for and closes what an attempt uses |
| Generations.Runtime.Publish | ebpf/user/lifecycle.c:153-199 | succeeds exactly unless generations are used up, rendering failed or a write failed of itself; a success has exactly the announced templates and the previous generation, a failure leaves active and previous as they were with the same number free |
| Generations.Runtime.Reap | ebpf/user/lifecycle.c:200-215 | the restarting traversal terminates and leaves exactly the active and the previous generation |
| Generations.Runtime.Rollback | ebpf/user/lifecycle.c:195-198 | whatever an unfinished generation wrote is gone and nothing else |
| Generations.Runtime.WriteTemplates | ebpf/user/lifecycle.c:170-190 | writes exactly the announced keys, in order, up to the first failing write |
| Generations.OldWrite | ebpf/user/lifecycle.c:153-215 | a write that spares the two newest generations keeps every later view complete: active configuration, its templates, at most 3 generations and 384 templates |
| Generations.Switched | ebpf/user/lifecycle.c:191-193 | switching makes the prepared generation whole and active and changes nothing else |
| Generations.WindowSize | ebpf/bpf/maps.h:36-44 | three generations in a row have at most 384 templates |
| TemplateLookup.KeysDistinct | ebpf/include/abi.h:27-28 | the 32-bit keys of all generations that pass the guard are distinct |
| TemplateLookup.KeysCollideExactly | ebpf/include/abi.h:27-28 | over all 32-bit generations two keys are equal exactly if the generations agree modulo 2^25 and plan and variant are the same |
| TemplateLookup.GuardNeeded | ebpf/user/lifecycle.c:159 | the first generation past the guard collides with generation 0 |
| TemplateLookup.FoundExactly | ebpf/bpf/maps.h:59-63 | the active number read at one write gives at any later one the configuration published under it, and at any later one still, before the write after the switch two generations ahead, exactly the template published for it, if and only if its plan has variants |
| TemplateLookup.RotationFinds | ebpf/user/templates.c:156-167 | the UDP plan and every rule of the configuration's rule map are always found |
| TemplateLookup.KeyAsked | ebpf/bpf/observer.bpf.c:25-27 | plan and variant survive the emit word, the request and the builder's unpacking |
| EndToEnd.FakeSequence | ebpf/bpf/builder.bpf.c:109-113 | every fake for a batch carries the SYN-ACK's number + 1 on one side and the generation's SYN number + 1, with or without its data, on the other, by direction, modulo 2^32 |
| EndToEnd.ClonedAsParsed | ebpf/bpf/tcp.h:122-134 | the SYN-ACK that fires a batch leaves the trigger with the bytes it was parsed from, which the fakes are cloned from |
| EndToEnd.BuiltFromPublished | ebpf/bpf/observer.bpf.c:45-62 | whichever writes fall between reading the number, reading the configuration and building, a packet that parses and fits is built exactly if the configuration has variants for its plan, from the template published for it |
| ClientHello.Tls | ebpf/user/templates.c:40-87 | the printer with its moving position and late lengths writes exactly the template, or refuses names over 253 bytes |
| ClientHello.HelloReads | ebpf/user/templates.c:40-87 | every template is exactly 512 bytes; an independent length-driven reader consumes it whole, finds all nested lengths consistent, returns the name, and finds zero padding last and only there |
| ClientHello.VariantsDiffer | ebpf/user/templates.c:233-235 | two renderings differ only at 11 to 42 and 44 to 75, and hold the random bytes there |
| SipTemplate.Locate | ebpf/user/templates.c:120-139 | the search loop records the first mark of each field with hexadecimal digits and terminator behind it, or fails |
| SipTemplate.LocatesExactly | ebpf/user/templates.c:120-139 | locating succeeds exactly for URIs without the marks, and then finds exactly the rendered branch, tag and Call-ID |
| SipTemplate.Render | ebpf/user/templates.c:172-202 | the template exists exactly if the URI is acceptable and unmarked and the text fits, and its ranges are those of the tokens |
| SipTemplate.BodyFits | ebpf/user/templates.c:187-189 | for every accepted URI the session description fits its buffer, so its length is the one announced |
| SipTemplate.VariantIsRendering | ebpf/user/templates.c:221-232 | patching a rendering gives the rendering with other tokens |
| SipTemplate.VariantDiffers | ebpf/user/templates.c:221-232 | length and every character outside three disjoint ranges are kept; inside are lower-case hexadecimal digits |
| Rendering.RenderPlan | ebpf/user/templates.c:210-239 | one plan's variants: the base first, each other rendered anew or patched with its own draw, the unused tail the base; it fails exactly if a ClientHello finds no random bytes |
| Rendering.RenderAll | ebpf/user/templates.c:208-241 | the same for all plans: every variant of every plan, or failure exactly on a failed draw |
| Rendering.RenderedOptions | ebpf/user/templates.c:208-241 | whatever is drawn, the variants meet what publication asks: the base first, 32 a plan, none of another length |
| Rendering.VariantReads | ebpf/user/templates.c:221-236 | every variant reads as its plan says: a ClientHello is read back to its host name, a patched text is the SIP call to its URI with other tokens |
| Rendering.OptionsAccepted | ebpf/user/templates.c:140-206 | plans with a UDP payload and a payload for every enabled rule give options publication accepts |
| Rendering.SipReady | ebpf/user/templates.c:190-203 | a rendered SIP text is single-byte text whose ranges lie inside it |
| Rendering.RenderAndPublish | ebpf/user/lifecycle.c:166-193 | rendering and publishing together: exactly when it succeeds, and then the generation is whole and each of its templates is the rendered variant its key names and reads as its plan says; on failure the active one stays |
| ConfigEditor.Parse | packaging/luci/htdocs/luci-static/resources/fakeflow/config.js:81-166 | the line loop with its mutable tables computes the parse function, validation by printing included |
| ConfigEditor.Serialize | packaging/luci/htdocs/luci-static/resources/fakeflow/config.js:199-291 | pushing lines and joining them computes the print function |
| ConfigEditor.PrintRules | packaging/luci/htdocs/luci-static/resources/fakeflow/config.js:175-198 | one to three rules, each valid, at least one enabled, printed in order |
| ConfigRoundTrip.RoundTrip | packaging/luci/htdocs/luci-static/resources/fakeflow/config.js:81-166 | what the printer accepts is parsed to the same interfaces, rules and normalised settings if and only if all quoted strings are plain, and printing that gives the same text |
| ConfigRoundTrip.SerializedNormal | packaging/luci/htdocs/luci-static/resources/fakeflow/config.js:199-291 | printing the normalised model gives the same text |
| ConfigRoundTrip.ParsedPlain | packaging/luci/htdocs/luci-static/resources/fakeflow/config.js:140-141 | the parser returns nothing but plain strings, whatever the text |
| ConfigRoundTrip.PrototypeKey | packaging/luci/htdocs/luci-static/resources/fakeflow/config.js:111-116 | before the first section a `_proto__` line with a plain string is accepted and changes no setting |
| ConfigRoundTrip.QuoteInPath | packaging/luci/htdocs/luci-static/resources/fakeflow/config.js:187-190 | appending a quote to any accepted custom path is accepted and not read back |

## Premises

- Clock values reach a lock in nondecreasing order (`TcpFlow.BatchesApart`, `TcpFlow.SilenceIsReal`,
  `TokenBucket.WindowBound`, `Emission.AttemptsBounded`, `UdpWindow.ResetsAreIdle`). For the token bucket
  `TokenBucket.HonestExactly` says exactly what breaking this does.
- A call of `emit` takes its step where it holds the bucket's lock, and each device has a bucket of its own
  (`Emission.AttemptsBounded`).
- Templates are zero behind their length; they are rendered into zeroed memory.
- No other filter duplicates clones, and no other packet carries the control block of a clone under way; the
  64-bit request sequence does not come round. The builder runs inside the redirect call. The consumer's
  compare-and-swap, restore and delete are one step, the others single steps.
- `JSON.parse` is a parameter of the parser; the round trip assumes it reads the three arrays of the printer as what they say.
- Random bytes, helper faults and map-write faults are inputs.

## Left out

- Kernel internals: skb memory, GSO, verifier workarounds and the CHECKSUM_PARTIAL probe of the builder (builder.bpf.c:35-45); checksum words are in network order.
- BuilderSteps.Build: of the helpers only the resizing can fail; a failure after it costs the clone, which is dropped anyway.
- OptionsRewrite.Options: the writes that restore the packet after a failed checksum update are taken to succeed.
- LRU eviction: no budget claim holds across an eviction of a flow entry.
- TcpFlow.FlowTable.Trigger: two first SYNs of one flow racing on two processors, where one consumes a pinned rule without using it.
- The lease is only a reason for the builder or the producer to stop; how often an outage is counted is not modelled.
- `remote_allowed` and the hop estimate of `emit`: case splits of one function.
- Generations.Runtime.Reap: deletions of keys that exist are taken to succeed.
- HTTP and custom payloads: no randomised bytes, arbitrary contents.
- ConfigEditor.Serialize: which message a refusal carries, and form values that are not strings.
- `port_list` and the other retired keys in the printer: they are parsed and migrated but never printed.
- Process and I/O code: attachment, sockets, netlink, logging, state files, the signal loop, the daemon's key-by-key range checks of its configuration file, the views of the web interface and packaging.
