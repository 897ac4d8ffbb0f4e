# Verified models of the Sarena data plane and its services

Sarena wires containers to the network: a data plane forwards and translates packets, a BPF
loader keeps programs and maps pinned per endpoint, an endpoint manager persists state on disk,
an IPAM service hands out addresses, a controller library reruns jobs, and a test framework
carries results out of BPF programs. This project models the parts of it where the hard
properties live in loops, mutable tables and protocols of several steps, and proves them.

| file | models |
|---|---|
| `Bytes.dfy`, `Net.dfy` | octets, fixed-width integers, addresses, prefixes; shared arithmetic |
| `Checksum.dfy` | the Internet checksum (RFC 1071 section 1) as it is computed, and what a receiver checks |
| `Frame.dfy` | IPv4 parsing and the in-place NAT rewrite with both checksums |
| `Routing.dfy` | longest-prefix match, weighted selection, route updates |
| `Conntrack.dfy` | the two conntrack tables over whole runs |
| `SoftDataplane.dfy` | `decide` on frames, table updates, the NAT round trip |
| `DirectoryNames.dfy` | names of endpoint state directories |
| `StateDirectory.dfy` | one regeneration as the filesystem steps a crash can cut into |
| `Recovery.dfy` | what a restart restores and removes |
| `Pins.dfy`, `Loader.dfy` | the pin layout; the loader over a backend whose calls fail part way |
| `DeleteProtocol.dfy` | worker, queue, loader inbox and deleter as interleaved steps |
| `Bitmap.dfy`, `HostScope.dfy`, `Ipam.dfy` | word-level bitmap, the addresses of a CIDR, the service |
| `Backoff.dfy`, `Controller.dfy`, `ControllerManager.dfy` | retry delays, one controller, the manager |
| `Tlv.dfy`, `TlvReader.dfy`, `TestSuite.dfy` | the record writer, the parser, the suite that fills the buffer |

`dafny verify dfyconfig.toml` checks everything.

How the models are built:

- Code that changes state in place is a class or a method over an array (`Dataplane`,
  `EndpointDirs`, `StateDir`, `Backend`, `BpfLoader`, `AllocationBitmap`, `HostScopeAllocator`,
  `DefaultIpamService`, `Manager`, `TlvWriter`, `Suite`, the frame rewrite), proved against
  functions and predicates on values; the lemmas are about those.
- Concurrency is a transition system over named events, one per atomic step, and statements are
  about every sequence of events.
- Every call into the kernel, the filesystem or the BPF backend may fail. A removal may stop half
  way through a directory; a backend call may have done none, some or all of its work. A crash is
  any prefix of the states passed through.
- A panic is a result (`Panics`, `Panicked`) with its exact condition, so `decide`, the lookup and
  the parser are defined on every input. `Frame.InBounds` says it of the rewrite's own accesses.
- Each operation is also said a second time without its parts: in octets and offsets, in counts, as
  the list of calls it makes, or as a table of what comes of each case (`...SpelledOut`,
  `...Octets`), so that the functions the methods are proved against mean what their names say.
- Randomness is a nondeterministic choice (the bitmap's probe start) or a bounded parameter (the
  delay after jitter); hash functions are unknown deterministic functions of the flow; maps are
  walked in arbitrary order.

Where a property one would expect does not hold of the code, there is an input or a family of
inputs that shows it, and the exact condition under which it does hold:

- The lookup depends on the order of the walk when two destinations spell one prefix with different
  host bits (`Routing.NonCanonicalAmbiguous`). It is determined exactly when each longest match has
  one spelling in the table (`LookupDeterminedIff`); canonical destinations always have one.
- When a service changes its backend between two packets of one flow, the older reply tuple stays
  in the index and dangles after a flush (`Conntrack.ListChangeDangles`). The tables stop agreeing
  exactly at a packet that gives a recorded flow another reply tuple while the old one still leads
  to it (`AgreesUnlessReroutes`, over runs `AgreementIff`), and `FlushDanglesByOrphan` says which
  flush then leaves a dangling pair.
- A regeneration can pass through a moment with nothing to recover. On every disk and under every
  fault pattern `StateDirectory.LosesIff` says when; no outcome loses exactly when `<id>` or
  `<id>_stale` reads back (`SafeIff`). A regeneration keeps that exactly unless its commit, without
  a readable `<id>`, fails after touching the backup (`StaysSafeIff`); a restart, whichever of its
  removals succeed, exactly when it restores `<id>` or `<id>_stale` or leaves a readable
  `<id>_stale` as it was (`RecoverySafeIff`, `Recovery.CleanUpSafeIff`); `RunSafeIff` says it of
  runs of both with crashes anywhere. A failed rollback leads out of it (`RollbackFailureLoses`), and
  so does, without any call failing, a crash between the two renames and a restart that removes
  `<id>_stale` (`CrashThenRestartLoses`).
- A datagram that ends after its ports but before its checksum field panics in the rewrite
  (`SoftDataplane.ShortUdpPanics`); `Frame.InBoundsIff` and `NatPanicsIff` give the condition on the
  frame as received.
- A controller removed and added again under its name can run beside its predecessor, exactly when
  that one can still be in a run; anything of it, the hook included, is left exactly when it has not
  terminated (`ControllerManager.Manager.ReuseOverlapIff`); `Manager.RemoveAndAddAgain` leads to both
  in a run.
- The rollback of a dual-stack allocation can release an address that has meanwhile been handed to
  someone else (`Ipam.RollbackTakesFromOther`), exactly when it was released and taken again in
  between (`Ipam.DefaultIpamService.AllocateNextShared`, `HolderAfter`); and it forgets the owner
  only for the default pool (`RollbackUndoesIff`).
- Map pins are not scoped by kind, so detaching a host endpoint takes the config map of a container
  endpoint on the same link (`Loader.HostDetachTakesConfig`, exactly when: `CrossKindDetach`).
- A zero cap turns every interval into zero, which is otherwise excluded
  (`ControllerManager.NormalizedInterval`).
- A version record without a value makes the parser index out of range (`TlvReader.PanicsIff`).
- Trimming zeros loses octets exactly when the last one written is zero (`TlvReader.TrimRecoversIff`).
  After a status has been refused the runner reads back what was written exactly when its last octet
  is not a zero, and an error about the last record otherwise (`TestSuite.ReportOfRecords`).

## Model

| member | source | states |
|---|---|---|
| Checksum.InternetChecksum | sarena-data-plane/src/soft_dataplane.rs:407-421 | the 32-bit sum never overflows up to 131074 octets, the fold loop ends, and the result is the complement of the sum's one's-complement value, defined without carries; odd lengths included |
| Checksum.FoldKeepsValue | sarena-data-plane/src/soft_dataplane.rs:417-419 | adding the carries back keeps the one's-complement value, for every sum |
| Checksum.FieldVerifiesIff | sarena-data-plane/src/soft_dataplane.rs:442-445 | exactly which values of the checksum field the receiver's check of RFC 1071 section 1 accepts |
| Checksum.FilledFieldVerifies | sarena-data-plane/src/soft_dataplane.rs:475-494 | the computed value verifies, and over UDP so does all ones in place of a computed zero (RFC 768) |
| Checksum.FilledNonzero | sarena-data-plane/src/soft_dataplane.rs:487-491 | the transmitted UDP checksum is never zero |
| Checksum.FilledNotOnes | sarena-data-plane/src/soft_dataplane.rs:442-483 | without the UDP rule the field is never all ones, unless everything else is zero |
| Checksum.WordSumOctet | sarena-data-plane/src/soft_dataplane.rs:407-416 | the sum octet by octet: 256 times an octet at an even position, once one at an odd position |
| Checksum.VerifiesIff | sarena-data-plane/src/soft_dataplane.rs:407-421 | the receiver's check in plain arithmetic: a nonzero multiple of 0xFFFF |
| Checksum.ChecksumCompletes | sarena-data-plane/src/soft_dataplane.rs:407-421 | the computed value completes the sum to a multiple of 0xFFFF, and is all ones only for zeros |
| Checksum.FillChecksum | sarena-data-plane/src/soft_dataplane.rs:442-445 | zeroing the field, summing and writing back, in place |
| Frame.RewriteIpv4 | sarena-data-plane/src/soft_dataplane.rs:427-458 | on the frames on which no access is out of range the in-place rewrite leaves exactly the specified frame |
| Frame.AttemptIff | sarena-data-plane/src/soft_dataplane.rs:427-495 | with every access checked in the order it is made, on every frame long enough to be parsed: the rewrite goes through exactly on those frames and then leaves that frame, and panics on all others |
| Frame.InBoundsIff | sarena-data-plane/src/soft_dataplane.rs:427-495 | that condition in terms of the frame as received: room for the header, for the ports if any, and for the checksum field of a datagram that is all there |
| Frame.RecomputeL4Checksum | sarena-data-plane/src/soft_dataplane.rs:460-495 | the L4 checksum over pseudo-header and segment (RFC 9293 section 3.1), left alone when the datagram is not all in the frame |
| Frame.RewriteReparses | sarena-data-plane/src/soft_dataplane.rs:427-458 | on every well-formed frame re-parsing yields the requested addresses and ports, and only address, port and checksum octets changed |
| Frame.RewriteHeaderVerifies | sarena-data-plane/src/soft_dataplane.rs:442-445 | the IP header of the result passes the receiver's check |
| Frame.RewriteSegmentVerifies | sarena-data-plane/src/soft_dataplane.rs:460-495 | pseudo-header and segment of the result pass the receiver's check, and a UDP checksum is not zero |
| Frame.ParsedOctets | sarena-data-plane/src/soft_dataplane.rs:358-382 | which frames are parsed and what is read, octet by octet |
| Frame.RewriteOctets | sarena-data-plane/src/soft_dataplane.rs:427-495 | on every complete TCP or UDP datagram: the addresses at octets 26 and 30 and the ports are as requested, and nothing else has changed but the header checksum at 24 and TCP's checksum at octets 16 and 17 of the segment or UDP's at 6 and 7 |
| Frame.RewriteSums | sarena-data-plane/src/soft_dataplane.rs:442-494 | both sums, pseudo-header octet by octet, are nonzero multiples of 0xFFFF, and which value each field never has, so that both are determined |
| Frame.PanicOctets | sarena-data-plane/src/soft_dataplane.rs:427-495 | the rewrite panics exactly when the header, a port to set, or, for a datagram that is there, 18 octets of TCP or 8 of UDP are not all in the frame |
| Frame.UntouchedOctets | sarena-data-plane/src/soft_dataplane.rs:427-495 | what it leaves alone on any frame: a port it is not to set, the segment checksum of a datagram that is not all there, all but the header of other protocols |
| Frame.SetOnAnyFrame | sarena-data-plane/src/soft_dataplane.rs:427-458 | the addresses, ports and header checksum it sets on any frame |
| Routing.SelectRoute | sarena-data-plane/src/soft_dataplane.rs:302-319 | returns the route that owns the hash residue, so the fallback to the last route is never reached; panics exactly when the weights add up to more than 32 bits |
| Routing.ShareIsWeight | sarena-data-plane/src/soft_dataplane.rs:309-317 | each route owns the residues from the total weight before it on: exactly as many as its configured weight, one for a weight of 0 |
| Routing.WeightsAdd | sarena-data-plane/src/soft_dataplane.rs:309 | the residues number the sum of the configured weights, 0 counting as 1 |
| Routing.OwnerUnique | sarena-data-plane/src/soft_dataplane.rs:311-317 | no residue has two owners |
| Routing.LookupRoute | sarena-data-plane/src/soft_dataplane.rs:321-336 | one pass in any order finds the hash owner in a longest matching group, for every table, a panic of the selection included |
| Routing.LongestUnique | sarena-data-plane/src/soft_dataplane.rs:326-334 | with canonical destinations the longest match is unique |
| Routing.LongestUniqueIff | sarena-data-plane/src/soft_dataplane.rs:326-334 | a longest match is the only one exactly when no other destination in the table has its family, length and network bits |
| Routing.NonCanonicalAmbiguous | sarena-data-plane/src/soft_dataplane.rs:326-334 | with two spellings of one prefix one lookup can return either of two different routes, for every hash |
| Routing.LookupDetermined | sarena-data-plane/src/soft_dataplane.rs:321-336 | where each longest match has one spelling the lookup is a function of table, address and hash, and fails only when no prefix matches |
| Routing.LookupDeterminedIff | sarena-data-plane/src/soft_dataplane.rs:321-336 | and exactly there: otherwise two walks give two results |
| Routing.LookupSpelledOut | sarena-data-plane/src/soft_dataplane.rs:302-336 | a route found lies under a matching destination no shorter than any other, in whose group the hash falls into its stretch; none is found only where nothing matches |
| Routing.PanicSpelledOut | sarena-data-plane/src/soft_dataplane.rs:309 | the lookup can panic exactly where the weights of such a group exceed 32 bits |
| Net.ContainsSameBits | sarena-data-plane/src/soft_dataplane.rs:326-329 | a network contains the addresses that agree with it in the first bits |
| Routing.AddRouteUpserts | sarena-data-plane/src/soft_dataplane.rs:570-578 | groups stay non-empty with one route per next hop; the added route replaces the one via its next hop and leaves the others |
| Routing.AddRouteKeepsOrder | sarena-data-plane/src/soft_dataplane.rs:570-578 | an added route takes the place of the one via its hop or comes last; the others keep their places, and with them their residues |
| Routing.RemoveRouteExact | sarena-data-plane/src/soft_dataplane.rs:579-588 | exactly the routes via that next hop go, and an emptied group with them |
| Routing.RetainKeepsOrder | sarena-data-plane/src/soft_dataplane.rs:579-588 | what remains keeps its order |
| Conntrack.RoutesKept | sarena-data-plane/src/soft_dataplane.rs:567-588 | the route-table invariant over every run |
| Conntrack.KeyedKept | sarena-data-plane/src/soft_dataplane.rs:208-231 | in every run each entry is stored under its own original tuple |
| Conntrack.AgreementKept | sarena-data-plane/src/soft_dataplane.rs:167-231 | where each frontend keeps one backend list, in every run every index pair r to o has an entry at o whose reply is r |
| Conntrack.AgreesUnlessReroutes | sarena-data-plane/src/soft_dataplane.rs:188-231 | one packet breaks the agreement of the tables exactly when it gives a recorded flow another reply tuple while the old one still leads to that flow |
| Conntrack.AgreementIff | sarena-data-plane/src/soft_dataplane.rs:146-234 | over every run: the tables agree after every event exactly when no packet does that; no service update, route update or flush ever breaks it |
| Conntrack.OneListNeverReroutes | sarena-data-plane/src/soft_dataplane.rs:188-222 | with one backend list per frontend no packet does |
| Conntrack.FlushRemovesExactly | sarena-data-plane/src/soft_dataplane.rs:712-730 | after a flush no entry mentions the endpoint's addresses and no other entry is gone |
| Conntrack.FlushSpelledOut | sarena-data-plane/src/soft_dataplane.rs:712-730 | which entries and which reply tuples a flush leaves, in terms of the client, the backend and the replies |
| Conntrack.UpdatesSpelledOut | sarena-data-plane/src/soft_dataplane.rs:500-710 | every other update sets or removes one entry of one table |
| Conntrack.FlushDanglesByOrphan | sarena-data-plane/src/soft_dataplane.rs:712-730 | a flush leaves a dangling pair exactly when it removes a flow to which an older reply tuple still leads and no removed flow replies with that tuple |
| Conntrack.DanglesAfterReroute | sarena-data-plane/src/soft_dataplane.rs:188-222 | after a packet that breaks the agreement the one such tuple is the flow's former reply, and which flush makes it dangle |
| Conntrack.ListChangeDangles | sarena-data-plane/src/soft_dataplane.rs:188-222 | a backend change between two packets of one flow leads to a dangling pair |
| Conntrack.PinnedKept | sarena-data-plane/src/soft_dataplane.rs:167-231 | through any events of which none disturbs it, the reply tuple keeps leading to the flow |
| Conntrack.PinnedIff | sarena-data-plane/src/soft_dataplane.rs:167-231 | it does after every event exactly when none gives another flow the same reply tuple and no flush takes the flow or another one with it |
| Conntrack.FlushDisturbsIff | sarena-data-plane/src/soft_dataplane.rs:712-730 | which flushes do: those of an endpoint that the flow's entry, or another one with the same reply tuple, mentions |
| SoftDataplane.Dataplane.Decide | sarena-data-plane/src/soft_dataplane.rs:146-234 | the decision, the frame and both tables are as specified, for every frame and every state, panics included |
| SoftDataplane.Dataplane.TranslateReply | sarena-data-plane/src/soft_dataplane.rs:167-186 | return traffic: the entry becomes established and the source is rewritten to the frontend |
| SoftDataplane.Dataplane.TryRewrite | sarena-data-plane/src/soft_dataplane.rs:427-458 | panics exactly on the frames outside the rewrite's bounds |
| SoftDataplane.Dataplane.TranslateRequest | sarena-data-plane/src/soft_dataplane.rs:188-231 | new traffic to a frontend: both tables record the flow and the frame goes to the backend |
| SoftDataplane.Dataplane.Forward | sarena-data-plane/src/soft_dataplane.rs:236-288 | lookup and next-hop dispatch, with the panic of the selection |
| SoftDataplane.ForwardsAlong | sarena-data-plane/src/soft_dataplane.rs:236-288 | exactly what `forward` can decide: along a route the lookup returns, delivered with the interface's MAC if there is one, encapsulated if there is a tunnel, else dropped; a drop without a route; a panic only of the lookup |
| SoftDataplane.ForwardsOneWay | sarena-data-plane/src/soft_dataplane.rs:259-287 | where the lookup can only return one route, exactly that |
| SoftDataplane.TupleSpelledOut | sarena-data-plane/src/soft_dataplane.rs:146-165 | the flow of a frame from its octets, and which protocols are read |
| SoftDataplane.ReplySpelledOut | sarena-data-plane/src/soft_dataplane.rs:167-186 | a reply of a recorded flow: the state after it, and the rewrite or panic it gets |
| SoftDataplane.RequestSpelledOut | sarena-data-plane/src/soft_dataplane.rs:188-231 | a packet to a service: the backend its hash picks, both tables, the rewrite; and the drops |
| SoftDataplane.OtherSpelledOut | sarena-data-plane/src/soft_dataplane.rs:146-155 | anything else is forwarded unchanged or dropped unread, and recorded nowhere |
| SoftDataplane.Dataplane.AddRoute | sarena-data-plane/src/soft_dataplane.rs:570-578 | the search loop performs the specified update |
| SoftDataplane.Dataplane.RemoveRoute | sarena-data-plane/src/soft_dataplane.rs:579-588 | the retain and the removal of an emptied group |
| SoftDataplane.Dataplane.FlushConntrack | sarena-data-plane/src/soft_dataplane.rs:712-730 | removing the stale flows one by one, in any order, removes them all at once from both tables |
| SoftDataplane.SentIsClean | sarena-data-plane/src/soft_dataplane.rs:146-288 | whatever leaves after a rewrite carries the translated tuple, verifies at both layers and differs only in MAC, address, port and checksum octets |
| SoftDataplane.NatPanicsIff | sarena-data-plane/src/soft_dataplane.rs:427-495 | a translated packet is rewritten without a panic exactly when the frame as received has room for what the rewrite touches |
| SoftDataplane.ShortUdpPanics | sarena-data-plane/src/soft_dataplane.rs:475-484 | every UDP datagram that is all in its frame and ends 4 to 7 octets after the IP header panics when it opens a flow, after both tables recorded it |
| SoftDataplane.RequestLeg | sarena-data-plane/src/soft_dataplane.rs:188-231 | a request of a new flow is sent, if at all, to the chosen backend, and its flow is recorded |
| SoftDataplane.NatRoundTrip | sarena-data-plane/src/soft_dataplane.rs:146-288 | request with tuple t, then any frames, updates and flushes that do not disturb its reply tuple, then a frame with the delivered tuple reversed: it leaves as t reversed, otherwise intact |
| SoftDataplane.TranslatedIsSent | sarena-data-plane/src/soft_dataplane.rs:188-288 | a translated frame is sent along its route whenever the translated flow has one that leads somewhere |
| SoftDataplane.NatRoundTripSent | sarena-data-plane/src/soft_dataplane.rs:146-288 | with a way to the backend and later one to the client, both legs are sent, each with its tuple |
| DirectoryNames.NamesOneToOne | sarena-data-plane/src/endpoint/directory.rs:194-207 | a name parses to (id, kind) exactly when the id is in 1..4095 and the name is the one the path functions build |
| DirectoryNames.NamesSpelledOut | sarena-data-plane/src/endpoint/directory.rs:12-32 | the names: the id in decimal without leading zeros, and the three suffixes |
| StateDirectory.CrashConsistent | sarena-data-plane/src/endpoint/regenerate.rs:15-66 | after every prefix of one regeneration under every fault pattern the old or the new state is recovered; the old one when the BPF step failed; `<id>` is gone at the end exactly when a rollback failed |
| StateDirectory.SynchronizeRecovers | sarena-data-plane/src/endpoint/directory.rs:47-85 | set aside, promote, roll back: what is committed for every combination of failures |
| StateDirectory.SynchronizeSpelledOut | sarena-data-plane/src/endpoint/directory.rs:47-85 | from any disk: a commit succeeds exactly when the backup is removed, setting aside does not fail and the promotion succeeds, whether or not there was a state to set aside; and where it leaves the directories, failure by failure |
| StateDirectory.RegenerateSpelledOut | sarena-data-plane/src/endpoint/regenerate.rs:15-66 | from any disk and under any faults: exactly when a regeneration is ready, when failed, and when it returns without an error |
| StateDirectory.RegenerateEnds | sarena-data-plane/src/endpoint/regenerate.rs:15-51 | and where it leaves the directories |
| StateDirectory.RegenerateInOrder | sarena-data-plane/src/endpoint/regenerate.rs:15-51 | the states a regeneration that goes well passes through, in order |
| StateDirectory.RecoveredSpelledOut | sarena-data-plane/src/endpoint/directory.rs:109-128 | what a restart takes, directory by directory |
| StateDirectory.RunConsistent | sarena-data-plane/src/endpoint/regenerate.rs:15-51 | in any run in which no rollback fails, `<id>` is readable with a state of the run at every command boundary, and whatever crash inside any command recovers one too |
| StateDirectory.ReadableThroughoutIff | sarena-data-plane/src/endpoint/regenerate.rs:15-51 | `<id>` is readable at every command boundary exactly when no rollback fails |
| StateDirectory.LosesIff | sarena-data-plane/src/endpoint/regenerate.rs:15-66 | from every disk, under every fault pattern: a regeneration passes through a moment with nothing to recover exactly when neither `<id>` nor `<id>_stale` reads back and it makes a step at all, or, if `<id>_next_fail` does, when the write fails and that directory is touched next |
| StateDirectory.SafeIff | sarena-data-plane/src/endpoint/regenerate.rs:15-66 | no regeneration under any faults passes through such a moment exactly when `<id>` or `<id>_stale` reads back |
| StateDirectory.StaysSafeIff | sarena-data-plane/src/endpoint/regenerate.rs:15-51 | from such a disk a regeneration ends in such a disk exactly unless `<id>` does not read back and a commit touches the backup without promoting the new state, for a failing rename of a missing `<id>` too |
| StateDirectory.RunSafeIff | sarena-data-plane/src/endpoint/regenerate.rs:15-51 | over runs of regenerations, crashes at any state and restarts with any removals: every boundary is such a disk exactly when each of them keeps it, and then no moment of the run is without a state to recover |
| StateDirectory.RecoverySafeIff | sarena-data-plane/src/endpoint/directory.rs:130-157 | a restart, whichever removals succeed and wherever it stops, leaves such a disk exactly when it restored `<id>` or `<id>_stale` or left a readable `<id>_stale` as it was; it never changes what would be restored |
| StateDirectory.CrashThenRestartLoses | sarena-data-plane/src/endpoint/regenerate.rs:15-51 | a crash between the renames of a commit in which no call fails, a restart whose removals succeed, and the next regeneration passes through a moment with nothing to recover |
| StateDirectory.RollbackFailureLoses | sarena-data-plane/src/endpoint/directory.rs:59-72 | a failed rollback and another failed promotion lead to the same |
| StateDirectory.EndpointDirs.RegenerateEndpoint | sarena-data-plane/src/endpoint/regenerate.rs:15-51 | the calls on the directories pass through exactly the modelled states and end in the modelled phase |
| StateDirectory.EndpointDirs.SynchronizeDirectories | sarena-data-plane/src/endpoint/directory.rs:47-85 | the same for the commit |
| Recovery.StateDir.ReadEndpoints | sarena-data-plane/src/endpoint/directory.rs:105-157 | restores the least readable kind of each endpoint; every other directory of it is as its removal has left it; the disk moves one removal step at a time, and every state of it, wherever it stops, would restore the same |
| Recovery.StateDir.CollectEndpointDirs | sarena-data-plane/src/endpoint/directory.rs:172-190 | groups exactly the directories whose names parse |
| Recovery.StateDir.Choose | sarena-data-plane/src/endpoint/directory.rs:109-128 | the first kind in order that reads back with the endpoint's own id |
| Recovery.StateDir.RemoveOthers | sarena-data-plane/src/endpoint/directory.rs:135-153 | the same, and never the chosen directory nor another endpoint's |
| Recovery.LosingOtherKeepsRestored | sarena-data-plane/src/endpoint/directory.rs:135-153 | losing a directory that was not chosen, wholly or partly, changes nothing that is restored for any endpoint |
| Recovery.CleanUpLeavesUnchosen | sarena-data-plane/src/endpoint/directory.rs:130-133 | chosen directories, and all of an endpoint with nothing readable, are left as they were |
| Recovery.CleanedView | sarena-data-plane/src/endpoint/directory.rs:135-153 | with all removals done, exactly the chosen directory of an endpoint is left |
| Recovery.CleanUpSafeIff | sarena-data-plane/src/endpoint/directory.rs:130-157 | the same for the directories of every endpoint, after any clean-up of the state directory |
| Recovery.RestoredTwice | sarena-data-plane/src/endpoint/directory.rs:105-157 | a second recovery after one that was cut short is again a clean-up of the first disk |
| Pins.PinSubpathRoundTrip | sarena-data-plane/src/loader/pin.rs:55-65 | parsing undoes building for every kind and link |
| Pins.LinkDirsDisjoint | sarena-data-plane/src/loader/pin.rs:42-44 | a pin lies under the directory of one endpoint at most |
| Pins.MapPathsDistinct | sarena-data-plane/src/loader/pin.rs:46-53 | map pins are never among link pins, and distinct maps have distinct paths |
| Pins.PathsSpelledOut | sarena-data-plane/src/loader/pin.rs:34-63 | every path, component by component |
| Pins.KindsSpelledOut | sarena-data-plane/src/loader/manifest.rs:21-86 | each kind's directory, hooks, the side they are attached at, and maps |
| Loader.InOrderKeeps | sarena-data-plane/src/loader/data_plane_loader.rs:58-77 | a call in the loader's order, carried out fully, partly or not at all, keeps: a pinned container program has its config map pinned and written |
| Loader.CrossKindDetach | sarena-data-plane/src/loader/pin.rs:46-49 | exactly when detaching one kind breaks that for a container on the same link |
| Loader.HostDetachTakesConfig | sarena-data-plane/src/loader/data_plane_loader.rs:129-141 | detaching a host endpoint leaves a container's program on the same link without its config |
| Loader.RemovalUnlists | sarena-data-plane/src/loader/data_plane_loader.rs:143-172 | emptying one link directory takes exactly that endpoint off the list |
| Loader.ListedSpelledOut | sarena-data-plane/src/loader/data_plane_loader.rs:143-172 | an endpoint is listed exactly when both its programs are pinned below its directory |
| Loader.SparingKeeps | sarena-data-plane/src/loader/data_plane_loader.rs:189-214 | a call that spares the desired endpoints keeps all their pins and addresses however it fails |
| Loader.RunPromises | sarena-data-plane/src/loader/data_plane_loader.rs:45-217 | at each call of any sequence of adds, removes and reconciles with faults the step invariant holds, and inside a reconcile the desired pins and addresses stay |
| Loader.Backend.Perform | sarena-data-plane/src/loader/data_plane_loader.rs:58-77 | one backend call: what success means, and that a failure leaves some of its work |
| Loader.BpfLoader.WriteContainerMaps | sarena-data-plane/src/loader/data_plane_loader.rs:97-116 | success means the config is written and every address is in `lxc_map`; nothing is taken away, and only a failed call makes it fail |
| Loader.BpfLoader.AttachHooks | sarena-data-plane/src/loader/data_plane_loader.rs:63-92 | every hook is tried, whichever fail, and exactly the required ones that failed are named; needs the config in place |
| Loader.BpfLoader.AddLoaderEndpoint | sarena-data-plane/src/loader/data_plane_loader.rs:45-95 | makes exactly the specified calls in order, ended only by a failure before the hooks, and succeeds exactly when no required one failed; nothing is taken away; each call keeps the step invariant, so no hook comes before its config |
| Loader.AddSpelledOut | sarena-data-plane/src/loader/data_plane_loader.rs:48-92 | those calls and their paths: the link, the instance with its maps, a container's config and addresses, both hooks |
| Loader.BpfLoader.DetachLoaderEndpoint | sarena-data-plane/src/loader/data_plane_loader.rs:129-141 | success leaves the state without exactly this endpoint's link pins and maps; the calls are made in order up to the first failure, which has removed some of them and nothing else; each call made keeps the step invariant, so with one kind per link no config goes before its programs |
| Loader.BpfLoader.UnpinMaps | sarena-data-plane/src/loader/data_plane_loader.rs:135-138 | takes away exactly the endpoint's maps, or on a failure the first few of them |
| Loader.BpfLoader.RemoveLoaderEndpoint | sarena-data-plane/src/loader/data_plane_loader.rs:120-127 | success leaves the state without exactly its addresses, link pins and maps; the calls are made in order, addresses first, up to the first failure |
| Loader.RemoveSpelledOut | sarena-data-plane/src/loader/data_plane_loader.rs:120-141 | those calls and their paths |
| Loader.BpfLoader.ListLoaderEndpoints | sarena-data-plane/src/loader/data_plane_loader.rs:143-172 | lists exactly the endpoints whose required programs are all pinned, in any order of pins |
| Loader.BpfLoader.Reconcile | sarena-data-plane/src/loader/data_plane_loader.rs:177-217 | no call removes a desired link directory or address, whatever fails; whatever is not named in the errors is done, and they are exactly the adds and detaches that failed, in order; it is ended only by a failing listing or a failing removal of an address; no error at all means listing and addresses equal the desired ones from any starting state; without faults there is no error, so a second call changes neither |
| Loader.BpfLoader.AddAll | sarena-data-plane/src/loader/data_plane_loader.rs:183-187 | every desired endpoint that is not named is listed with its addresses, and no other endpoint comes to be listed |
| Loader.BpfLoader.DetachStale | sarena-data-plane/src/loader/data_plane_loader.rs:194-198 | what was listed and wanted stays listed, and nothing else but what is named |
| Loader.DetachedBut | sarena-data-plane/src/loader/data_plane_loader.rs:129-141 | a detach that stops anywhere changes the listing in that one endpoint at most |
| DeleteProtocol.StepKeeps | sarena-data-plane/src/endpoint/worker.rs:82-114 | every step of client, worker, loader or deleter keeps the invariant |
| DeleteProtocol.NothingReattached | sarena-data-plane/src/endpoint/manager.rs:176-212 | in every interleaving the loader takes no add of the worker after the deleter's remove; adds come in request order, one per request; a finished delete has its remove taken |
| DeleteProtocol.ExactlyOnceInOrder | sarena-data-plane/src/endpoint/worker.rs:82-114 | accepted requests are answered once each, in the order they were accepted, all of them by the time the worker exits |
| DeleteProtocol.DrainIsBounded | sarena-data-plane/src/endpoint/worker.rs:98-103 | after the close at most the queue's capacity is still to be handled, whatever clients do, and nothing is accepted after the exit |
| DeleteProtocol.PossibleIff | sarena-data-plane/src/endpoint/worker.rs:82-114 | exactly when each step of client, worker, loader and deleter is possible |
| DeleteProtocol.HandlesSpelledOut | sarena-data-plane/src/endpoint/handle.rs:88-117 | what each step does to handles, permits, the stop token and the queue |
| DeleteProtocol.RequestsThenDelete | sarena-data-plane/src/endpoint/worker.rs:82-114 | any number of requests can be served one after another and the endpoint deleted after them: each add taken, each request answered, the remove last |
| DeleteProtocol.DeleteCanFinish | sarena-data-plane/src/endpoint/handle.rs:88-117 | from every state reached after a cancel the delete can be completed by worker, loader and deleter alone |
| DeleteProtocol.StepCounts | sarena-data-plane/src/endpoint/handle.rs:88-117 | each step of worker, loader, deleter or permit holder brings a delete nearer to its end, and nobody else's takes it further away by more than the work it brings along |
| DeleteProtocol.DeleteIsBounded | sarena-data-plane/src/endpoint/handle.rs:88-117 | in every interleaving a delete takes no more such steps than it had left, plus what others have added: no livelock |
| DeleteProtocol.DeleteFinishes | sarena-data-plane/src/endpoint/handle.rs:88-117 | in every interleaving it is finished or has a step of its own to take, and is finished once that many have been taken: no deadlock |
| Bitmap.SetBitBits | sarena-services/src/ipam/bitmap.rs:97-103 | setting a bit of a word sets that offset and no other |
| Bitmap.ClearBitBits | sarena-services/src/ipam/bitmap.rs:105-107 | clearing likewise |
| Bitmap.ProbeVisitsAll | sarena-services/src/ipam/bitmap.rs:91-94 | from every start the wrap-around probe visits every offset exactly once |
| Bitmap.AllocationBitmap.Allocate | sarena-services/src/ipam/bitmap.rs:24-35 | succeeds exactly on a free offset in range and adds it; the count stays the number of set bits |
| Bitmap.AllocationBitmap.AllocateNext | sarena-services/src/ipam/bitmap.rs:37-43 | a free offset for every random start, none exactly when full |
| Bitmap.AllocationBitmap.AllocateBit | sarena-services/src/ipam/bitmap.rs:87-95 | the search behind it |
| Bitmap.AllocationBitmap.Release | sarena-services/src/ipam/bitmap.rs:45-55 | removes exactly that offset, the count never underflows |
| Bitmap.AllocationBitmap.ForEach | sarena-services/src/ipam/bitmap.rs:57-70 | visits exactly the allocated offsets in ascending order |
| Bitmap.VisitWord | sarena-services/src/ipam/bitmap.rs:60-68 | the shift loop over one word |
| HostScope.OffsetsAndAddresses | sarena-services/src/ipam/host_scope.rs:89-96 | for every CIDR the two directions are inverse between the offsets below the maximum and the usable addresses |
| HostScope.OffsetsAreUsable | sarena-services/src/ipam/host_scope.rs:18-50 | the usable addresses of every prefix length: all but first and last, both of a pair, the one of a single, 65534 of a large IPv6 block, none of the two shortest |
| HostScope.UsableSpelledOut | sarena-services/src/ipam/host_scope.rs:18-50 | the same for IPv4 in numbers |
| HostScope.UsableSpelledOut6 | sarena-services/src/ipam/host_scope.rs:18-50 | and for IPv6 |
| HostScope.FitsFamily | sarena-services/src/ipam/host_scope.rs:129-135 | base and offset never leave the 32 or 128 bits, so nothing is truncated |
| HostScope.ContainsIsRange | sarena-services/src/ipam/host_scope.rs:89-92 | a network contains exactly one block of addresses |
| HostScope.HostScopeAllocator.Allocate | sarena-services/src/ipam/host_scope.rs:52-60 | which error when, and exactly that address taken |
| HostScope.HostScopeAllocator.AllocateNext | sarena-services/src/ipam/host_scope.rs:62-66 | a usable free address; range full exactly when all usable ones are taken |
| HostScope.HostScopeAllocator.Release | sarena-services/src/ipam/host_scope.rs:68-72 | exactly that address is free again |
| Ipam.RegisterConserves | sarena-services/src/ipam/service.rs:33-38 | taking an address and registering it keeps owners equal to allocated addresses |
| Ipam.ReleaseConserves | sarena-services/src/ipam/service.rs:51-61 | releasing does too, and no pool is left empty |
| Ipam.RollbackUndoesIff | sarena-services/src/ipam/service.rs:293-298 | releasing under the default pool undoes a registration exactly when that was its pool |
| Ipam.TakenThen | sarena-services/src/ipam/service.rs:326-354 | the owners after one allocation and another: choices to the caller, skipped ones marked, the rest untouched |
| Ipam.StepBack | sarena-services/src/ipam/service.rs:291-300 | giving the chosen address back leaves only excluded addresses taken |
| Ipam.DefaultIpamService.AllocateIp | sarena-services/src/ipam/service.rs:217-260 | success exactly on a free, not excluded address; errors change nothing; owners stay equal to allocated addresses |
| Ipam.ErrorsSpelledOut | sarena-services/src/ipam/service.rs:229-246 | why a given address cannot be had |
| Ipam.DefaultIpamService.WantsIff | sarena-services/src/ipam/service.rs:268-281 | which families an allocation is for |
| Ipam.DefaultIpamService.TakeUntilAllowed | sarena-services/src/ipam/service.rs:326-354 | the loop ends because the free set shrinks; it takes excluded addresses and then one that is not |
| Ipam.DefaultIpamService.AllocateNextFamily | sarena-services/src/ipam/service.rs:314-355 | never an excluded address; range full only when every address free at entry is excluded; this one section under the lock keeps owners equal to allocated addresses |
| Ipam.DefaultIpamService.AllocateNext | sarena-services/src/ipam/service.rs:262-303 | dual stack, nobody in between: on an error the allocated set is as before but for excluded addresses, and with the default pool the owners too |
| Ipam.DefaultIpamService.AllocateNextShared | sarena-services/src/ipam/service.rs:262-303 | dual stack with any calls of others between the sections, for any pools: the IPv6 address is taken exactly when it is wanted and something can be allocated; the held table is exactly what all sections did and, on an error after that, the release of that address, which then is the caller's if nobody released it, and someone else's exactly when it was released and taken since, namely the last taker's; with the default pool owners stay equal to allocated addresses |
| Ipam.DefaultIpamService.NextSection | sarena-services/src/ipam/service.rs:314-355 | a section of an allocation fails exactly when there is no pool or every free address is excluded for it; it is a list of takes of free addresses, ending with the caller's |
| Ipam.DefaultIpamService.OtherCall | sarena-services/src/ipam/service.rs:208-355 | what any section of another caller does is a list of takes of free addresses and releases |
| Ipam.DefaultIpamService.OtherCallers | sarena-services/src/ipam/service.rs:208-355 | and so is what any number of them do, which keeps owners equal to allocated addresses for the default pool |
| Ipam.HolderAfter | sarena-services/src/ipam/service.rs:291-300 | who holds an address after any takes and releases: still the caller exactly when nobody released it, and otherwise the last to take it since |
| Ipam.StepIsTakes | sarena-services/src/ipam/service.rs:326-354 | an allocation's addresses, taken one by one, give exactly its owner table |
| Ipam.RollbackTakesFromOther | sarena-services/src/ipam/service.rs:293-298 | a run in which the rollback takes an address from someone else |
| Ipam.DefaultIpamService.ReleaseIp | sarena-services/src/ipam/service.rs:305-312 | exactly that address and its owner go |
| Backoff.Delay | sarena-data-plane/src/controller/backoff.rs:37-60 | equals the closed form for every base, cap and count, and the base doubled once per turn; the loop turns at most about log2(cap / base) times |
| Backoff.DelayMonotone | sarena-data-plane/src/controller/backoff.rs:37-60 | more errors never mean a shorter wait |
| Backoff.DelaySteps | sarena-data-plane/src/controller/backoff.rs:37-60 | one error gives the base, each further one adds it again or doubles the delay, up to the cap |
| Backoff.SaturationUnnoticed | sarena-data-plane/src/controller/runner.rs:114-117 | a saturated error count gives the same exponential delay as the true one |
| Controller.ControllerRuns | sarena-data-plane/src/controller/runner.rs:79-165 | in every interleaving runs never overlap, specs are run in update order, the hook runs at most once, last, with the spec last run, and status and runner counters match the history |
| Controller.HookCalledIff | sarena-data-plane/src/controller/runner.rs:93-97 | a terminated controller has called the hook of the spec it ran last exactly if that has one, right after that run, and no other ever |
| Controller.NextSpelledOut | sarena-data-plane/src/controller/runner.rs:79-165 | exactly what the runner may do next in each phase, the hook's failure included |
| Controller.StepSpelledOut | sarena-data-plane/src/controller/runner.rs:79-165 | which spec each run is of, what is recorded, and where each step leads |
| Controller.ManagerSpelledOut | sarena-data-plane/src/controller/manager.rs:103-175 | what the manager does to a controller, and when it can |
| Controller.WaitAfterRun | sarena-data-plane/src/controller/runner.rs:120-141 | how long the runner waits, case by case in terms of the spec and the failures in a row |
| Controller.UpdatesCoalesce | sarena-data-plane/src/controller/runner.rs:143-155 | any updates during and right after one run leave the runner one way to go on: exactly one more run, with the last of them |
| Controller.RunUpdates | sarena-data-plane/src/controller/manager.rs:103-112 | any sequence of updates leaves the last spec pending and configured, whatever the runner is doing |
| Controller.StopWins | sarena-data-plane/src/controller/runner.rs:143-155 | once stopped, a controller makes at most one further run, even with an update pending: only one that has not started, or that is past the token in a poll that can still begin one |
| Controller.Recorded | sarena-data-plane/src/controller/status.rs:58-87 | recording a run or a stop error keeps all counters equal to what the history says |
| ControllerManager.NormalizedInterval | sarena-data-plane/src/controller/manager.rs:191-201 | the interval after capping, and exactly when it is zero |
| ControllerManager.Manager.Update | sarena-data-plane/src/controller/manager.rs:103-146 | a new spec for the controller that is there, or one new registered controller; nothing else changes |
| ControllerManager.Manager.Remove | sarena-data-plane/src/controller/manager.rs:150-153 | exactly that controller is stopped and unregistered, and its sender dropped |
| ControllerManager.OneLivePerName | sarena-data-plane/src/controller/manager.rs:103-153 | of all controllers a manager ever had, at most one of each name is not stopped |
| ControllerManager.OverlapIff | sarena-data-plane/src/controller/manager.rs:103-153 | a stopped controller and another yet to start: the runtime can have both in a run exactly when the first is in one, has not started, or is in a poll that can begin one, which a dropped sender prevents unless an update is pending; any of it is left beside the other's run exactly when it has not terminated |
| ControllerManager.Manager.ReuseOverlapIff | sarena-data-plane/src/controller/manager.rs:103-153 | that, for a name removed and added again |
| ControllerManager.Manager.RemoveAndAddAgain | sarena-data-plane/src/controller/manager.rs:103-153 | started, removed and added again: both controllers of the name can be in a run |
| ControllerManager.Manager.RemoveAll | sarena-data-plane/src/controller/manager.rs:156-159 | all of this manager's controllers are stopped and unregistered, no other id |
| Tlv.TlvWriter.WriteBytes | sarena-shared-test/src/tlv_writer.rs:61-72 | appends one record, or changes nothing exactly when it is too long or does not fit |
| Tlv.TlvWriter.WriteU8 | sarena-shared-test/src/tlv_writer.rs:21-28 | the same for one octet |
| Tlv.TlvWriter.WriteU16 | sarena-shared-test/src/tlv_writer.rs:31-38 | the same for two |
| Tlv.TlvWriter.WriteU32 | sarena-shared-test/src/tlv_writer.rs:41-48 | the same for four |
| Tlv.TlvWriter.WriteU64 | sarena-shared-test/src/tlv_writer.rs:51-58 | the same for eight |
| Tlv.EncodeAppend | sarena-shared-test/src/tlv_writer.rs:61-72 | appending a record's octets is encoding the longer sequence |
| Tlv.TagRoundTrip | sarena-shared-test/src/wire.rs:17-34 | tags and their octets are one-to-one |
| Tlv.WireSpelledOut | sarena-shared-test/src/wire.rs:1-56 | tags, lengths, statuses and version octet by octet |
| Tlv.LittleEndian | sarena-shared-test/src/tlv_writer.rs:31-58 | numbers least significant octet first |
| Tlv.StatusRoundTrip | sarena-shared-test/src/wire.rs:36-56 | a status survives its octet, which is never zero |
| TlvReader.ParseTest | sarena-shared-test/src/tlv_reader.rs:76-157 | the loop computes the specified parse, every error included |
| TlvReader.ParseEncoded | sarena-shared-test/src/tlv_reader.rs:92-175 | the parser reads back exactly the records that were encoded |
| TlvReader.ParseCut | sarena-shared-test/src/tlv_reader.rs:159-175 | a record that lacks its last octets stops the parser with the error for where it was cut |
| TlvReader.HeaderSpelledOut | sarena-shared-test/src/tlv_reader.rs:76-90 | what the first record leads to, octet by octet |
| TlvReader.RecordSpelledOut | sarena-shared-test/src/tlv_reader.rs:92-175 | and every further one, errors and unknown tags included |
| TlvReader.PanicsIff | sarena-shared-test/src/tlv_reader.rs:84-90 | the only input family on which the parser panics |
| TlvReader.TrimRecoversIff | sarena-test-runner/src/ebpf_test_runner.rs:251-257 | trimming recovers what was written exactly when that does not end in a zero |
| TlvReader.ReadBack | sarena-test-runner/src/ebpf_test_runner.rs:246-262 | the runner's trim loop and parse |
| TestSuite.NewSuite | sarena-ebpf-test-framework/src/suite.rs:35-45 | header records on a cleared buffer, refused exactly when a name is too long |
| TestSuite.Suite.WriteLogInner | sarena-ebpf-test-framework/src/suite.rs:148-155 | what a log call leaves for every amount of room, complete or cut short |
| TestSuite.Suite.Log | sarena-ebpf-test-framework/src/suite.rs:86-90 | the entry it adds, and that a call cut short marks the test |
| TestSuite.Suite.Finish | sarena-test-macros/src/assert.rs:50-56 | once the status is written the runner reads back name, file, status and every entry, refused writes along the way included; when it is refused, all but the status exactly if the last octet written is not zero |
| TestSuite.LoggedWhole | sarena-ebpf-test-framework/src/suite.rs:148-155 | a call that fits is logged with its line and all its arguments |
| TestSuite.ArgsThatFitIs | sarena-ebpf-test-framework/src/suite.rs:148-155 | how many arguments of a call cut short are logged |
| TestSuite.ReportOfStatus | sarena-test-runner/src/ebpf_test_runner.rs:248-262 | records that end in a status survive zero padding, trimming and parsing |
| TestSuite.ReportOfRecords | sarena-test-runner/src/ebpf_test_runner.rs:246-262 | what the runner makes of any records without a status: everything, or an error that says where trimming cut the last one |
| TestSuite.LogAll | sarena-test-macros/src/assert.rs:48-50 | the calls of a test body: when all of them fit, exactly their entries are left |
| TestSuite.RunTest | sarena-test-macros/src/assert.rs:45-56 | whole tests: when everything fits, the runner reads exactly what the program said |

## Left out

- eBPF programs, netlink, network namespaces, real BPF maps: the backend is modelled by its effect on pins, written configs and `lxc_map` keys.
- Endpoint configs and infos: whether one was written is modelled, not its contents.
- Hash functions: unknown deterministic functions of the flow tuple.
- Socket and interface I/O, VXLAN headers, timestamps such as `last_seen` and `last_success`, metrics and tracing.
- Node, identity and policy tables, and the listings: no interplay with forwarding.
- Pool names and exclusions: exclusion keys are pairs of pool and address; the code joins them with a colon, which two pools with colons in their names can confuse for IPv6.
- Ipam.DefaultIpamService.AllocateNext: says what it leaves when nobody else calls in between; with others, `AllocateNextShared` does.
- Ipam.DefaultIpamService.constructor: each allocator is given a network of its own family, as the configuration does; the code does not check it.
- Ipam dumps: the address count of a whole IPv6 space is not modelled.
- Recovery.StateDir.CollectEndpointDirs: entries of the state directory are directories; plain files, which the code skips, do not occur, and neither do unreadable names.
- StateDirectory.CrashConsistent: a state file appears by one atomic rename; what a power loss keeps beyond that, and the temporary file, are not modelled.
- DeleteProtocol.NothingReattached: the worker drains before the timeout; aborting it depends on the runtime's cancellation.
- DeleteProtocol: the host endpoint, which the deleter does not ask the loader to remove, and endpoint id allocation.
- `EndpointManager` reverse indexes: removing an endpoint clears only one of them, so they agree with nothing.
- Loader.BpfLoader.Reconcile: errors carry the endpoint and not the reason; link names are one path component, and the step invariant assumes one kind per link name.
- `load_global_maps`, `teardown_all`, log streaming: no effect on the modelled state.
- Jitter: any delay up to the one computed, since floating point decides which.
- Controller.WaitAfterRun: delays are exact; the code scales every one in 64-bit floating point, linear ones by 1.0, which rounds very long delays and cannot hold the longest.
- Routing.SelectRoute: a total weight of more than 32 bits is a panic, as in a build with overflow checks; without them the sum wraps.
- Timeouts and panics inside a controller's job or hook count as failed runs; counters are unbounded where the code uses 64 bits.
- Text is octets: UTF-8 validity and its lossy conversion are not modelled.
- `assert_buffer_inner` and the scapy assert map: raw packet memory.
- CLI, API server and client, Kubernetes controllers, CNI commands, configuration: thin wrappers around the above.
