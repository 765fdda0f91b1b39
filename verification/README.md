# Cilium eBPF datapath: SNAT, connection tracking, service translation and rate control

This project models the IPv4 core of Cilium's eBPF datapath and proves what it is for. `dafny verify dfyconfig.toml`
checks all of it.

| files in `src/` | component |
|---|---|
| `Net`, `Arith`, `Checksum`, `PacketBuffer`, `RewriteLaws` | tuples, arithmetic, one's-complement checksums, the packet under edit and what a header rewrite means |
| `PortRange`, `SnatTable`, `SnatHealing`, `SnatPacket`, `SnatParse`, `SnatLaws`, `SnatChecksums`, `SnatRoundTrip` | source NAT: port allocation, the mapping table and what eviction does to it, whole packets, ICMP errors |
| `Conntrack`, `ConntrackHistory`, `ConntrackLaws`, `Replies`, `HostFirewall` | connection tracking and the stateful host firewall built on it |
| `LoadBalancer`, `BalancerChoice`, `BalancerLaws`, `ServiceXlate`, `ServiceLaws`, `ServiceRoundTrip`, `SocketLb`, `SocketChoice`, `SocketLaws` | services: backend choice, DNAT and its reverse, translation at the socket |
| `Policy` | the policy lookup |
| `Edt`, `RateLimit`, `Marks` | departure scheduling, the token bucket, packet marks |

How the model is built:

- State that the programs change in place is a class with those fields (`SnatMap`, `CtMap`, `Balancer`, `SockMaps`,
  `SockAddr`, `Packet`, `Throttle`, `Limiter`, `Ctx`). Each method is proved equal to a function on values; the laws, and
  the runs and traces they speak about, use those functions.
- Random values, the clock, and success or failure of every fallible map or packet helper are inputs of a step, so a
  law holds for all of them. Eviction from a map is a step of its own.
- A packet is an array of 16-bit words in network byte order with a byte length; every field the programs touch is
  word aligned. A region is correctly checksummed when its words, checksum included, add up to a positive multiple of
  0xFFFF (RFC 1071; the sum does not depend on the byte order). An odd last byte is the upper half of the last word.
- The kernel's checksum helpers follow equation 3 in section 3 of RFC 1624, built from the repository's own
  `csum_add` and `csum_fold`; for UDP they leave an absent checksum alone and store a computed 0 as 0xFFFF.
- Decisions (what is translated, accepted, kept or dropped) are stated in both directions, from the fields of the packet
  and the tables and not from the functions that decide.
- Ports and addresses are numbers in host order. TCP flags are a record of booleans and marks are sequences of 32
  booleans, so no law depends on bit-vector conversion.

Where the code does not do what one might expect, the exact condition is proved:

- A translated ICMP echo reply keeps a correct checksum iff its identifier stays or the restored message is not all
  zero (`EchoReplyChecksum`, failing input in `EchoReplyExample`): the incremental update gives 0 where 0xFFFF is needed.
- A TCP, ICMP or IP checksum field of 0xFFFF comes back as 0 from a round trip, every other value exactly; UDP always
  exactly (`AmendRoundTrip`).
- A rate limit of zero tokens per top-up starts with 2^64 - 1 tokens (`ZeroTopupUnlimited`), and the bucket size is a
  bound iff the first fill is within it (`BucketSizeIff`).
- A service on port 0 with a backend port is the one service whose port is not translated back (`PortRestoredIff`,
  failing input in `PortZeroExample`).
- If a reverse NAT entry is evicted while its forward entry stays, another flow comes to share the translated address
  and port iff its packet takes the freed key: it allocates, the freed key is its first free probe, and the insertion
  succeeds (`SharesIffTakes`, failing input in `SharingExample`). While nobody takes the key, no run leads to sharing
  (`UniqueWhileFree`).
- If a forward NAT entry is evicted, the next reply restores the table exactly iff no packet of the flow itself failed
  both to store a new forward entry and to roll back (`HealForward`, failing input in `OrphanExample`).
- A packet that departs without delay does not get the aggregate's priority, unlike delayed ones; the model follows
  the code (`Throttle.SchedDeparture`).

## Model

| member | source | states |
|---|---|---|
| `PortRange.ClampInRange` | bpf/lib/nat.h:91-99 | for every non-empty range the multiply-shift fits 32 bits, equals the exact scaled value and lands in the range |
| `PortRange.ClampBias` | bpf/lib/nat.h:91-99 | every port of the range is hit by between floor and ceiling of 65536/n of the random values, at least one |
| `PortRange.PreimageInterval` | bpf/lib/nat.h:91-99 | the random values that give one port are exactly one interval |
| `SnatTable.ProbeInRange` | bpf/lib/nat.h:101-110 | the port of every allocation round, kept or rescaled, is in the target's range |
| `SnatParse.ProbesAre` | bpf/lib/nat.h:283-303 | the ports tried in each round, in plain arithmetic |
| `SnatTable.FirstFree` | bpf/lib/nat.h:283-303 | the loop stops at the first round whose reverse key could be inserted, and none before it could |
| `SnatTable.SnatMap.ReserveReverse` | bpf/lib/nat.h:280-311 | the loop over the table inserts exactly that reverse entry, or nothing after 32 rounds |
| `SnatTable.SnatMap.NewMapping` | bpf/lib/nat.h:256-338 | equals the specification; a mapping is built only on a key nobody held, with a port in range; a rolled back failure leaves no trace |
| `SnatTable.SnatMap.HandleOutgoing` | bpf/lib/nat.h:340-433 | lookup, restore, stale recreation and allocation, keeping both table invariants |
| `SnatTable.SnatMap.HandleIncoming` | bpf/lib/nat.h:435-508 | lookup of a reply with restoration of a missing forward entry; a paired table does not change |
| `SnatParse.NewPair` | bpf/lib/nat.h:256-338 | a new flow gets two entries that point at each other, stamped with the time, to the target's address, with a port in range, and its own port if that is in range and free |
| `SnatParse.MappedIff` | bpf/lib/nat.h:340-433 | exactly when an outgoing flow gets a mapping, and that it is always one to the target's address |
| `SnatParse.DeliveredIff` | bpf/lib/nat.h:435-508 | exactly when a reply gets its mapping, and what restoring changes |
| `SnatTable.AllocateKeeps` | bpf/lib/nat.h:256-338 | allocation keeps every forward entry backed by a reverse entry pointing back, and pairing when rollback works |
| `SnatTable.OutgoingKeeps` | bpf/lib/nat.h:340-433 | so does every outgoing step, whatever helper fails |
| `SnatTable.IncomingKeeps` | bpf/lib/nat.h:435-508 | so does every incoming step |
| `SnatTable.EvictForwardKeeps` | bpf/lib/nat.h:340-433 | and eviction of a forward entry |
| `SnatTable.RunKeepsForwardBacked` | bpf/lib/nat.h:256-508 | forward entries stay backed in every run with all failures and forward evictions |
| `SnatTable.RunKeepsPaired` | bpf/lib/nat.h:256-508 | without eviction and failed deletions both halves stay mutually paired in every run |
| `SnatTable.ReverseKeyOwner` | bpf/lib/nat.h:243-254 | a reverse key belongs to one flow |
| `SnatTable.NoPortSharing` | bpf/lib/nat.h:256-508 | from the empty table, no run lets two flows to one peer share a translated address and port |
| `SnatTable.TranslationIsStable` | bpf/lib/nat.h:340-508 | a flow keeps its pair through any run that neither evicts nor retargets it |
| `SnatTable.RunKeepsRange` | bpf/lib/nat.h:283-303 | every port made or restored in a run with one range stays in it, which is what the reverse path checks |
| `SnatTable.ReplyEntryIsStable` | bpf/lib/nat.h:340-508 | a flow's reverse entry stays through any run that does not retarget it, even if its forward entry is evicted and the flow translated anew |
| `SnatHealing.RunLost` | bpf/lib/nat.h:256-508 | a run without the reverse entry of a flow goes exactly like the run with it, until somebody takes its key |
| `SnatHealing.HealReverse` | bpf/lib/nat.h:384-413 | the reverse half lost, any run in which its key is not taken, then a packet of the flow: the table is what it would have been without the loss (up to timestamps) |
| `SnatHealing.RunForgets` | bpf/lib/nat.h:256-508 | the same comparison of runs for a lost forward entry |
| `SnatHealing.HealForward` | bpf/lib/nat.h:452-480 | the forward half lost, any run in which its key is not taken, then a reply: it is delivered, the entry is back, and the table is what it would have been iff the flow left no orphan |
| `SnatHealing.OrphanExample` | bpf/lib/nat.h:312-338 | an input where it left one |
| `SnatHealing.UniqueWhileFree` | bpf/lib/nat.h:256-508 | after a reverse entry is lost, no run leads another flow to share the translation while the freed key is not taken |
| `SnatHealing.SharesIffTakes` | bpf/lib/nat.h:340-433 | a packet of another flow leads to sharing iff it takes the freed key |
| `SnatHealing.SharingExample` | bpf/lib/nat.h:340-433 | an input where it does |
| `Checksum.Add` | bpf/include/bpf/csum.h:23-27 | end-around addition is addition modulo 0xFFFF and never turns a positive sum into 0 |
| `Checksum.Fold` | bpf/include/bpf/csum.h:11-16 | folding gives the negated sum modulo 0xFFFF, below 0xFFFF |
| `Checksum.Diff` | bpf/include/bpf/csum.h:34-51 | the difference of two operands modulo 0xFFFF |
| `Checksum.Amend` | bpf/lib/csum.h:74-79 | the amended field moves by the negated difference, with the UDP rules for an absent checksum |
| `Checksum.AmendRoundTrip` | bpf/lib/csum.h:74-79 | amending there and back restores the field iff it is UDP or was not 0xFFFF |
| `PacketBuffer.Packet.StorePort` | bpf/lib/l4.h:69-80 | the port and the checksum in the buffer, or the error and how far it got |
| `PacketBuffer.Packet.ChangePort` | bpf/lib/l4.h:106-139 | per protocol: whether and where the port and its checksum change, and which errors |
| `PacketBuffer.Packet.RewritePortAndCsum` | bpf/lib/l4.h:98-153 | the port, then the checksum over the addresses or the difference of a quoted packet |
| `PacketBuffer.Packet.RewriteBoth` | bpf/lib/nat.h:510-534 | the address, header checksum and L4 rewrite of the buffer |
| `RewriteLaws.RewriteMeaning` | bpf/lib/nat.h:510-534 | a successful rewrite sets the address and port, moves each checksum by exactly the change it covers, and touches no other word |
| `RewriteLaws.RewriteOkIff` | bpf/lib/l4.h:98-153 | exactly when a rewrite succeeds, and with which error it fails |
| `RewriteLaws.TruncatedMeaning` | bpf/lib/nat.h:899-911 | a TCP header cut before its checksum: addresses and port are rewritten, the missing checksum is reported |
| `RewriteLaws.IpStaysValid` | bpf/lib/ipv4.h:62-74 | every rewrite keeps the IPv4 header checksum correct |
| `RewriteLaws.TransportStaysValid` | bpf/lib/l4.h:98-153 | and the TCP or UDP checksum, an absent one staying absent |
| `RewriteLaws.EchoValidIffNonZero` | bpf/lib/l4.h:98-153 | a rewritten ICMP query has a correct checksum iff its message is not all zero |
| `RewriteLaws.UndoneWord` | bpf/lib/nat.h:510-534 | the opposite rewrite, even in a copy elsewhere, brings back every word |
| `SnatPacket.Snat.Nat` | bpf/lib/nat.h:914-1053 | parsing, mapping and rewriting of an outgoing packet; the table invariant is kept |
| `SnatPacket.Snat.RevNat` | bpf/lib/nat.h:1167-1282 | the same for an incoming packet |
| `SnatPacket.Snat.HandleError` | bpf/lib/nat.h:802-948 | rewriting of the quoted packet and of the outer header of an ICMP error, in both directions |
| `SnatParse.HeaderFields` | bpf/lib/ipv4.h:100-103 | header length, fragment and protocol fields as read from the header words |
| `SnatParse.OutgoingPorts` | bpf/lib/nat.h:963-989 | an outgoing TCP, UDP or SCTP packet is translated iff it comes from a local endpoint, is egress gateway traffic of the host program, or has a port in the NAT range; otherwise it is left to the stack |
| `SnatParse.OutgoingOther` | bpf/lib/nat.h:990-1049 | which outgoing ICMP messages are flows, errors, left to the stack or refused, and that other protocols are left |
| `SnatParse.IncomingPorts` | bpf/lib/nat.h:1192-1210 | an incoming packet is looked up iff its port is in the target's range |
| `SnatParse.IncomingOther` | bpf/lib/nat.h:1211-1266 | which incoming ICMP messages are flows, errors or left |
| `SnatParse.LeftAlone` | bpf/lib/nat.h:950-1049 | what is not translated changes neither packet nor table |
| `SnatParse.IsTranslated` | bpf/lib/nat.h:914-1053 | a complete packet that is subject to SNAT is translated to the target's address whenever a mapping can be had, any other is untouched |
| `SnatParse.LeavesWithTarget` | bpf/lib/nat.h:914-948 | every translated flow packet leaves with the target's address and the mapping's port |
| `SnatParse.FragmentLeavesWithTarget` | bpf/lib/nat.h:914-948 | a translated later fragment leaves with the target's address and is otherwise untouched behind its header |
| `SnatParse.EchoKeepsIdentifier` | bpf/lib/nat.h:1007-1016 | an echo identifier is kept whenever it is free, whatever the port range |
| `SnatParse.QuoteIff` | bpf/lib/nat.h:822-867 | which quoted packets are understood, and as which flow |
| `SnatParse.UnknownQuote` | bpf/lib/nat.h:869-871 | errors about unknown flows are left alone |
| `SnatLaws.QuoteMeaning` | bpf/lib/nat.h:873-912 | what handling a quote does to it, with or without a quoted checksum |
| `SnatLaws.QuoteBalance` | bpf/lib/nat.h:536-565 | the separately computed difference is exactly how far the quote's words moved: TCP whole and truncated, UDP with and without checksum, ICMP, SCTP |
| `SnatLaws.ErrorStaysValid` | bpf/lib/nat.h:1128-1164 | so the outer ICMP and IPv4 checksums stay correct in all those cases |
| `SnatChecksums.NatKeepsChecksums` | bpf/lib/nat.h:914-1282 | for every flow packet translated, in both directions, for any table and helper outcome: IPv4 checksums stay correct for all protocols, TCP, UDP and echo request checksums too, SCTP is untouched, echo replies stay correct under the exact condition |
| `SnatChecksums.NatErrorKeepsChecksums` | bpf/lib/nat.h:914-1282 | for every ICMP error translated: the outer IPv4 and ICMP checksums stay correct |
| `SnatChecksums.EchoReplyChecksum` | bpf/lib/nat.h:1167-1282 | exactly when a translated echo reply has a correct checksum |
| `SnatChecksums.EchoReplyExample` | bpf/lib/nat.h:1167-1282 | a correct echo reply that leaves with a wrong one |
| `SnatRoundTrip.ReplyParses` | bpf/lib/nat.h:579-585 | the range check never skips a reply to a port in range |
| `SnatRoundTrip.ReplyRestored` | bpf/lib/nat.h:1167-1282 | a reply is rewritten to the original address and port, and no word but those and the checksums changes |
| `SnatRoundTrip.SnatRoundTrip` | bpf/lib/nat.h:914-1282 | translate a packet, let any run pass that does not retarget the flow (its forward entry may be evicted), and its reply reaches the sender's own address and port |
| `SnatRoundTrip.ErrorQuotesOriginal` | bpf/lib/nat.h:802-912 | a quote of the translated packet becomes word by word a quote of the packet before translation |
| `SnatRoundTrip.IcmpErrorRoundTrip` | bpf/lib/nat.h:1055-1165 | the whole ICMP error succeeds, is addressed to the endpoint and quotes the packet the endpoint knows |
| `SnatRoundTrip.ErrorReachesSender` | bpf/lib/nat.h:914-1282 | translate a packet, let any such run pass, and an ICMP error about it reaches the sender, quoting the packet it sent |
| `SnatRoundTrip.ErrorReachesPeer` | bpf/lib/nat.h:914-1282 | translate a reply, let any run pass that spares the flow, and the endpoint's ICMP error about it reaches the peer, quoting the reply it sent |
| `Conntrack.UpdateTimeout` | bpf/lib/conntrack.h:165-229 | sets the lifetime from the clock, accumulates the masked flags of that direction, keeps state and closing bits |
| `Conntrack.CtMap.CloseEntry` | bpf/lib/conntrack.h:394-430 | what a closing packet does to an entry |
| `Conntrack.CtMap.Probe` | bpf/lib/conntrack.h:351-443 | one lookup: match, rebalance, refresh, reopen, close |
| `Conntrack.CtMap.LookupBoth` | bpf/lib/conntrack.h:898-981 | the reverse, then the forward lookup, with status and the tuple left behind |
| `Conntrack.CtMap.Create4` | bpf/lib/conntrack.h:1108-1161 | the entry and its related ICMP entry, with each insertion's failure |
| `ConntrackHistory.PacketMeaning` | bpf/lib/conntrack.h:127-136 | which packets open and close connections |
| `ConntrackHistory.KeyMeaning` | bpf/lib/conntrack.h:819-893 | how every kind of packet is keyed, and which cannot be |
| `ConntrackHistory.TypesMeaning` | bpf/lib/conntrack.h:316-349 | which entries the types a caller asks for accept |
| `ConntrackHistory.StoredMeaning` | bpf/lib/conntrack.h:1019-1043 | what an entry takes over from its creator |
| `ConntrackHistory.EntryShowsPast` | bpf/lib/conntrack.h:351-443 | in every reachable table, closing bits, lifetime and counters of an entry are what the packets that reached it since it was created or reopened amount to |
| `ConntrackHistory.ClosedIff` | bpf/lib/conntrack.h:394-430 | in every reachable table a connection is closed iff each direction was closed since it last started, by a closing packet of its own, an RST before both SYNs, or for a service any closing packet |
| `ConntrackHistory.HalfClose` | bpf/lib/conntrack.h:394-421 | a closing packet without RST closes its own direction only and leaves the connection alive |
| `ConntrackHistory.ReportedIff` | bpf/lib/conntrack.h:165-229 | a packet is reported iff the interval has passed or it shows a new flag of interest |
| `ConntrackLaws.DataCannotExtend` | bpf/lib/conntrack.h:371-392 | a data packet changes nothing but counters of a closed entry |
| `ConntrackLaws.RevivalOnlyBySyn` | bpf/lib/conntrack.h:379-392 | a closed entry revives only by a SYN, reported as new, and forgets old flags |
| `ConntrackLaws.EntryPersists` | bpf/lib/conntrack.h:351-443 | only eviction removes an entry, over every run |
| `ConntrackLaws.InfoPersists` | bpf/lib/conntrack.h:1019-1043 | the state stored in an entry is found there after every run that stores no other |
| `ConntrackLaws.ClosedLifetime` | bpf/lib/conntrack.h:394-430 | in every reachable table a closed entry lives exactly until its last closing packet plus the close timeout |
| `ConntrackLaws.FlagsAreUnion` | bpf/lib/conntrack.h:165-229 | in every reachable table the flags seen are the union of the masked flags recorded since create or reopen |
| `ConntrackLaws.ReportBound` | bpf/lib/conntrack.h:165-229 | at most 9 reports plus one per elapsed interval, over every run of updates |
| `Replies.ReplyComplete` | bpf/lib/conntrack.h:995-1017 | after a new packet created its entry and any run that does not evict it, an answering packet is a reply iff it does not restart a closing connection |
| `Replies.ReplyState` | bpf/lib/conntrack.h:995-1017 | and the reply finds exactly the state stored when the connection was created |
| `Replies.ReplyIff` | bpf/lib/conntrack.h:898-981 | the same for any table that holds the key |
| `Replies.ErrorComplete` | bpf/lib/conntrack.h:1108-1161 | and every ICMP error from the peer is related while the related entry exists |
| `Replies.StatusIff` | bpf/lib/conntrack.h:898-981 | exactly when a packet is a reply, established or new |
| `Replies.ForwardIff` | bpf/lib/conntrack.h:898-1017 | a lookup in one direction finds exactly the packet's own connection |
| `HostFirewall.HostFilter.EgressPolicy` | bpf/lib/host_firewall.h:318-445 | lookup, exemption, verdict and entry creation for egress |
| `HostFirewall.HostFilter.IngressPolicy` | bpf/lib/host_firewall.h:447-572 | the same for ingress |
| `HostFirewall.PassesIff` | bpf/lib/host_firewall.h:345-415 | a host packet passes iff it is a reply or related, exempt, or allowed by policy and recorded if new; a refused one changes nothing |
| `HostFirewall.RecordedAs` | bpf/lib/host_firewall.h:384-395 | what a new connection is recorded with |
| `HostFirewall.AnswersPass` | bpf/lib/host_firewall.h:504-533 | over every trace, all answers to a packet that opened a connection pass until its entry is evicted, whatever policy says, except a bare SYN on a closing one |
| `HostFirewall.EveryEntryFounded` | bpf/lib/host_firewall.h:363-395 | over every trace, each table entry goes back to a packet that policy accepted or that was exempt |
| `HostFirewall.SkippedIsFounded` | bpf/lib/host_firewall.h:504-533 | a packet that skips policy as a reply is the exact reverse of such a packet of the opposite direction; a related one has such a packet between the same addresses |
| `Policy.Longest` | bpf/lib/policy.h:274-300 | a longest-prefix lookup: a matching entry of that label and direction, and none longer |
| `Policy.CanAccess` | bpf/lib/policy.h:196-346 | the ICMP options, the lookups, and that for consistent maps they decide as a full scan of the map would |
| `Policy.LookupEntry` | bpf/lib/policy.h:274-346 | the same for given L4 bits and aggregate label |
| `Policy.ChooseRefinesScan` | bpf/lib/policy.h:274-346 | two lookups, comparison and early exit give the verdict, proxy port, cookie and match type of the maximum by precedence, prefix length, own label (a deny drops, anything else accepts); label 0 only if neither matched; otherwise a drop |
| `Policy.WinnerIsBest` | bpf/lib/policy.h:279-317 | the entry chosen outranks every other entry that applies |
| `Policy.RefusedHasNoProxy` | bpf/lib/policy.h:173-192 | only what is accepted is sent to a proxy |
| `Policy.KeyMeaning` | bpf/lib/policy.h:210-217 | which protocols and ports an entry of each prefix length applies to |
| `Policy.AggregateMeaning` | bpf/lib/identity.h:375-406 | which label stands for own and other clusters' endpoints, nodes and outside addresses |
| `Policy.AggregateIdempotent` | bpf/lib/identity.h:375-406 | an aggregate label aggregates to itself, for every cluster-id width |
| `LoadBalancer.Balancer.LookupAffinity` | bpf/lib/lb.h:2151-2191 | expiry, stale match deletion and refresh of an affinity entry |
| `LoadBalancer.Balancer.OpenConnection` | bpf/lib/lb.h:2304-2345 | a new connection: affinity, choice, entry creation, each failure |
| `LoadBalancer.Balancer.ContinueConnection` | bpf/lib/lb.h:2346-2412 | a known connection: keep, drain or reselect |
| `LoadBalancer.Balancer.LocalBackend` | bpf/lib/lb.h:2255-2419 | the whole choice, forced backends included |
| `BalancerChoice.KnownConnection` | bpf/lib/lb.h:2346-2412 | for a known connection exactly when its backend is kept (active, or terminating except for UDP and opening packets), when it is left for the chosen one and recorded so, and when the packet fails |
| `BalancerChoice.NewConnection` | bpf/lib/lb.h:2310-2345 | for a new connection exactly which backend it gets, when it fails, and what happens to the client's record, old and unmatched ones included |
| `BalancerChoice.ForcedBackend` | bpf/lib/lb.h:2278-2302 | what is recorded for a backend forced by the caller |
| `BalancerChoice.UnreadableFails` | bpf/lib/lb.h:2304-2307 | unreadable TCP flags fail and change nothing |
| `BalancerChoice.ServiceKeysApart` | bpf/lib/conntrack.h:445-461 | service connections never collide with others |
| `BalancerLaws.ServiceLookup` | bpf/lib/conntrack.h:351-443 | a service packet continues its connection iff the entry is of its service and the packet does not reopen or rebalance it |
| `BalancerLaws.ChoiceIsRecorded` | bpf/lib/lb.h:2304-2412 | after every successful choice the connection entry, and the affinity entry if enabled, names exactly the returned backend; other connections are untouched |
| `BalancerLaws.ConnectionSticks` | bpf/lib/lb.h:2304-2412 | over every run of clients, agent and evictions, a connection's packets go to its backend while that is active or draining and no SYN hits the closing entry |
| `BalancerLaws.AffinityIsHonoured` | bpf/lib/lb.h:2314-2345 | over every run, a client with an affinity record gets the recorded backend for each new connection while the record is recent and matched |
| `BalancerLaws.ClientSticks` | bpf/lib/lb.h:2304-2412 | and the record is that of the backend the client was first given |
| `ServiceXlate.StoreAddrs` | bpf/lib/lb.h:2117-2136 | the address stores and the header checksum, with the accumulated difference |
| `ServiceXlate.StoreBackendPort` | bpf/lib/lb.h:735-756 | the destination port of a request |
| `ServiceXlate.StoreFrontendPort` | bpf/lib/lb.h:694-733 | the source port of a reply, per protocol |
| `ServiceXlate.TranslateRequest` | bpf/lib/lb.h:2421-2444 | DNAT of the buffer and the tuple, loopback included |
| `ServiceXlate.TranslateBack` | bpf/lib/lb.h:1634-1696 | reverse DNAT of the buffer and the tuple |
| `ServiceXlate.TranslateReply` | bpf/lib/lb.h:1720-1742 | with the frontend from the connection or from the reverse NAT map |
| `ServiceLaws.RequestMeaning` | bpf/lib/lb.h:2101-2144 | successful DNAT sets both addresses and the port, moves the checksums by exactly that, touches nothing else, and never changes an SCTP port |
| `ServiceLaws.ReplyMeaning` | bpf/lib/lb.h:1634-1696 | the same for reverse DNAT |
| `ServiceLaws.EditStaysValid` | bpf/lib/lb.h:2136-2140 | both keep IPv4, TCP and UDP checksums correct |
| `ServiceRoundTrip.RequestArrives` | bpf/lib/lb.h:2421-2444 | the flow the backend sees |
| `ServiceRoundTrip.RequestSucceeds` | bpf/lib/lb.h:2101-2144 | DNAT of a complete packet succeeds iff it need not change an SCTP port |
| `ServiceRoundTrip.RequestFailsBecause` | bpf/lib/lb.h:2101-2144 | why DNAT fails, and that a packet too short for its addresses is not written to |
| `ServiceRoundTrip.ReplyFailsBecause` | bpf/lib/lb.h:1634-1696 | the same for reverse DNAT |
| `ServiceRoundTrip.RequestTuple` | bpf/lib/lb.h:2421-2444 | the tuple left to the caller is the flow the packet now carries, except for the loopback rule |
| `ServiceRoundTrip.ReplyTuple` | bpf/lib/lb.h:1634-1667 | the same for reverse DNAT |
| `ServiceRoundTrip.NoFrontend` | bpf/lib/lb.h:1733-1738 | replies without a known frontend are left alone |
| `ServiceRoundTrip.OtherReplies` | bpf/lib/lb.h:694-733 | what happens to protocols without ports |
| `ServiceRoundTrip.ReplySucceeds` | bpf/lib/lb.h:1634-1696 | reverse DNAT of a complete packet succeeds iff it need not change an SCTP port |
| `ServiceRoundTrip.ServiceRoundTrip` | bpf/lib/lb.h:1634-1742 | a packet of the reverse of the flow the backend received, translated back, is of the exact swapped flow the client opened, with correct checksums and every other word intact: plain, loopback and wildcard services |
| `ServiceRoundTrip.TrackedRoundTrip` | bpf/bpf_lxc.c:2117-2128 | the same with the frontend and loopback flag that conntrack stored for the request and found for the reply, after any run that keeps that state |
| `ServiceRoundTrip.PortZeroExample` | bpf/lib/lb.h:1683-1691 | a reply whose port is not restored |
| `ServiceRoundTrip.PortRestoredIff` | bpf/lib/lb.h:1683-1691 | the frontend port is restored iff it is not 0 or the backend has no port of its own |
| `SocketLb.SockMaps.LookupWildcard` | bpf/bpf_sock.c:251-305 | which addresses may use NodePort and HostPort wildcard services |
| `SocketLb.SockMaps.LookupService` | bpf/lib/lb.h:1850-1887 | direct lookup in both scopes, then the wildcard one |
| `SocketLb.SockMaps.SelectBackend` | bpf/bpf_sock.c:405-451 | affinity by network namespace, else a slot; which affinity entry results |
| `SocketLb.SockMaps.FindBackend` | bpf/bpf_sock.c:307-451 | every way a call can end before or with a backend, the L7 loopback backend included |
| `SocketLb.SockMaps.StoreRevNat` | bpf/bpf_sock.c:154-188 | the reverse entry, not rewritten when equal |
| `SocketLb.SockMaps.XlateForward` | bpf/bpf_sock.c:307-467 | forward translation of the socket address and the tables |
| `SocketLb.SockMaps.XlateReverse` | bpf/bpf_sock.c:589-633 | reverse translation, with deletion of a stale entry |
| `SocketLb.SockMaps.DeleteRevNat` | bpf/bpf_sock.c:190-202 | release of a socket removes its entry and no other |
| `SocketChoice.FoundIff` | bpf/bpf_sock.c:251-305 | exactly which service is behind an address: direct, by scope, or wildcard |
| `SocketChoice.RedirectedIff` | bpf/bpf_sock.c:307-467 | exactly which sockets are redirected, and where |
| `SocketChoice.StoppedBecause` | bpf/bpf_sock.c:329-403 | why the others are not |
| `SocketChoice.ChosenBackend` | bpf/bpf_sock.c:405-451 | the backend is one of the service, from the record or from a slot in 1..count, and which record results |
| `SocketChoice.StaleRecord` | bpf/lib/lb.h:2151-2191 | a record that is too old or unmatched does not survive |
| `SocketChoice.ForwardMeaning` | bpf/bpf_sock.c:456-467 | what a redirect does to the socket and the tables |
| `SocketChoice.LiveIff` | bpf/bpf_sock.c:613-619 | exactly when a reverse entry may still be used |
| `SocketLaws.RedirectRoundTrip` | bpf/bpf_sock.c:456-467 | reverse translation right after a redirect restores the socket exactly |
| `SocketLaws.PeerIsDialled` | bpf/bpf_sock.c:589-633 | over every run, each look at the peer shows the dialled address until the agent changes the service, or the entry is removed or overwritten |
| `SocketLaws.ReverseIff` | bpf/bpf_sock.c:589-633 | translation happens iff the entry exists and is live; otherwise the address is untouched and the entry gone |
| `SocketLaws.StaleIsDropped` | bpf/bpf_sock.c:613-623 | a stale entry is deleted once and then used for nothing until the pair is written again |
| `Edt.Throttle.SchedDeparture` | bpf/lib/edt.h:64-115 | departure time, priority, drop and the aggregate's new time |
| `Edt.ScheduleStep` | bpf/lib/edt.h:89-107 | accepted packets are spaced by their transmission time, delayed ones depart within the horizon, drops change nothing |
| `Edt.DepartsAsSoonAsPossible` | bpf/lib/edt.h:89-115 | exactly when a packet departs, is dropped, and gets a new timestamp and priority |
| `Edt.UnlimitedPasses` | bpf/lib/edt.h:64-115 | without a limit nothing is delayed or dropped |
| `Edt.DelayExact` | bpf/lib/edt.h:93-94 | the delay is the transmission time rounded down |
| `Edt.BandwidthBound` | bpf/lib/edt.h:89-107 | over every run the accepted bytes times 1e9 stay below (departure gap + 1 ns per packet) times the rate, and departures never go back |
| `RateLimit.Limiter.CheckAndTake` | bpf/lib/ratelimit.h:62-135 | the bucket, the drop counter and the verdict |
| `RateLimit.TopUpStep` | bpf/lib/ratelimit.h:114-125 | a top-up adds whole intervals and at most their tokens, and respects the bucket size |
| `RateLimit.TopUpFills` | bpf/lib/ratelimit.h:114-125 | a top-up adds all that is due, up to the size of the bucket |
| `RateLimit.GrantedIff` | bpf/lib/ratelimit.h:127-134 | a request is granted iff the topped-up bucket holds a token, and takes exactly one |
| `RateLimit.FirstRequest` | bpf/lib/ratelimit.h:92-107 | what the first request of a key gets and leaves |
| `RateLimit.NothingIsLost` | bpf/lib/ratelimit.h:92-134 | while the bucket is never full, tokens are conserved over every run |
| `RateLimit.WindowBound` | bpf/lib/ratelimit.h:92-134 | over any window, grants plus tokens left are bounded by tokens at its start plus top-ups, and the timestamp moves by whole intervals |
| `RateLimit.CreationBound` | bpf/lib/ratelimit.h:92-134 | from creation, grants never exceed tokens per top-up times (1 + elapsed / interval) |
| `RateLimit.ZeroTopupUnlimited` | bpf/lib/ratelimit.h:92-107 | that bound holds for the first call iff the setting is positive |
| `RateLimit.BucketSizeIff` | bpf/lib/ratelimit.h:92-125 | exactly when the bucket size bounds the tokens in every run |
| `Marks.Ctx.SetIdentityMark` | bpf/lib/identity.h:112-123 | what is read back is the low 24 bits, and the magic survives |
| `Marks.Ctx.SetClusterIdMark` | bpf/lib/clustermesh.h:72-79 | what is read back is the cluster id cut to its width |
| `Marks.IdentityRoundTrip` | bpf/lib/identity.h:79-123 | for every cluster-id width an identity survives iff it fits 24 bits, and the magic always does |
| `Marks.ClusterIdRoundTrip` | bpf/lib/clustermesh.h:39-79 | for every width a cluster id survives iff it fits |
| `Marks.FieldsDisjoint` | bpf/lib/clustermesh.h:20-70 | cluster, local identity and magic bits never overlap |
| `Marks.MarkBits` | bpf/lib/identity.h:112-123 | where each bit of an identity lies in the mark |

## Left out

- IPv6 and NAT46x64 variants, and the ICMPv6 branches of the L4 helpers: they repeat the IPv4 logic.
- Tail calls, metrics, trace and debug notifications, the retry histogram and signals: they do not affect decisions.
- Races between CPUs: steps are sequential. The code accepts such races.
- Uniqueness of translated ports once a freed reverse key was taken: false, see `SnatHealing.SharesIffTakes`.
- That a free port is always found: the retry probes are rescaled and do not walk the range.
- Checksum offload and `skb->csum`: only the words of the packet are modelled.
- The fragment tracker: its answer for later fragments is an input.
- Backend selection algorithms (random, Maglev, per-service) in `lb4_local`: their result is an input. Slot selection of the socket programs is modelled.
- The conntrack calls made for `needs_ct` mappings: their success is an input of the NAT step.
- The choice of NAT target and masquerading decision: the target is an input.
- Policy verdict of the host firewall: an input; `Policy` models the lookup that produces it.
- Policy accounting, audit mode, authentication, and the encapsulation wrappers around the policy lookup.
- DSR, source-range checks and L7 redirection in the packet path of services, and routing after translation.
- SCTP's CRC: a translation that would change an SCTP port fails in the code; otherwise no covered word changes.
- Eviction of rate limit buckets: it restarts the bound from the next creation.
- `SnatRoundTrip.ErrorQuotesOriginal`: speaks of complete words; a quote that ends in the middle of a word has its last byte rewritten or not with that word.
- `Edt.BandwidthBound`: clocks and horizon below 2^62 ns, so that 64-bit sums do not wrap; a rate of 0 means no limit and is outside the bound.
- `ConntrackLaws.ReportBound`: without wrap of the 32-bit clock; with wrap the code may report late.
- `RateLimit.CheckAndTake`: the code does not count a drop in the call that creates the counter, and neither does the model.
- `Policy.ChooseRefinesScan`: rule cookie and match type are those of the winner except between two denies of the highest precedence, where the code stops at the first.
