# home-kai: a Dafny model of the overlay's control plane

home-kai is a WireGuard overlay with its own coordinator. Nodes enrol with a
one-time token, receive an overlay address, long-poll the coordinator for a
*netmap* (peers, host names, firewall rules) and apply it: WireGuard peers with
AllowedIPs, an iptables filter, a hosts-file block. Spokes relay through the hub
until a prober finds a direct path. Tags and policies form an ACL; a network
lock lets agents refuse bindings the admin did not sign; keys rotate.

The project models these pieces and proves what holds across them.

| file | part of the system |
|---|---|
| `Text`, `Sorting`, `Net`, `Options` | comma lists, numerals, slugs, sorting, IPv4 addresses and prefixes as 32-bit integers and their texts |
| `Store`, `Rules` | the coordinator's rows; compiled rules and what they admit |
| `Ipam`, `Routes`, `Names` | address allocation, route normalisation, host names |
| `Acl`, `FilterSpec` | policies compiled to rules, rules compiled to first-match chains |
| `Netmap` | the per-node netmap |
| `Coordinator`, `Server` | the handlers as steps over the tables, and the same handlers as code that updates the store |
| `Enrolment`, `Handlers`, `Heartbeat` | when an enrolment succeeds; what single handlers change; what heartbeats store and announce |
| `Lock` | arming, signing and enforcing the network lock |
| `Prober`, `Agent`, `Reapply` | the direct-path prober; the node daemon with pinning, peer composition, routes and filter; a re-apply that fails |
| `Paths` | the prober as the device shows it, tick by tick; restarts |
| `Routing`, `EndToEnd`, `Lan` | longest-prefix routing over composed peers; what the whole network delivers, between devices and into subnets |
| `LongPoll`, `Freshness`, `Approval` | the netmap long-poll as interleaved steps; what it serves; approval while a request waits |
| `Rekey`, `Convergence` | key rotation with crashes and lost messages; what restarts make of it |
| `HostsFile` | the managed block in the hosts file |

Loops, in-place updates and handlers of the original are methods (`Agents.Agent`,
`Servers.Coordinator` and `HostsFiles.HostsFile` are classes); each is proved
equal to a specification function, and the theorems are about those functions
and about whole runs of them. Everything outside the program is a parameter:
ed25519 verification, Unicode lower-casing, endpoint and key parsing, the clock,
the device's handshake reports, the success of a save or of a device call.

Properties that do not hold, each with its exact condition:

- **Re-arming the lock with another key.** `handleLockInit` clears signatures only
  while a key is stored; after a disable none is, so stale signatures count as
  signed. For two keys that no stored signature verifies under both of, re-arming
  is sound iff the key is the previous one or nothing is signed
  (`Locks.RearmExact`); otherwise an empty sign request activates the lock and
  agents drop every peer (`Locks.RearmDropsEveryone`, `Locks.RearmWitness`).
- **Approval during a long-poll.** `handleNetmap` captures the wake channel after
  the node's row was read at authentication. Over every interleaving, a waiting
  request sleeps through an approval iff the approval's notify closed a channel
  below the one it captured (`Approvals.ApprovalMissedIff`; a run that gets there:
  `Approvals.MissedApprovalWitness`).
- **A device that fails.** `probeStep` moves the phases before it re-applies, and
  nothing retries: the device is in sync with netmap and phases iff the last
  composition asked for was installed, or was there already
  (`Agents.RunInSyncIff`; a run that ends out of sync:
  `Reapplies.FailedReapplyWitness`).
- **A direct path without an endpoint.** A probing peer is promoted on a fresh handshake
  even if the device reports no endpoint for it; it then falls back on its current
  candidate, and a new candidate list does not reset the index. A direct peer has a
  path iff an endpoint was reported at its promotion or the index is within its
  list (`Paths.PathIff`, `Paths.NoPathWitness`); if the device names an endpoint at
  every tick, every direct peer has one (`Paths.ReportedPathsDial`).
- **Late rekey requests.** After a restart the coordinator agrees with the node iff
  the last request to arrive carried the key of the state file
  (`Convergence.RestartConverges`); an older request still on the wire can undo the
  re-assert (`Convergence.LateRequestWitness`). The comment on `rotateKey` says the
  state is written first; the code asks the coordinator first, and the model
  follows the code (`Convergence.RotationOutcome`).
- **A heartbeat with bad routes** has already stored its addresses when it fails. A
  heartbeat changes a stored address set without a bump iff the node is known, no
  address repeats, the local addresses are new and a route is bad
  (`Heartbeats.UnannouncedIff`), and the next good heartbeat does not make up for
  it (`Heartbeats.NeverAnnounced`, `Heartbeats.UnannouncedWitness`).
- **Hosts-file markers in the wrong order.** `stripManagedBlock` searches for the two
  markers independently. It shortens the file iff the begin marker comes first;
  otherwise it repeats text (`HostsFiles.StripShrinksIff`, `HostsFiles.ReversedRepeats`).

## Model

| member | source | states |
|---|---|---|
| `EndToEnd.PoliciesReachPackets` | internal/coordinator/node.go:202-231 | in every reachable coordinator state with an enabled policy and a Linux hub, for any two distinct spokes or static peers and any prober phases, the devices and chains the three daemons have in force deliver a new flow iff some enabled policy matches tags, protocol and port; a path that avoids the hub joins two Linux nodes; the first hop is dialled at the hub's configured endpoint, or at the direct peer's path, with a keepalive |
| `EndToEnd.ViewDelivers` | internal/agent/agent.go:297-373 | the same as PoliciesReachPackets, endpoints included, for any sound set of tables, not only reached ones |
| `EndToEnd.OpenMeshDelivers` | internal/coordinator/node.go:221-231 | in every reachable state with no policy enabled, daemons in place deliver every flow between any two devices |
| `EndToEnd.HubInboundExact` | internal/agent/agent.go:297-318 | the hub's own chain accepts a new flow from a device iff it asks the resolver on port 53, where the hub runs one, or a policy allows it towards the hub's tags |
| `Lans.PoliciesReachLans` | internal/coordinator/acl.go:162-218 | in every reachable state, for daemons settled with their chains in force: a new flow from any other device to an address outside the overlay goes to the hub, on to the router with the longest enabled route, and passes both chains iff a policy allows it towards that router's tags |
| `Lans.LanReached` | internal/coordinator/acl.go:162-218 | the same for any sound set of tables |
| `Lans.RouterAdmits` | internal/coordinator/acl.go:178-217 | for any tables and any subnet router: its forward rules admit a flow to b from the sole holder of an address outside its LANs iff one of its enabled routes contains b and a policy allows it towards the router's tags |
| `Lans.HubAdmitsLan` | internal/coordinator/acl.go:164-182 | the hub's forward rules admit a flow to b outside the overlay iff a policy allows it towards some node with an enabled route containing b |
| `Lans.HubLanExact` | internal/agent/filterspec.go:58-71 | so does the hub's chain in force |
| `Lans.RouterLanExact` | internal/agent/filterspec.go:58-71 | and the router's chain accepts iff its own routes lead to b and a policy allows it |
| `Lans.SomeoneServes` | internal/coordinator/node.go:506-519 | an address some spoke's enabled route covers has exactly one spoke with the longest such route |
| `Lans.HubSendsToRouter` | internal/coordinator/netmap.go:81-118 | the hub's lookup of a LAN address finds that router |
| `Lans.SpokeSendsToHub` | internal/coordinator/netmap.go:130-150 | every other spoke's lookup of it finds the hub, whatever the prober phases |
| `EndToEnd.InboundExact` | internal/coordinator/acl.go:140-154 | the chain built from the inbound rules compiled for a node accepts a new flow from another device iff a policy allows it |
| `EndToEnd.RelayExact` | internal/coordinator/acl.go:162-218 | the chain built from the forward rules compiled for the hub accepts a new flow between two devices iff a policy allows it |
| `EndToEnd.DirectBothFilter` | internal/coordinator/node.go:202-216 | while a policy is enabled, a peer in phase direct means both ends run Linux, where there is a filter |
| `EndToEnd.TwoHop` | internal/agent/agent.go:323-373 | for daemons settled on one view, as every run leaves them, a spoke sends another device's address to that device iff it is in phase direct and to the hub otherwise, the config it is sent over carries the hub's endpoint or the direct path, and the hub sends it to the device's own peer |
| `EndToEnd.EnforceKeepsAllIff` | internal/agent/lock.go:17-49 | the lock check passes a netmap unchanged iff the lock is off for this agent or every binding verifies under the one key |
| `EndToEnd.RunsSettle` | internal/agent/agent.go:244-291 | every run of applies, ticks and restarts that ends with a view's netmap, its last composition and its chains landed, ends in a state the routing and ACL theorems speak of |
| `EndToEnd.SyncSettles` | internal/agent/agent.go:244-291 | so does any run at all followed by one successful apply of the view's netmap, if the lock is off or every binding verifies under the one key |
| `EndToEnd.SignedSyncSettles` | internal/coordinator/lock.go:115-190 | the same from the coordinator's side: lock off, or active with every stored binding signed |
| `EndToEnd.SyncNamesAndRoutes` | internal/agent/agent.go:268-272 | after such an apply the hosts file names every device of the view and a spoke's OS routes are exactly the subnets enabled on other nodes |
| `EndToEnd.NetmapKeysDecide` | internal/coordinator/netmap.go:119-165 | in a netmap from sound tables every managed key belongs to one entry |
| `EndToEnd.NetmapAllowedOk` | internal/coordinator/netmap.go:81-165 | every AllowedIPs prefix of a netmap from sound tables parses, so composing never fails on one |
| `Routing.LookupIsLongest` | internal/agent/agent.go:355-367 | cryptokey lookup picks a peer with a longest matching prefix, and none only if nothing matches |
| `Routing.SpokeRoutes` | internal/coordinator/netmap.go:119-165 | a spoke's lookup of any overlay address is total: the holder's entry iff the holder is direct, else the hub |
| `Routing.DirectWins` | internal/agent/agent.go:336-350 | a promoted /32 beats the hub's overlay prefix and every other entry, and the entry found is the one composed for that peer |
| `Routing.HubRoutes` | internal/coordinator/netmap.go:81-118 | the hub's lookup of a device address finds that device's entry |
| `Routing.NetmapsShareNothing` | internal/coordinator/netmap.go:63-169 | in any netmap built from a reachable state no AllowedIPs prefix appears on two peers |
| `Routing.SpokeSubnetRoutes` | internal/agent/agent.go:358-367 | a spoke asks the OS for exactly the subnets enabled on other nodes |
| `Acl.FilterRulesExact` | internal/coordinator/acl.go:140-154 | the inbound rules name exactly the (source, service) pairs some enabled matching policy grants |
| `Acl.GroupingExact` | internal/coordinator/acl.go:183-216 | grouping one policy's destinations by joined source list, and splitting the key again, neither adds nor loses a pair |
| `Acl.ForwardRulesExact` | internal/coordinator/acl.go:162-218 | the union over all grouped forward rules is the ungrouped per-destination relation |
| `Acl.FilterVerdict` | internal/coordinator/acl.go:140-154 | what inbound rules admit from the only holder of an address is what policies allow |
| `Acl.ForwardVerdict` | internal/coordinator/acl.go:162-218 | what forward rules admit between two sole holders is what policies allow |
| `Acl.ForwardMeaning` | internal/coordinator/acl.go:162-218 | forward rules over any destination list admit a flow from a sole holder iff a policy allows it towards some destination that contains the address |
| `Acl.UntaggedAllowsAll` | internal/coordinator/acl.go:95-100 | one enabled policy without tags for any protocol allows every flow |
| `Acl.GroupRulesSorted` | internal/coordinator/acl.go:208-215 | sources and destinations of every forward rule are in byte order |
| `Acl.HubAgreesWithDestination` | internal/coordinator/acl.go:156-218 | the hub's forward verdict equals the destination's inbound verdict |
| `Acl.RouterWithinHub` | internal/coordinator/acl.go:162-182 | whatever a subnet router admits into its LANs, the hub admits |
| `Acl.PolicySourcesMembers` | internal/coordinator/acl.go:123-135 | a rule's source list holds exactly the matching devices other than the destination, in byte order |
| `Acl.Intersects` | internal/coordinator/acl.go:80-91 | the set-building loop decides whether two lists share an item |
| `Acl.MatchTag` | internal/coordinator/acl.go:95-100 | no policy tags match everything, else a common tag is needed |
| `Acl.AclSources` | internal/coordinator/acl.go:109-118 | the loops list every node and then every static peer as a /32 with its tags |
| `Acl.PolicySources` | internal/coordinator/acl.go:123-135 | the loop computes the source list whose members are characterised above |
| `Acl.ComputeFilterRules` | internal/coordinator/acl.go:140-154 | the loop computes the rules that FilterRulesExact is about |
| `Acl.GroupDsts` | internal/coordinator/acl.go:190-205 | the map-updating loop computes the groups that GroupingExact is about |
| `Acl.ComputeForwardRules` | internal/coordinator/acl.go:162-218 | the nested loops compute the rules that ForwardRulesExact is about |
| `Acl.NormalizeTags` | internal/coordinator/acl.go:39-52 | the result is sorted, free of duplicates, and holds exactly the non-empty slugs of the input |
| `FilterSpec.ChunksCover` | internal/agent/filterspec.go:29-33 | the multiport chunks concatenate to the port list |
| `FilterSpec.Chunks` | internal/agent/filterspec.go:29-33 | every chunk has 1 to 15 ports |
| `FilterSpec.ProtoPortExact` | internal/agent/filterspec.go:19-37 | the matchers of a service accept exactly its flows; an unknown protocol accepts none |
| `FilterSpec.FilterChainExact` | internal/agent/filterspec.go:42-53 | the first-match verdict of the inbound chain accepts iff the packet is established or some rule admits source, protocol and port |
| `FilterSpec.ForwardChainExact` | internal/agent/filterspec.go:58-71 | the same for the forward chain, with destinations |
| `FilterSpec.ProtoPortArgs` | internal/agent/filterspec.go:19-37 | the code computes the matchers ProtoPortExact is about |
| `FilterSpec.FilterChainSpecs` | internal/agent/filterspec.go:42-53 | the nested loops build the chain FilterChainExact is about |
| `FilterSpec.ForwardChainSpecs` | internal/agent/filterspec.go:58-71 | the nested loops build the chain ForwardChainExact is about |
| `Netmaps.PeersComeFromRows` | internal/coordinator/netmap.go:81-165 | every netmap peer carries id, name, role, key, address and signature of one stored row |
| `Netmaps.RowsBecomePeers` | internal/coordinator/netmap.go:81-165 | every other node is in the hub's netmap and every other spoke in a spoke's |
| `Netmaps.PeersDial` | internal/coordinator/netmap.go:81-165 | a spoke's first entry is its one hub entry and has the hub's configured endpoint; every other entry has none and the candidates of its node; a hub's entries have neither endpoint nor keepalive |
| `Netmaps.CandidatesExact` | internal/coordinator/node.go:183-216 | a node is given candidates for an id iff some endpoint of it is fresh and, with a policy enabled, both run Linux; they are the fresh list |
| `Netmaps.LanFirst` | internal/coordinator/node.go:184-201 | the fresh list holds exactly the fresh addresses, those reported by the node itself before those the hub observed |
| `Netmaps.FreshAddrsMembers` | internal/coordinator/node.go:186-195 | each half holds exactly the addresses of its kind that are at most 15 minutes old |
| `Netmaps.BuildPeers` | internal/coordinator/netmap.go:81-165 | the loops build the peers the routing theorems speak of, or report that no hub is registered |
| `Netmaps.BuildNetmapFor` | internal/coordinator/node.go:138-231 | the whole builder, with fresh candidates and the withholding of candidates while the ACL is on, computes the specified netmap |
| `Netmaps.Withhold` | internal/coordinator/node.go:202-216 | with the ACL on, a node that cannot filter gets no candidates and is nobody's candidate |
| `Prober.SyncKeepsWellFormed` | internal/agent/probe.go:88-112 | a netmap update keeps the per-peer invariant, ends with candidates iff the netmap gives some, and promotes nobody |
| `Prober.StepKeepsWellFormed` | internal/agent/probe.go:184-228 | a probe step keeps the invariant; direct afterwards means a handshake at most three minutes old; without candidates nothing moves |
| `Prober.StepDirectIff` | internal/agent/probe.go:184-228 | after a step a peer is direct iff it has candidates and a recent handshake (younger than three minutes, with a live endpoint if it was idle; at most three minutes if it was direct), and a promotion confirms the reported endpoint |
| `Prober.SyncExact` | internal/agent/probe.go:88-112 | what a new candidate list does in each phase: restart at the first candidate, keep the path, probe at the next silent tick, or end it all |
| `Prober.ProbingSchedule` | internal/agent/probe.go:193-208 | with ticks at most 3 s apart and no handshake, candidates are tried once each in order, each for at least 10 s and within 13 s |
| `Prober.ProbingEnds` | internal/agent/probe.go:193-208 | past 13 s per candidate, at most 104 s, the peer is idle with a retry time 30 minutes later |
| `Prober.EachCandidateTried` | internal/agent/probe.go:193-208 | no candidate is skipped: before the index passes k some tick leaves the peer probing candidate k |
| `Prober.BackoffHolds` | internal/agent/probe.go:209-226 | until its retry time a silent idle peer stays as it is |
| `Prober.BackoffThenProbes` | internal/agent/probe.go:209-226 | and the first silent tick after it starts over with the first candidate |
| `Prober.DemotedRetries` | internal/agent/probe.go:186-192 | a direct peer whose handshake is over three minutes old is idle without endpoint at once, stays so for two silent minutes and then probes again |
| `Prober.ValidExact` | internal/agent/probe.go:128-145 | the candidates kept are a prefix of the dialable ones, all of them or eight |
| `Prober.ValidCandidates` | internal/agent/probe.go:128-145 | the loop with its early break returns the first eight dialable endpoints |
| `Prober.StepState` | internal/agent/probe.go:184-228 | the phase switch matches its specification, and asks for a re-apply exactly when the state changed |
| `Agents.RunOk` | internal/agent/probe.go:76-237 | over every run of applies, ticks and restarts exactly the managed peers are tracked, in sound states, and after each tick direct peers have a recent handshake |
| `Agents.WithdrawnStaysIdle` | internal/agent/probe.go:92-112 | in no reachable state does a peer without candidates in the netmap leave idle |
| `Agents.RunInSyncIff` | internal/agent/probe.go:229-237 | over every run the device holds the composition of netmap and phases iff the last composition asked for was installed, or was there already |
| `Agents.InstalledIffDirect` | internal/agent/agent.go:336-350 | whenever it does, every netmap peer is on the device, and a managed one carries its AllowedIPs iff it is direct |
| `Paths.InstalledAs` | internal/agent/agent.go:336-350 | whenever it does, a probing peer is on the device with its current candidate and keepalive, an idle one with neither endpoint nor keepalive, a direct one with its path and AllowedIPs |
| `Paths.TickDirectIff` | internal/agent/probe.go:184-228 | over every run whose netmap gives each managed key one entry, as netmaps from sound tables do: after a tick a tracked peer is direct iff it has candidates and its handshake is recent, and its confirmed path is the old one or the one just reported |
| `Paths.MoveInstalls` | internal/agent/probe.go:229-237 | with a good device call the tick that moves a peer leaves what its new phase asks for on the device, AllowedIPs after a promotion |
| `Paths.TickSteps` | internal/agent/probe.go:167-237 | whatever a tick re-applies, each peer still tracked has made exactly its own step |
| `Paths.SyncIsSteady` | internal/agent/agent.go:244-291 | after any run of well-formed events, a successful apply ends in a steady state: in sync, verified, every peer tracked |
| `Paths.DeviceFollows` | internal/agent/probe.go:167-237 | from a steady state, over any number of good ticks, the device shows for each managed peer what its own state machine has come to |
| `Paths.CandidatesInstalled` | internal/agent/probe.go:193-208 | in a silent stretch the peer is on the device with the candidate the schedule is at, then with no endpoint |
| `Paths.EachCandidateInstalled` | internal/agent/probe.go:193-208 | and each candidate is installed at some tick before it goes idle |
| `Paths.PathWasReported` | internal/agent/probe.go:194-219 | over every run the confirmed path of a direct peer is the endpoint reported at a tick since which it has been direct |
| `Paths.ReportedPathsDial` | internal/agent/agent.go:344-348 | if every tick reports an endpoint for it, a direct peer has a non-empty path |
| `Paths.PathIff` | internal/agent/agent.go:344-348 | a direct peer has a path iff its confirmed endpoint is not empty or its index lies within its candidates |
| `Paths.NoPathWitness` | internal/agent/probe.go:88-112 | a promotion without an endpoint followed by a shorter list leaves none |
| `Paths.RestartRestores` | internal/agent/agent.go:160-166 | after a saved apply, a restart without the coordinator brings back netmap, pin, hosts, chains and fixed entries, with managed peers on the relay |
| `Paths.RestartLeaves` | internal/agent/agent.go:189-196 | a clean shutdown takes names and chains down; after a crash both stay until the restarted daemon has replaced them |
| `Paths.BadKeyBlocks` | internal/agent/agent.go:260-264 | one peer whose key does not parse keeps the whole netmap off the machine |
| `Agents.ReportExact` | internal/agent/probe.go:167-183 | the report gives each key its status |
| `Agents.GoodRunInstalls` | internal/agent/agent.go:323-373 | with well-formed netmaps nothing but a failing device call keeps a composition off the device: no re-apply is refused by the lock or by a parse error |
| `Agents.RunFilterIff` | internal/agent/agent.go:297-318 | over every run the chains in force are the current netmap's iff those the last accepted netmap asked for were applied, or were there already |
| `Reapplies.FailedReapplyWitness` | internal/agent/probe.go:209-237 | a run from a fresh start that ends with a direct peer without AllowedIPs on the device, and stays so over further ticks |
| `Agents.PinSafety` | internal/agent/lock.go:17-49 | over whole runs a stored pin never changes, a pin in memory lasts until a restart, and every peer set handed to the device is verified under the pin in force |
| `Agents.ForeignKeyRefused` | internal/agent/lock.go:27-31 | a netmap with another lock key changes neither device nor cache nor anything else |
| `Paths.PinTakes` | internal/agent/lock.go:17-36 | the first lock key seen is pinned; it reaches the disk iff the save succeeds, and if it fails, or the key does not parse, nothing else changes |
| `Paths.ReapplyWritesNothing` | internal/agent/agent.go:280-289 | a netmap once applied is the cached one, and applying it again writes nothing to disk |
| `Agents.ReapplyKeepsPeers` | internal/agent/probe.go:229-235 | re-applying the current, already filtered netmap drops nothing |
| `Agents.LockMessageInjective` | internal/api/types.go:130-132 | one signed message stands for one key and address |
| `Agents.CompactVerified` | internal/agent/lock.go:37-47 | the in-place compaction leaves exactly the verified peers, in order |
| `Agents.Agent.EnforceLock` | internal/agent/lock.go:17-49 | pinning, saving and stripping as specified, with every error exit |
| `Agents.Agent.SyncProbesWith` | internal/agent/probe.go:76-119 | the map-updating loop computes the specified prober states and forgets the rest |
| `Agents.Agent.ComposePeers` | internal/agent/agent.go:323-373 | the loops compose netmap and prober phases and collect the OS routes, failing on a key or AllowedIPs text that does not parse |
| `Agents.Agent.ApplyNetmap` | internal/agent/agent.go:244-291 | memory, device, routes, hosts, filter and state file are the specified ones at every exit |
| `Agents.Agent.ProbeStep` | internal/agent/probe.go:167-237 | a tick steps every peer and re-applies iff something changed |
| `Coordinators.ReachableInv` | internal/coordinator/node.go:22-131 | every reachable state has at most one hub, at the reserved address, distinct addresses across nodes and static peers, enabled routes within advertised ones and on one node only |
| `Coordinators.HandleKeepsInv` | internal/coordinator/node.go:476-531 | each of the 16 handlers keeps that invariant |
| `Coordinators.AllocationIsNew` | internal/coordinator/ipam.go:42-49 | an allocated address is a host, not the hub's, and in neither table |
| `Coordinators.TokenEnrolsOnce` | internal/coordinator/store/store.go:223-275 | in any run a token enrols at most one node |
| `Enrolments.EnrolIff` | internal/coordinator/node.go:22-131 | after every run from the empty coordinator an enrolment succeeds iff its token was created with an expiry still ahead, no enrolment has used it, an address is available (for a hub: no hub yet), and neither id nor key is stored |
| `Enrolments.EnrolledRow` | internal/coordinator/node.go:93-118 | it then adds one row with the request's id, key, os and role, the token's hint as name if there is one, the hub's or the least free address, approved iff approval is off or it is the hub, and changes no other row |
| `Enrolments.TokenHistory` | internal/coordinator/store/store.go:215-238 | over every run a token is stored as its first creating step wrote it and is used iff some step enrolled with it |
| `Coordinators.ReachablePolicies` | internal/coordinator/acl.go:222-266 | every stored policy has a known protocol and valid ports, ports only with tcp or udp |
| `Coordinators.PortsBind` | internal/coordinator/acl.go:222-266 | in every reachable state a policy that lists ports admits only tcp or udp flows to one of these ports, between 1 and 65535 |
| `Coordinators.StillAdvertisedMembers` | internal/coordinator/store/store.go:336-363 | the enabled routes kept are exactly those still advertised |
| `Coordinators.StatusWrites` | internal/coordinator/node.go:315-392 | a heartbeat writes one row, of it only the routes, and bumps whenever enabled routes change |
| `Heartbeats.UnannouncedIff` | internal/coordinator/node.go:329-343 | a heartbeat changes some stored address set without a bump iff node known, no repeated address, new local addresses and a bad route |
| `Heartbeats.NeverAnnounced` | internal/coordinator/node.go:329-343 | the next good heartbeat with the same addresses bumps iff it retracts an enabled route |
| `Heartbeats.UnannouncedWitness` | internal/coordinator/node.go:329-343 | a run from the empty coordinator that stores the hub's address and never announces it |
| `Heartbeats.BumpsIff` | internal/coordinator/node.go:329-392 | a successful heartbeat bumps once iff the node's addresses moved, an enabled route was retracted, or it is the hub's and an observation moved some address set |
| `Heartbeats.ObservedMovedIff` | internal/coordinator/node.go:354-381 | observations count as a change iff storing one of them changed some address set |
| `Heartbeats.HeartbeatStores` | internal/coordinator/node.go:329-334 | the local endpoints it leaves behind are exactly its own, stamped with its time |
| `Heartbeats.ReportedIsFresh` | internal/coordinator/node.go:186-195 | so a reported address is a candidate for the next 15 minutes and no longer |
| `Heartbeats.LastObservationStays` | internal/coordinator/node.go:354-381 | the last address the hub observed for a node is the one kept, stamped with the time of the report |
| `Servers.Coordinator.HandleEnroll` | internal/coordinator/node.go:22-131 | the new tables and the verdict are the specified ones: token consumed with the insert or not at all |
| `Servers.Coordinator.Allocate` | internal/coordinator/ipam.go:42-49 | the least free host, with the hub's address reserved |
| `Servers.Coordinator.HandleRekey` | internal/coordinator/node.go:394-423 | unchanged key, taken key and new key, the last clearing the signature |
| `Servers.Coordinator.ServedElsewhere` | internal/coordinator/node.go:506-519 | the triple loop finds whether another node serves one of the routes |
| `Servers.Coordinator.HandleNodeRoutes` | internal/coordinator/node.go:476-531 | refuses bad, unadvertised or already served routes, else enables them |
| `Servers.Coordinator.SwapEndpoints` | internal/coordinator/store/store.go:635-682 | one kind of endpoint is replaced; comparing sizes and newcomers tells whether the address set moved; a repeated address rolls everything back |
| `Servers.Coordinator.HandleStatus` | internal/coordinator/node.go:315-392 | endpoints, advertised routes, retracted enabled routes and the hub's observations, with one bump if anything moved |
| `Handlers.ApproveExact` | internal/coordinator/node.go:533-553 | succeeds iff the node exists; this row and no other becomes approved, the netmap view gains exactly it, the version grows iff it was not approved before |
| `Handlers.DeleteNodeExact` | internal/coordinator/node.go:578-599 | exactly the rows of other nodes stay; the node's endpoints go and nothing else |
| `Handlers.DeleteFreesAddress` | internal/coordinator/store/store.go:702-724 | a deleted spoke's address is free again: the next allocation is that address or a lower one |
| `Handlers.RekeyExact` | internal/coordinator/node.go:394-423 | refused iff another node has the key; a new key goes on this row alone, costs it its signature and bumps |
| `Handlers.EnableExact` | internal/coordinator/node.go:476-531 | succeeds iff every route is acceptable, advertised by the node and enabled on no other; then exactly the masked routes are enabled |
| `Handlers.AnnouncedCanBeEnabled` | internal/coordinator/node.go:476-531 | what a node has just announced can be enabled iff no other node serves it |
| `Handlers.TagNodeExact` | internal/coordinator/node.go:555-576 | exactly this row's tags change, with a bump |
| `Handlers.TagStaticExact` | internal/coordinator/staticpeer.go:92-113 | the same for a static peer |
| `Handlers.CreateStaticExact` | internal/coordinator/staticpeer.go:21-75 | succeeds iff there is a name, a hub, a free address and no static peer with this id, name or key; it gets the least free address, unsigned |
| `Handlers.CreatePolicyMeans` | internal/coordinator/acl.go:222-266 | a created policy adds exactly what it allows to what policies allow |
| `Handlers.DeletePolicyMeans` | internal/coordinator/acl.go:281-296 | after a delete exactly the other policies allow anything |
| `Servers.Coordinator.HandleStaticPeerCreate` | internal/coordinator/staticpeer.go:21-75 | needs a name, a hub, a free address and unused columns |
| `Handlers.DeleteStaticExact` | internal/coordinator/staticpeer.go:143-164 | exactly the other static peers stay, and the address is free |
| `Servers.Coordinator.HandleLockInit` | internal/coordinator/lock.go:79-113 | refuses another key while active, clears signatures only when another key is stored |
| `Servers.Coordinator.HandleLockSign` | internal/coordinator/lock.go:115-190 | signatures stored one by one up to the first bad one; active when nothing is pending |
| `Handlers.SignOneExact` | internal/coordinator/lock.go:142-170 | a signature is stored iff it names a binding it verifies for, on that row alone |
| `Handlers.SignAllIff` | internal/coordinator/lock.go:142-170 | a request goes through iff each of its signatures would on the tables it found; bindings never change on the way |
| `Handlers.LastSignatureStored` | internal/coordinator/lock.go:142-170 | the last signature of such a request is on its row |
| `Handlers.ActivatesIff` | internal/coordinator/lock.go:172-190 | it activates the lock iff it leaves nothing unsigned |
| `Servers.Coordinator.PendingBindings` | internal/coordinator/lock.go:36-61 | the loops list the unsigned bindings, nodes first; none iff every node and static peer is signed |
| `Coordinators.PendingNodesMembers` | internal/coordinator/lock.go:46-52 | the node part holds exactly the bindings of unsigned nodes |
| `Coordinators.PendingStaticsMembers` | internal/coordinator/lock.go:53-59 | the other part exactly those of unsigned static peers |
| `Handlers.DisableRoundTrip` | internal/coordinator/lock.go:195-210 | netmaps stop carrying the key, signatures stay: arming the same key and an empty sign request restore the active lock, tables and all |
| `Locks.HandleKeepsLock` | internal/coordinator/store/store.go:404-424 | sign, rekey, enroll, delete and disciplined re-arming keep every stored signature valid for its device's current key and address |
| `Locks.LockRuns` | internal/coordinator/lock.go:79-190 | so it is after every run whose re-arming after a disable reuses the key or finds nothing signed |
| `Locks.ActivationLosesNobody` | internal/coordinator/lock.go:172-190 | any netmap built at the activating step passes an agent with empty or equal pin with all peers kept |
| `Locks.SignedNetmapKept` | internal/agent/lock.go:37-47 | with every binding signed and the lock active, any netmap passes an agent with empty or equal pin whole |
| `Locks.PinnedStayServed` | internal/coordinator/lock.go:95-105 | from an active lock, over any run without a disable, every netmap carries the same key, so an agent that pinned it is never refused |
| `Locks.RearmExact` | internal/coordinator/lock.go:95-105 | for two keys that no stored signature verifies under both of, re-arming after a disable keeps signatures valid iff same key or nothing signed |
| `Locks.RearmDropsEveryone` | internal/coordinator/lock.go:95-105 | otherwise an empty sign request activates the new key and agents pinning it drop every peer |
| `Locks.RearmWitness` | internal/coordinator/lock.go:195-210 | a run from the empty coordinator that ends there, for any verifier and any signature that tells two keys apart |
| `LongPoll.NoLostWakeUp` | internal/coordinator/server.go:98-121 | in every interleaving an approved request blocked with the version past its cursor holds a closed channel or some handler is between bump and notify |
| `LongPoll.WokenIsServed` | internal/coordinator/node.go:262-285 | left alone, a woken request serves the current tables at the current version |
| `Freshness.ServedReflectsBumps` | internal/coordinator/node.go:262-274 | what is served at version v reflects every write whose bump was at most v |
| `Freshness.CursorMeansCurrent` | internal/coordinator/server.go:114-121 | with cursor equal to the stored version and no write awaiting its bump, served peer keys, addresses, AllowedIPs and hosts are those of the current tables, and the netmap carries that version and the node's own id |
| `LongPoll.HandlersBumpWhatTheyShow` | internal/coordinator/node.go:383-390 | every handler bumps the version or leaves what peers and hosts are made of unchanged |
| `Approvals.ApprovalMissedIff` | internal/coordinator/node.go:244-261 | in every interleaving, with no handler under way: an approval was announced by closing exactly one channel, a blocked request sleeps through it iff that channel lies below the captured one, and is asleep now iff in addition no other handler closed the captured channel or a later one |
| `Approvals.ApprovalIsLogged` | internal/coordinator/session.go:22-28 | a request with an unapproved row of an approved node has such an approval, committed after it read the row |
| `Approvals.OnlyApprovedServed` | internal/coordinator/node.go:241-285 | in every interleaving whoever is served a netmap was approved when its row was read, and the netmap lists approved nodes only |
| `Approvals.WokenSeesApproval` | internal/coordinator/node.go:244-261 | left alone, a woken request of an approved node reads its row again and serves the current tables |
| `Approvals.MissedApprovalWitness` | internal/coordinator/session.go:22-28 | a run from the empty coordinator in which it is missed |
| `Convergence.NeverTaken` | internal/coordinator/node.go:408-415 | over every run of a fleet a re-assert meets no key conflict: it succeeds iff the node still exists, and then its key is registered |
| `Convergence.RestartConverges` | internal/agent/rekey.go:18-25 | after any run with enrolments, crashes, lost replies and failed saves or swaps, a restarted node holds one key in state file, memory and device, and the coordinator agrees iff the last of its requests to arrive carried that key; so once the re-assert arrives with no older request on the wire |
| `Convergence.LateRequestDiverges` | internal/agent/rekey.go:18-25 | a request that arrives later keeps this iff it carries the same key |
| `Convergence.LateRequestWitness` | internal/agent/rekey.go:59-75 | in any fleet a run that converges after a restart and is undone by a lingering request |
| `Convergence.RotationOutcome` | internal/agent/rekey.go:59-75 | what a rotation leaves in each place for every outcome of save and swap; consistent iff both succeed |
| `Convergence.CacheWriteHeals` | internal/agent/rekey.go:59-75 | a rotation whose save failed reaches the state file with the next cache write |
| `Convergence.RefusedRotation` | internal/agent/rekey.go:59-75 | a rotation the coordinator refuses changes no key anywhere |
| `Ipam.LeastFreeIsLeast` | internal/coordinator/ipam.go:15-29 | the allocated address is the least unused host, and there is none iff all hosts are used |
| `Ipam.AllocateIP` | internal/coordinator/ipam.go:15-29 | the address walk computes it and ends for every prefix length |
| `Ipam.BroadcastAddr` | internal/coordinator/ipam.go:32-38 | setting the host bits byte by byte gives network + 2^(32-bits) - 1 |
| `Routes.NormalizeExact` | internal/coordinator/routes.go:13-38 | fails iff some announcement is unacceptable, else yields exactly the masked routes, all clear of the overlay, in text order |
| `Routes.NormalizeRoutes` | internal/coordinator/routes.go:13-38 | the loop with its seen set computes it |
| `Net.OverlapsIff` | internal/coordinator/routes.go:26-28 | prefixes overlap iff they share an address |
| `Net.CidrTextInjective` | internal/coordinator/acl.go:109-118 | comparing CIDR texts compares prefixes |
| `Net.AddrTextValue` | internal/coordinator/acl.go:109-118 | an address prints as its four bytes, most significant first |
| `Names.HostsDistinct` | internal/coordinator/netmap.go:18-38 | every device gets a name of its own, a DNS label under .kai, with its own address |
| `Names.HostFollowsName` | internal/coordinator/netmap.go:18-38 | each device is called after its own name, with the least suffix no earlier device has taken |
| `Names.BaseFollowsName` | internal/coordinator/netmap.go:41-46 | a name that is a label is kept, every letter and digit of another is, and "device" stands in for none |
| `Names.PickIsFree` | internal/coordinator/netmap.go:28-34 | the suffix search ends at the first free label |
| `Names.PickLabel` | internal/coordinator/netmap.go:28-34 | the search loop terminates and finds it |
| `Names.BuildHosts` | internal/coordinator/netmap.go:18-38 | the loops compute the host list HostsDistinct is about |
| `Text.CsvRoundTrip` | internal/text/text.go:11-29 | a list survives one database column iff no item has a comma and it is not the single empty string |
| `Text.JoinSplit` | internal/text/text.go:11-29 | joining a split text restores it |
| `Text.SlugIsProjection` | internal/text/text.go:46-62 | slugs are DNS labels, keep exactly the words, and slugging again changes nothing |
| `Text.Slug` | internal/text/text.go:46-62 | the one-pass loop computes the slug |
| `HostsFiles.UpdateKeepsUserText` | internal/agent/hosts.go:52-67 | a rewrite keeps the user's text up to a final newline and puts the new block behind it |
| `HostsFiles.UpdateIdempotent` | internal/agent/hosts.go:52-67 | a second rewrite with the same entries changes nothing |
| `HostsFiles.RewritesKeepUserText` | internal/agent/hosts.go:52-67 | over any number of rewrites the user's text gains at most one newline |
| `HostsFiles.StripBlock` | internal/agent/hosts.go:36-47 | stripping removes one block and one newline after it, whatever follows |
| `HostsFiles.StripShrinksIff` | internal/agent/hosts.go:36-47 | with both markers present the file gets shorter iff the begin marker comes first |
| `HostsFiles.ReversedRepeats` | internal/agent/hosts.go:36-47 | with the end marker first the text between the markers is repeated |
| `HostsFiles.NetmapHostsClean` | internal/coordinator/netmap.go:18-46 | names handed out by the coordinator contain no hash |
| `HostsFiles.KaiIsProper` | internal/agent/hosts.go:15-19 | the two marker lines have the shape the theorems need |
| `HostsFiles.RenderHostsBlock` | internal/agent/hosts.go:21-32 | the loop renders the block |
| `HostsFiles.BlockLines` | internal/agent/hosts.go:21-32 | the lines of the block are the begin marker, one padded line per entry in order, and the end marker |
| `HostsFiles.HostsFile.UpdateHosts` | internal/agent/hosts.go:52-67 | the file's new text is the specified one, written only if different |

## Left out

- The admin CLI, web UI, sessions, TLS, webhooks, events, DNS provider, hub DNS responder, publishes and TCP forwarders, QR codes and rendered static-peer files: presentation, I/O or one-branch code.
- Running iptables, netlink and wgctrl; the hooks of internal/agent/nat_linux.go are taken as given (hub and subnet router, both on Linux: relayed traffic meets the forward chain; Linux node: inbound overlay traffic meets the inbound chain).
- A hub that is not on Linux: it has no forward chain to filter with.
- Hub-originated traffic, and flows that start in a LAN or end in a LAN behind the hub itself; for a flow to the hub there is its chain's verdict (`EndToEnd.HubInboundExact`).
- WireGuard's inbound check that a packet's source lies in the sender's AllowedIPs: the end-to-end theorem is about routing and filters.
- Handler atomicity: outside `LongPoll` each handler is one step. The SQLite tables are sequences in enrolment order, with their UNIQUE columns as insert conditions; store errors are not modelled.
- sanitizeEndpoints is taken as done before a heartbeat is handled.
- The handlers for tags, tokens and policies exist as specification functions with their invariants, not as methods of the class: each is a single assignment.
- Signature kinds other than node and static peer, which the sign handler refuses.
- The policy's name, and the default protocol for an empty one, are handled before `CreatePolicy`. normalizePorts: trimming, deduplication by text and numeric sorting are left out; `PolicyValid` is its acceptance test, plus signs included.
- Parsing of addresses, prefixes, keys and JSON: members take parsed values, with None for unparsable text. IPv6 routes are the None case.
- The netmap object is a value: `a.st.Netmap != nm` compares contents where the original compares pointers, so an equal netmap is not saved again.
- Agents.Agent.ApplyNetmap: a failing device call leaves the old device, and a failing filter rebuild the old chains; peers or rules put in place before the failure are not modelled. The filter fingerprint is compared by value. A hub's publishes and DNS records are not part of the state.
- probeStep re-applies `a.nm` after releasing the mutex; an agent's events are one sequence here and nothing is claimed about the applied version under interleaving.
- Freshness.CursorMeansCurrent: does not cover candidates, rules or lock signatures, because endpoints age by the clock, the node's own row is read at authentication, and lock arming does not bump.
- Agents.WithdrawnStaysIdle: assumes the empty text is not a dialable endpoint, as the address parser guarantees.
- Convergence.RestartConverges: assumes generated keys and node ids never repeat, and that no handler but rekey changes the key of an existing node.
