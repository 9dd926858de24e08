# Verification of the Open vSwitch integration suite

A Dafny model of the control logic of a test suite for Open vSwitch, and proofs of what that logic
is for. The suite compiles a bridge description (guest interfaces, their VNIs, tunnel ports,
uplinks) into OpenFlow tables, and these tables, on two hosts joined by a wire, act as a learning
switch with one broadcast domain per VNI and an optional stateful firewall. Around that compiler
stand the code that hands out port numbers, cores and memory, an oracle that predicts who can
reach whom, and a parser for connection dumps.

`dafny verify dfyconfig.toml --resource-limit 2000000 --verification-time-limit 0` checks the whole
project. Source paths below are relative to the repository's root; bare file names are those under
`resources/libraries/python`.

## How it is built

| part | modules |
|---|---|
| flow language: priority lookup, actions in order, resubmit, learn, connection tracking | `OpenFlow` |
| bridges as values, the VNI index | `Ports`, `Seqs`, `Wrappers`, `Constants` |
| the tables as functions of a bridge; what is in them; that they never conflict | `FlowTables`, `FlowTableProps`, `Conflicts`, `AclOrder` |
| one packet's walk through the tables | `Lookups`, `Pipeline`, `Walk` |
| one host as a learning switch | `Switching`, `LearningSwitch` |
| two hosts and a wire, over every run | `Network`, `Isolation`, `Honesty`, `Delivery`, `Spoofing` |
| the objects and loops that build all this | `Vswitch`, `FlowUtils`, `Overlay`, `TunnelIds`, `Deployment` |
| from the set-up of two hosts to a network the run theorems are about | `Assembly` |
| the stateful ACL and what it guarantees over runs | `Conntrack`, `AclVerdicts`, `AclDecision`, `Firewall`, `Replies` |
| the dump parser and the address swap of the NAT tests | `NatParser`, `NatPrinter`, `NatReading`, `NatNested`, `NatConns`, `NatVms` |
| the division of a host's cores and memory | `Bits`, `Topology`, `Allocation` |
| the reachability oracle and its agreement with the network | `Pal`, `Reachability` |
| from two machines over their networks to the oracle's answers | `EndToEnd` |

The loops of the source are methods, each proved equal to a specification function; the theorems
are about those functions. A packet's walk is a total function: its termination measure is
(untracked first, stage of the table, remaining actions). A run is a sequence of events, each a
frame sent by some guest interface or a frame taken off the wire in any order, from empty tables.

## Where the code is not what one would expect

- `overlay.py:130,142,152` walk `sut.vms`, which `topology.py:160` creates empty and nothing fills:
  the guests are kept per NUMA node. As called, VNI assignment changes no VNI
  (`Assembly.AssignAsCalled`). The loops themselves are modelled on any list of VMs.
- `overlay.py:56-57` removes from the list it walks, so removal leaves every second tunnel port
  (`TunnelIds.UndeployLeavesHalf`). The run theorems start from bridges without leftovers.
- In native mode the flows flooding what an uplink brings in match alike for every VNI
  (`Conflicts.OutputConflictFreeIff`), so the run theorems cover one VNI there.
- The metadata checks at priority 15 drop nothing: the plain flow of priority 10 matches what
  they do not, and both output to the resolved port (`Lookups.SelectVifUnicast`).
- `pal.py:256` reads `sut.pnic`, which nothing defines: asking for the uplink card's node is an error
  (`Pal.VerifyTopologyGet`). A VM's own node number stays 0 (`vm.py:84`), so no pair of guests is ever
  listed as being across nodes (`EndToEnd.NeverAcrossNodes`).
- A first uplink on NUMA node 0 does not count as found (`topology.py:143`), so uplinks on different
  nodes can be accepted (`Allocation.PnicNodeIs`).
- Port 0 is both the bridge's own interface and 'no match' in register 1. Port 0 is treated as a
  sink: the run theorems speak about the guests' interfaces.
- The last NUMA node's number comes from the last core listed, and nodes without huge pages are
  skipped while cores are filed by position: set-up fails unless every node has huge pages
  (`Allocation.LoadSucceedsIff`).
- With addresses spoofed, a learned entry may lead away from the owner (`Spoofing.SpoofCaptures`);
  isolation does not depend on honest senders, exact delivery does.
- The ')' of a group that ends in a group is not read by either of them, so an item after it is read
  into the group, under a key beginning with that ')' (`NatNested.GroupEndSwallows`). A group that
  closes the line loses nothing: `NatReading.RoundTrip` says exactly which trees are read back.
- Established and reply flows of one port match alike on tracked packets; they have equal actions,
  so the order in which the stateful ACL is installed does not matter either (`AclOrder`).

## Model

| member | source | states |
|---|---|---|
| `FlowUtils.TnlAs` | resources/libraries/python/flowutils.py:41-63 | the action list towards a tunnel port: destination, key and metadata as the port leaves them to the flow, then the output |
| `FlowUtils.ExternalAs` | resources/libraries/python/flowutils.py:165-183 | the external half of a flood: ports of other VNIs are skipped, tags are pushed once before all uplinks |
| `FlowUtils.OtherLocals` | resources/libraries/python/flowutils.py:158-163 | the local half of a flood leaves out exactly the sender's port |
| `FlowUtils.GenerateOutputFlows` | resources/libraries/python/flowutils.py:120-275 | the nested loops build exactly the specified OUTPUT table; they fail exactly on an unknown deployment or a VNI without interfaces |
| `FlowUtils.GenerateInputFlows` | resources/libraries/python/flowutils.py:277-339 | the loops build exactly the specified INPUT table of the deployment |
| `FlowUtils.SetupDefaultPipeline` | resources/libraries/python/flowutils.py:341-391 | the bridge is cleared and then holds exactly the default pipeline, which is a complete native deployment; when generation fails it stays cleared |
| `FlowTableProps.OutputFlowsAre` | resources/libraries/python/flowutils.py:148-275 | a flow is in the OUTPUT table iff it is one of five kinds, over this bridge's interfaces, VNIs and ports |
| `FlowTableProps.InputFlowsAre` | resources/libraries/python/flowutils.py:293-339 | a flow is in the INPUT table iff it tags packets of one interface or untags those of one external port (or is the one native flow) |
| `Conflicts.DeployedConflictFree` | resources/libraries/python/flowutils.py:120-339 | on a deployed switch no two different flows of equal priority match one packet, if its ACL table has none |
| `Conflicts.OrderIrrelevant` | resources/libraries/python/flowutils.py:341-391 | two switches the same pipeline was installed on, in any order, look up every packet alike in every table but the ACL table, whatever the ACL |
| `Conflicts.DefaultOrderIrrelevant` | resources/libraries/python/flowutils.py:355-372 | with the default ACL they do so in the ACL table too |
| `Conflicts.OutputConflictFreeIff` | resources/libraries/python/flowutils.py:186-222 | the OUTPUT table is unambiguous iff it is not a native deployment with two VNIs and an uplink |
| `AclOrder.StatefulAgrees` | resources/libraries/python/conntrack.py:27-154 | two flows of equal priority of the stateful ACL that match one tracked packet have equal actions |
| `AclOrder.VerdictOrderIrrelevant` | resources/libraries/python/conntrack.py:78-154 | in whatever order the stateful tables were installed, a packet gets the same verdict and records the same connections |
| `AclOrder.ForwardOrderIrrelevant` | resources/libraries/python/conntrack.py:78-154 | and the whole walk from the ACL table on has the same outputs and leaves the same switch |
| `Lookups.PipelineWellStaged` | resources/libraries/python/flowutils.py:355-388 | every flow of a deployed pipeline jumps to a later stage and only untracked packets recirculate, which is the measure by which each packet's walk ends |
| `Lookups.SelectVifUnicast` | resources/libraries/python/flowutils.py:252-272 | a packet resolved to a guest's port is output there whether or not its metadata passes the checks |
| `Lookups.MetadataChecked` | resources/libraries/python/flowutils.py:252-266 | the check flow is chosen exactly for packets from a tunnel port that carry the marker and one of the bridge's VNIs as metadata |
| `Pipeline.PlainTnl` | resources/libraries/python/flowutils.py:41-63 | what the tunnel actions do to a packet: of several destinations the last one set survives, then one copy leaves |
| `Pipeline.PlainUplink` | resources/libraries/python/flowutils.py:65-76 | the push actions put on one tag with the VNI (vlan), or the inner and then the outer tag (qinq) |
| `Walk.Ingress` | resources/libraries/python/flowutils.py:298-315 | a guest's packet reaches the ACL table tagged with its interface's VNI in register 0 |
| `Walk.ExtIngress` | resources/libraries/python/flowutils.py:317-338 | a packet from the wire reaches the ACL table with its encapsulation moved to register 0 and taken off |
| `Walk.ForwardRun` | resources/libraries/python/flowutils.py:355-388 | the walk from the ACL table on is: ACL verdict, learn the source, resolve the destination, OUTPUT |
| `Switching.FloodEffects` | resources/libraries/python/flowutils.py:156-185 | a flood delivers untagged copies to the local interfaces before anything is pushed, and only then leaves the host |
| `Switching.WireRoundTrip` | resources/libraries/python/flowutils.py:65-76 | what one host encapsulates the other decapsulates to the same frame, tag stack and register 0, in every mode |
| `LearningSwitch.LocalEgress` | resources/libraries/python/flowutils.py:156-251 | the compiled tables do to a guest's packet what a learning switch with one broadcast domain per VNI does |
| `LearningSwitch.RemoteEgress` | resources/libraries/python/flowutils.py:187-251 | the same for a packet from the wire, which is never sent back to the wire |
| `LearningSwitch.Suppressed` | resources/libraries/python/flowutils.py:224-251 | a packet whose learned destination is the port it came from is not output |
| `Network.InjectSwitched` | resources/libraries/python/flowutils.py:341-391 | a host's step on a guest's frame is the abstract switch's step, or the ACL stops it |
| `Network.ReceiveSwitched` | resources/libraries/python/flowutils.py:341-391 | the same for a frame taken off the wire |
| `Isolation.TenantIsolation` | resources/libraries/python/flowutils.py:120-339 | over every run with any addresses and any such ACL: a frame is delivered only to other interfaces of its sender's VNI, unchanged |
| `Isolation.NoLoop` | resources/libraries/python/flowutils.py:187-222 | over every run a frame is on the wire at most once, towards the host it was not sent from, and not after that host delivered it |
| `Isolation.DeliveredAtMostOnce` | resources/libraries/python/flowutils.py:156-222 | over every run no interface receives a frame twice |
| `Isolation.WireDrains` | resources/libraries/python/flowutils.py:187-222 | without further sends k receives leave the wire without its first k frames: nothing circulates |
| `Delivery.FloodReachesAll` | resources/libraries/python/flowutils.py:156-222 | over every run a frame whose destination was never learned reaches, or is on the wire to, every other interface of its VNI |
| `Delivery.FibRefinesFlooding` | resources/libraries/python/flowutils.py:374-385 | with honest senders and an empty wire, a frame has reached the interface it is addressed to iff that is another interface of its VNI, as flooding would do |
| `Honesty.EntriesNameOwners` | resources/libraries/python/flowutils.py:374-378 | over every run of honest senders, whatever the ACL, every learned entry names the owner's port, or the external port towards the owner's host that carries the entry's VNI |
| `Spoofing.SpoofCaptures` | resources/libraries/python/flowutils.py:374-378 | after any run: once an interface was the last to send from an address, a frame to that address from another guest of its VNI and host is delivered to it alone, whoever owns the address |
| `Spoofing.SpoofCapturesArriving` | resources/libraries/python/flowutils.py:374-378 | so is, on that host, a frame to the address that comes in from the wire |
| `Vswitch.IdAllocator.Get` | resources/libraries/python/vswitch.py:59-65 | takes the first free number; fails iff none is free |
| `Vswitch.Bridge.AddVif` | resources/libraries/python/vswitch.py:90-97 | appends the interface and files it under its VNI; the index keeps agreeing with the interfaces |
| `Vswitch.Bridge.CreateUplink` | resources/libraries/python/vswitch.py:399-403 | without a bond exactly the one uplink port is added |
| `Vswitch.Bridge.RefreshVnis` | resources/libraries/python/vswitch.py:248-253 | afterwards the index agrees with the interfaces' current VNIs, whatever it held before |
| `Vswitch.Bridge.CreateTunnelPort` | resources/libraries/python/vswitch.py:255-280 | the new port carries the first free number and is appended |
| `Vswitch.Bridge.DeleteTunnelPort` | resources/libraries/python/vswitch.py:282-293 | the number becomes free again at the end and the first such port is removed |
| `Ports.VniIndexGroups` | resources/libraries/python/vswitch.py:90-97 | an index built by appending holds, under each VNI in use and no other, exactly the ordered sublist of interfaces on it, never empty |
| `Overlay.SetVifVniByIdxOnVm` | resources/libraries/python/overlay.py:126-135 | on the VMs it walks, the i-th interface of each gets VNI 200 + i, and the index follows |
| `Overlay.SetVifVniByIdxOnHost` | resources/libraries/python/overlay.py:137-146 | on the VMs it walks, interfaces are numbered from 300 on across VMs, and the index follows |
| `Overlay.ResetVifVni` | resources/libraries/python/overlay.py:148-155 | on the VMs it walks, every interface is back on VNI 0, and the index follows |
| `Assembly.AssignAsCalled` | resources/libraries/python/overlay.py:126-135 | with the VM list as set-up leaves it, no VNI changes: every guest stays on VNI 0 |
| `Overlay.IndexedNeverEmpty` | resources/libraries/python/flowutils.py:149-153 | with an index that follows the interfaces the 'no local vif' error cannot occur |
| `Overlay.CreateTunnelPorts` | resources/libraries/python/overlay.py:59-79 | creates one port per peer and VNI, per peer, per VNI, or one, as the two modes say, in that order |
| `Overlay.DeleteTunnelPorts` | resources/libraries/python/overlay.py:53-57 | one pass over the list it removes from, as the specification of that pass says |
| `Overlay.OverlayFlowSetup` | resources/libraries/python/overlay.py:93-124 | replaces exactly the INPUT and OUTPUT tables |
| `Overlay.ReplacedTables` | resources/libraries/python/overlay.py:93-124 | replacing both tables of the default pipeline leaves exactly the fixed stages, the default ACL and the overlay's tables |
| `Overlay.DeployL2Overlay` | resources/libraries/python/overlay.py:190-215 | a vlan or qinq deployment succeeds iff no VNI is empty and then installs exactly the deployed tables |
| `Overlay.DeployTunnelOverlay` | resources/libraries/python/overlay.py:157-180 | a tunnel deployment succeeds iff its ports could be created and no VNI is empty, and then installs exactly the tables for those ports |
| `Overlay.UndeployTunnelOverlay` | resources/libraries/python/overlay.py:182-188 | clears the flows and makes one deletion pass over the tunnel ports |
| `Overlay.CleanDeployment` | resources/libraries/python/overlay.py:59-79 | on a bridge without tunnel ports every mode creates the ports the run theorems assume |
| `TunnelIds.TunnelIdConservation` | resources/libraries/python/vswitch.py:53-72 | over every run of deployments and removals: free and used numbers together are 100..200 once each, and creation fails only with 101 ports |
| `TunnelIds.UndeployLeavesHalf` | resources/libraries/python/overlay.py:53-57 | removal leaves exactly every second port, so it is complete iff there was at most one |
| `TunnelIds.WantedAt` | resources/libraries/python/overlay.py:59-79 | which remote address and key the port at each place of a deployment gets, in the four combinations of modes |
| `TunnelIds.CreateAllFails` | resources/libraries/python/overlay.py:59-79 | a creation runs out of numbers iff it wants more ports than numbers are free |
| `Deployment.PortsApart` | resources/libraries/python/vswitch.py:83-88 | port numbers of interfaces, uplink and tunnels are distinct iff no tunnel port lies below the interfaces' end; up to 89 guest interfaces they always are |
| `Assembly.BuildBridge` | resources/libraries/python/pal.py:109-121 | a bridge made, given its uplink and filled with a host's interfaces holds them in order behind its own, with an index that agrees |
| `Assembly.Programmable` | resources/libraries/python/flowutils.py:149-153 | such a bridge can always be programmed: its index lists every interface and leaves no VNI empty |
| `Assembly.ProgramL2` | resources/libraries/python/flowutils.py:341-391 | the default pipeline, alone or with a vlan or qinq overlay on it, always gets installed and is exactly what the run theorems assume |
| `Assembly.ProgramTunnels` | resources/libraries/python/overlay.py:157-180 | a tunnel deployment on it succeeds iff the ports it wants fit the free numbers, and then does the same |
| `Assembly.ProgramFirewall` | resources/libraries/python/conntrack.py:78-154 | swapping in the stateful ACL, with or without a protected endpoint, keeps everything else installed |
| `Assembly.TwoHosts` | resources/libraries/python/overlay.py:190-215 | two hosts built and deployed by these methods, with the default pipeline alone included, form a network the run theorems apply to |
| `Assembly.HostTunnels` | resources/libraries/python/overlay.py:157-180 | a host of up to 89 guest interfaces never runs out of tunnel port numbers: the deployment succeeds in all four combinations of modes |
| `Assembly.TwoTunnelHosts` | resources/libraries/python/overlay.py:157-180 | two such hosts form a network the run theorems apply to |
| `Assembly.TwoFirewalls` | resources/libraries/python/conntrack.py:78-154 | with the stateful ACL set up on both, one the firewall theorems apply to |
| `Assembly.BringUpL2` | resources/libraries/python/topology.py:101-308 | from what is known of two machines of up to 22 NUMA nodes to such a native, vlan or qinq network, which is reached iff both set-ups succeed |
| `Assembly.BringUpTunnels` | resources/libraries/python/topology.py:101-308 | the same with tunnels, in all four combinations of modes |
| `Assembly.BringUpFirewalls` | resources/libraries/python/topology.py:101-308 | the same up to the stateful ACL and a protected endpoint |
| `Deployment.DeployedNetwork` | resources/libraries/python/overlay.py:157-215 | two hosts assembled and deployed this way form a network the run theorems apply to |
| `Deployment.DeployedFirewall` | resources/libraries/python/conntrack.py:78-154 | with the stateful ACL on both hosts, one the firewall theorems apply to |
| `Deployment.OpenNetworkExists` | resources/libraries/python/overlay.py:157-215 | in every mode such networks exist, with distinct addresses, so the run theorems are about something |
| `Deployment.FilteredNetworkExists` | resources/libraries/python/conntrack.py:78-154 | the same with the stateful ACL and a protected endpoint |
| `Conntrack.GenerateFlowTrackProto` | resources/libraries/python/conntrack.py:27-76 | the flows of one port and VNI: fragments, then track, commit, established and reply per protocol and IP version |
| `Conntrack.AclSetupAllowProto` | resources/libraries/python/conntrack.py:78-124 | the ACL table is replaced by exactly the stateful table of the protocol, the rest stays |
| `Conntrack.DropInbound` | resources/libraries/python/conntrack.py:143-153 | adds exactly the drop flows for new and for invalid packets to an address, for both IP versions |
| `Conntrack.AclInstalled` | resources/libraries/python/conntrack.py:78-124 | swapping the ACL table keeps the rest of a deployment in place |
| `Conntrack.OriginateInstalled` | resources/libraries/python/conntrack.py:126-154 | adding the drop flows to an installed stateful ACL gives the installed ACL of a host with a protected endpoint |
| `Conntrack.AllowProtoAre` | resources/libraries/python/conntrack.py:90-124 | a flow is in the stateful table iff it is one of the four fixed ones or belongs to a VNI's interface or trunk port |
| `Conntrack.HostAclShaped` | resources/libraries/python/conntrack.py:27-154 | these tables are of the kind tenant isolation allows |
| `AclVerdicts.VerdictRecords` | resources/libraries/python/conntrack.py:57-76 | a packet adds at most its own connection, in its own zone, and nothing is forgotten |
| `AclVerdicts.GuardedVerdict` | resources/libraries/python/conntrack.py:144-152 | towards the protected address nothing is recorded and only packets of recorded connections pass |
| `AclVerdicts.ReplyAdmitted` | resources/libraries/python/conntrack.py:68-76 | a reply on a recorded connection passes, to the protected address too |
| `AclVerdicts.ContinuationAdmitted` | resources/libraries/python/conntrack.py:68-71 | further packets of an answered connection pass and change nothing |
| `AclVerdicts.OpeningAdmitted` | resources/libraries/python/conntrack.py:64-67 | the first packet of a connection passes and is recorded, unless it goes to the protected address |
| `AclDecision.AclDecides` | resources/libraries/python/conntrack.py:27-154 | for every packet on a port listed for its VNI the table decides and records what a stateful firewall for one protocol does: address resolution, answers, continuations and openings pass; invalid packets, other protocols and openings towards the protected address do not |
| `AclDecision.UnlistedStopped` | resources/libraries/python/conntrack.py:27-124 | on a port and in a zone that belong to no VNI of the host everything but address resolution is dropped and nothing is recorded |
| `Firewall.ZoneOfReg0` | resources/libraries/python/conntrack.py:35-43 | the zone a VNI's packets are tracked in is the VNI iff that is below 65536 |
| `Firewall.ZoneSeparation` | resources/libraries/python/conntrack.py:35-43 | over every run a connection in zone z was opened by a frame of its protocol, IP version and addresses from VNI z, so equal 5-tuples on two VNIs never share state |
| `Firewall.AllowOriginateSafe` | resources/libraries/python/conntrack.py:126-154 | over every run of honest senders with traffic of both IP versions: what is delivered under the protected address on its host answers a frame the endpoint sent, of the same protocol and IP version, on the same VNI |
| `Replies.FrameDelivered` | resources/libraries/python/conntrack.py:57-76 | over every run of honest senders with distinct addresses, a frame from the wire is delivered to the interface it is addressed to iff the firewall of its host lets it through |
| `Replies.FrameSent` | resources/libraries/python/conntrack.py:57-76 | the same senders: as soon as it is sent a frame is delivered to the guest of the same host it is addressed to, or on the wire to the other host, iff the firewall lets it through |
| `Replies.AnswersDelivered` | resources/libraries/python/conntrack.py:64-76 | once an interface has sent an opening frame, frames against it that are addressed to it and come in from the wire are delivered to it |
| `Replies.LocalAnswersDelivered` | resources/libraries/python/conntrack.py:64-76 | and so are those another guest of its host sends |
| `Replies.AnswerMarks` | resources/libraries/python/conntrack.py:68-76 | an answer that arrives marks its connection answered on the host |
| `Replies.ContinuationSent` | resources/libraries/python/conntrack.py:68-71 | once a connection was answered on a host, all further frames along it that a guest sends there get on their way |
| `Replies.ContinuationDelivered` | resources/libraries/python/conntrack.py:68-71 | and all that arrive there are delivered to the interface they are addressed to |
| `NatParser.ScanValue` | resources/libraries/python/nat.py:292-300 | the character loop stops past the first comma or closing parenthesis, or at the end |
| `NatParser.ParseKvMethod` | resources/libraries/python/nat.py:278-321 | the loop with its recursion on slices computes what the cursor specification says; None is the index error after a final '=' |
| `NatParser.ParseSuffix` | resources/libraries/python/nat.py:284-290 | parsing a slice on its own is parsing from its position, with positions counted from there |
| `NatParser.ParserTotal` | resources/libraries/python/nat.py:278-321 | on input not ending in '=' the parser returns, with a cursor within the input |
| `NatParser.ParseFailsOnBareKey` | resources/libraries/python/nat.py:284-285 | a key with nothing behind its '=' is an index error |
| `NatParser.WithKeyIs` | resources/libraries/python/nat.py:291-302 | a value replaces the one its key had, in its place, and a new key comes last |
| `NatReading.ParserFailsIff` | resources/libraries/python/nat.py:278-321 | the index error occurs iff reading the items one after the other, with only the number of open groups kept, meets a key with nothing behind its '=' |
| `NatReading.NestedIsFlat` | resources/libraries/python/nat.py:284-312 | the recursion reads the same keys as a scan that keeps only the number of open groups |
| `NatReading.LineKeys` | resources/libraries/python/nat.py:278-321 | the keys read from a printed line are the tree's keys iff every item may precede the next |
| `NatReading.RoundTrip` | resources/libraries/python/nat.py:278-321 | parsing a printed tree and a newline always returns, and gives back the tree iff its keys are distinct per level, its texts plain, every group before another item ends in an atomic value, and no key after an atomic item begins with a comma |
| `NatPrinter.GroupRoundTrip` | resources/libraries/python/nat.py:285-303 | parsing a group's body, its ')' and any suffix gives back the group and stops just past the ')' |
| `NatNested.GroupEndSwallows` | resources/libraries/python/nat.py:285-292 | an item after a group that ends in a group is read into that group, under a key beginning with the ')' left over |
| `NatNested.NestedLinePrinted` | resources/libraries/python/nat.py:278-321 | the line of the previous row is the printed form of another tree, which the condition of `NatReading.RoundTrip` rules out |
| `NatConns.ParseOneLine` | resources/libraries/python/nat.py:327-333 | a line's protocol is what precedes the first comma, its keys what follows |
| `NatConns.NoComma` | resources/libraries/python/nat.py:327-333 | on a line without a comma the search's -1 makes the protocol all but the last character, and the keys those of the whole line |
| `NatConns.ParseConns` | resources/libraries/python/nat.py:323-337 | all lines of a dump in order; one bad line fails the whole dump |
| `NatConns.DumpRoundTrip` | resources/libraries/python/nat.py:323-337 | a printed dump reads back connection by connection, each with its keys and protocol |
| `Topology.LoadCpus` | resources/libraries/python/topology.py:124-125 | each core is appended to the node at the position of its node number; fails iff there is none |
| `Topology.ShareMemory` | resources/libraries/python/topology.py:177-190 | each node gives the socket memory, or all it has counts as nothing |
| `Topology.TakePmdCpus` | resources/libraries/python/topology.py:193-218 | each node with memory gives its first cores and their bits are set; fails iff a node has too few |
| `Topology.PlaceVms` | resources/libraries/python/topology.py:261-308 | one node's guests, with their cores, memory, ports and addresses, in closed form |
| `Topology.SetupSut` | resources/libraries/python/topology.py:101-308 | the division of a host's cores and memory, its guests' ports and addresses, its uplink node and its tunnel endpoint equal the specification, errors included |
| `Allocation.LoadSucceedsIff` | resources/libraries/python/topology.py:101-127 | the nodes can be collected iff every node has huge pages, no core names a higher node than the last, and core 0 is on node 0 |
| `Allocation.AddCpusGroups` | resources/libraries/python/topology.py:124-125 | each node holds, in order, exactly the cores listed with its number |
| `Allocation.CpuPartition` | resources/libraries/python/topology.py:193-270 | every core but core 0 is in exactly one of the switch's mask, one guest, or the cores left over; no other bit is set |
| `Allocation.MemoryConserved` | resources/libraries/python/topology.py:177-269 | a node's memory is the switch's share, its guests' and the rest; a node too small for the switch gives its memory up |
| `Allocation.GreedyExact` | resources/libraries/python/topology.py:256-270 | exactly min(2, memory / guest memory, cores / guest cores) guests are placed on what the switch leaves |
| `Allocation.CoresInOrder` | resources/libraries/python/topology.py:193-270 | a node's cores in listed order are the switch's, whose bits are set, then each guest's, then those left over; guests have the cores and the memory they are set to, at least a huge page |
| `Allocation.NoRoomLeft` | resources/libraries/python/topology.py:256-270 | a node has two guests, or not the memory or the cores for another |
| `Allocation.PortsAreConsecutive` | resources/libraries/python/topology.py:289-305 | the host's guest interfaces carry ports 11, 12, ... in order |
| `Allocation.SetupGuests` | resources/libraries/python/topology.py:256-308 | every set-up that succeeds gives its guests' interfaces ports from 11 on without a gap, all distinct, as the networks above need |
| `Allocation.PortsClearIff` | resources/libraries/python/topology.py:289-305 | they avoid the tunnel numbers iff there are at most 89 of them |
| `Allocation.SmallHostsClear` | resources/libraries/python/topology.py:256-308 | up to 22 NUMA nodes they do |
| `Allocation.IdentitiesDistinct` | resources/libraries/python/topology.py:276-292 | MAC, IPv4 and IPv6 addresses identify host and interface; networks coincide iff the index on the guest does |
| `Allocation.IdentityBytes` | resources/libraries/python/topology.py:276-292 | the addresses byte by byte: 00:00:00:host:guest:interface and 172.(168 + interface).host.guest |
| `Allocation.AddressableIff` | resources/libraries/python/topology.py:276-292 | the addresses can be written iff there is no guest, or the numbers of host and guests fit a byte |
| `Allocation.EndpointIs` | resources/libraries/python/topology.py:169-172 | the tunnel endpoint is 10.111.0.2 plus the host's number, as long as that is a host address |
| `Allocation.PnicNodeIs` | resources/libraries/python/topology.py:129-148 | uplinks are accepted iff no node other than 0 is followed by a different one; the node found is the last uplink's |
| `Topology.FindPnicNode` | resources/libraries/python/topology.py:129-148 | the loop over the uplinks computes that |
| `Pal.FileDep` | resources/libraries/python/pal.py:235-242 | finds the source's entry or opens it at the end, and files the destination there by locality |
| `Pal.TakenAre` | resources/libraries/python/pal.py:271-287 | the conditions under which the loops pass over a host or a guest leave exactly the interfaces of the asked locality |
| `Pal.VerifyTopologyGet` | resources/libraries/python/pal.py:244-311 | for any criteria the three loops sort the interfaces of the asked locality as the specification says; fails iff there is no source, a card's node is asked for, or a subnet to compare is missing |
| `Pal.SourceFirst` | resources/libraries/python/pal.py:251-266 | the source is the very first interface of all |
| `Reachability.SearchLists` | resources/libraries/python/pal.py:289-309 | a pair is listed iff its interface is another one on the source's IPv4 network, at that locality and within the criteria: as allowed on the same VNI, as denied on another |
| `Reachability.NoSource` | resources/libraries/python/pal.py:251-266 | there is no source iff there is no host, no guest on the first, no interface on that guest, or its place is asked for relative to a card; with the error each raises |
| `Reachability.SearchFailsIff` | resources/libraries/python/pal.py:271-294 | given a source, the search fails iff a guest of the asked locality has to be compared with a card's node, or an interface in scope has no address to compare subnets with |
| `Pal.VerifyTopology.ChangeAllowToDeny` | resources/libraries/python/pal.py:386-396 | moves all allowed entries to the denied ones; fails iff there is none |
| `Pal.VerifyTopology.ChangeDenyToAllow` | resources/libraries/python/pal.py:398-408 | the same in the other direction |
| `Pal.OracleStep` | resources/libraries/python/pal.py:289-309 | considering one more interface extends the answer for those before it |
| `Reachability.OracleSortsOnce` | resources/libraries/python/pal.py:271-309 | every other interface of the source's subnet is listed exactly once, under its verdict and its locality, and nothing else is |
| `Reachability.AllowOriginate` | resources/libraries/python/pal.py:313-347 | keeps the first allowed entry and denies its pairs turned around |
| `Reachability.AclSetupAllowOriginate` | resources/libraries/python/conntrack.py:126-155 | selects the endpoint from the oracle's answer and adds exactly the drop flows for its address; fails, leaving the tables alone, iff nothing is allowed |
| `Reachability.OriginateFlips` | resources/libraries/python/pal.py:327-345 | the denied pairs are exactly the allowed ones turned around, at the same locality |
| `Reachability.OracleAgrees` | resources/libraries/python/pal.py:271-309 | after every run of honest senders, with an empty wire, a frame from the source has reached an interface iff the oracle allows the pair, and has not iff it denies it |
| `Reachability.DeniedNeverReached` | resources/libraries/python/pal.py:297-300 | over every run, with any addresses, nothing the source sends reaches a denied interface |
| `EndToEnd.NeverAcrossNodes` | resources/libraries/python/vm.py:84 | two guests' interfaces are on the same node exactly when they are on the same host |
| `EndToEnd.MachinesDistinct` | resources/libraries/python/topology.py:287-292 | machines with different numbers give all guests' interfaces different hardware addresses |
| `EndToEnd.Predict` | resources/libraries/python/pal.py:244-311 | from two machines to a native, vlan or qinq network and the oracle's answer about all its guests, on which `EndToEnd.PredictionHolds` applies |
| `EndToEnd.PredictTunnels` | resources/libraries/python/pal.py:244-311 | the same with tunnels |
| `EndToEnd.PredictionHolds` | resources/libraries/python/pal.py:271-309 | what that answer allows and denies is what happens, after every run of honest senders |
| `NatVms.ConfigureVms` | resources/libraries/python/nat.py:112-166 | trims the topology to its first entry and saves and replaces its endpoints' addresses in order; fails iff there is no entry or too few addresses |
| `NatVms.RestoreVms` | resources/libraries/python/nat.py:168-183 | gives the endpoints of the first entry what they saved |
| `NatVms.RestoreUndoesConfigure` | resources/libraries/python/nat.py:112-183 | restoring after configuring is the identity iff no interface takes part twice |
| `NatVms.LentInPlace` | resources/libraries/python/nat.py:132-160 | in between the source holds 172.10.0.100 and the destinations 192.200.0.100 and up in order, each has its own address saved, and nobody else changed |
| `NatVms.LentAddresses` | resources/libraries/python/nat.py:41-59 | lent addresses are distinct, within their network, and none of the translation pool's or the router's |
| `NatVms.LentSides` | resources/libraries/python/nat.py:133-162 | the source's address is on the client network and the destinations' are on the network of the translation pool |
| `NatVms.EnoughIff` | resources/libraries/python/nat.py:158-162 | addresses run out exactly when the last one would leave its network |
| `NatVms.UsedParts` | resources/libraries/python/nat.py:112-166 | the endpoints in order: the source, then the destinations on its node, on other nodes, on other hosts |
| `NatVms.NatRoundTrip` | resources/libraries/python/nat.py:112-183 | on the oracle's entries configure then restore is the identity |
| `NatVms.LendAndReturn` | resources/libraries/python/nat.py:112-183 | asking the oracle, configuring and restoring in sequence leaves every interface as it was; in between exactly the first entry's endpoints hold lent addresses; it fails iff nothing is allowed or addresses run out |
| `EndToEnd.LendOnHosts` | resources/libraries/python/nat.py:112-183 | the hosts set up from two machines meet what that needs |

## Left out

- More than two hosts: with the remote address set by the flow only the last of several addresses
  survives, so the suite's tables reach one peer; the loops over hosts are modelled one host at a time.
- Loss, duplication and forgery on the wire, and frames longer than a link allows.
- Expiry: learned entries and tracked connections are never forgotten during a run, and the tables
  do not change during it.
- VNIs as strings: the source stores them as text and adds 100 to them as numbers; they are numbers here.
- A tunnel port with a fixed key is assumed to show that key as the packet's tunnel id.
- IPv6 fragments: a later fragment matches the fragment flow and is tracked like a packet of its
  header's tuple; reassembly inside the datapath is not modelled.
- ICMP identifiers stand in the port fields of a tuple; related connections are not modelled.
- Bonds, several uplinks in one bridge, uplink binding, MTU, and starting and stopping the switch.
- The commands that carry flows, ports and addresses to the hosts, and the text form of flows.
- The NAT flow tables, whose rules of equal priority overlap, and address selection inside the datapath.
- `verify_topology_select_pair`, which picks one of the oracle's pairs.
- Test drivers and log scraping, guest images and their consoles.
- Topology.SetupSut: interfaces are handed out as values (port, MAC, addresses), as `Assembly.MakeVifs`
  turns them into objects; names, sockets and scripts of guests, and the text
  of the memory option given to the switch, are not modelled.
