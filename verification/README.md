# P4Runtime tunnel controller: a Dafny model

`mycontroller.py` is the control plane of a three-switch tunnelling exercise.
Three switches `s1`, `s2` and `s3` form a full mesh, and host `hN` sits behind port 1 of switch `sN`. The controller:

- empties the three link log files `S1S2.txt`, `S1S3.txt` and `S2S3.txt`;
- opens a P4Runtime session to each switch, claims mastership and loads the P4 program;
- writes 21 table entries. These are one local-delivery rule per switch, plus, for each of the six directed switch pairs, a tunnel ingress rule and a transit rule on the source and an egress rule on the destination;
- then polls the ingress and egress tunnel counters forever. For each directed tunnel it appends two lines to the log file of the physical link the tunnel runs over.

The model covers these parts:

- the constants of the topology;
- the four rule builders;
- the install sequence and the tables it leaves on each switch;
- the counter read with its zero fallback;
- the per-tunnel logging routine;
- log truncation and appending;
- one polling cycle, and runs of any number of cycles.

The modules, one per file:

- `Topology` (`topology.dfy`): switches, hosts, ports and tunnel ids, plus the list of the six directed tunnels in installation order.
- `Rules` (`rules.dfy`): the four rule builders.
  - `Interpret` reads an entry back as one of four rule kinds, so each builder has an independent partner.
  - `Build` chooses the builder for a rule kind.
- `Provisioning` (`provisioning.dfy`): the install sequence, written exactly as `main` issues it (`InstallPlan`), and a reference definition derived from the topology (`DerivedPlan`).
  - The two are proved equal.
  - The install sequence is proved free of (table, key) collisions.
  - Its rule counts are proved.
- `SwitchTables` (`tables.dfy`): table-entry writes append to a per-switch rule list, and lookups return the first rule under a (table, key) pair. The module proves what every tunnel resolves to and each switch's key sets.
- `Telemetry` (`telemetry.dfy`): counter reads. The switch's answer is an oracle: a stream of responses that may end by raising.
- `ObservationLog` (`logs.dfy`): log files as a map from file name to lines. A missing file reads as empty, because appending creates it.
- `Polling` (`polling.dfy`): `process_link_counters`, the six-call polling cycle, and the per-file effect of a cycle.
- `Controller` (`controller.dfy`): the startup as a trace of events, the logs right after startup, and runs of many cycles.

Parameters stand in for the environment:

- The switches' answers to counter reads are a function from (switch, counter, index) to a response stream.
- The wall clock is a function from the number of the call within a cycle to a timestamp.

## Model

| member | source | states |
|---|---|---|
| Topology.TunnelsWellFormed | mycontroller.py:27-33 | The six tunnel ids are pairwise distinct, and no two tunnels join the same ordered pair of switches. |
| Topology.TunnelIds | mycontroller.py:27-33 | In installation order the tunnel ids are 100, 101, 200, 201, 300, 301. |
| Topology.TunnelsByDirection | mycontroller.py:234-265 | Each of the six tunnels joins two distinct switches. It carries the id the constants assign to its direction, and the ids ascend. |
| Topology.TunnelIndex | mycontroller.py:234-265 | Every ordered pair of distinct switches has its tunnel, with that direction's id, in the list. |
| Topology.TunnelIdInjective | mycontroller.py:27-33 | Two directed switch pairs share a tunnel id only if they are the same pair. |
| Topology.HostAddressesDistinct | mycontroller.py:19-25 | Two hosts have the same IP address, and likewise the same MAC address, exactly when they are the same host. |
| Topology.PortTowardInjective | mycontroller.py:35-46 | A switch's ports toward its two neighbours differ. |
| Topology.PortToward | mycontroller.py:35-46 | A port toward a neighbouring switch is never the switch's host port. |
| Topology.SwitchIdentitiesDistinct | mycontroller.py:191-206 | The three switch connections have pairwise distinct names, device ids and gRPC addresses. |
| Rules.L3ForwardRule | mycontroller.py:49-64 | A local-delivery rule goes in the IPv4 LPM table, with a /32 match on the destination address and the ipv4_forward action. |
| Rules.TunnelIngressRule | mycontroller.py:66-80 | An ingress rule goes in the IPv4 LPM table, with a /32 match on the destination address and the myTunnel_ingress action. |
| Rules.TunnelTransitRule | mycontroller.py:82-97 | A transit rule goes in the tunnel exact table, keyed on the tunnel id, with the myTunnel_forward action. |
| Rules.TunnelEgressRule | mycontroller.py:99-114 | An egress rule goes in the tunnel exact table, keyed on the tunnel id, with the myTunnel_egress action. |
| Rules.TableNameInjective | mycontroller.py:49-114 | The two tables the builders target have different P4 names, so the symbolic table identifies its name. |
| Rules.ActionNameInjective | mycontroller.py:49-114 | The four actions the builders use have pairwise different P4 names, so the symbolic action identifies its name. |
| Rules.BuildersReadBack | mycontroller.py:49-114 | Each builder's entry reads back as its own rule kind, with the same address, id, MAC and port. No parameter is dropped or swapped. |
| Rules.Build | mycontroller.py:49-114 | Encoding any rule kind with its builder, then reading the entry back, yields the same rule kind. |
| Rules.InterpretBuild | mycontroller.py:49-114 | Every entry that reads as a rule kind is exactly what that kind's builder writes: the same table, key, action and parameter map. |
| Rules.BuildInjective | mycontroller.py:49-114 | Two rule kinds encode to the same entry if and only if they are equal. |
| Rules.BuildTable | mycontroller.py:53-57 | Local and ingress rules target the LPM table keyed on the host address. Transit and egress rules target the exact table keyed on the tunnel id. |
| Provisioning.InstallPlanIsDerived | mycontroller.py:229-265 | The 21 literal writes of `main` are, in order, each switch's local delivery followed by each tunnel's ingress, transit and egress rules. |
| Provisioning.TunnelPlanLayout | mycontroller.py:234-265 | Tunnel k's three writes occupy positions 3k to 3k+2 of the tunnel part. |
| Provisioning.TunnelPlanMembers | mycontroller.py:234-265 | A write belongs to the tunnel part exactly when it is one of some tunnel's three writes. |
| Provisioning.TunnelPlanAppend | mycontroller.py:234-265 | Deriving the rules of two tunnel lists in turn gives the rules of their concatenation. |
| Provisioning.TunnelEntryShape | mycontroller.py:236-238 | Of a tunnel's writes, the LPM one is on the source and matches the destination host's address. The exact-table ones match the tunnel id. |
| Provisioning.LocalEntryShape | mycontroller.py:229-232 | Every local-delivery write matches its own switch's host address in the LPM table. |
| Provisioning.DistinctTunnelsCrossFree | mycontroller.py:234-265 | Two different tunnels never write the same (table, key) to one switch. |
| Provisioning.TunnelPlanNoKeyCollision | mycontroller.py:234-265 | Well-formed tunnels write no two rules with the same (table, key) to one switch. |
| Provisioning.LocalTunnelCrossFree | mycontroller.py:229-265 | No local-delivery write collides with a tunnel write on the same switch. |
| Provisioning.InstallPlanNoKeyCollision | mycontroller.py:229-265 | The install sequence never writes two rules with the same table and match key to one switch. |
| Provisioning.TunnelEntriesCounts | mycontroller.py:234-238 | A tunnel contributes one rule for each tunnel action, all carrying its id, and no local-delivery rule. |
| Provisioning.TunnelPlanCounts | mycontroller.py:234-265 | With distinct ids, each id occurs in exactly one ingress rule, one transit rule and one egress rule. |
| Provisioning.InstallPlanCounts | mycontroller.py:229-265 | There are 21 writes: 3 local-delivery writes and 6 of each tunnel action. Each of the ids 100, 101, 200, 201, 300 and 301 has exactly one ingress, one transit and one egress rule, and no other id has any. |
| SwitchTables.WriteTableEntry | mycontroller.py:63 | A write appends the rule to its switch's list and leaves the other switches unchanged. |
| SwitchTables.ProvisionContents | mycontroller.py:229-265 | After the writes, each switch holds its earlier rules followed by the writes addressed to it, in order. |
| SwitchTables.RulesOnMembers | mycontroller.py:229-265 | A rule lands on a switch if and only if the sequence writes it to that switch. |
| SwitchTables.RulesOnDistinct | mycontroller.py:229-265 | A collision-free write sequence leaves every switch with distinct keys. |
| SwitchTables.Lookup | mycontroller.py:53-62 | A lookup returns an installed rule with the requested table and key. It finds nothing if and only if no installed rule has them. |
| SwitchTables.LookupFindsInstalled | mycontroller.py:229-265 | With distinct keys, looking up an installed rule's key returns that rule. |
| SwitchTables.LocalDeliveryResolves | mycontroller.py:229-232 | Every switch sends its own host's address out the host port, toward the host's MAC. |
| SwitchTables.TunnelResolves | mycontroller.py:234-265 | For every ordered pair S, T of distinct switches: S wraps packets for T's host in tunnel TunnelId(S, T) and sends them toward T. T unwraps that tunnel to its host's MAC on the host port. |
| SwitchTables.H1ToH3Example | mycontroller.py:246-249 | For h1 to h3, s1 wraps 10.0.3.3 in tunnel 200 and sends it on port 3. s3 unwraps tunnel 200 to 08:00:00:00:03:33 on port 1. |
| SwitchTables.LpmKeySet | mycontroller.py:229-265 | Each switch's LPM table matches exactly the three host addresses. |
| SwitchTables.TunnelKeySet | mycontroller.py:234-265 | Each switch's exact table matches exactly the ids of the tunnels that start or end at it. |
| SwitchTables.TunnelKeysBySwitch | mycontroller.py:234-265 | s1 matches ids 100, 101, 200 and 201. s2 matches 100, 101, 300 and 301. s3 matches 200, 201, 300 and 301. |
| Telemetry.FirstEntity | mycontroller.py:142-146 | The nested walk over responses and their entities finds an entry if and only if the responses hold one. What it finds is the first entry in arrival order. |
| Telemetry.CounterNameInjective | mycontroller.py:163-170 | The ingress and egress counters have different P4 names, so the symbolic counter identifies the name the read passes. |
| Telemetry.ReadCounter | mycontroller.py:138-150 | A read returns the first counter entry the switch yields. If it yields none, whether or not it raised, the read returns (0, 0). |
| Telemetry.ReadCounterStopsAtFirstEntry | mycontroller.py:143-146 | Once an entry has arrived, later responses and a later exception do not change the reading. |
| Telemetry.FailedReadIsZero | mycontroller.py:147-150 | A read that raises before any entry reads as (0, 0). |
| Telemetry.EntitiesAppend | mycontroller.py:143-144 | The entries of two response batches in turn are the first batch's entries followed by the second's. |
| ObservationLog.LogToFile | mycontroller.py:131-136 | Appending a line to a file puts it last, keeps the earlier lines and leaves every other modelled file unchanged. A missing file is created. |
| ObservationLog.Truncate | mycontroller.py:186-188 | Opening a file for writing leaves it existing and empty, and leaves every other file unchanged. |
| ObservationLog.AppendOnlyTransitive | mycontroller.py:131-136 | Two append-only steps in turn are append-only. |
| ObservationLog.LogToFileAppendOnly | mycontroller.py:131-136 | Appending a line is append-only: every file keeps its old lines as a prefix. |
| Polling.LinkLogPerLink | mycontroller.py:181-183 | Two directed pairs log to the same file if and only if they join the same two switches. |
| Polling.PollScheduleFollowsTunnels | mycontroller.py:277-287 | A cycle calls the per-link routine once per tunnel, in installation order. Each call uses the tunnel's own id and its link's file. |
| Polling.LinkLinesReadings | mycontroller.py:152-174 | The routine logs two lines with one timestamp and the tunnel id. First comes the source's ingress packet count, as "sent", then the destination's egress packet count, as "received". Each count is the read's first entry, or 0. |
| Polling.LinkLinesIgnoreBytes | mycontroller.py:163-172 | Byte counts never reach the file: oracles that agree on packet counts log the same lines. |
| Polling.ProcessLinkCounters | mycontroller.py:152-174 | One call appends exactly its two lines to its file, changes no other modelled file, and only appends. |
| Polling.ProcessLinkCountersFile | mycontroller.py:152-174 | A call adds its two lines to its own file and nothing to any other file. |
| Polling.PollLinksContents | mycontroller.py:277-287 | Running calls in order appends to each file exactly the lines of the calls that target it, in call order. |
| Polling.PollLinksAppendOnly | mycontroller.py:277-287 | Running calls in order only appends. |
| Polling.CycleLinkLines | mycontroller.py:277-287 | Within a cycle, only the two directions of a link write to that link's file. |
| Polling.PollCycleLinkFile | mycontroller.py:277-287 | In one cycle, a link's file gains the four lines of that link's two directions. |
| Polling.PollCycleOtherFile | mycontroller.py:277-287 | A cycle leaves every modelled file that is not a link log unchanged. |
| Polling.PollCycleContents | mycontroller.py:277-287 | One cycle appends to S1S2.txt the lines of s1→s2 and then s2→s1, and likewise for S1S3.txt and S2S3.txt. No other modelled file changes, and nothing is overwritten. |
| Polling.FailingReadsDoNotStall | mycontroller.py:138-150 | When every read fails, a cycle still adds four lines to each link file, all with zero packets. |
| Controller.TruncationsComeFirst | mycontroller.py:185-188 | Startup first empties the three log files, and nothing later truncates a file. |
| Controller.PipelineBeforeRules | mycontroller.py:190-226 | On every switch the session opens before mastership is claimed, mastership comes before the program is loaded, and the program is loaded before any rule is written. |
| Controller.StartupWritesPlan | mycontroller.py:229-265 | Startup's rule writes are the install sequence, in order, after the 12 setup steps. |
| Controller.StartupReplay | mycontroller.py:181-188 | Replaying startup leaves the three link logs existing and empty, and every other modelled file as it was. |
| Controller.StartLogs | mycontroller.py:181-188 | Right after startup, the three link logs exist and are empty, and every other modelled file is as found. |
| Controller.PollCyclesAppend | mycontroller.py:273-287 | Running two batches of cycles in turn is running their concatenation. |
| Controller.PollCyclesAppendOnly | mycontroller.py:273-287 | Any number of cycles only appends. |
| Controller.PollCyclesLinkGrowth | mycontroller.py:273-287 | Every cycle adds exactly four lines to each link file. |
| Controller.PollCyclesOtherFile | mycontroller.py:273-287 | No cycle touches a modelled file that is not a link log. |
| Controller.PollCyclesGrowth | mycontroller.py:273-287 | Polling only appends. Each link file gains four lines per cycle, and other modelled files never change. |
| Controller.RunLogs | mycontroller.py:181-188 | After n cycles, each link file holds exactly 4·n lines, with nothing left from before startup, and it extends its contents from right after startup. |
| Controller.RunOnlyAppends | mycontroller.py:273-287 | From any point of a run to any later point, every file keeps its old lines as a prefix. |

## Left out

- P4Runtime sessions, gRPC, and the resolution of table, action and counter names to P4Info ids: tables, actions and counters stay symbolic. `TableName`, `ActionName` and `CounterFullName` give the source's strings, and the model proves them injective.
- `readTableRules` (lines 117-129): it is commented out in `main` and only prints.
- Console output, including the per-tunnel console messages and the stderr message of a failed read. They do not affect state.
- The text of a log line. A line is kept as a record: timestamp, switch name, sent or received, packet count, tunnel id. Its wording and UTF-8 encoding are not modelled.
- `datetime.now()`: timestamps come from a clock parameter.
- `sleep(2)` between cycles, the endless loop, and the exits on `KeyboardInterrupt` and `grpc.RpcError`. A run is a finite sequence of cycles, and an RPC failure outside a counter read is not modelled.
- `proto_dump_file`: the three request-dump files `logs/s1-p4runtime-requests.txt` to `logs/s3-p4runtime-requests.txt` are not part of `Files`. The connections write to them as requests are sent, including every counter read of every cycle. Claims that other files stay unchanged are about the files the model tracks.
- File-system errors in `log_to_file` (lines 135-136) and in the truncations (lines 186-188). Nothing catches such an `OSError`, so it ends the controller without `ShutdownAllSwitchConnections()`. Cycles cut short by such an error or by an interrupt are also left out. A real log file can end mid-cycle, even on a lone "sent" line. A run here is whole cycles only, and `Controller.RunLogs`' count of 4·n lines rests on that.
- `ShutdownAllSwitchConnections`, and the command-line parsing with its file-existence checks (lines 296-314).
- The data-plane behaviour of the P4 program. Resolution is stated as table lookups returning the installed rule, not as packet forwarding.
- Rules.L3ForwardRule: its own ensures state only table, key and action. The parameter round trip through `Interpret` is in `Rules.BuildersReadBack`, which keeps proofs over the literal install sequence small.
- Rules.TunnelIngressRule: its own ensures state only table, key and action. The parameter round trip through `Interpret` is in `Rules.BuildersReadBack`, which keeps proofs over the literal install sequence small.
- Rules.TunnelTransitRule: its own ensures state only table, key and action. The parameter round trip through `Interpret` is in `Rules.BuildersReadBack`, which keeps proofs over the literal install sequence small.
- Rules.TunnelEgressRule: its own ensures state only table, key and action. The parameter round trip through `Interpret` is in `Rules.BuildersReadBack`, which keeps proofs over the literal install sequence small.
