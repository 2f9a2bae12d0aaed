# Verified models of the OpenWrt monitoring stack

This project models the parts of the monitoring repository that compute something: the functions
that generate PromQL and SQL, the OUI table compiler, the dashboard layout code, and the parsers
and shell fragments of the management server and the installer. Each model follows the branches of
the code it is named after, and the lemmas state what the code is for, for all inputs.

## How the model is built

**PromQL.** `PromQL` is an abstract syntax and an evaluator over instant vectors (a map from label
sets to values). It follows the Prometheus documentation, "Operators": set operators, `on` and
`group_left` matching, aggregation, and `label_replace` with anchored patterns. Evaluation fails on
many-to-many matches and on duplicate label sets. `PromText` reads tokens with the documented operator
precedence. Query builders are modelled twice, as trees (`TopologyQueries`) and as token texts
(`TopologyText`); the texts are proved to parse to the trees, and the trees to have the intended
values. Rated counters are an input of the evaluator, and so is the interpretation of `$router`.

**Topology.** `Reconciliation`, `Throughput`, `Topology`, `TopologyLinks`, `TopologyChecks` and
`TopologyIds` cover the two node-graph queries and their data-quality stats; `TopologyCollector` and
`TopologyExport` model the exporter side: what one collection emits, and that its snapshots are closed. The same reconciliation is repeated in
`scripts/build_openwrt_mission_control.py`, lines 837-892, where `with_traffic` is `overlay_traffic`, so the
results hold there as well. `WellShaped` states what the exporters guarantee of the series: authority is
0 or 1, ids and endpoints are present, node series carry no `source` or `target`, infra series carry neither
`id` nor `target`, and rated series carry no `mac`. All but the last is proved of the collector.

**Everything else.** `WifiSources`, `OffloadGuard`, `MacLowercase` and `WifiSignal` are further query builders on the same
evaluator. `OuiTable`, `OuiRender` and `OuiPipeline` cover the vendor table from rows to lookups. `GridLayout`,
`DashboardTree`, `DashboardRun` and `DashboardGrid` cover the layout validator, the builder object, the reference
collector and the check of the layout that was written.
`FlowPivot`, `FlowPairs`, `FlowGraph` and `FlowCut` cover the flow dashboards over sequences of flow records. `ShellQuote`, `ServerCommands`, `Profiles`,
`Redaction` and `RouterInventory` cover the management server; `RouterTargets` the target file of the
metrics collector; `Crontab` the installer's scheduled jobs. `Strings`, `Policy`, `JsonTree`, `JsonText`,
`SetSizes`, `SeqLaws` and `Wrappers` are shared.

Code that loops and updates variables is a method with loop invariants proved against a
specification function; objects that change their fields are classes (`Snapshot`, `DashboardBuilder`,
`TargetFile`, `CrontabFile`).

## What the proofs show about the code

Some properties the code is meant to have hold only under a condition. The code is modelled as it is,
and the exact condition is proved.

- A device with two `openwrt_device_info` series makes both node-graph frames fail
  (`FramesFailTogether`), not only the join that uses it. Two routers that know a device by the same host
  name are enough (`SharedPhoneFails`).
- Stat 202 reads 0 if and only if no surviving edge starts at a suppressed router's own client entry.
  The reconciliation drops edges by target only; targets always resolve.
- Stat 201 counts first-hand ids only. While an authoritative exporter is down, two placeholders of one id
  are both rendered although the stat reads 0 (`PlaceholdersCollide`).
- The vendor rule `qingdao intelligent` stands behind `intel` and is never used (`QingdaoIsNeverUsed`); a rule is
  used exactly when no earlier pattern occurs in its own (`RuleIsUsed`).
- Two vendor rules with one display name and different icons would lose one icon (`SecondIconIsLost`); the
  table keeps the least. The shipped rules give each display name one icon, and then nothing is lost.
- The node and the edge query of the flow graph are evaluated separately, so the comment that every
  endpoint exists holds exactly under the condition of `SeparateQueriesExactly`; with 61 pairs of equal weight
  edges can dangle (`TieDangles`).
- The lowercasing chain fails the query if and only if two series differ only in the label's case. For the
  signal query that concerns the Wi-Fi series alone (`SignalMeaning`, `TwoSpellingsFail`); the collector
  configuration lowercases both labels at ingest (`alloy/config.alloy`, lines 74-95), so it can only happen
  with data stored before that.
- The heatmap's columns add up exactly when its edges never descend, as the shipped ones do
  (`HeatmapConserves`).
- The layout check keeps one tab per title, so it is complete because titles are distinct (`ValidateTabs`).
- `validate_host` refuses an empty label between two others, not at the ends: `.` and `.lan` pass
  (`HostAccepted`).
- A crontab whose last line lacks a newline has that line glued to the first added one
  (`ConvergesExactly`, `UnfinishedCrontabFails`).
- The installer knows the profile `netflow`; the server does not (`NormalFormsAreInstallable`).
- A host with a colon does not survive printing as `host:port` (`HostPortRoundTrip`).
- A secret that can overlap `[redacted]`, or end within the truncation notice, shows in some output
  (`ExactlyTheSafeSecrets`); without brackets and line breaks that means being part of `redacted` or `truncated`
  (`CleanSecrets`).

## Model

| member | source | states |
|---|---|---|
| `Reconciliation.EvalPrefer` | scripts/build_openwrt_topology_dashboard.py:125-135 | On every scrape, the query text of `prefer_authority` evaluates to the series with authority 1, plus those with authority 0 whose id no authority-1 series carries; nothing else, with unchanged values |
| `Reconciliation.SeriesRead` | scripts/build_openwrt_topology_dashboard.py:112-150 | The queries read exactly the series of the five named metrics that carry the job `openwrt` and a selected router |
| `Reconciliation.EvalInfraAs` | scripts/build_openwrt_topology_dashboard.py:138-140 | `infra_as(label)` never hits a duplicate-label error and carries a value x in `label` exactly when x is `client:` plus the MAC of some infra series |
| `Reconciliation.EvalAssocAsLan` | scripts/build_openwrt_topology_dashboard.py:173-181 | The relabelled association edges never collide, and carry the id `lan:m` exactly for the m with an `assoc:m` edge |
| `Reconciliation.NodesReconciled` | scripts/build_openwrt_topology_dashboard.py:168-170 | The reconciled node operand evaluates, without a matching error, to the preferred node series whose id is not a suppressed client |
| `Reconciliation.EdgesReconciled` | scripts/build_openwrt_topology_dashboard.py:173-185 | The reconciled edge operand evaluates, without a matching error, to the preferred edge series that are neither superseded by an association nor lead to a suppressed client |
| `Throughput.TrafficByMacMeaning` | scripts/build_openwrt_topology_dashboard.py:147-150 | `TRAFFIC_BY_MAC` evaluates without error if and only if no rate meets a device with two `openwrt_device_info` series; then it gives every client the sum of its devices' rates times their identities, and the totals sum to all of these |
| `Throughput.RatesConserved` | scripts/build_openwrt_topology_dashboard.py:147-150 | When every identity has the value 1, as the exporter writes it, the per-MAC totals are sums of the rates themselves and add up to the rates of all devices with an identity |
| `Throughput.EvalTrafficAs` | scripts/build_openwrt_topology_dashboard.py:153-154 | `traffic_as(prefix)` turns the per-MAC totals into one sample per id `prefix:mac`; the relabelling never collides and the regrouping changes no value |
| `Throughput.LinkValues` | scripts/build_openwrt_topology_dashboard.py:153-154 | Looked up by id, `traffic_as(prefix)` gives every `prefix:mac` that client's total and every other id 0 |
| `Throughput.TwoLinkValues` | scripts/build_openwrt_topology_dashboard.py:185 | `lan` and `assoc` throughput combined by `or`: each edge id reads the sum of what the two vectors hold for it, and no id occurs twice |
| `VectorLaws.OverlayTotal` | scripts/build_openwrt_topology_dashboard.py:157-165 | The overlay fails if and only if two series of the base coincide without their metric name, or the base has rows and two traffic samples share an id; otherwise its rows are exactly the rows of the base, each at its id's traffic or 0 |
| `Topology.OverlayRenders` | scripts/build_openwrt_topology_dashboard.py:157-165 | The text of `overlay_traffic` over any two operand expressions computes that overlay |
| `Topology.NodesRender` | scripts/build_openwrt_topology_dashboard.py:168-170 | With unique device info, `nodes_expr` renders every reconciled node once, at its client's throughput or 0 |
| `Topology.EdgesRender` | scripts/build_openwrt_topology_dashboard.py:173-185 | With unique device info, `edges_expr` renders every reconciled edge once, at its client's throughput or 0 |
| `Topology.FramesFailTogether` | scripts/build_openwrt_topology_dashboard.py:147-185 | Where any counter is rated, one device with two identities makes both frames fail, whatever else was scraped |
| `Topology.SharedPhoneFails` | scripts/build_openwrt_topology_dashboard.py:147-185 | A scrape of two routers that both export `device="phone"` once: both frames fail |
| `Topology.FramesRender` | scripts/build_openwrt_mission_control.py:837-892 | Both frames of the second copy of the reconciliation render together |
| `Topology.NodeIds` | scripts/build_openwrt_topology_dashboard.py:125-170 | No id is lost by preferring first-hand series: a raw id is shown unless it is a suppressed client |
| `Topology.EndpointResolves` | scripts/build_openwrt_topology_dashboard.py:173-185 | An endpoint of a rendered edge resolves to a rendered node if and only if it is not a suppressed client; a target always resolves |
| `Topology.NoDanglingTargets` | scripts/build_openwrt_topology_dashboard.py:173-184 | Every target of every rendered edge is the id of a rendered node |
| `Topology.NoDanglingSources` | scripts/build_openwrt_topology_dashboard.py:173-184 | Every source of every rendered edge resolves if and only if no surviving edge starts at a suppressed client |
| `TopologyLinks.LinkSurvives` | scripts/build_openwrt_topology_dashboard.py:173-184 | An edge id survives if and only if it exists, is not a guess contradicted by an association, and does not lead to a suppressed client |
| `TopologyLinks.OneLinkPerClient` | scripts/build_openwrt_topology_dashboard.py:174-184 | A shown client keeps its association if it has one and its wired link otherwise: never both, and never neither when it had a link; a suppressed client keeps none |
| `TopologyLinks.ReconcilingTwice` | scripts/build_openwrt_topology_dashboard.py:125-184 | Reconciling reconciled frames changes nothing |
| `TopologyLinks.NodeValue` | scripts/build_openwrt_topology_dashboard.py:168-170 | The value of a rendered node is the total of the client its id names, or 0 |
| `TopologyLinks.EdgeValue` | scripts/build_openwrt_topology_dashboard.py:185 | The value of a rendered edge is the total of the client its id names, or 0 |
| `TopologyLinks.ClientAndLinkAgree` | scripts/build_openwrt_topology_dashboard.py:147-185 | A client reads the same throughput on its node and on whichever link is rendered |
| `TopologyChecks.DanglingStatCounts` | scripts/build_openwrt_topology_dashboard.py:305-306 | Stats 202 and 203 count exactly the rendered edges whose endpoint resolves to no rendered node |
| `TopologyChecks.DanglingStatsReadZero` | scripts/build_openwrt_topology_dashboard.py:305-306 | Stat 203 always reads 0; stat 202 reads 0 if and only if no surviving edge starts at a suppressed client |
| `TopologyIds.CollidingStatReadsZero` | scripts/build_openwrt_topology_dashboard.py:304 | Stat 201 reads 0 if and only if no id is claimed first-hand twice |
| `TopologyIds.RenderedIdsUnique` | scripts/build_openwrt_topology_dashboard.py:304 | With stat 201 at 0, rendered node ids are unique if and only if no unclaimed id has two placeholders |
| `TopologyIds.RowsKeepIds` | scripts/build_openwrt_topology_dashboard.py:157-170 | The overlay neither creates nor removes id collisions |
| `TopologyIds.PlaceholdersCollide` | scripts/build_openwrt_topology_dashboard.py:304 | A scrape of two access points whose gateway is down: stat 201 reads 0 and two rendered nodes share an id |
| `TopologyCollector.Snapshot.AddNode` | openwrt/collectors/topology.lua:379-384 | Adds the node with its id and authority labels and remembers the id; edges stay as they are |
| `TopologyCollector.Snapshot.AddEdge` | openwrt/collectors/topology.lua:389-396 | Adds the edge, with the extra labels written over its own, if and only if both given endpoints are known ids; a closed snapshot stays closed exactly when the labels as written name known ids, so always when the extra labels leave source and target alone |
| `TopologyCollector.SnapshotsClose` | openwrt/collectors/topology.lua:386-396 | Closed snapshots of any number of routers, scraped together, give raw edges whose endpoints are all raw node ids |
| `TopologyCollector.StoredShape` | openwrt/collectors/topology.lua:379-396 | What sound snapshots leave in store has the shape the queries rely on, and no edge starts at a suppressed client |
| `TopologyCollector.SuppressedExactly` | openwrt/collectors/topology.lua:455-457 | A client is suppressed if and only if a selected exporter names its address as one of its own |
| `TopologyCollector.DashboardNeverDangles` | scripts/build_openwrt_topology_dashboard.py:305-306 | From the sound snapshots of any number of exporters to the rendered frames: with device info unique and counters naming devices, both dangling-edge stats read 0 |
| `TopologyExport.Collect` | openwrt/collectors/topology.lua:421-698 | Whatever was read, one collection gives a sound snapshot; without hosts it emits nothing, otherwise its nodes with their authorities, its edges and its own addresses are exactly those the network calls for: uplink, access point, radios, switch ports, clients and their links |
| `TopologyExport.Authorities` | openwrt/collectors/topology.lua:467-698 | On a gateway every node of a snapshot has authority 1; elsewhere only the box's own `ap:` and `bss:` nodes have |
| `TopologyExport.GatewayNamedAlike` | openwrt/collectors/topology.lua:461-464 | A gateway and an access point that know the same gateway address give it one node id, first-hand and as a stand-in |
| `TopologyExport.WhoIsAClient` | openwrt/collectors/topology.lua:622-632 | Clients are the known hosts of a gateway, or the stations of an access point, without own interfaces and the upstream modem |
| `TopologyExport.LinkColor` | openwrt/collectors/topology.lua:370-375 | An association is green from -60 dBm, orange from -72, else red, and has no colour without a signal |
| `TopologyExport.Sanitized` | openwrt/collectors/topology.lua:57-62 | Parts of ids keep their length, and every character outside letters, digits, dot, underscore and hyphen becomes an underscore |
| `TopologyExport.DrawLink` | openwrt/collectors/topology.lua:678-694 | Draws exactly the link of the client: its association on a radio that names a network, else its wired link where associations are known on a gateway, else nothing; no link is dropped by the guard |
| `TopologyExport.OneEdgePerClient` | openwrt/collectors/topology.lua:678-694 | Two edges of a snapshot that lead to one client have the same labels, named `assoc:` or `lan:` after it |
| `PromTextLaws.ExtendExpr` | scripts/build_openwrt_topology_dashboard.py:125-185 | A text that parses on its own parses to the same tree when something that cannot continue it follows |
| `PromTextLaws.BinaryReads` | scripts/build_openwrt_topology_dashboard.py:125-165 | A binary operator between two texts that bind tightly enough parses to exactly those two operands, under Prometheus precedence and left associativity |
| `PromTextLaws.InParens` | scripts/build_openwrt_topology_dashboard.py:125-185 | Parentheses make any parsing text an operand of every operator |
| `PromTextLaws.AggregateReads` | scripts/build_openwrt_topology_dashboard.py:147-154 | `sum by`, `max by` and `count` around any parsing text parse to that aggregation |
| `PromTextLaws.MoveReads` | scripts/build_openwrt_topology_dashboard.py:138-140 | `label_replace` with a literal prefix and `(.+)` parses to the relabelling the model evaluates |
| `TopologyText.PreferAuthorityReads` | scripts/build_openwrt_topology_dashboard.py:125-135 | The text of `prefer_authority` parses to the intended tree for every metric name |
| `TopologyText.InfraAsReads` | scripts/build_openwrt_topology_dashboard.py:138-140 | The text of `infra_as` parses to the intended tree |
| `TopologyText.TrafficAsReads` | scripts/build_openwrt_topology_dashboard.py:147-154 | The text of `traffic_as`, for every literal prefix, parses to the intended tree |
| `TopologyText.OverlayTrafficReads` | scripts/build_openwrt_topology_dashboard.py:157-165 | The text of `overlay_traffic` parses to the intended tree for every two operand texts that parse on their own |
| `TopologyText.NodesTextReads` | scripts/build_openwrt_topology_dashboard.py:168-170 | The text of `nodes_expr` parses, as an operand of any operator, to the tree whose meaning is proved |
| `TopologyText.EdgesTextReads` | scripts/build_openwrt_topology_dashboard.py:173-185 | The text of `edges_expr` parses, as an operand of any operator, to the tree whose meaning is proved |
| `TopologyText.DanglingTextReads` | scripts/build_openwrt_topology_dashboard.py:305-306 | The texts of stats 202 and 203 parse to the intended trees although they put both frames unparenthesised beside `unless` and `or` |
| `TopologyText.CollidingTextReads` | scripts/build_openwrt_topology_dashboard.py:304 | The text of stat 201 parses to the intended tree |
| `WifiSources.OneSourcePerRouter` | scripts/build_openwrt_operations_dashboard.py:800-805 | For every three vectors, the result holds for each (job, router) exactly the series of the first source that has any, with their values |
| `WifiSources.SameRouterSameSource` | scripts/build_openwrt_operations_dashboard.py:800-805 | Two series of one router always come from one source, so the later `sum by` never mixes sources of a router |
| `WifiSources.FallbackRow` | scripts/build_openwrt_operations_dashboard.py:794-797 | The two-level fallback has the same property for two sources |
| `WifiSources.StationRates` | scripts/build_openwrt_operations_dashboard.py:800-805 | On every scrape whose Wi-Fi series lack the added labels, the whole rate query evaluates: to the first of the hostapd counters in bits, the renamed Wi-Fi counters in bits, and the renamed bit rates, chosen per router |
| `WifiSources.StationFallback` | scripts/build_openwrt_operations_dashboard.py:794-797 | On every such scrape the whole signal query evaluates to the hostapd series of a router, or to its renamed Wi-Fi series |
| `WifiSources.StationsKeepSeries` | scripts/build_openwrt_operations_dashboard.py:790-791 | Renaming `mac` and `ifname` to `station` and `vif` never merges two series of a source that lacks the new names |
| `WifiSources.StationRateReads` | scripts/build_openwrt_operations_dashboard.py:790-805 | The whole text of the rate query, with bare `rate(...) * 8` operands and nested `label_replace`, parses to the tree that is evaluated |
| `WifiSources.StationFallbackReads` | scripts/build_openwrt_operations_dashboard.py:790-797 | The whole text of the signal query parses to the tree that is evaluated |
| `OffloadGuard.GuardedMeaning` | scripts/build_openwrt_clients_dashboard.py:147-149 | `trusted_traffic` renders its expression unchanged, or nothing at all exactly when some router reports flow offload |
| `OffloadGuard.AccountingStateMeaning` | scripts/build_openwrt_clients_dashboard.py:133-138 | The accounting state is always one sample: 2 under offload, else 1 if accounting is available, else 0 |
| `OffloadGuard.TrustedReads` | scripts/build_openwrt_clients_dashboard.py:147-149 | Every text that parses on its own is guarded as a whole |
| `OffloadGuard.AccountingReads` | scripts/build_openwrt_clients_dashboard.py:133-138 | The text of the accounting state parses to the tree that is evaluated |
| `MacLowercase.LowercaseMacLabel` | scripts/build_openwrt_clients_dashboard.py:117-123 | The two nested loops build the chain of 72 replacements, twelve per letter, in order |
| `MacLowercase.LowercasedExactly` | scripts/build_openwrt_clients_dashboard.py:117-123 | The chain yields the value with A to F in lower case if and only if no letter occurs more than twelve times; otherwise exactly the surplus of each letter stays |
| `MacLowercase.LowerLetters` | scripts/build_openwrt_clients_dashboard.py:120 | Each of the six letters is lowered to its own small form |
| `MacLowercase.ChainMeaning` | scripts/build_openwrt_clients_dashboard.py:117-123 | On every vector, the chain rewrites the label of every series or fails because two series end up with equal labels |
| `MacLowercase.LowercaseMeaning` | scripts/build_openwrt_clients_dashboard.py:117-123 | For values with at most twelve of each letter it fails if and only if two series differ in nothing but that label's case |
| `MacLowercase.ChainReads` | scripts/build_openwrt_clients_dashboard.py:117-123 | The text of the chain around any parsing text parses to the tree that is evaluated |
| `WifiSignal.HostapdRenders` | scripts/build_openwrt_clients_dashboard.py:126-128 | The hostapd half of the signal query never fails where its series carry no `mac`: the station label keeps apart what lowercasing might bring together |
| `WifiSignal.SignalSeries` | scripts/build_openwrt_clients_dashboard.py:126-129 | The query reads exactly the two named metrics of the selected routers |
| `WifiSignal.HostapdRows` | scripts/build_openwrt_clients_dashboard.py:126-128 | It shows every hostapd series once, with its value, and no other; the `mac` of one whose station is an address is that address in lower case |
| `WifiSignal.SignalMeaning` | scripts/build_openwrt_clients_dashboard.py:126-131 | Where hostapd series carry no `mac` and Wi-Fi series carry addresses there, the whole signal query evaluates if and only if no two Wi-Fi series differ only in the spelling of the address; then every address has the largest reading of the hostapd series, and of the Wi-Fi series of routers without any |
| `WifiSignal.TwoSpellingsFail` | scripts/build_openwrt_clients_dashboard.py:129-131 | For every address with an upper-case letter: one interface that lists it in two spellings makes the query fail |
| `WifiSignal.StationFails` | scripts/build_openwrt_clients_dashboard.py:129-131 | One such scrape: a Wi-Fi interface that lists `AA:BB:CC:00:00:01` in two spellings |
| `WifiSignal.SignalReads` | scripts/build_openwrt_clients_dashboard.py:126-131 | The whole text of the signal query parses to the tree that is evaluated |
| `OuiTable.MatchRows` | scripts/build_oui_table.py:284-289 | The loop leaves, for every prefix, the hit of the last row that classifies by its first matching rule |
| `OuiTable.ClassifyMeans` | scripts/build_oui_table.py:256-262 | For every rule list a name is classified by the first rule whose pattern occurs in it in lower case, and not at all exactly when none does |
| `OuiTable.LastHitMeans` | scripts/build_oui_table.py:284-289 | The hit of a prefix is that of the first matching rule of its last row that any rule matches |
| `OuiTable.RuleIsUsed` | scripts/build_oui_table.py:54-58 | A rule ever decides a name if and only if no earlier pattern occurs in its own pattern |
| `OuiTable.QingdaoIsNeverUsed` | scripts/build_oui_table.py:95-233 | Behind the pattern `intel` the pattern `qingdao intelligent` decides no name |
| `OuiTable.LessMeans` | scripts/build_oui_table.py:294-304 | The string order is by the first difference, or by length where there is none |
| `OuiTable.RecordLayout` | scripts/build_oui_table.py:304-305 | Characters 8k to 8k+6 of the index are the k-th prefix, the two after them its slot in base 36 |
| `OuiTable.Base36` | scripts/build_oui_table.py:245-253 | Raises exactly from 1296 on; below, the two characters read back as the value |
| `OuiTable.Sorted` | scripts/build_oui_table.py:294-304 | Sorting a set lists each element once, strictly ascending |
| `OuiTable.NumberVendors` | scripts/build_oui_table.py:291-299 | The display names are numbered in the order in which they first occur, each once, with the icon of that occurrence |
| `OuiTable.Records` | scripts/build_oui_table.py:304-305 | The index is one fixed-width record per prefix, in the given order, each holding its prefix and its slot number |
| `OuiTable.Build` | scripts/build_oui_table.py:284-305 | Refuses exactly when the classified rows have 1296 display names or more; otherwise the index holds the classified prefixes as strictly ascending 8-character records of base-36 characters, each naming its display name and the least icon of that name, and the display names are strictly ascending |
| `OuiTable.Search` | openwrt/lua/oui.lua:55-73 | The binary search over the index string finds the slot number of a prefix if and only if it has a record |
| `OuiTable.Lookup` | openwrt/lua/oui.lua:55-108 | Every prefix gets the display name of its last classified row, and none exactly when no row classified; the answer is that row's whole hit if and only if no matched rule of the display name has a smaller icon |
| `OuiRender.LuaStringText` | scripts/build_oui_table.py:308-309 | A string literal is its text between double quotes, with a backslash before each of its double quotes and backslashes |
| `OuiRender.LuaStringRoundTrip` | scripts/build_oui_table.py:308-309 | A quoted value reads back, whatever follows it, under the Lua 5.1 rules for string literals if and only if it has no line break |
| `OuiRender.LinesRead` | scripts/build_oui_table.py:312-326 | The rendered lines, with their separators, read back as their strings in order, whatever follows |
| `OuiRender.ChunkAt` | scripts/build_oui_table.py:315-317 | The pieces of the index are of 240 characters, the last one excepted |
| `OuiRender.IndexRoundTrip` | scripts/build_oui_table.py:312-317 | Loading the rendered index gives it back, character for character, for every index without line breaks |
| `OuiRender.VendorsRoundTrip` | scripts/build_oui_table.py:319-321 | Loading the rendered vendors gives the flat list that `vendor_at` reads |
| `OuiPipeline.Answer` | scripts/build_oui_table.py:256-356 | Build, render, load and search together: refused at 1296 display names, else every prefix gets the display name of its last classified row with the least icon of that name; with one icon per display name exactly the hit of the first matching rule of the last row that any rule matches |
| `OuiPipeline.SecondIconIsLost` | scripts/build_oui_table.py:294-299 | With two made-up rules that share a display name, `Answer` accepts the two rows and answers the second, classified as `mobile`, with the icon `lamp`; no shipped rule does so |
| `GridLayout.ValidateTab` | scripts/build_openwrt_operations_dashboard.py:1250-1264 | The incremental loop accepts a tab if and only if every panel lies in the 24-column grid and no two panels share a cell |
| `GridLayout.FreeOf` | scripts/build_openwrt_operations_dashboard.py:1261-1263 | The inner loop reports no overlap if and only if the new panel shares a cell with none of the earlier ones |
| `GridLayout.OverlapMeansSharedCell` | scripts/build_openwrt_operations_dashboard.py:1262 | The four comparisons hold if and only if the two panels have a cell in common |
| `GridLayout.AreaFits` | scripts/build_openwrt_operations_dashboard.py:1250-1264 | The panel areas of an accepted tab sum to at most 24 times its lowest edge |
| `GridLayout.GridItemsByTab` | scripts/build_openwrt_operations_dashboard.py:1195-1204 | Every title leads to the items of the rows of the last tab of that title |
| `GridLayout.ValidateTabs` | scripts/build_openwrt_operations_dashboard.py:1250-1264 | The check of the whole layout accepts if and only if the last tab of each title is accepted; with distinct titles, which the same function asserts, if and only if every tab is |
| `DashboardTree.RefsOfLayout` | scripts/build_openwrt_operations_dashboard.py:1182-1192 | The recursive collector finds exactly the placed names, in tab order, whatever the titles are |
| `DashboardTree.DashboardBuilder.Add` | scripts/build_openwrt_operations_dashboard.py:846-862 | A duplicate key is refused and changes nothing; otherwise the element is stored and placed in the given list, and elements and placements keep agreeing |
| `DashboardRun.Run` | scripts/build_openwrt_operations_dashboard.py:842-886 | Any sequence of `add` calls ends at its first repeated key, or leaves tabs that hold the placements in call order and every element under its key; the references collected from the finished layout are then exactly the stored keys, each once |
| `DashboardGrid.LayoutReads` | scripts/build_openwrt_operations_dashboard.py:1195-1204 | Read back as the check reads it, the layout of any tabs gives these tabs, every panel with its place, size and name |
| `DashboardGrid.ValidateLayout` | scripts/build_openwrt_operations_dashboard.py:1195-1264 | The written layout of tabs with distinct titles passes the check if and only if on every tab the panels lie inside the grid and share no cell |
| `FlowPivot.PivotConserves` | scripts/build_openwrt_netflow_dashboard.py:227-251 | The columns of a pivot over a complete list of distinct names sum to the plain total |
| `FlowPivot.PanelsConserve` | scripts/build_openwrt_netflow_dashboard.py:166-294 | With the label strings and name lists of the source: direction, service class and TCP shape each count every flow in exactly one column |
| `FlowPivot.ShapeNamed` | scripts/build_openwrt_netflow_dashboard.py:166-294 | Every TCP-shape string the expression can produce is in the name list the panel is pivoted by |
| `FlowPivot.ShapeMeans` | scripts/build_openwrt_netflow_dashboard.py:166-179 | Each of the seven TCP shapes, in terms of the four flags |
| `FlowPivot.DirectionMeans` | scripts/build_openwrt_netflow_dashboard.py:269-273 | Local exactly between internal hosts, outbound exactly from an internal host to another, inbound otherwise |
| `FlowPivot.ServiceMeans` | scripts/build_openwrt_netflow_dashboard.py:214-224 | A flow belongs to the first class one of whose ports either end uses, and to `Other` when there is none |
| `FlowPivot.ServiceNamed` | scripts/build_openwrt_netflow_dashboard.py:214-284 | Every service-class string the expression can produce is in the name list |
| `FlowPivot.StatEqualsColumn` | scripts/build_openwrt_netflow_dashboard.py:1098-1152 | Stat 402 counts the flows of protocol 6 with SYN and without ACK, and equals the "SYN, never answered" column of panel 405 summed over its time buckets |
| `FlowPivot.PacketSizeColumns` | scripts/build_openwrt_netflow_dashboard.py:297-308 | The loop emits one column more than edges; where the edges never descend, each size lies in exactly the column of the number of edges at or below it |
| `FlowPivot.HeatmapConserves` | scripts/build_openwrt_netflow_dashboard.py:297-308 | The range columns of every table of flows sum to the plain total if and only if the edges never descend |
| `FlowPivot.ShippedColumns` | scripts/build_openwrt_netflow_dashboard.py:198-308 | The seven columns built from the shipped edges, with their bounds; over every table of flows they show every packet once |
| `FlowPivot.ShippedMeans` | scripts/build_openwrt_netflow_dashboard.py:297-308 | Each of them shows the sampled packets of the flows in its range of sizes |
| `FlowGraph.GraphClosed` | scripts/build_openwrt_netflow_dashboard.py:1018-1035 | For one choice of pairs, both endpoints of every edge are node ids |
| `FlowGraph.NodeIdsUnique` | scripts/build_openwrt_netflow_dashboard.py:1021-1029 | Node ids are unique when the AS name is a function of the AS number |
| `FlowPairs.GraphOfFlows` | scripts/build_openwrt_netflow_dashboard.py:1006-1035 | For every flow table, dictionary and choice of the 60 heaviest pairs: the graph is closed, node and edge ids are unique, there are at most 120 nodes, every row is titled after a host or a network and shows the bytes and flows of the edges at it, and host rows, network rows and edges each show exactly the sampled bytes of the flows of the chosen pairs |
| `FlowPairs.PairsOfFlows` | scripts/build_openwrt_netflow_dashboard.py:1006-1016 | A pair of the subquery is a host and a resolved network between which counted flows run, with the network's name, their sampled bytes and their number |
| `FlowPairs.EdgesOfFlows` | scripts/build_openwrt_netflow_dashboard.py:1030-1035 | Every edge runs between the two ends of such flows and shows their sampled bytes and their number |
| `FlowPairs.WholeGraph` | scripts/build_openwrt_netflow_dashboard.py:1006-1016 | With at most 60 pairs the graph carries the sampled bytes of all flows in range with a resolved network |
| `FlowPairs.ChoiceGrouped` | scripts/build_openwrt_netflow_dashboard.py:1008-1016 | Whatever pairs are chosen, no two agree in host, number and name: GROUP BY gives it |
| `FlowPairs.ChoiceNamed` | scripts/build_openwrt_netflow_dashboard.py:1008-1016 | Whatever pairs are chosen, a number has one name: the dictionary gives it |
| `FlowGraph.EdgeIdsUnique` | scripts/build_openwrt_netflow_dashboard.py:1030-1035 | Edge ids of such pairs are distinct: the last `>` separates host and AS number |
| `FlowGraph.NodeCount` | scripts/build_openwrt_netflow_dashboard.py:1006-1029 | At most two nodes for each pair |
| `FlowGraph.RowsCarryEdges` | scripts/build_openwrt_netflow_dashboard.py:1021-1035 | Every node row belongs to the host or the network of a pair, and its bytes and flows are the sums over the edges that leave or reach it |
| `FlowGraph.BytesAgree` | scripts/build_openwrt_netflow_dashboard.py:1021-1035 | The bytes shown by the host rows, the network rows and the edges have the same sum |
| `FlowCut.SeparateQueriesExactly` | scripts/build_openwrt_netflow_dashboard.py:1002-1035 | Over all choices the two separate queries may make, no edge dangles if and only if each endpoint of each pair that can be kept is carried by a pair every choice keeps, or too few pairs that can be kept do without it |
| `FlowCut.ExposedDangles` | scripts/build_openwrt_netflow_dashboard.py:1016-1035 | Otherwise two choices exist of which one's edges dangle in the other's nodes |
| `FlowCut.CleanCutResolves` | scripts/build_openwrt_netflow_dashboard.py:1002-1035 | No edge dangles in any choice when every pair that can be kept must be kept: nothing is cut off, or the cut falls between different totals |
| `FlowCut.TieDangles` | scripts/build_openwrt_netflow_dashboard.py:1016-1035 | At every limit n: n + 1 pairs of equal weight, and two choices of which one's edges dangle in the other's nodes |
| `ShellQuote.QuoteReads` | mcp_server/core.py:274-276 | Wherever a quoted value stands in a word, tokenising by POSIX.1-2017 adds exactly that value to the word, for every string |
| `ShellQuote.LineReads` | mcp_server/core.py:274-341 | A line of plain words and quoted values tokenises to one word for each, spaces, newlines and quotes included |
| `ServerCommands.TestLogReads` | mcp_server/core.py:267-278 | With the two default texts for empty ones: accepted exactly for messages of at most 240 characters and non-empty tags of letters, digits, dot, underscore and hyphen; the command then tokenises to `logger`, `-t`, the tag and the message, with 15 seconds |
| `ServerCommands.HostAccepted` | mcp_server/core.py:371-382 | A host text that is no address passes if and only if at most the first and the last of its dot-separated labels are empty and no hyphen stands at either end; whatever passes needs no shell quoting and passes again unchanged |
| `ServerCommands.SetupAcceptedExactly` | mcp_server/core.py:314-346 | A well-formed request is accepted exactly when the installer's own checks accept the protocol and the profile list it asks for, and the list does not name `netflow` |
| `ServerCommands.SetupRuns` | mcp_server/core.py:314-346 | An accepted setup command runs `sh /tmp/openwrt/setup.sh` on the stripped host; the normalised profile list, the port in digits and the protocol each arrive once under their own name, the interface exactly when one was given, and nothing else; the timeout is the requested one |
| `ServerCommands.SetupAccepted` | openwrt/setup.sh:245-276 | The profile list and the protocol that arrive are ones the installer accepts, and the port digits read back as the port |
| `Profiles.CheckProfiles` | openwrt/setup.sh:255-276 | The validating loop accepts exactly the lists without empty entries, of known profiles, with `full` only alone |
| `Profiles.NormalizedIsAccepted` | mcp_server/core.py:349-361 | Whatever the server normalises to, the installer accepts |
| `Profiles.AcceptedIfInstallable` | mcp_server/core.py:349-361 | A request of letters, digits, dot, underscore, hyphen and comma is normalised exactly when its trimmed parts make a list the installer accepts, without `netflow`; the result has exactly these parts |
| `Profiles.TrimmedInOrder` | mcp_server/core.py:353 | The parts keep their order, each stripped, the empty ones left out |
| `Profiles.NormalizeIdempotent` | mcp_server/core.py:349-361 | Normalising twice is normalising once |
| `Profiles.NormalFormsAreInstallable` | mcp_server/core.py:349-361 | The normal forms are exactly the installer's lists that do not name `netflow` |
| `Profiles.EnabledIsMember` | openwrt/setup.sh:156-168 | For an accepted list the substring test holds if and only if the profile is an entry or the list is `full` |
| `Profiles.EnabledAfterNormalize` | openwrt/setup.sh:156-168 | After normalisation a profile is enabled if and only if it is among the requested parts or they are just `full` |
| `Strings.EntryIsSubstring` | openwrt/setup.sh:163-167 | For every list, wrapping in separators makes membership of a separator-free entry a substring test |
| `Strings.StripMeans` | mcp_server/core.py:350 | Stripping removes only spaces, and leaves none at either end |
| `Strings.SpaceCodes` | mcp_server/core.py:350 | The ASCII characters that Python counts as spaces |
| `Strings.LowerMeans` | scripts/build_oui_table.py:257 | Lower-casing turns the 26 capitals into their small letters and changes nothing else |
| `Strings.DecimalFirst` | scripts/build_openwrt_netflow_dashboard.py:1006-1016 | Numbers print without leading zeros |
| `Strings.GapIsEmptyEntry` | docker-compose.yml:89-95 | The case patterns for gaps match exactly the lists with an empty entry |
| `Redaction.Redact` | mcp_server/core.py:408-414 | The loop replaces every secret of at least four characters, in order |
| `Redaction.LeftmostReplaced` | mcp_server/core.py:413 | The leftmost match becomes `[redacted]`, and the text after it is treated alike |
| `Redaction.RedactedInTurn` | mcp_server/core.py:410-413 | Replacing by a list of secrets is replacing by its first part, then by its second |
| `Redaction.OneRedacted` | mcp_server/core.py:412-413 | A single secret is replaced exactly when it has at least four characters |
| `Redaction.ShortSecretsStay` | mcp_server/core.py:412 | Secrets of fewer than four characters change nothing |
| `Redaction.RedactErases` | mcp_server/core.py:408-414 | After all replacements a secret of at least four characters that cannot overlap `[redacted]` is gone, whatever the other secrets are |
| `Redaction.SecretStaysOut` | mcp_server/server.py:269-272 | Nor does it appear in the truncated output, unless it can end in the notice |
| `Redaction.ExactlyTheSafeSecrets` | mcp_server/server.py:269-272 | Every secret of at least four characters: it never shows in any output if and only if it can neither overlap `[redacted]` at any position nor end within the truncation notice |
| `Redaction.CleanSecrets` | mcp_server/server.py:269-272 | For a secret without brackets and line breaks: if and only if it is part of neither `redacted` nor `truncated` |
| `Redaction.OutputBounded` | mcp_server/core.py:400-405 | Refused exactly for limits below 1; otherwise the redacted text, cut exactly when it is longer than the limit to its first limit characters and the notice |
| `Redaction.RedactNothing` | mcp_server/core.py:408-414 | Text without secrets is not changed |
| `RouterInventory.ParseInventory` | mcp_server/core.py:177-200 | The loop that fills the dictionary computes the specified inventory, or the first error |
| `RouterInventory.InventorySound` | mcp_server/core.py:177-200 | An accepted text has as many routers as entries; every entry is found under its name, and every router is valid |
| `RouterInventory.FirstRefusal` | mcp_server/core.py:177-200 | A text is refused for being empty, or for the first entry that cannot be read or repeats a name, with that entry's reason |
| `RouterInventory.EntryMeans` | mcp_server/core.py:185-195 | An entry is a name and an address on either side of its first equals sign, both stripped; a bad name is reported before a bad address |
| `RouterInventory.NoEntry` | mcp_server/core.py:186-190 | An empty entry and one without an equals sign are told apart |
| `RouterInventory.AddressMeans` | mcp_server/core.py:417-427 | An address with one colon before a number is a host and a port in 1..65535; any other address is a host, at port 22 |
| `RouterInventory.HostPortRoundTrip` | mcp_server/core.py:417-427 | `host:port` of a valid host and port reads back as that pair if and only if the host holds no colon |
| `RouterInventory.PaddedEntry` | mcp_server/core.py:185-194 | Spaces around an entry, its name and its address do not matter |
| `RouterInventory.InventoryRoundTrip` | mcp_server/core.py:177-200 | Printing any non-empty inventory of distinct names, valid colon-free hosts and ports in 1..65535 and parsing it gives the inventory back |
| `RouterTargets.TargetFile.WriteTarget` | docker-compose.yml:54-84 | Refuses exactly the invalid names and addresses, and otherwise appends one element with its separator |
| `RouterTargets.TargetAccepted` | docker-compose.yml:54-76 | Names need a label's characters, addresses those and a colon; a bad name is reported before a bad address |
| `RouterTargets.TargetFile.WriteList` | docker-compose.yml:97-119 | The loop terminates, visits exactly the comma-separated entries in order, and stops at the first invalid one with its error |
| `RouterTargets.TargetFile.Generate` | docker-compose.yml:86-124 | The whole script: the error of the list, or a file that loads as exactly its (name, address) pairs; without a list as the one default name at `ip:port` |
| `RouterTargets.DefaultTarget` | docker-compose.yml:120-122 | Without a list the settings stand for the default name at `ip:port`, if that is valid |
| `RouterTargets.FileReads` | docker-compose.yml:78-124 | The file written for any list of valid targets is JSON that holds the same pairs in the same order, each under the job `openwrt` |
| `RouterTargets.TargetsRoundTrip` | docker-compose.yml:89-124 | Any non-empty list of valid targets, written as `name=address` entries, is read as itself and loads as itself |
| `JsonText.PrintReads` | docker-compose.yml:82 | JSON printed without escapes reads back, for every value whose strings need none |
| `Crontab.CrontabFile.RemoveLegacy` | openwrt/setup.sh:590-602 | Leaves exactly the other lines in order, and no legacy line; a file without legacy lines keeps its text |
| `Crontab.CrontabFile.EnsureCronLine` | openwrt/setup.sh:181-188 | Changes nothing where the line is there; otherwise a newline-terminated file gains it as its last line |
| `Crontab.CrontabFile.Install` | openwrt/setup.sh:590-639 | On a newline-terminated file: other lines in order and multiplicity, then the missing required ones once each; no line names a superseded helper; a second run changes nothing |
| `Crontab.LinesMean` | openwrt/setup.sh:181-188 | The lines of a crontab end at its newlines; what follows the last one is a line unless it is empty |
| `Crontab.Timetable` | openwrt/setup.sh:618-639 | For every accepted profile list the required lines, with their intervals, in order |
| `Crontab.CurrentInOrder` | openwrt/setup.sh:590-598 | Exactly the lines that name neither superseded helper are kept, in their order |
| `Crontab.InstalledLines` | openwrt/setup.sh:590-639 | The lines after a run, for every required list without legacy lines |
| `Crontab.SecondRunChangesNothing` | openwrt/setup.sh:590-639 | A second run leaves the text as it is |
| `Crontab.ConvergesExactly` | openwrt/setup.sh:181-188 | For every text, a run keeps every current line and adds every required one if and only if the file is newline-terminated, or has a legacy line, or lacks nothing |
| `Crontab.HelpersScheduled` | openwrt/setup.sh:618-639 | For every helper and accepted profile list: after a run its line is in the crontab if and only if it was there before or the list asks for the helper |
| `Crontab.UnfinishedCrontabFails` | openwrt/setup.sh:181-188 | A crontab of one line without a newline: the line is lost, whatever the profiles are |

## Left out

- PromQL text is modelled as tokens: splitting characters into tokens, and the escapes in quoted strings, are not part of this model.
- Rate windows, staleness, counter resets and floating-point rounding: rated vectors are inputs and values are real numbers.
- Many-to-one matching reports two series of the "one" side in one group whenever both operands have samples, as the documentation says of duplicates; with an empty operand the result is empty, as in Prometheus itself.
- Regular expressions other than `(.+)` after a literal prefix, and the first occurrence of one letter, are not evaluated; `$router` is an arbitrary predicate on router names.
- ClickHouse itself: a query is the computation it denotes on a sequence of flow records; the filters on time, router and address ranges are one flag of a record, and the AS dictionary is an arbitrary map.
- OuiTable.Lookup: takes a six-character prefix; cutting it out of a MAC address and the ranges for locally administered addresses in `openwrt/lua/oui.lua` are not modelled.
- OuiTable.MatchRows: the concrete rules are an arbitrary list, and downloading and filtering the registry is not modelled.
- OuiPipeline.Answer: the header, the field names around the two lists and the list of local ranges in the rendered Lua file are not modelled.
- DashboardTree.DashboardBuilder.Add: the panel element itself is an arbitrary value; the other assertions of `validate_dashboard` are about panel content.
- ShellQuote.LineReads: covers one simple command; pathname expansion and reserved words are not modelled, and any unquoted special character makes the tokenizer refuse the line.
- `build_configure_syslog_command` uses the same quoting in three commands, whose fixed text holds an unquoted bracket pattern; it is not modelled.
- ServerCommands.HostAccepted: what `ipaddress.ip_address` accepts is an arbitrary predicate; conversion of port and timeout from other types to integers is not modelled.
- Strings are ASCII: stripping and digits beyond it are not modelled.
- TopologyExport.Collect: what ubus, iwinfo, `bridge fdb` and the files under `/proc` and `/sys` report is an arbitrary record of facts; what nodes display and the values of samples are arbitrary functions, and the order in which lines are written is arbitrary.
- GridLayout.ValidateTabs: the comparison of the titles with the expected list is not modelled.
- RouterInventory.ParseInventory: the dictionary is a map, so its insertion order is not part of the result.
- JsonText.PrintReads: the reader covers strings, arrays and objects without white space between tokens; numbers, literals and backslash-u escapes are refused.
- Crontab.CrontabFile.Install: a missing crontab reads as an empty one, and the temporary `.clean` file is not modelled.
- SSH, HTTP and protocol wiring of the management server, package installation, UCI, service restarts and nftables: they are calls into other programs.
- The other Lua collectors and helper scripts, panel contents, and the classic dashboards of `build_dashboards.py`: data and I/O without a property of this kind.
