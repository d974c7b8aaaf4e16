# otelc, verified

otelc is a terminal commander for a fleet of OpenTelemetry collectors: agents connect to an
embedded OpAMP server over WebSockets, a translator turns their sparse status messages into
accumulated records, a terminal UI shows the records and sends configs and restart commands back,
and an OTLP store keeps a bounded window of the agents' telemetry. This project models that code
in Dafny and proves what it is meant to guarantee.

`dafny verify dfyconfig.toml` checks everything.

## The fleet protocol

`Link` is one connection: the peer (arbitrary, or one that runs the mock agent of `MockAgent`),
the WebSocket in both directions as an unbounded FIFO, the push channel bounded at 64, and the
`serve` task cut at every point where another task can run. `Fleet` composes any number of
connections with the routing registry, the event channel (256), the `translate` task with its
one-event outbox, the control channel (256), telemetry polling, the UI's agent map, and UI
commands split into their three steps (UID lookup, sender lookup, try-send). A run is any list of
enabled actions from the start, so every theorem is about every interleaving. A channel is kept as
its full log and a read cursor, so the histories that the theorems speak of are part of the state.

- *Wire discipline.* One reply per decoded frame, in order, under the right UID; the first message
  out is a reply; the telemetry offer is made at most once, in that reply, and exactly to an agent
  that reports telemetry of its own, which every mock agent does; delivered pushes followed by
  queued ones are the accepted pushes.
- *Translation.* With no assumption on UIDs: the UI's agent map is the published translation of a
  prefix of the events, applying the control queue to it gives the translator's records, and each
  record is the merge of that UID's messages since its last disconnect.
- *Registry.* With no assumption on UIDs: a connection that entered the registry and has not
  cleaned up is found under its UID if and only if no other connection has entered or left under
  that UID since. A concrete run shows a live agent losing its entry to an older connection's
  cleanup, which is what a quick reconnect under the same UID can do.
- *Agreement.* For one connection whose UID no other connection registers or announces, whatever
  the others do: registry, drained records and drained UID map hold it exactly while it is live or
  was left by an error exit, except between the two effects of a step. For a fleet with one UID
  per connection these and the drained UI hold nothing else, and at quiescence the UI shows
  exactly the live fleet *if and only if* no identified connection ended through an error exit; a
  concrete run shows the stale entry.
- *Prefix consistency and convergence.* A mock agent's UI entry is the merge of exactly the first
  n messages it sent, n being the entry's own sequence number, and n never decreases. When the
  connection and the hub are quiet, the entry shows the last config accepted for the agent, or its
  base config, and status APPLIED exactly if one was accepted; it shows the agent's host name and
  version. This asks only that no other connection announces under the agent's UID.
- *Restarts.* Since when an agent runs follows from the actions alone; everything it reports of
  its health says so; when quiet it has restarted once for each restart command its connection
  took, and the UI shows the time of the last.
- *Commands.* What a push channel has accepted is exactly the commands the UI got accepted for it,
  in order. Put together with the UI's own runs: once quiet, the config on screen is the text of
  the last push the control plane accepted for that agent, which is what the terminal keys pressed
  since the editor was opened make of the config it was opened on; and the agent has been
  restarted as often as a restart of it was accepted.
- *Drain.* Some internal step is enabled exactly when something is pending, a weighted measure
  falls with every step, and so from any reachable state the system drains to a quiet one.

`Server` holds the code itself: the registry, the push channels and the command handle as objects,
and `Serve`, the loop of one connection, proved to be a sequence of `Link` steps. `ServerOrder`
states what the loop promises the rest of the system, against a small acceptor of effect
sequences, and what a command meets after the loop has ended.

## The config editor

`TextEditor` has three layers: the `Editor` object with UTF-8 byte lines and a cursor counted in
characters, `Doc` with the same lines as characters, and `Flat`, one text and one offset. The
object is proved against `Doc` method by method. `StepRefinesExactly` says for each key exactly
when `Doc` behaves as `Flat`: insertion, newline, backspace, Home, Up and Down always do; Left,
Right and End do only where the line they look at is ASCII, because `line_len` counts bytes.
`EditorKeys` states what each terminal key does to the text on screen and what a series of keys
types, and proves the editor to do it under the same exact condition. After End on a non-ASCII
line, Backspace can panic; `OnlyBackspacePanics` shows that nothing else in the UI can.

## The UI

`Console` gives the meaning of every key and control event on values; `App` is the object with
fields updated in place, and its event loop is proved to go through a run of `Console`.
`FleetSelection` proves the invariants of the fleet list over all runs, `Commands` proves which
calls the UI can make, `FleetCommands` what becomes of them, and `EndToEnd` ties the screen to the
keys. `KeyRules` relates the keys of panels, menu, dialogs and filter prompt to each other and to
the screen. `Menus` covers the separator-skipping menu loop, `HealthTree` the health tree and its
listing.

## Telemetry and pipelines

`Telemetry` proves the store equal to a sliding window over an unbounded history, `TelemetryRules`
says what that history is of the requests themselves, `Snapshots` relates what is polled to that
history, and `Pipelines` proves the connector bridges exact, strictly ordered and correctly
counted.

## Conditions stated openly

- `serve` registers only the first UID it sees and removes by UID, so connections that share a UID
  can take each other's entries (`TakeoverHidesLive`, with `FoundUnlessTouched` as the exact
  condition). Results on one agent ask that no other connection uses its UID (`Sole` for the
  registry, `Unshared` for events); fleet-wide results ask it of every connection (`Disciplined`).
  Mock agents draw distinct UIDs, so for them only a foreign peer can break it
  (`MocksDoNotShare`).
- Cleanup runs only when the `serve` loop ends by `break`. The exits through `?` are a step of
  their own (`ServeFail`), and statements about agreement name it.
- A push under way when a write fails may be lost; deliveries are then still a prefix of the
  accepted pushes.

## Model

| member | source | states |
|---|---|---|
| Link.LinkStepInv | crates/otelc-opamp/src/server/ws.rs:28-98 | every step of peer or task keeps: channels within bounds, events follow decoded frames, one correct reply per event with at most one telemetry offer, deliveries follow accepted pushes |
| Link.PushedInv | crates/otelc-opamp/src/server/mod.rs:123-127 | an accepted push keeps the same invariant |
| Link.AddressedStep | crates/otelc-opamp/src/server/mod.rs:95-121 | every message accepted for a connection stays a restart order or a correctly hashed config offer addressed to its UID |
| Link.MockStepInv | examples/mock-agent/src/main.rs:163-242 | connected to a mock agent, every frame is the agent's own message and the agent has read a prefix of what it was sent |
| MockAgent.RunAgent | examples/mock-agent/src/main.rs:163-242 | for every input list and wherever a write fails, the loop has sent exactly a prefix of the step-by-step session, cut at the failing write; and the start times in its health groups are its connect time, then the arrival time of each restart order, repeated at each tick |
| MockAgent.SessionStarts | examples/mock-agent/src/main.rs:209-238 | over any inputs the start time in force is the arrival time of the last restart order, or the connect time, and each order adds exactly one report of it |
| MockAgent.OfferedFileRule | examples/mock-agent/src/main.rs:190-195 | an offer names its unnamed file, else its first one, and without files nothing |
| MockAgent.EntryShowsAgent | examples/mock-agent/src/main.rs:324-337 | after any number of the agent's messages its record has the profile's host as its name, the profile's version, its health, and both command capabilities |
| MockAgent.ReceiveInv | examples/mock-agent/src/main.rs:188-218 | handling a server message keeps: sequence numbers count messages, the last reported config is the last offered file, status APPLIED echoes the offer's hash |
| MockAgent.ApplyInv | examples/mock-agent/src/main.rs:204-207 | the second half of a config offer keeps the agent's invariant |
| MockAgent.TickInv | examples/mock-agent/src/main.rs:231-238 | a periodic health report keeps the agent's invariant |
| Fleet.RunInv | crates/otelc-opamp/src/server/mod.rs:36-73 | on every interleaving: link invariants, channel bounds 64/256/256, routing to the right connection, translator and UI equal to folds of what they consumed |
| Fleet.WireDiscipline | crates/otelc-opamp/src/server/ws.rs:39-90 | per connection on every run: one reply per decoded frame in order and first, the offer only there and there exactly if the message's bitmask meets 0x20, 0x40 or 0x80, delivered plus queued equals accepted pushes, at most 64 queued |
| Fleet.MockGetsOffer | crates/otelc-opamp/src/server/ws.rs:66-75 | on every run a mock agent that got its first reply got the telemetry offer in it, and in no later one |
| Fleet.BackPressure | crates/otelc-opamp/src/server/mod.rs:42 | events and control events wait for room exactly at 256 queued, a push is refused exactly at 64 queued or after the connection has ended |
| Fleet.UiShowsPrefix | crates/otelc-tui/src/app.rs:360-388 | the UI's agent map is always the published translation of a prefix of the event log |
| Fleet.QueueCommutes | crates/otelc-tui/src/control/embedded.rs:90-111 | applying outbox and control queue to the UI's map yields exactly the translator's records, with no assumption on UIDs |
| Fleet.RecordsAreFolds | crates/otelc-tui/src/control/embedded.rs:90-111 | each record is the merge fold of its UID's messages since its last disconnect, and the two maps have the same keys |
| FleetAgreement.FleetAgrees | crates/otelc-opamp/src/server/ws.rs:47-98 | registry, drained records, drained UID map and drained UI hold exactly the live connections, outside the gap between the two effects of a step and leaving error exits aside, and no other UID |
| FleetAgreement.CopiesOfConnection | crates/otelc-opamp/src/server/ws.rs:47-98 | for one connection whose UID no other uses, at any moment, exactly when each copy of the fleet contains it |
| FleetAgreement.ConnectionAgrees | crates/otelc-opamp/src/server/ws.rs:47-98 | the copies agree on such a connection: all hold it or none does, outside the gap between the two effects of a step |
| FleetAgreement.DrainedUi | crates/otelc-tui/src/app.rs:360-388 | translating and applying everything still queued turns the UI's agent map into the records of the whole event log, with no assumption on UIDs |
| FleetRegistry.RegistryFollowsTouches | crates/otelc-opamp/src/server/registry.rs:16-23 | on every run the registry is its log of changes, and each connection enters once and leaves at most once |
| FleetRegistry.FoundUnlessTouched | crates/otelc-opamp/src/server/ws.rs:49-53 | with no assumption on UIDs, a connection that entered and has not cleaned up is found under its UID if and only if no other connection has entered or left under it since |
| FleetRegistry.TakeoverHidesLive | crates/otelc-opamp/src/server/ws.rs:93-94 | a concrete run in which an older connection's cleanup removes a live connection's entry |
| FleetRegistry.SoleEntry | crates/otelc-opamp/src/server/registry.rs:16-27 | under a UID that one connection alone has registered, the registry holds exactly that connection's entry, while it has one |
| FleetRegistry.LiveIsRegistered | crates/otelc-opamp/src/server/registry.rs:25-27 | error exits included, a live connection is never missing from the registry while no other has registered under its UID |
| FleetAgreement.UiAgreesUnlessLeaked | crates/otelc-opamp/src/server/ws.rs:93-98 | at quiescence the UI shows exactly the live fleet if and only if no identified connection left through an error exit |
| FleetAgreement.MockFleetIsDisciplined | examples/mock-agent/src/main.rs:164 | a fleet of mock agents meets the fleet-wide UID condition on every run |
| FleetAgreement.MocksDoNotShare | examples/mock-agent/src/main.rs:164 | a mock agent's UID is unshared if and only if no foreign peer has announced under it |
| FleetConvergence.ErrorExitLeavesAgentListed | crates/otelc-opamp/src/server/ws.rs:74 | a concrete run, for any agent, that ends quiet with a dead connection still listed |
| FleetConvergence.UiEntryIsFold | crates/otelc-tui/src/control/embedded.rs:93-101 | any UI entry is the merge of that UID's messages the UI has caught up with since its last disconnect |
| FleetConvergence.PrefixConsistency | examples/mock-agent/src/main.rs:171-176 | a mock agent's entry is the merge of exactly its first n messages, n being the entry's sequence number, whatever the connections that do not announce under its UID do |
| FleetConvergence.MockIsListed | crates/otelc-tui/src/control/embedded.rs:229-237 | on every run the entry of a mock agent has the profile's host as its name, the profile's version and health, and accepts both commands |
| FleetConvergence.SequenceNeverDecreases | proto/opamp.proto:32-36 | an entry's sequence number never falls while the entry exists |
| FleetConvergence.ConfigConvergence | crates/otelc-tui/src/control/embedded.rs:158-187 | when quiet, the entry shows the last accepted config or the base config, APPLIED exactly if a config was accepted, and the agent's own start time |
| FleetConvergence.AppliedEchoesTheOffer | examples/mock-agent/src/main.rs:196-207 | on every run a message that reports a remote config as applied carries the hash of the config it reports |
| FleetConvergence.OffersAreAnsweredInPairs | examples/mock-agent/src/main.rs:197-207 | on every run a config is answered by APPLYING and then at once APPLIED, under one hash; only the last message can be an APPLYING still waiting |
| FleetRestart.HealthCarriesLastStart | examples/mock-agent/src/main.rs:209-216 | on every run a health group carries the time of the agent's last restart, or of its connection, judged by the actions alone, and each restart sends one |
| FleetRestart.RestartConvergence | examples/mock-agent/src/main.rs:209-216 | when quiet, a mock agent has restarted exactly once for each restart command its connection took, and the UI shows the time of its last start |
| FleetDrain.DrainProgress | crates/otelc-opamp/src/server/ws.rs:28-98 | some internal step is enabled exactly when the system is not quiet, despite the bounds |
| FleetDrain.MeasureFalls | crates/otelc-opamp/src/server/mod.rs:42 | every step that is not a new stimulus strictly lowers the weighted measure |
| FleetDrain.DrainTerminates | examples/mock-agent/src/main.rs:188-224 | an undisturbed run is at most as long as the measure it started from |
| FleetDrain.DrainReachesQuiet | crates/otelc-opamp/src/server/ws.rs:28-98 | from every reachable state internal steps alone reach a quiet state |
| FleetDrain.StuckMeansConverged | examples/mock-agent/src/main.rs:190-208 | where no internal step is enabled, every connected mock agent's config and status have converged in the UI, foreign peers included as long as none uses the agent's UID |
| FleetCommands.PushesAreCommands | crates/otelc-tui/src/control/embedded.rs:56-81 | with no assumption on UIDs, what a connection's push channel accepted is exactly the commands it took, in the order issued, each issued for the text of its UID |
| EndToEnd.LastCommandIsShown | crates/otelc-tui/src/control/embedded.rs:158-187 | once quiet, an agent's entry shows the config of the last push command its connection took, or the base config, and APPLIED exactly if it took one |
| EndToEnd.ScreenIsUi | crates/otelc-tui/src/app.rs:360-388 | a UI run fed the control events the fleet's UI took shows exactly its agents |
| EndToEnd.PushedTextIsShown | crates/otelc-tui/src/app.rs:614-620 | once quiet, the config on screen is the text of the last push for that agent that the control plane accepted: the config the editor was opened on as edited by exactly the terminal keys pressed since, on its lines for any text and as flat text wherever each key finds bytes and characters agreeing |
| EndToEnd.RestartsAreShown | crates/otelc-tui/src/app.rs:606-612 | once quiet, an agent has been restarted exactly as often as the control plane accepted a restart of it from the UI, and the screen shows when it last started |
| Server.TrySendIsPushed | crates/otelc-opamp/src/server/mod.rs:125-126 | try-send on the channel object succeeds exactly when the step machine can push, and queues the same message |
| Server.ServerHandle.Push | crates/otelc-opamp/src/server/mod.rs:123-127 | not connected exactly if unregistered; else accepted exactly if open and below 64, appending the one message, and without effect on failure |
| Server.ServerHandle.OfferRemoteConfig | crates/otelc-opamp/src/server/mod.rs:95-108 | the same for a config offer, and success returns the hash the agent must echo |
| Server.ServerHandle.SendRestart | crates/otelc-opamp/src/server/mod.rs:111-121 | the same for a restart order |
| Server.EmbeddedControlPlane.PushConfig | crates/otelc-tui/src/control/embedded.rs:56-68 | fails without effect on an unknown agent, else offers the config to the UID behind its text |
| Server.EmbeddedControlPlane.Restart | crates/otelc-tui/src/control/embedded.rs:70-81 | the same for a restart |
| Server.HearMessage | crates/otelc-opamp/src/server/ws.rs:39-75 | one decoded message: registered if first, announced, answered; agrees with the connection's steps and the registry's new state |
| Server.Serve | crates/otelc-opamp/src/server/ws.rs:18-99 | for every list of arrivals the effects, exit, registry and push channel are those of the connection's steps; the channel is closed once the loop has returned |
| ServerOrder.EffectsInOrder | crates/otelc-opamp/src/server/ws.rs:47-98 | registry entry before first event, each event directly before its own reply, pushes only after a first reply, deregistration before the goodbye event |
| ServerOrder.ServedEntry | crates/otelc-opamp/src/server/ws.rs:49-98 | the registry holds this connection's channel from first message to clean exit, keeps it after an error exit, and is otherwise unchanged |
| ServerOrder.CommandAfterServe | crates/otelc-opamp/src/server/mod.rs:123-127 | a command to a served connection is delivered exactly while the loop runs, not connected exactly after a clean exit, and refused by the dropped receiver exactly after an error exit |
| ServerOrder.ServedInv | crates/otelc-opamp/src/server/ws.rs:28-98 | the whole loop keeps the link invariant, hence the wire discipline |
| ServerOrder.LoopEnds | crates/otelc-opamp/src/server/ws.rs:28-98 | by what arrived alone: the loop returns cleanly exactly if the first arrival that ends it is a close, the end of the stream or an answered last message, with an error exactly if it is a read error or a failed write, and else still waits |
| Translate.TranslateAll | crates/otelc-tui/src/control/embedded.rs:85-112 | the loop over its two maps sends exactly the specified control events and ends in the specified maps |
| Translate.TranslatedValid | crates/otelc-tui/src/control/embedded.rs:93-110 | records and UID texts always describe the same agents, each under its own UID |
| Translate.ControlPublishes | crates/otelc-tui/src/control/embedded.rs:93-110 | applying all control events of an event log gives the published records |
| Translate.RecordIsFold | crates/otelc-tui/src/control/embedded.rs:93-101 | a record exists exactly if there are messages since the last disconnect, and is their merge |
| AgentRecord.MergeInto | crates/otelc-tui/src/control/embedded.rs:158-187 | field-by-field assignment equals the merge function; a description gives the name and version by the attribute rules, a reported config its text by the file rule |
| AgentRecord.DisplayNameRule | crates/otelc-tui/src/control/embedded.rs:229-237 | on the attributes: the first host.name, else the first service.name, else what follows the last dash of the UID |
| AgentRecord.VersionRule | crates/otelc-tui/src/control/embedded.rs:170 | the first service.version of the identifying attributes, else nothing |
| AgentRecord.ConfigRule | crates/otelc-tui/src/control/embedded.rs:239-252 | the unnamed file's body, else all bodies joined, else nothing |
| AgentRecord.MergeIsLastWriter | crates/otelc-tui/src/control/embedded.rs:158-187 | after any message list each field group is that of the last message carrying it, or the default, with name, version, config and status label given by rules on the message |
| AgentRecord.LastWriterDetermines | crates/otelc-tui/src/control/mod.rs:33-71 | that characterisation leaves only one record |
| AgentRecord.FullMessageErasesHistory | crates/otelc-tui/src/control/embedded.rs:158-187 | after a message with all four groups the messages before it do not matter |
| AgentRecord.SupportsIsLatestBitmask | crates/otelc-opamp/src/capabilities.rs:6-41 | the record supports a config push exactly if the latest bitmask has bit 0x2, and a restart exactly if it has bit 0x400 |
| Opamp.DescribeRule | proto/opamp.proto:734-781 | each capability label carries the flag of its bit, in order |
| Opamp.ReportsOwnTelemetryBits | crates/otelc-opamp/src/server/ws.rs:111-115 | an agent reports own telemetry exactly if its bitmask meets 0xE0 |
| Opamp.UidTextInjective | crates/otelc-opamp/src/instance_uid.rs:40-44 | UIDs with the same text are the same, so text keys are safe |
| Opamp.HexReads | crates/otelc-opamp/src/instance_uid.rs:40-44 | the two hexadecimal digits of each byte read back to it, high digit first |
| HealthTree.TreeIgnoresIterationOrder | crates/otelc-tui/src/control/embedded.rs:189-203 | the tree is the same for every hash-map iteration order, at every level |
| HealthTree.TreeShowsReport | crates/otelc-tui/src/control/embedded.rs:189-203 | reading the tree back into nested maps gives the report it was built from: every component under its name with its own health, status and error |
| HealthTree.TreeIsOrdered | crates/otelc-tui/src/control/embedded.rs:189-203 | children are strictly sorted by name, recursively |
| HealthTree.HealthLines | crates/otelc-tui/src/views.rs:342-362 | the recursive listing appends exactly the rendered pre-order lines of the tree |
| HealthTree.LineDeterminesRow | crates/otelc-tui/src/views.rs:343-357 | a rendered line, by its indent, texts and colours, tells depth, name, health, status and error |
| HealthTree.ParseListing | crates/otelc-tui/src/views.rs:342-362 | the depth-labelled rows parse back to the tree |
| HealthTree.ListingOfParse | crates/otelc-tui/src/views.rs:342-362 | listing what was parsed gives the rows back |
| HealthTree.ListingInjective | crates/otelc-tui/src/views.rs:342-362 | different trees are rendered differently |
| HealthTree.OneRowEach | crates/otelc-tui/src/views.rs:342-362 | one row per component |
| Utf8.DecodeEncode | crates/otelc-tui/src/app.rs:111-113 | encoding gives well-formed UTF-8 (RFC 3629) that decodes to the same text |
| Utf8.EncodeDecode | crates/otelc-tui/src/app.rs:111-113 | well-formed UTF-8 survives decoding and encoding |
| Utf8.ByteIndexCuts | crates/otelc-tui/src/app.rs:174-179 | the byte index of character k is a boundary that cuts the line's bytes where the characters are cut |
| Utf8.InsertAtByteIndex | crates/otelc-tui/src/app.rs:119-124 | inserting a character there is inserting it at character k |
| Utf8.RemoveAtByteIndex | crates/otelc-tui/src/app.rs:135-139 | removing there removes character k |
| Utf8Order.BytesSortAsCharacters | crates/otelc-tui/src/app.rs:325 | comparing UTF-8 bytes orders strings as comparing their characters does |
| TextEditor.JoinSplit | crates/otelc-tui/src/app.rs:96-113 | a new editor's text is the content it was opened with, for every content |
| TextEditor.SplitJoin | crates/otelc-tui/src/app.rs:96-113 | the lines are the newline split of the text exactly when none contains a newline |
| TextEditor.StepRefinesExactly | crates/otelc-tui/src/app.rs:115-172 | for every key, exactly when one editor step is the same step on the flat text |
| TextEditor.RunTracksExactly | crates/otelc-tui/src/app.rs:95-172 | over any keys on any Unicode text, the editor follows the flat text exactly as long as each key is exact where it is typed |
| TextEditor.RunRefines | crates/otelc-tui/src/app.rs:95-172 | over key sequences, all keys on ASCII text or byte-blind keys on any text, the editor is the flat text and its lines stay the split of the text |
| TextEditor.OpenedEditorIsFlatText | crates/otelc-tui/src/app.rs:95-172 | the same from a newly opened editor |
| TextEditor.RunStaysInBytes | crates/otelc-tui/src/app.rs:119-172 | on any text the row stays in range and the cursor at most the line's byte length |
| TextEditor.StepStaysInBytes | crates/otelc-tui/src/app.rs:135-147 | a key fails exactly when it is Backspace past the last character |
| TextEditor.BackspaceCanFail | crates/otelc-tui/src/app.rs:115-147 | a concrete text on which End then Backspace panics |
| TextEditor.JoinBytesEncodesJoin | crates/otelc-tui/src/app.rs:111-113 | joining byte lines is encoding the joined text |
| TextEditor.Editor.constructor | crates/otelc-tui/src/app.rs:96-109 | the object starts as the opened document |
| TextEditor.Editor.Text | crates/otelc-tui/src/app.rs:111-113 | the bytes of the flat text |
| TextEditor.Editor.InsertChar | crates/otelc-tui/src/app.rs:119-124 | the byte edit is the character edit |
| TextEditor.Editor.Newline | crates/otelc-tui/src/app.rs:126-133 | splitting the bytes splits the row at the character cursor |
| TextEditor.Editor.Backspace | crates/otelc-tui/src/app.rs:135-147 | removes a character or joins rows, and fails exactly past the last character |
| TextEditor.Editor.MoveCursor | crates/otelc-tui/src/app.rs:149-171 | vertical motion clamps by characters, horizontal motion by bytes |
| TextEditor.Editor.HandleKey | crates/otelc-tui/src/app.rs:560-568 | each editing key does to the object what it does to the document |
| TextOrder.SortBySorts | crates/otelc-tui/src/app.rs:325 | sorting gives a sorted permutation |
| TextOrder.SortByStable | crates/otelc-tui/src/app.rs:325 | sorting keeps the order of elements with equal keys |
| TextOrder.SortByCanonical | crates/otelc-otlp/src/model.rs:38-39 | with distinct keys the sorted list does not depend on the input order |
| FleetSelection.RunKeepsFleet | crates/otelc-tui/src/app.rs:360-388 | on every run the order has no duplicates and lists exactly the agents, each under its UID, and the selection is none exactly if the fleet is empty and else an agent |
| FleetSelection.OrderIsByArrival | crates/otelc-tui/src/app.rs:362-376 | the order is that in which the agents last arrived |
| FleetSelection.AgentsFollowEvents | crates/otelc-tui/src/app.rs:360-388 | whatever is typed, the agent map is the control events applied in order |
| FleetSelection.TelemetryFollowsEvents | crates/otelc-tui/src/app.rs:383-386 | on every run the telemetry shown for a key is the last snapshot polled for it since its agent last left |
| FleetSelection.EventSelects | crates/otelc-tui/src/app.rs:362-382 | a control event moves the selection only if it takes the selected agent away, then to the one that has been there longest, or if nothing was selected |
| FleetSelection.VisibleIsSortedMatches | crates/otelc-tui/src/app.rs:313-327 | the list on screen holds exactly the matching agents, once each, sorted by name, and those of equal name in the order they arrived |
| FleetSelection.SelectedAgentIsVisible | crates/otelc-tui/src/app.rs:330-338 | the highlighted agent matches the filter, is the selected one if that matches, and is none exactly if nothing matches |
| FleetSelection.MoveSelectionMovesCursor | crates/otelc-tui/src/app.rs:467-479 | moving by delta takes the highlight to the clamped index, also when the selected agent is filtered out, and changes nothing else |
| FleetSelection.WithoutKeeps | crates/otelc-tui/src/app.rs:374 | retaining all but one UID loses exactly that one |
| Commands.RunKeepsOneMode | crates/otelc-tui/src/app.rs:390-400 | at most one of dialog, menu and filter prompt is ever active |
| Commands.OneTurn | crates/otelc-tui/src/app.rs:533-572 | a call is made exactly by confirming a restart or F5 in the editor, closes its dialog, and dialogs only open for a highlighted agent whose record has the capability |
| Commands.RestartFollowsConfirmation | crates/otelc-tui/src/app.rs:590-612 | each restart call follows a confirmation opened for that agent under its capability and on screen ever since |
| Commands.PushFollowsEditor | crates/otelc-tui/src/app.rs:574-620 | each push call follows an editor opened for that agent under its capability and carries its config as edited by exactly the terminal keys pressed since: on the editor's lines for any text, and as the text those keys type wherever each finds bytes and characters agreeing |
| Commands.EachCallHasItsOwnDialog | crates/otelc-tui/src/app.rs:533-572 | no confirmation or editor serves two calls |
| Commands.OutcomeIsShown | crates/otelc-tui/src/app.rs:606-620 | after a call the dialog is gone, and the view differs only in a status line naming the agent, or in a box with the error |
| Commands.OffersOnlyUnderLatestBitmask | crates/otelc-tui/src/app.rs:630-635 | fed by the translator, a record supports a command exactly if the agent's latest message held the bit 0x2 or 0x400 |
| Commands.OnlyBackspacePanics | crates/otelc-tui/src/app.rs:390-572 | key handling panics exactly on Backspace past the last character |
| EditorKeys.KeyEditsText | crates/otelc-tui/src/app.rs:560-568 | for every key but Esc and F5, any text and cursor: the editor stays open and the key does to the text and offset what it should, exactly where bytes and characters agree as far as it looks |
| EditorKeys.EditsDetermine | crates/otelc-tui/src/app.rs:560-568 | that effect of a key - splice, deletion, one offset, the ends of the line, the same column of the line above or below - leaves one text and offset |
| EditorKeys.TypingFollowsExactly | crates/otelc-tui/src/app.rs:95-172 | any terminal keys typed into any content: the editor holds what they type exactly as long as each is typed where bytes and characters agree |
| EditorKeys.PlainIsFaithful | crates/otelc-tui/src/app.rs:115-171 | which they always do on ASCII text, and on any text without Left, Right and End |
| KeyRules.MenuMatchesKeys | crates/otelc-tui/src/app.rs:500-531 | choosing a menu entry does what the key named in it does on the panels, but for the status line of the filter prompt |
| KeyRules.MenuKeysStep | crates/otelc-tui/src/app.rs:504-506 | Down and j go to the next row of the menu past the separators and around, Up and k back |
| KeyRules.CycleFollowsDigits | crates/otelc-tui/src/app.rs:407-411 | F3 goes through the views in the order of their digits and around |
| KeyRules.ArrowKeysMoveHighlight | crates/otelc-tui/src/app.rs:441-444 | on the fleet panel the arrow and page keys move the highlight by 1 or 10, clamped to the list, and change nothing else |
| KeyRules.ArrowKeysScroll | crates/otelc-tui/src/app.rs:457-465 | on other panels they scroll, not above the top and modulo 2^16 |
| KeyRules.CommandKeysOpenDialogs | crates/otelc-tui/src/app.rs:574-604 | F4, F5 and F6 open their dialog exactly if there is a highlighted agent that accepts the command |
| KeyRules.KeysCloseDialogs | crates/otelc-tui/src/app.rs:533-558 | exactly which keys close each dialog without a call |
| KeyRules.PromptSetsFilter | crates/otelc-tui/src/app.rs:481-498 | F7, a text and Enter append the text to the filter; Esc clears it; Backspace takes one character back |
| KeyRules.FilterRule | crates/otelc-tui/src/app.rs:313-324 | an agent matches if its lower-cased name or UID has the lower-cased filter at some offset |
| Menus.Menu.Step | crates/otelc-tui/src/app.rs:243-253 | the loop terminates on the nearest selectable entry in its direction, cyclically |
| Menus.StepsUndo | crates/otelc-tui/src/app.rs:243-253 | from a selectable entry a step one way and one the other way undo each other |
| Menus.StepAdvancesRank | crates/otelc-tui/src/app.rs:243-253 | a forward step goes to the next rank among selectable entries, cyclically |
| Menus.WalkIsTour | crates/otelc-tui/src/app.rs:243-253 | repeated steps visit every selectable entry exactly once before returning to the first |
| App.Run | crates/otelc-tui/src/app.rs:645-687 | the event loop on a new application object, over any inputs: the views and calls it goes through are a run of the UI semantics, ending at a quit, a panic or the end of the inputs, so every property of runs holds of the object |
| App.App.HandleEditorKey | crates/otelc-tui/src/app.rs:550-569 | keys on the open editor object change its bytes as the document semantics says, and F5 sends the decoded text; every other key but Esc edits the text, or moves the cursor, as that terminal key should, exactly where bytes and characters agree |
| App.App.StepMenu | crates/otelc-tui/src/app.rs:505-506 | a menu key moves the menu object to the unique nearest selectable entry |
| Telemetry.FindResourceKey | crates/otelc-otlp/src/store.rs:117-133 | the loop with its early return computes the resource key |
| Telemetry.ResourceKeyRule | crates/otelc-otlp/src/store.rs:117-133 | first instance id with a value, else last service name with one, else "unknown" |
| Telemetry.AppendPoints | crates/otelc-otlp/src/store.rs:43-59 | the nested loops append exactly the points of each metric, in arrival order |
| Telemetry.MetricPointsRule | crates/otelc-otlp/src/store.rs:45-58 | a gauge or a sum of n data points gives n points with the metric's name and unit, each with its time and its double, its integer as a real, or 0; other data gives none |
| Telemetry.AppendMetric | crates/otelc-otlp/src/store.rs:45-58 | the innermost loop appends exactly those |
| TelemetryRules.MetricExtendsHistory | crates/otelc-otlp/src/store.rs:38-64 | one more metric extends the history of its resource's key by exactly its points, and no other |
| TelemetryRules.HistoryAdds | crates/otelc-otlp/src/store.rs:38-106 | histories add up, batch after batch, in order |
| TelemetryRules.PointsAdd | crates/otelc-otlp/src/store.rs:43-59 | splitting metrics over scopes or over resources does not change the history |
| TelemetryRules.LineRule | crates/otelc-otlp/src/store.rs:72-91 | a line has the record's time, its severity text or else the label of its number in groups of four, and its body as text |
| TelemetryRules.ValueTextRule | crates/otelc-otlp/src/store.rs:135-147 | how each kind of value is spelled; an integer by decimal digits that read back to it |
| TelemetryRules.LinesAdd | crates/otelc-otlp/src/store.rs:67-95 | the lines of a scope are those of its records, one each, and splitting over scopes does not show |
| TelemetryRules.StoreHoldsNewest | crates/otelc-otlp/src/store.rs:13-14 | after any ingests each key holds the newest 4000 points, the newest 2000 lines and the span total modulo 2^64 of its whole history |
| Telemetry.AppendLines | crates/otelc-otlp/src/store.rs:72-91 | the nested loops append exactly the log lines, in arrival order |
| Telemetry.Evict | crates/otelc-otlp/src/store.rs:60-62 | the eviction loop keeps exactly the newest elements up to the bound |
| Telemetry.TelemetryStore.IngestMetrics | crates/otelc-otlp/src/store.rs:38-64 | the map becomes the fold of the request's resources; other keys keep their entries |
| Telemetry.TelemetryStore.IngestLogs | crates/otelc-otlp/src/store.rs:67-95 | the same for logs |
| Telemetry.TelemetryStore.IngestTraces | crates/otelc-otlp/src/store.rs:98-106 | the same for span counts |
| Telemetry.StoreIsWindow | crates/otelc-otlp/src/store.rs:38-106 | after any ingests each key holds the window of its whole history, and is there exactly if some resource had it |
| Telemetry.GroupingDoesNotShow | crates/otelc-otlp/src/store.rs:38-106 | equal histories give equal entries, however grouped into requests, resources and scopes |
| Telemetry.KeysStay | crates/otelc-otlp/src/store.rs:28-35 | the store never forgets a key, so a listed key always has a snapshot |
| Snapshots.LatestMetrics | crates/otelc-otlp/src/model.rs:33-41 | overwriting a hash map and sorting its values gives one canonical list, whatever the map's order |
| Snapshots.LatestIsNewestPerName | crates/otelc-otlp/src/model.rs:32-41 | that list is strictly sorted by name and holds exactly the newest point of each name |
| Snapshots.LatestAgreesWithHistory | crates/otelc-otlp/src/model.rs:32-41 | over the window it lists a name exactly if one of the last n points has it, and then with its newest point in the whole history |
| Snapshots.Poll | crates/otelc-tui/src/control/embedded.rs:115-153 | one event per key the store held when the round began, each with that key's snapshot at its own moment, while requests keep arriving in between |
| Snapshots.SnapshotShowsHistory | crates/otelc-tui/src/control/embedded.rs:119-145 | a snapshot in terms of the whole history: a row for each of the newest 300 lines, newest first, and for the newest point of each name among the last 4000, and the span total modulo 2^64 |
| Pipelines.ParsedGraph | crates/otelc-tui/src/pipeline.rs:84-110 | pipelines come strictly sorted by name, one per entry with its lists; connectors are exactly the textual keys of a mapping |
| Pipelines.Iterate | crates/otelc-tui/src/pipeline.rs:39 | a B-tree iterates the same list whatever order its elements came in |
| Pipelines.Bridges | crates/otelc-tui/src/pipeline.rs:37-59 | the nested loops produce the bridges connector by connector, source by source |
| Pipelines.BridgesAreExact | crates/otelc-tui/src/pipeline.rs:37-59 | a bridge is listed exactly if its connector is declared, exported by its source and received by its target |
| Pipelines.BridgesIncrease | crates/otelc-tui/src/pipeline.rs:37-59 | the bridges of a name-sorted graph are strictly increasing, hence without duplicates |
| Pipelines.AllBridgesCount | crates/otelc-tui/src/pipeline.rs:37-59 | their number is the sum over connectors of exporting times receiving pipelines |

## Left out

- FleetAgreement.FleetAgrees: connections that ended through an error exit are excluded, because the code leaves their entries behind; `UiAgreesUnlessLeaked` and `ErrorExitLeavesAgentListed` say exactly when that shows.
- TextEditor.RunRefines: Left, Right and End are covered on ASCII text only, because `line_len` counts bytes where the cursor counts characters; `StepRefinesExactly` and `RunTracksExactly` give the exact condition for one key and for any run.
- EditorKeys.TypingFollowsExactly: a typed character is never a line break, which terminals send as Enter.
- Pipelines.BridgesIncrease: assumes pipelines sorted by name, which `ParsedGraph` shows of every parsed graph; a graph built by hand need not be.
- Integer widths: cursor positions and list indices are unbounded where the source casts through `i32`, and sequence numbers do not wrap at 2^64. The span count does wrap, as a release build does, and the panel scroll is cast to 16 bits.
- Frame and protobuf decoding: a binary frame carries the message it decodes to, or none. Pongs and TCP or WebSocket handshakes are not modelled beyond failing.
- Log output, and the address and count accessors of the handle.
- UUID generation: UIDs drawn by mock agents are assumed distinct; a UID that `serve` makes up for a malformed one is an input of the step.
- SHA-256: any function from texts to hashes. The base config of the mock agent is a parameter of its profile.
- Config bodies are texts; lossy UTF-8 decoding of foreign bytes is not modelled. Attribute values of OpAMP messages come as the text they are rendered to.
- Wall-clock fields such as `last_seen`, and the values behind them; start times are inputs.
- Floating point: metric values are reals, and an integer point converts without rounding. How a double prints is part of its value.
- YAML decoding: `Pipelines` starts from the decoded configuration. That the topology is acyclic is not claimed; nothing in the code enforces it.
- Lower-casing in the filter is an arbitrary function of strings.
- Drawing, themes, the editor's scroll offset, the telemetry panels, the captions of dialogs and the wording of status lines.
- The external control plane, the command line and the config file.
- The mock agent's OTLP pushes and the gRPC receiver: ingestion starts from decoded requests.
