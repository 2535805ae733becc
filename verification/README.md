# Home-automation bus: models and proofs

The repository moves device discoveries, states and commands between small services over MQTT, in two
conventions (Sparkplug B and Home Assistant). Its parts keep counters, indexes, filters and encodings that
have to agree with something simpler. This project models those parts in Dafny and proves that they do, or
states the exact condition under which they do.

Stateful components are classes with the source's fields; every method is proved against a specification
function, and the properties are lemmas about those functions over all runs. A failed network call is a
parameter of the step that makes it, so a run ranges over every pattern of failures. Time is a parameter.

| file | what it holds |
|---|---|
| `Topics.dfy` | topic building and parsing in both conventions |
| `SparkplugIngest.dfy`, `SparkplugPublisher.dfy` | the two ends of the Sparkplug sequence protocol |
| `SequenceProtocol.dfy` | publisher, lossy in-order channel, ingest, rebirth requests and rebirths as one state machine; the theorems about mismatches |
| `SparkplugDelivery.dfy` | that the messages of that state machine are what the bytes on the bus are read as |
| `Feedback.dfy` | the loop from mismatches over requests to rebirths: how fast it turns and what it costs |
| `Availability.dfy` | reference-counted availability subscriptions and the broker's view of them |
| `Registry.dfy`, `Status.dfy` | the logger's entity index, its status page, and their composition |
| `Escapes.dfy`, `LineProtocol.dfy` | escapes as one-pass substitutions; line-protocol printer and a reader for it |
| `StateFilter.dfy` | the state filter on whole streams |
| `Tplink.dfy`, `Varint.dfy`, `Esphome.dfy` | cipher and frame; varints; plaintext frames |
| `Sparkplug.dfy`, `Commands.dfy`, `Routing.dfy` | Protocol Buffers wire rules, payloads, the command tool, the command parser and command routes |
| `MatterNames.dfy`, `MatterModel.dfy` | name tables, slugs and capability ids |
| `Wrappers.dfy`, `Octets.dfy`, `Sequences.dfy`, `Text.dfy`, `Contracts.dfy` | options, bytes, regrouping facts and an induction over runs, strings, the shared messages |

## Where the code falls short of its own words

- `publish_discovery` says that the node birth is published once before any device birth. It is tried once;
  after a failure every later announcement sends its device birth without it.
  `SparkplugPublisher.NodeBirthFirstExactly` gives the exact condition on the calls.
- `docs/architecture.md` says that a rebirth is requested only on a detected mismatch. It is, but a rebirth
  itself leads to mismatches: it re-announces with number 0 and leaves the counters alone. The loop feeds
  itself: after one lost report, or one rebirth with nothing lost, reports are all mismatches until a number is
  1 mod 256 or two reports are less than 30 s apart (`RebirthFeedback.OneLossStorm`,
  `RebirthFeedback.HostRebirthStorm`). `SequenceProtocol.MismatchFleetTheorem` and
  `RebirthFeedback.FeedbackFleetTheorem` are the bounds.
- Counters, rebirth births and command routes are kept per raw device id, streams and topics per sanitised id.
  Two ids with one sanitised form mismatch each other and share a command route; `MismatchFleetTheorem`,
  `QuietFleetTheorem` and `CommandsReachTheirDevice` say that this is the only obstacle.
- A tombstone deletes state keys that another live discovery also claims
  (`CoreRegistry.UnionExactlyWhenOwnersDisjoint`). A state key names neither group nor edge node, so devices of one
  name at two nodes silence each other (`SparkplugOwners.OwnersDisjointExactly`).
- An announcement without capabilities is ignored by the entity index and counted by the status page
  (`Tracking.RegistriesAgreeExactly`).
- The capability count of a tracked device never drops while the device has a discovery key, also when a
  capability is gone (`StatusRegistry.CapabilitiesCurrentExactly`).
- The command tool keeps letters and digits outside ASCII, which the adapter replaces
  (`SparkplugCommands.ToolTopic`).
- Line ends in measurements, tags and keys are not escaped (`LineProtocol.BatchRoundTrip`).
- The command tool accepts sequence numbers beyond 64 bits, which make its payload undecodable
  (`SparkplugCommands.OversizedSeqRejected`).

## Model

| member | source | states |
|---|---|---|
| SequenceProtocol.RunKeeps | crates/hs-eventbus-mqtt-sparkplug-b/src/ingest_adapter.rs:76-172 | in every run of publisher, channel, ingest and rebirths in which nothing else sends on the device's stream: the counter is the count of numbers taken mod 256, the wire holds exactly the numbers in flight in order, the expected number follows what was last delivered, and the mismatch balance holds |
| SequenceProtocol.MismatchBound | crates/hs-eventbus-mqtt-sparkplug-b/src/ingest_adapter.rs:114-145 | in every run in which nothing else sends on a device's stream, its mismatches number at most its loss gaps plus the rebirth births delivered to it |
| SequenceProtocol.MismatchFleetTheorem | crates/hs-eventbus-mqtt-sparkplug-b/src/ingest_adapter.rs:114-145 | that bound holds for every device in every run of a fleet of devices at any number of edge nodes, with any losses, failures, deaths and rebirths, if and only if no two of its devices share a stream |
| SequenceProtocol.MismatchExactly | crates/hs-eventbus-mqtt-sparkplug-b/src/ingest_adapter.rs:121-145 | after any run in which nothing else sends on the device's stream, its next data message is found out of sequence exactly when the numbers missed since the last one read are not a multiple of 256 (after a rebirth: when its number is not 1 mod 256; never with nothing to compare to) |
| SequenceProtocol.PredictionFleetTheorem | crates/hs-eventbus-mqtt-sparkplug-b/src/ingest_adapter.rs:121-145 | that prediction is right for every device after every run of such a fleet, if and only if no two of its devices share a stream |
| SequenceProtocol.CounterIsCount | crates/hs-eventbus-mqtt-sparkplug-b/src/publish_adapter.rs:234-241 | the k-th number a device takes is k mod 256 whatever other devices do, and the byte increment at the ingest side is the same counter |
| SequenceProtocol.QuietFleetTheorem | crates/hs-eventbus-mqtt-sparkplug-b/src/publish_adapter.rs:182-205 | no run of such a fleet without losses and rebirths has a mismatch, if and only if no two of its devices share a stream |
| SequenceProtocol.CollisionMismatches | crates/hs-eventbus-mqtt-sparkplug-b/src/topics.rs:10-17 | two devices with one stream, at one node or at two, mismatch each other after three reports |
| SequenceProtocol.StreamsAreTopics | crates/hs-eventbus-mqtt-sparkplug-b/src/ingest_adapter.rs:203-240 | a device's stream is what the ingest adapter reads off its topics, and two devices at any nodes have one stream exactly when they have one topic |
| SparkplugDelivery.BirthIsRead | crates/hs-eventbus-mqtt-sparkplug-b/src/ingest_adapter.rs:82-112 | the bytes of a device birth on the device's topic are read as exactly the birth message the protocol theorems speak about: on its stream, with its number, usable when it has capabilities |
| SparkplugDelivery.DataIsRead | crates/hs-eventbus-mqtt-sparkplug-b/src/ingest_adapter.rs:114-154 | so are the bytes of a report, whatever its value |
| SparkplugDelivery.RebirthCarried | crates/hs-eventbus-mqtt-sparkplug-b/src/publish_adapter.rs:250-287 | a whole rebirth spends one request and leaves on the wire exactly the births of stored discoveries that were published, in order; and nothing when its node birth fails |
| RebirthFeedback.RebirthsAnswerRequests | crates/hs-eventbus-mqtt-sparkplug-b/src/ingest_adapter.rs:359-385 | in every run of a node, rebirths begun never exceed requests, the adapter's own requests never exceed mismatches, and they number at most one per 30 s elapsed plus one |
| RebirthFeedback.FeedbackBound | crates/hs-eventbus-mqtt-sparkplug-b/src/publish_adapter.rs:250-287 | in every run in which nothing else sends on a device's stream, its mismatches number at most its loss gaps, plus other hosts' requests, plus one per 30 s elapsed, plus one |
| RebirthFeedback.FeedbackFleetTheorem | crates/hs-eventbus-mqtt-sparkplug-b/src/publish_adapter.rs:250-287 | that bound holds for every device in every run of a fleet at any number of edge nodes, if and only if no two of its devices share a stream |
| RebirthFeedback.OneLossStorm | crates/hs-eventbus-mqtt-sparkplug-b/src/ingest_adapter.rs:121-133 | for any counter position and any waits between reports, the exact numbers of mismatches and rebirths after one lost report: every report is a mismatch and brings a rebirth until a number is 1 mod 256 or a wait is shorter than 30 s; after a short wait there is one more mismatch and no rebirth |
| RebirthFeedback.HostRebirthStorm | crates/hs-eventbus-mqtt-sparkplug-b/src/publish_adapter.rs:250-287 | the same after one rebirth another host asked for, with nothing lost |
| RebirthFeedback.RebirthDisturbs | crates/hs-eventbus-mqtt-sparkplug-b/src/publish_adapter.rs:250-287 | with nothing lost, one rebirth makes the next report a mismatch unless its number is 1 mod 256, so the bound is reached |
| SparkplugIngest.IngestLoop.Handle | crates/hs-eventbus-mqtt-sparkplug-b/src/ingest_adapter.rs:76-172 | the event loop's step on births, data and deaths, as a function of the old state |
| SparkplugIngest.IngestLoop.MaybeRequestRebirth | crates/hs-eventbus-mqtt-sparkplug-b/src/ingest_adapter.rs:359-385 | a request is made unless one is cooling down or the publish fails, and only a sent one is remembered |
| SparkplugIngest.LastRequestIsLatest | crates/hs-eventbus-mqtt-sparkplug-b/src/ingest_adapter.rs:359-385 | the remembered instant of an edge node is that of its latest request |
| SparkplugIngest.RequestsSpaced | crates/hs-eventbus-mqtt-sparkplug-b/src/ingest_adapter.rs:359-385 | two requests to one edge node are never less than 30 s apart, over every run |
| SparkplugIngest.ExpectedExactly | crates/hs-eventbus-mqtt-sparkplug-b/src/ingest_adapter.rs:95-172 | over every run the expected number of a stream, read off the messages alone: one after the last number read from a report or a usable birth since the last death; messages without a number that fits a byte change nothing |
| SparkplugIngest.MismatchedExactly | crates/hs-eventbus-mqtt-sparkplug-b/src/ingest_adapter.rs:114-145 | over every run a message is out of sequence exactly when it is a report whose number is not the one expected after the last message with a number |
| SparkplugIngest.RequestedExactly | crates/hs-eventbus-mqtt-sparkplug-b/src/ingest_adapter.rs:359-385 | a request is made exactly on a mismatch whose request can be sent, unless one was made to the same edge node less than 30 s before |
| SparkplugIngest.RequestsAnswerMismatches | crates/hs-eventbus-mqtt-sparkplug-b/src/ingest_adapter.rs:121-133 | a request is made only on a mismatch, and a mismatch whose request can be sent is covered by one less than a cooldown old |
| SparkplugPublisher.PublishAdapter.NextSeq | crates/hs-eventbus-mqtt-sparkplug-b/src/publish_adapter.rs:234-241 | returns the device's number and advances it mod 256, other devices unchanged |
| SparkplugPublisher.PublishAdapter.Discover | crates/hs-eventbus-mqtt-sparkplug-b/src/publish_adapter.rs:134-180 | what is published, stored and counted by an announcement, also when the node birth or the device birth fails |
| SparkplugPublisher.PublishAdapter.Publish | crates/hs-eventbus-mqtt-sparkplug-b/src/publish_adapter.rs:182-205 | a report takes one number, whether it is sent or not |
| SparkplugPublisher.PublishAdapter.Rebirth | crates/hs-eventbus-mqtt-sparkplug-b/src/publish_adapter.rs:250-287 | node birth, then every stored discovery with number 0; nothing else changes, and nothing follows a failed node birth |
| SparkplugPublisher.StoredExactly | crates/hs-eventbus-mqtt-sparkplug-b/src/publish_adapter.rs:134-152 | after any run of calls the stored discovery of each device is the last one announced for it, whether or not it was published, except by a first announcement whose node birth failed |
| SparkplugPublisher.PublishedExactly | crates/hs-eventbus-mqtt-sparkplug-b/src/publish_adapter.rs:134-205 | which publishes a run of calls makes, in order, read off the calls alone: one node birth, by the first announcement, and one birth or report for every call but a first announcement whose node birth failed, numbered by how many its device had before, mod 256 |
| SparkplugPublisher.RebirthAnnouncesLatest | crates/hs-eventbus-mqtt-sparkplug-b/src/publish_adapter.rs:250-287 | after any run of calls a rebirth tries the node birth and, unless that fails, births every device that was announced exactly once, as it was last announced and with number 0, and no other device |
| SparkplugPublisher.NodeBirthTriedOnce | crates/hs-eventbus-mqtt-sparkplug-b/src/publish_adapter.rs:137-145 | over every run of calls exactly the first announcement tries a node birth, before any device birth |
| SparkplugPublisher.NodeBirthFirstExactly | crates/hs-eventbus-mqtt-sparkplug-b/src/publish_adapter.rs:137-145 | every device birth comes after a published node birth, if and only if that one try succeeds or there is at most one announcement |
| CommandRouting.CommandLoop.SubscribeDeviceCommands | crates/hs-eventbus-mqtt-sparkplug-b/src/publish_adapter.rs:81-114 | registers switches as taking Booleans and buttons as taking strings, in order up to the first failed subscribe; `CommandsDelivered` says what the registrations are worth |
| CommandRouting.CommandLoop.Receive | crates/hs-eventbus-mqtt-sparkplug-b/src/transport.rs:38-80 | node commands lead to rebirths, routed topics to parsed commands, everything else to nothing |
| CommandRouting.RoutesExactly | crates/hs-eventbus-mqtt-sparkplug-b/src/publish_adapter.rs:103-110 | after any registrations a topic's route belongs to the first device under it and expects for each capability the type asked last |
| CommandRouting.RequestsRoute | crates/hs-eventbus-mqtt-sparkplug-b/src/publish_adapter.rs:81-114 | the same after any run of subscribe requests, with any of their subscribes failing |
| CommandRouting.CommandsReachTheirDevice | crates/hs-eventbus-mqtt-sparkplug-b/src/publish_adapter.rs:95-110 | whatever a fleet registers, each device's commands carry its own id, if and only if no two of its ids sanitise alike |
| CommandRouting.NodeCommandExactly | crates/hs-eventbus-mqtt-sparkplug-b/src/transport.rs:44-53 | any topic is taken for a node command exactly when one of its levels, neither the first nor the last, is NCMD |
| CommandRouting.CommandTopicIsNoNodeCommand | crates/hs-eventbus-mqtt-sparkplug-b/src/transport.rs:48-53 | no device command topic, for any ids, is taken for a node command |
| CommandRouting.KindsDecide | crates/hs-eventbus-mqtt-sparkplug-b/src/publish_adapter.rs:81-114 | over any run of subscribe requests a capability is registered as its last accepted entry says, an entry being accepted when no commandable one up to it failed, and a topic belongs to the first device that got anything accepted |
| CommandRouting.CommandsDelivered | crates/hs-eventbus-mqtt-sparkplug-b/src/command.rs:22-112 | after any run of subscribe requests, with any failing, any payload on a device's command topic gives, metric by metric and in order, a command for each Boolean under a name last accepted as a switch and each text under a name last accepted as a button, unless declared as another type, all for the first device that got anything accepted under the topic |
| CommandRouting.ToolReachesDevice | tools/sparkplug_dcmd_toggle.py:59-90 | after any run of subscribe requests, the tool's payload on a device's command topic gives one command with the requested state for the topic's owner, exactly when the capability was last accepted there as a switch and the sequence number fits 64 bits |
| CommandRouting.RebirthRequestArrives | crates/hs-eventbus-mqtt-sparkplug-b/src/transport.rs:44-53 | a rebirth request sent to parsed ids reaches the same topic as the raw ids and triggers a rebirth |
| Topics.SanitizeClean | crates/hs-eventbus-mqtt-sparkplug-b/src/topics.rs:52-60 | sanitising twice is sanitising once, and the result has no slash |
| Topics.DeviceTopicRoundTrip | crates/hs-eventbus-mqtt-sparkplug-b/src/ingest_adapter.rs:203-240 | a built topic parses under a verb exactly when it has that verb, to the sanitised ids; publishing those reaches the same topic |
| Topics.SharedTopic | crates/hs-eventbus-mqtt-sparkplug-b/src/topics.rs:1-30 | two device topics are the same exactly when they have one verb and their three ids sanitise alike |
| Topics.SharedNodeTopic | crates/hs-eventbus-mqtt-sparkplug-b/src/topics.rs:36-50 | device topics lie one level below their node's, and two node topics are the same exactly when they have one verb and both ids sanitise alike |
| Topics.SparkplugLevels | crates/hs-eventbus-mqtt-sparkplug-b/src/topics.rs:1-50 | the levels of birth and command topics and of registry keys, as their readers compare them |
| Topics.DiscoveryKeyInjective | crates/hs-eventbus-mqtt-sparkplug-b/src/ingest_adapter.rs:259-264 | devices read off any two topics share a registry key only when they are the same device |
| Topics.StateTopicRoundTrip | crates/hs-eventbus-mqtt-ha/src/ingest_adapter.rs:165-176 | a built state topic parses to the sanitised parts, and those reach the same topic |
| Topics.ConfigTopicRecognised | crates/hs-eventbus-mqtt-ha/src/ingest_adapter.rs:144-163 | a built config topic is recognised, with its parts, exactly when the prefix has no slash |
| Topics.HomeAssistantLevels | crates/hs-eventbus-mqtt-ha/src/topics.rs:12-61 | the levels of state and config topics, as their readers compare them |
| Topics.ObjectIdSplitsBack | crates/hs-eventbus-mqtt-ha/src/ingest_adapter.rs:440-443 | the fallback split recovers the sanitised pair exactly when the capability has no underscore |
| Availability.Subscriptions.SubscribeTopic | crates/hs-eventbus-mqtt-ha/src/ingest_adapter.rs:255-288 | only the first use subscribes, and a failed subscribe changes nothing |
| Availability.Subscriptions.UnsubscribeTopic | crates/hs-eventbus-mqtt-ha/src/ingest_adapter.rs:290-310 | only the last use unsubscribes, and the tables forget the topic whether or not that succeeds |
| Availability.Subscriptions.Reconcile | crates/hs-eventbus-mqtt-ha/src/ingest_adapter.rs:198-253 | the new tables and the client calls of an announcement |
| Availability.Subscriptions.Tombstone | crates/hs-eventbus-mqtt-ha/src/ingest_adapter.rs:63-75 | the new tables and the client calls of a withdrawal |
| Availability.ProcessKeeps | crates/hs-eventbus-mqtt-ha/src/ingest_adapter.rs:198-310 | every event keeps each count equal to the number of keys that use the topic |
| Availability.CountsAreUses | crates/hs-eventbus-mqtt-ha/src/ingest_adapter.rs:198-310 | in every run counts are numbers of users and at least 1, and the count and node tables hold exactly the topics in use |
| Availability.BrokerCoversNeeds | crates/hs-eventbus-mqtt-ha/src/ingest_adapter.rs:255-310 | whatever calls fail, the broker holds every needed topic, and beyond those exactly the ones whose last unsubscribe failed |
| Availability.NoSubscriptionGap | crates/hs-eventbus-mqtt-ha/src/ingest_adapter.rs:230-252 | between the calls of one event every topic needed before and after stays subscribed, and a switching key always has its old or new topic |
| Availability.FollowsRequests | crates/hs-eventbus-mqtt-ha/src/ingest_adapter.rs:198-253 | at every point of a run each key uses the topic it asked for last, if and only if no subscribe failed |
| Availability.RefinesPlainMap | crates/hs-eventbus-mqtt-ha/src/ingest_adapter.rs:198-310 | the counting refines a plain map from keys to topics: in every run, whatever fails, the same keys use the same topics and the same client calls are made in the same order; a topic is subscribed for its first user and given up by its last, and a key keeps its topic when the next one cannot be subscribed |
| Availability.NodeMappingStable | crates/hs-eventbus-mqtt-ha/src/ingest_adapter.rs:262-287 | a topic speaks for the node that first needed it for as long as it stays needed |
| CoreRegistry.CoreMetadata.RemoveListed | crates/hs-logger-core/src/core_metadata.rs:230-234 | removes exactly the state keys the discovery key listed |
| CoreRegistry.CoreMetadata.OnDiscovery | crates/hs-logger-core/src/core_metadata.rs:211-251 | replaces what the key listed by what it describes now; without capabilities changes nothing; `StateReachesLive` says what an entity contains |
| CoreRegistry.CoreMetadata.OnTombstone | crates/hs-logger-core/src/core_metadata.rs:253-266 | the state after a withdrawal |
| CoreRegistry.CoreMetadata.OnState | crates/hs-logger-core/src/core_metadata.rs:268-290 | a sample is written with the indexed entity of its state key, or dropped; the next row says which |
| CoreRegistry.StateReachesLive | crates/hs-logger-core/src/core_metadata.rs:48-290 | in every run a state sample is written only with the tags of a live discovery's last capability with its id: its node, device, capability id, kind, manufacturer and model, its unit and device class exactly when given, and nothing else; and always with those when owners are disjoint |
| CoreRegistry.RegistryHoldsOnlyLive | crates/hs-logger-core/src/core_metadata.rs:211-266 | in every run every indexed entity is what some live discovery currently says of it |
| CoreRegistry.TombstoneSilences | crates/hs-logger-core/src/core_metadata.rs:253-266 | after a tombstone none of that key's capabilities is indexed |
| CoreRegistry.SharedClaimLost | crates/hs-logger-core/src/core_metadata.rs:253-266 | withdrawing one of two claimants takes the entity from the other |
| CoreRegistry.UnionExactlyWhenOwnersDisjoint | crates/hs-logger-core/src/core_metadata.rs:211-266 | for every run of a population the index is the union of the live descriptions, if and only if its keys describe disjoint state keys |
| SparkplugOwners.OwnersDisjointExactly | crates/hs-eventbus-mqtt-sparkplug-b/src/ingest_adapter.rs:259-303 | births read off topics own disjoint state keys, if and only if no two paths with another group or edge node share a device id and a capability |
| SparkplugOwners.NodesSilenceEachOther | crates/hs-eventbus-mqtt-sparkplug-b/src/ingest_adapter.rs:259-303 | a withdrawal at one node takes a shared capability from the other node's live device |
| CoreRegistry.AvailabilityReachesLive | crates/hs-logger-core/src/core_metadata.rs:135-151 | an availability sample selects only capabilities some live discovery of that node or device describes, and all of them when owners are disjoint |
| StatusRegistry.LoggerStatus.PruneDiscoveryKey | crates/hs-service-timeseries-logger/src/status.rs:275-286 | takes one key from a device and drops the device with its last key |
| StatusRegistry.LoggerStatus.OnDiscovery | crates/hs-service-timeseries-logger/src/status.rs:66-106 | both indexes and the device entry after an announcement |
| StatusRegistry.LoggerStatus.OnTombstone | crates/hs-service-timeseries-logger/src/status.rs:108-113 | both indexes after a withdrawal |
| StatusRegistry.LoggerStatus.ShownSubscriptions | crates/hs-service-timeseries-logger/src/status.rs:115-125 | the configured subscriptions, then each tracked availability topic exactly once |
| StatusRegistry.AvailabilityExactly | crates/hs-service-timeseries-logger/src/status.rs:66-106 | in every run an entry shows the availability topic last announced for it since it was last without a key, also when the key that announced it has left |
| StatusRegistry.ShownExactly | crates/hs-service-timeseries-logger/src/status.rs:115-125 | in every run the availability topics shown are those last announced for some device with a live key |
| StatusRegistry.IndexesInverse | crates/hs-service-timeseries-logger/src/status.rs:66-113 | in every run a device's keys are exactly those mapped to it, none is without a key, and each key maps to its latest device |
| StatusRegistry.CapabilitiesCovered | crates/hs-service-timeseries-logger/src/status.rs:100-105 | every live discovery's capabilities are counted at its device |
| StatusRegistry.CapabilitiesExactly | crates/hs-service-timeseries-logger/src/status.rs:86-105 | in every run a device is tracked exactly while it has a live key, and counts exactly the capabilities announced for it since it was last without one |
| StatusRegistry.CountedExactly | crates/hs-service-timeseries-logger/src/status.rs:86-105 | in every run an entry counts a capability exactly when some event announced one with that id for it and it has had a key ever since |
| StatusRegistry.CapabilitiesCurrentExactly | crates/hs-service-timeseries-logger/src/status.rs:100-105 | the counts are those of the live discoveries at every point of a run, if and only if no event takes a capability from a device that stays |
| StatusRegistry.EntriesSharedExactly | crates/hs-service-timeseries-logger/src/status.rs:263-265 | two nodes can share an entry exactly when one id and a slash is a prefix of the other |
| StatusRegistry.DevicesNotConfused | crates/hs-service-timeseries-logger/src/status.rs:263-265 | with slash-free node ids the entry of a live key names its node and device |
| StatusRegistry.SourceIsOwn | crates/hs-service-timeseries-logger/src/status.rs:76-99 | in every run an entry shows the running adapter and, for ids as read off topics, a state source that covers exactly the topics of its own device's states |
| Tracking.TrackingEventProcessor.OnDiscovery | crates/hs-service-timeseries-logger/src/tracking_processor.rs:23-26 | both registries take the step |
| Tracking.TrackingEventProcessor.OnTombstone | crates/hs-service-timeseries-logger/src/tracking_processor.rs:28-31 | both registries take the step |
| Tracking.RegistriesAgreeExactly | crates/hs-service-timeseries-logger/src/tracking_processor.rs:23-31 | both registries hold the same live keys at every point of a run, if and only if no key becomes live without capabilities |
| Escapes.MeasurementIsOnePass | crates/hs-service-timeseries-logger/src/influx_writer.rs:139-144 | the replacement chain is one simultaneous substitution |
| Escapes.TagIsOnePass | crates/hs-service-timeseries-logger/src/influx_writer.rs:146-160 | the same for tags and field keys |
| Escapes.StringIsOnePass | crates/hs-service-timeseries-logger/src/influx_writer.rs:162-164 | the same for quoted strings |
| Escapes.EscapesUndone | crates/hs-service-timeseries-logger/src/influx_writer.rs:139-164 | every escape has an inverse on all strings |
| Escapes.HtmlIsOnePass | crates/hs-service-timeseries-logger/src/status.rs:288-295 | the HTML chain is one simultaneous substitution |
| Escapes.HtmlRoundTrip | crates/hs-service-timeseries-logger/src/status.rs:288-295 | reading the entities back gives the original text |
| LineProtocol.ToLineProtocol | crates/hs-service-timeseries-logger/src/influx_writer.rs:101-137 | the loops print the line of a point; the next row says what it is worth |
| LineProtocol.PrintoutReadsBack | crates/hs-service-timeseries-logger/src/influx_writer.rs:101-137 | nothing is printed exactly when every field is a NaN or an infinity; otherwise the line reads back as the point without exactly those fields, in order, exactly when its names fit one line |
| LineProtocol.Body | crates/hs-service-timeseries-logger/src/influx_writer.rs:66-75 | the lines of a batch, joined; the body reads back as the points that have a finite field, without their other fields, in order, exactly when each fits one line |
| LineProtocol.TokenRoundTrip | crates/hs-service-timeseries-logger/src/influx_writer.rs:139-160 | an escaped name reads back up to its separator, also when it ends in a backslash, exactly when it has no line end |
| LineProtocol.QuotedRoundTrip | crates/hs-service-timeseries-logger/src/influx_writer.rs:162-164 | every string survives quoting |
| LineProtocol.FieldRoundTrip | crates/hs-service-timeseries-logger/src/influx_writer.rs:117-125 | numbers, booleans and texts read back as themselves |
| LineProtocol.PointRoundTrip | crates/hs-service-timeseries-logger/src/influx_writer.rs:101-137 | a printed line before a line end, whatever follows, reads back as the point without exactly its NaN and infinite fields, exactly when its names fit one line |
| LineProtocol.BatchRoundTrip | crates/hs-service-timeseries-logger/src/influx_writer.rs:66-75 | a body reads back as the points that have a finite field, without their other fields, in order, exactly when each fits one line |
| StateFilter.Filter.SeedFromStates | crates/hs-device-core/src/state_filter.rs:44-51 | the memory after seeding |
| StateFilter.Filter.ShouldPublishAndRemember | crates/hs-device-core/src/state_filter.rs:53-70 | the decision and the memory after one sample; `SuppressedExactly` says what the decision is |
| StateFilter.Projection | crates/hs-device-core/src/state_filter.rs:53-70 | from any state, filtering then selecting a capability is selecting then filtering |
| StateFilter.Idempotent | crates/hs-device-core/src/state_filter.rs:53-70 | filtering a filtered stream changes neither the stream nor the final memory, from any common state |
| StateFilter.MemoryIsLastEmitted | crates/hs-device-core/src/state_filter.rs:44-70 | in every run both memory maps know the same capabilities and hold what was last seeded or emitted |
| StateFilter.UnchangedWasEmitted | crates/hs-device-core/src/state_filter.rs:72-83 | the publish path never meets an unchanged value without an emission instant |
| StateFilter.SuppressedExactly | crates/hs-device-core/src/state_filter.rs:53-97 | a sample is suppressed exactly when it is negligible next to what consumers last got: for numbers with a threshold strictly within it on either side, otherwise equal, and younger than the silence limit |
| TplinkProtocol.Encrypt | crates/hs-service-device-tplink-hs110/src/tplink_protocol.rs:1-12 | the loop computes the autokey cipher |
| TplinkProtocol.Decrypt | crates/hs-service-device-tplink-hs110/src/tplink_protocol.rs:14-25 | the loop computes the inverse cipher |
| TplinkProtocol.FrameRequest | crates/hs-service-device-tplink-hs110/src/tplink_protocol.rs:27-33 | a truncated 32-bit length and the cipher text |
| TplinkProtocol.DecryptEncrypted | crates/hs-service-device-tplink-hs110/src/tplink_protocol.rs:1-25 | decryption undoes encryption on all byte strings and keys |
| TplinkProtocol.EncryptDecrypted | crates/hs-service-device-tplink-hs110/src/tplink_protocol.rs:1-25 | encryption undoes decryption on all byte strings and keys |
| TplinkProtocol.EncryptSplits | crates/hs-service-device-tplink-hs110/src/tplink_protocol.rs:1-12 | encryption of a concatenation, the last cipher byte keying the rest |
| TplinkProtocol.FrameRoundTrip | crates/hs-service-device-tplink-hs110/src/tplink_protocol.rs:27-46 | a frame and any suffix parse to the request cut to its length mod 2^32, so to the request exactly when it is shorter than 2^32 |
| TplinkProtocol.FrameBits | crates/hs-service-device-tplink-hs110/src/tplink_protocol.rs:1-33 | a frame bit by bit: the length mod 2^32 most significant byte first, then each request byte with its bits flipped where the frame's byte before it has ones, the first where 171 has |
| TplinkProtocol.PrefixRejected | crates/hs-service-device-tplink-hs110/src/tplink_protocol.rs:35-46 | a prefix of a frame parses as soon as it holds what the truncated length says, so no proper prefix parses if and only if the request is shorter than 2^32 |
| Varint.EncodeVarint | tools/sparkplug_dcmd_toggle.py:19-32 | the loop writes the base 128 digits |
| Varint.EncodedMeans | tools/sparkplug_dcmd_toggle.py:19-32 | the digits denote the number, exactly the last byte lacks the high bit, and there is no leading zero digit |
| Varint.RoundTrip | tools/sparkplug_dcmd_toggle.py:19-32 | a written varint reads back, with what follows it, exactly when it fits 64 bits |
| EsphomeFraming.ReadPlaintextFrame | crates/hs-service-device-esphome/src/esphome.rs:443-470 | the reader with its cursor and length loop is the frame parser, all three errors included |
| EsphomeFraming.LengthSizeBounds | crates/hs-service-device-esphome/src/esphome.rs:450-460 | a length takes at most five bytes on any input |
| EsphomeFraming.FrameRoundTrip | crates/hs-service-device-esphome/src/esphome.rs:422-470 | a written frame reads back and leaves what follows, exactly when its payload is shorter than 2^35 |
| EsphomeFraming.FrameLayout | crates/hs-service-device-esphome/src/esphome.rs:422-441 | a zero byte, a varint that denotes the payload's length, the kind and the payload |
| EsphomeFraming.DamagedFrame | crates/hs-service-device-esphome/src/esphome.rs:443-470 | a short frame cut anywhere ends too early, and one with another first byte is refused for its marker |
| EsphomeFraming.StreamRoundTrip | crates/hs-service-device-esphome/src/esphome.rs:422-479 | any concatenation of frames reads back as the written messages, exactly when all are that short |
| Wire.FieldRoundTrip | tools/sparkplug_dcmd_toggle.py:35-44 | a wire field reads back, with what follows it, exactly when its value fits |
| Wire.FieldsRoundTrip | tools/sparkplug_dcmd_toggle.py:35-44 | so does any list of fields |
| SparkplugPayload.MetricRoundTrip | crates/hs-eventbus-mqtt-sparkplug-b/src/payloads.rs:9-53 | every metric decodes to itself |
| SparkplugPayload.PayloadRoundTrip | crates/hs-eventbus-mqtt-sparkplug-b/src/payloads.rs:87-91 | every payload decodes to itself |
| SparkplugMessages.BirthArrives | crates/hs-eventbus-mqtt-sparkplug-b/src/payloads.rs:9-32 | a device birth carries its number and capabilities to the ingest side, is usable there exactly when it has some, and names and types each capability on the wire |
| SparkplugMessages.DataArrives | crates/hs-eventbus-mqtt-sparkplug-b/src/ingest_adapter.rs:349-357 | a data message carries its number; numbers above a byte read as absent |
| SparkplugMessages.StateArrives | crates/hs-eventbus-mqtt-sparkplug-b/src/ingest_adapter.rs:322-347 | a data message brings the capability, the instant and the value, as itself but for arrays, objects and nulls, which arrive as text |
| SparkplugMessages.RebirthRecognised | crates/hs-eventbus-mqtt-sparkplug-b/src/transport.rs:82-91 | the rebirth payload is a rebirth request, and the node birth, which names the same metric, is not; both carry number 0 |
| SparkplugMessages.RebirthRequestExactly | crates/hs-eventbus-mqtt-sparkplug-b/src/transport.rs:82-91 | a payload is a rebirth request exactly when one of its metrics is called Node Control/Rebirth and is true |
| SparkplugCommands.ParseCommandMessages | crates/hs-eventbus-mqtt-sparkplug-b/src/command.rs:37-72 | the commands of the acceptable metrics in order, an error when there are none |
| SparkplugCommands.CommandsWellTyped | crates/hs-eventbus-mqtt-sparkplug-b/src/command.rs:88-112 | every command is for an expected capability, has its type, and stems from one of the metrics |
| SparkplugCommands.FieldKey | tools/sparkplug_dcmd_toggle.py:35-36 | the key of a field |
| SparkplugCommands.FieldVarint | tools/sparkplug_dcmd_toggle.py:39-40 | a varint field of the wire format |
| SparkplugCommands.FieldLenDelimited | tools/sparkplug_dcmd_toggle.py:43-44 | a length-delimited field of the wire format |
| SparkplugCommands.BuildMetricBytes | tools/sparkplug_dcmd_toggle.py:47-56 | the encoding of one named Boolean metric |
| SparkplugCommands.BuildPayloadBytes | tools/sparkplug_dcmd_toggle.py:59-73 | the encoding of a one-metric payload, or an error for a negative number |
| SparkplugCommands.OversizedSeqRejected | tools/sparkplug_dcmd_toggle.py:70-71 | a number of 2^64 or more makes the payload undecodable |
| SparkplugCommands.ToolCommandDelivered | crates/hs-eventbus-mqtt-sparkplug-b/src/command.rs:37-72 | the tool's bytes give exactly one command with the state, exactly when the number fits and the route expects a boolean |
| SparkplugCommands.ToolSanitize | tools/sparkplug_dcmd_toggle.py:76-83 | agrees with the adapter's sanitising if and only if the id has no letter or digit outside ASCII |
| SparkplugCommands.ToolTopic | tools/sparkplug_dcmd_toggle.py:86-90 | the tool's topic is the adapter's command topic if and only if no id has a letter or digit outside ASCII |
| MatterModel.Slugify | crates/hs-device-bridge-matter/src/matter_model.rs:214-242 | the loops compute the slug |
| MatterModel.SlugSpelled | crates/hs-device-bridge-matter/src/matter_model.rs:214-242 | for every input the slug is its letters and digits in lower case, each after a gap or after a change from small letter or digit to capital preceded by one underscore, or "value" when there are none |
| MatterModel.SlugClean | crates/hs-device-bridge-matter/src/matter_model.rs:214-242 | a slug is not empty, has only lower-case letters, digits and single underscores, and none at its end |
| MatterModel.SlugIdempotent | crates/hs-device-bridge-matter/src/matter_model.rs:214-242 | slugging a slug changes nothing |
| MatterModel.SlugStripped | crates/hs-device-bridge-matter/src/matter_model.rs:214-242 | for every input, a slug without its underscores is the input's letters and digits in lower case, or "value" when there are none |
| MatterNames.ClusterReadsBack | crates/hs-device-bridge-matter/src/matter_model.rs:9-44 | a named cluster's number can be read off its name, whatever follows |
| MatterNames.AttributesReadBack | crates/hs-device-bridge-matter/src/matter_model.rs:46-148 | so can a named attribute's, within its cluster |
| MatterModel.CapabilityIdSpelled | crates/hs-device-bridge-matter/src/matter_model.rs:169-181 | every id letter by letter: named parts spelled, the others numbered |
| MatterModel.CapabilityIdInjective | crates/hs-device-bridge-matter/src/matter_model.rs:169-181 | no two endpoint, cluster and attribute triples share an id, named or not |

## Left out

- SequenceProtocol.MismatchBound: holds on runs in which nothing else sends on the device's stream, as do `RunKeeps`, `MismatchExactly` and `RebirthFeedback.FeedbackBound`; `MismatchFleetTheorem`, `PredictionFleetTheorem` and `RebirthFeedback.FeedbackFleetTheorem` give the exact condition on a fleet. One edge node's publisher is run in full; other nodes send any births and data on their own streams. Calls for one device are made one at a time, and the channel neither reorders nor duplicates; QoS 1 redelivery, retained births replayed to a new subscriber and two callers between taking a number and publishing are not modelled. Rebirths run one at a time, as in the handler.
- SequenceProtocol.QuietFleetTheorem: fleet announcements have at least one capability; a birth without any is unreadable to the ingest side and counts as missed.
- SparkplugPublisher.NodeBirthFirstExactly: calls are made one at a time, so the race between two first announcements is not covered, and the node births of the rebirth handler are not part of these runs.
- RebirthFeedback.OneLossStorm: as for `HostRebirthStorm`, the node has one device, and every request is answered before the next report; with more devices every rebirth disturbs each of them.
- SparkplugCommands.ToolSanitize: what Python's tables say of characters outside ASCII is a parameter, of which only this is required: a lower-case form of a letter or digit is never empty and has no underscore or slash.
- CommandRouting.ToolReachesDevice: the clock and the lengths are below 2^64, which they are on any machine; names are their UTF-8 bytes.
- SparkplugPayload.PayloadRoundTrip: nested messages (metadata, properties, data sets, templates, extensions) stay encoded bytes, text is not checked to be UTF-8, and group wire types are rejected.
- SparkplugCommands.ParseCommandMessages: the value of a number plays no part in any decision and is not kept.
- LineProtocol.PointRoundTrip: a finite float is the decimal text it is displayed as; tags and fields are lists in their map's order. The reader follows the printer's grammar and has no comments, no types the printer does not write and no rule against empty names.
- StateFilter.SuppressedExactly: floats are reals, so rounding and not-a-number are not covered; the builder is a configuration value.
- EsphomeFraming.ReadPlaintextFrame: the stream is a byte sequence with a cursor; partial reads are not modelled.
- Availability and state payload contents, Home Assistant discovery JSON, entity kinds read from it, and base topics that are absent from it: easy case analysis.
- Node births and node states at the Sparkplug ingest side: passed on without state.
- Points written for states (measurement name, fields from values, tag filter): case analysis on one value.
- ESPHome entity listing, state draining and command forwarding: table filling from library messages.
- Matter friendly names, units and attribute re-announcement; the last does not keep every state's capability announced.
- HTML page layout, configuration, metrics, TLS, HTTP and MQTT transport, task spawning: library plumbing. The client is a trace of calls with outcomes.
- Hash map iteration order: where it shows, it is a parameter.
