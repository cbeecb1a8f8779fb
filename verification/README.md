# SRNP: a verified model of the blackboard protocol

SRNP is a peer-to-peer blackboard: every component publishes key/value pairs, other components
subscribe and keep copies, and a master hands out ids and tells components about each other. This
project models the parts of SRNP that carry its guarantees and proves those guarantees for every
run, every input or every reachable state.

Each part comes in up to three layers. A value-level module defines what one critical section does
to the state. A class with the fields of the original object has one method per critical section,
proved equal to that definition. A run module lets any number of threads or components take those
steps in any order, and proves what holds in every state of every run. Where a comment in the
source promises more than the code delivers, a witness run shows it, and the exact condition is
proved beside it.

| part | modules |
|---|---|
| outbox of a connection | `Outbox`, `Channel`, `ChannelRuns`, `EndToEnd` |
| publish, subscribe, remove | `Convergence`, `Subscriptions`, `SubscriptionRace`, `ApplyOrder`, `Handover`, `ClientSide` |
| components exchanging frames | `Node`, `Mirror`, `Network`, `Downhill`, `Echoes` |
| pair space | `PairSpaceModel`, `PairStore` |
| master | `Membership`, `Master` |
| wire format | `Fields`, `Codec`, `WireFormat`, `WireIo` |
| meta-pairs | `MetaText`, `MetaGrammar`, `Indirect`, `MetaTracker`, `MetaCallbacks`, `MetaShadow`, `MetaTrackerTable` |
| shared definitions | `Base` |

`dafny verify dfyconfig.toml` checks everything.

## Where code and comments disagree

The model follows the code.

- A received `PairUpdate` is forwarded to whoever is subscribed to the local entry, although the
  comment at `src/server.cpp:103-104` says it is not. `Network.UpdateForwardsIff` says exactly to
  whom. Two mutual wildcard subscribers echo one update without end (`Network.EchoReachable`,
  `Network.EchoForever`), and so does one wildcard subscriber facing a subscriber of a single key
  (`Network.OneWildcardEchoes`). `Echoes.RunsForeverIff` is the exact condition: once only updates are
  under way, deliveries can go on for ever if and only if one of them can be passed on as many times
  in a row as there are components; `Echoes.RunRunsForeverIff` states it for every state of every run.
  Runs without wildcards (`Network.Quiesces`) or with registrations going uphill in some ranking
  (`Downhill.FallsQuiet`) fall quiet, and there the weight under way bounds the deliveries.
- The server's handlers queue their frames after releasing the pair-space lock, so a frame can be
  queued behind a newer one: `Convergence.AnswerOvertaken`, `Mirror.RegistrationOvertaken` and
  `ApplyOrder.SplitGoesStale` are runs in which the subscriber is left with the older value.
  `Convergence.Converges`, `Mirror.StaysMirrored` and `ApplyOrder.OrderKeptIff` say exactly when it is not.
- The client, too, sends a registration or a cancel after releasing its mutex, so two frames about one
  key can leave in the wrong order and the owner goes on forwarding a key nobody asks for
  (`SubscriptionRace.CancelOvertakes`); `SubscriptionRace.AgreesIff` says exactly when both sides agree.
- The outbox index is sound but not complete: draining an older frame of a key forgets the key even
  when a newer frame of it is queued (`Outbox.IndexIsNotComplete`). `ChannelRuns.IndexCompleteIff`
  says exactly which steps do that.
- At the cap an update stored in place can jump ahead of a queued removal of its key
  (`Convergence.OverwriteJumpsRemoval`), evicting the oldest update can drop the only frame of a key
  (`Convergence.EvictionLosesKey`), and so can the queue held for a component still connecting. All
  three are cases of `Convergence.Converges`.
- `ClientSession::connect` flushes the held frames after unlocking, so a concurrent `send` can
  overtake them (`Handover.SendOvertakesFlush`); `Handover.OrderKept` says exactly when order is kept.
- A second `ClientSession::close` may return while the first still holds the open channel
  (`Handover.SecondCloseReturnsEarly`); `Handover.ClosedForGood` says exactly which channels are open.
- Cancelling one of two overlapping subscriptions silences the other
  (`Subscriptions.OverlapBreaksAgreement`); `Subscriptions.CancelAgreesIff` gives the exact condition.
- A new subscriber does not always start up to date: nothing is sent for a key without a value, so an
  old copy stays (`Mirror.RegisteringMirrors` and `Mirror.WildcardMirrors` give the exact condition).
- Two trackers on one target share one subscription, which goes when its owner moves on
  (`MetaTracker.SharedTargetIsLost`); `MetaTracker.KeptIffNotShared` gives the exact condition.
- A tracker registered again with another function goes on running the old one, or none, until its
  pointer moves (`MetaCallbacks.RegivenIsIgnored`); `MetaCallbacks.ServesIff` gives the exact condition.
- The placeholder a tracker's callback leaves behind keeps the subscriber list it was made with.
  `MetaShadow.TrafficRelIff` says exactly which operations come out differently because of it.
- The value a meta-pair holds before it points anywhere is nothing only to the tracker. The client's own parser
  reads it as the key NULL of component -1 (`Indirect.NullPointer`); `MetaGrammar.ParseMetaIff` and
  `MetaGrammar.ParseTrackedIff` say exactly what each accepts.
- A component that forces the reserved id -1 is never unregistered
  (`Membership.ReservedIdNeverLeaves`, exactly then by `Membership.LeaveUnregistersIff`).
  `registerWithMaster` never asks for it.
- A master message over the reader's component cap can be framed and sent, and is then refused
  (`Codec.FrameReadsBackIff`).

## Model

| member | source | states |
|---|---|---|
| `Outbox.FirstKeyed` | src/session.cpp:79-80 | the eviction scan returns the first droppable frame: nothing before it carries a key, and it does, or there is none |
| `Outbox.UnlinkValid` | src/session.cpp:79-84 | unlinking any node, by draining or eviction, keeps node identities distinct, the index sound and the cap |
| `Outbox.UnlinkCompleteIff` | src/session.cpp:132-134 | from a complete index, unlinking a node keeps every queued key indexed if and only if no other queued node carries that node's key |
| `Outbox.SendCompleteIff` | src/session.cpp:65-112 | a locked send keeps the index complete if and only if it does not evict a key that is queued elsewhere too |
| `Outbox.AppendValid` | src/session.cpp:106-111 | queueing a frame below the cap keeps them too, and the index then leads to it as the newest of its key |
| `Outbox.OverwriteIsUpdate` | src/session.cpp:71-76 | storing through the index replaces the bytes of exactly the newest queued frame of that key |
| `Outbox.SendOutcomes` | src/session.cpp:65-121 | the whole outcome of a locked send: stored in place only at the cap over the newest frame of the key; refused only when all 4096 frames are control frames, with nothing changed; queued at the back otherwise, at the cap in exchange for the oldest keyed frame |
| `Outbox.IndexIsNotComplete` | src/session.cpp:132-134 | after two frames of one key and one drain, the second is queued and the index does not know it |
| `Channel.FrameChannel.MakeRoomLocked` | src/session.cpp:65-91 | the in-place method equals `MakeRoom` on outbox and index, and leaves the flags alone |
| `Channel.FrameChannel.SendLocked` | src/session.cpp:93-113 | new outbox, index and drain flag, and a spawn exactly when a frame was queued and no drain was live |
| `Channel.FrameChannel.Send` | src/session.cpp:93-121 | an undisturbed send: dropped when closed, channel closed and emptied when overfull |
| `Channel.FrameChannel.DrainLocked` | src/session.cpp:123-137 | one turn of the drain: ends and clears `writing_` on an empty or closed channel, otherwise hands out the front and forgets its index entry |
| `Channel.FrameChannel.WriteFailed` | src/session.cpp:142-149 | a failed write empties outbox and index and clears `writing_` |
| `Channel.FrameChannel.Close` | src/session.cpp:160-176 | the first close empties the outbox, later ones change nothing |
| `ChannelRuns.RunKeepsInv` | src/session.cpp:93-176 | every interleaving of sends, spawns, drain turns, partial writes, write errors and closes keeps the channel invariant |
| `ChannelRuns.IndexSoundAndBounded` | src/session.cpp:65-167 | in every reachable state at most 4096 frames are queued and every index entry leads to a live frame of that key with no later frame of that key |
| `ChannelRuns.IndexCompleteIff` | src/session.cpp:65-151 | from any reachable state with every queued key indexed, a step keeps that if and only if it does not take one of two queued frames of a key off the queue |
| `ChannelRuns.IndexCompleteInRun` | src/session.cpp:65-151 | so the index is complete throughout every run without such a step |
| `ChannelRuns.SingleWriterAlways` | src/session.cpp:93-176 | `writing_` is set exactly when one drain is live or being spawned, an open channel with queued frames always has one, and the socket holds whole frames one after another plus a prefix of the one in progress |
| `ChannelRuns.NoGoingBack` | src/session.cpp:65-151 | on a channel not closed, not failed and with no overfull send on its way to close it: unkeyed frames written, in progress and queued are exactly those sent, in order, and those of each key are an in-order subsequence of those sent for it |
| `EndToEnd.RunOnlySent` | src/session.cpp:93-151 | every frame queued, in progress or written was sent |
| `EndToEnd.PeerDecodesWhatWasWritten` | src/session.cpp:51-63 | in every run that sent only encoded messages without a write error, between writes the bytes on the socket decode, with nothing left over, to exactly the messages written, in order |
| `Convergence.Converges` | src/client.cpp:326-384 | in every run of locked calls, handlers that queue later, connecting, drains and deliveries on an open channel: replaying what is under way over the subscriber's copy ends at the newest frame of a subscribed key if and only if that frame has been queued and was not lost (dropped as the last one, stored ahead of a queued removal, or queued before an older frame of the key), and then the result is the publisher's value and type |
| `Convergence.ConvergesWhenQuiet` | src/server.cpp:102-106 | once nothing is owed or under way, the subscriber's own copy is the newest frame if and only if the key is not lost, and is then the publisher's value |
| `Convergence.NothingLostWithRoom` | src/session.cpp:65-91 | while both queues have room and no answer is older than what was queued for its key, no key is lost and the channel stays open |
| `Convergence.AnswerLosesIff` | src/server.cpp:121-151 | with room in the queues, an answer queued after unlocking loses its key if and only if a newer frame of the key was queued before it |
| `Convergence.AnswerOvertaken` | src/server.cpp:121-151 | witness: a registration collects a value, a newer one is published and queued, then the answer: the subscriber ends with the older value although the queue never holds three frames |
| `Convergence.OverwriteJumpsRemoval` | src/session.cpp:71-76 | witness: a run from start after which the publisher holds a value and the subscriber ends with none |
| `Convergence.EvictionLosesKey` | src/session.cpp:79-84 | witness: a run in which eviction leaves the subscriber without a published key |
| `PairSpaceModel.CallbacksStep` | src/PairSpace.cpp:74-120 | what each mutator does to the callbacks of each key; removing a pair that has any keeps them |
| `PairSpaceModel.SubscribersStep` | src/PairSpace.cpp:122-168 | what each mutator does to the subscribers of each key, a new entry inheriting the wildcard list |
| `PairSpaceModel.RunWellFormed` | src/PairSpace.cpp:42-168 | after every sequence of operations `callback_owners_` is the inverse of the per-entry callback maps, universal handles are disjoint from it, and no subscriber list has a duplicate |
| `PairSpaceModel.HandlesNeverReissued` | src/PairSpace.cpp:74-105 | the n-th registration gets handle n: never zero, never reissued |
| `PairSpaceModel.SubscriberSurvives` | src/PairSpace.cpp:59-72 | a subscriber stays on its key through any publishes and removals until it cancels |
| `PairSpaceModel.CallbackSurvives` | src/PairSpace.cpp:59-120 | so does a callback, as the same function, until its own handle is cancelled |
| `PairSpaceModel.ErasesOnlyUnregistered` | src/PairSpace.cpp:59-72 | an operation erases an entry if and only if it removes that pair and nobody is registered on it |
| `PairSpaceModel.WildcardKeptIff` | src/PairSpace.cpp:136-168 | an operation keeps every wildcard subscriber on every entry if and only if it is not a wildcard subscriber cancelling a single key that has an entry |
| `PairSpaceModel.WildcardInEveryRun` | src/PairSpace.cpp:42-57 | so in every run without such a cancel, every wildcard subscriber is on every entry, later ones included |
| `PairSpaceModel.VisibleStep` | src/PairSpace.cpp:42-145 | an operation acts on what is visible as on a plain map if and only if it does not publish an `Invalid` pair |
| `PairSpaceModel.VisibleRefinesPlain` | src/PairSpace.cpp:42-145 | in every such run the visible pairs are a plain map from owner and key to value and type that registrations never change |
| `PairStore.PairSpace.AddPair` | src/PairSpace.cpp:42-57 | the in-place method equals its specification on all five fields |
| `PairStore.PairSpace.RemovePair` | src/PairSpace.cpp:59-72 | the in-place method equals its specification |
| `PairStore.PairSpace.AddCallback` | src/PairSpace.cpp:74-89 | the in-place method equals its specification and returns the new handle |
| `PairStore.PairSpace.AddCallbackToAll` | src/PairSpace.cpp:91-97 | the in-place method equals its specification and returns the new handle |
| `PairStore.PairSpace.RemoveCallback` | src/PairSpace.cpp:107-120 | the in-place method equals its specification |
| `PairStore.PairSpace.AddSubscription` | src/PairSpace.cpp:122-134 | the in-place method equals its specification |
| `PairStore.PairSpace.RemoveSubscription` | src/PairSpace.cpp:136-145 | the in-place method equals its specification |
| `PairStore.PairSpace.AddSubscriptionToAll` | src/PairSpace.cpp:147-160 | the loop over all entries adds the subscriber once to each |
| `PairStore.PairSpace.RemoveSubscriptionToAll` | src/PairSpace.cpp:162-168 | the loop over all entries takes the subscriber off each and off the wildcard list |
| `PairStore.PairSpace.GetPair` | src/client.cpp:400-409 | a pair is returned exactly when it is visible, with that value and type and under that key |
| `PairStore.PairSpace.SnapshotPairs` | src/srnp_kernel.cpp:150-162 | every visible pair exactly once, no placeholder |
| `Fields.LittleEndianRoundTrip` | include/srnp/wire.h:92-101 | n encoded bytes give back every number below 256^n; which bytes they are is `WireFormat.LittleEndianByte` |
| `Fields.LittleEndianExact` | include/srnp/wire.h:138-146 | every n bytes are the encoding of the number they denote |
| `WireFormat.LittleEndianByte` | include/srnp/wire.h:92-101 | byte i of the encoding of v is v / 256^i modulo 256, for negative v in two's complement |
| `WireFormat.IntWritten` | include/srnp/wire.h:107-113 | so are the bytes of every integer the writer accepts |
| `WireFormat.IntRead` | include/srnp/wire.h:138-146 | and what is read off any n bytes is the number in range with exactly those bytes |
| `Fields.FieldsRoundTrip` | include/srnp/wire.h:106-158 | any sequence of typed fields reads back, leaving the rest of the input alone |
| `Fields.FieldsExtend` | include/srnp/wire.h:138-163 | more input never changes what a successful read returned |
| `Fields.FieldsReencode` | include/srnp/wire.h:106-163 | fields read re-encode to the bytes read, up to the form of booleans |
| `Fields.CanonicalOnlyBooleans` | include/srnp/wire.h:148-148 | re-encoding keeps the length and changes exactly the bytes read as booleans that are neither 0 nor 1, to 1 |
| `Codec.PayloadRoundTripIff` | src/codec.cpp:45-142 | every message that can be encoded decodes to itself if and only if its component count is within the reader's cap, and is refused otherwise |
| `Codec.PayloadExact` | include/srnp/msgs/codec.h:56-63 | every strict prefix and every strict extension of an encoding is rejected |
| `Codec.PayloadReencodes` | src/codec.cpp:34-142 | an accepted payload within the size limit is, with booleans in canonical form, the encoding of the message it decodes to, and that message is well typed |
| `Codec.PayloadReencodesBytes` | src/codec.cpp:34-142 | so the re-encoding has the same length, is identical for the messages without booleans, and otherwise differs exactly at boolean bytes above 1 |
| `Codec.HeaderRoundTrip` | src/wire.cpp:26-58 | a header takes exactly the header size and decodes to itself; what else decodes is `WireFormat.DecodeHeaderIff` |
| `WireFormat.DecodeHeaderIff` | src/wire.cpp:37-59 | any bytes are accepted as a header if and only if they are sixteen, start with 53 52 4E 50 and version 2, name a kind of frame from 1 to 8 and announce at most 16 MiB; and then as the kind, length and subscriber written there, whatever the flags |
| `WireFormat.HeaderRefused` | src/wire.cpp:37-59 | so another size, magic, version or kind, or a longer payload, is refused |
| `WireFormat.HeaderBytes` | src/wire.cpp:26-35 | every byte of a header that is written |
| `WireFormat.EncodeIsLayout` | src/codec.cpp:45-142 | for all seven messages: exactly those within the spelled out limits can be encoded, and their bytes are the spelled out fields in order |
| `WireFormat.MasterCap` | src/codec.cpp:131-142 | a master message decodes to itself if and only if it lists at most 233016 components |
| `WireFormat.FrameBytes` | include/srnp/wire.h:185-190 | every byte of a frame: magic, version, kind, flags, payload length, subscriber -1, payload of the kind's message |
| `Codec.FrameReadsBackIff` | src/wire.cpp:60-73 | every frame that can be made reads back off any input starting with it, leaving the rest, if and only if its component count is within the reader's cap |
| `Codec.StreamRoundTrip` | src/session.cpp:51-63 | reading the concatenated frames of any sequence of in-limit messages returns exactly that sequence and consumes every byte |
| `WireFormat.ReadFrameIff` | src/session.cpp:51-63 | the read loop takes a frame off the front of any bytes if and only if they start with such a header and the whole payload it announces, and that payload decodes as the kind of frame it names |
| `WireIo.Writer.Integer` | include/srnp/wire.h:108-113 | the buffer grows by exactly n bytes, byte i being v / 256^i modulo 256, and stays the encoding of the fields written |
| `WireIo.Writer.Boolean` | include/srnp/wire.h:115-115 | as above |
| `WireIo.Writer.String` | include/srnp/wire.h:117-122 | as above; a string over the limit makes the writer fail |
| `WireIo.Reader.Integer` | include/srnp/wire.h:139-146 | fails exactly when fewer than n bytes are left; otherwise moves on by n and returns the number in range with exactly those bytes, and the fields read stay what the input decodes to |
| `WireIo.Reader.Boolean` | include/srnp/wire.h:148-148 | as above |
| `WireIo.Reader.String` | include/srnp/wire.h:150-156 | as above |
| `WireIo.Reader.Enum` | src/codec.cpp:34-41 | as above; a value past the highest one fails |
| `WireIo.EncodeMessage` | src/codec.cpp:45-129 | writing field by field in source order yields `Encode`, and fails exactly when a string is too long |
| `WireIo.EncodeMaster` | src/codec.cpp:125-129 | the component loop writes the fields of every component in order |
| `WireIo.DecodeMaster` | src/codec.cpp:131-142 | the component loop computes `Decode`, including the refusal of an implausible count |
| `WireIo.DecodeFixed` | src/codec.cpp:54-123 | reading field by field rebuilds exactly the message of the fields read |
| `WireIo.DecodePayload` | include/srnp/msgs/codec.h:56-63 | equals the specification proved exact above, on every input |
| `WireIo.FrameMessage` | include/srnp/wire.h:185-190 | a frame is produced exactly when every string and the payload are within the limit, and is `FrameOf` the message, which reads back by `Codec.FrameReadsBackIff` |
| `Subscriptions.HandleAllView` | src/server.cpp:108-141 | what the owner's pair space forwards after a sequence of subscription frames, read off the frames alone |
| `Subscriptions.SubscriptionsAgree` | src/client.cpp:468-546 | with each change of the records and its frame as one step, in every run of register, cancel, announce, connect, deliver and owner activity in which no cancelled record overlapped another one, once connected the owner's pair space after the undelivered frames forwards a key to the client if and only if a current record asks for it, whatever the pending queue dropped |
| `Subscriptions.CancelAgreesIff` | src/client.cpp:514-546 | on a connected peer after such a run, a cancel keeps that agreement for all keys if and only if no other record overlaps the cancelled one |
| `Subscriptions.OverlapSilences` | src/PairSpace.cpp:136-168 | for every overlapping pair of records, names the key that is wanted and no longer forwarded |
| `Subscriptions.OverlapBreaksAgreement` | src/client.cpp:532-546 | witness run from start |
| `SubscriptionRace.ListensAsTold` | src/client.cpp:468-546 | with the change of a record and the sending of its frame as two steps, in any order and with anything in between: on a connected peer the owner's pair space after the undelivered frames forwards a key if and only if the last frame queued about it, held or replayed ones included, registers it |
| `SubscriptionRace.AgreesIff` | src/client.cpp:490-546 | so the owner forwards a key just when a record asks for it if and only if the last frame queued about it and the last change of a record about it say the same |
| `SubscriptionRace.InOrderAgrees` | src/client.cpp:147-157 | in particular for every key whose frames have all left, in the order of their changes, whatever was lost before the peer was known or connected |
| `SubscriptionRace.CancelOvertakes` | src/client.cpp:514-546 | witness: a key is registered and cancelled, the cancel leaves first, and the owner goes on forwarding the key with no record left |
| `SubscriptionRace.ReplayOvertakes` | src/client.cpp:147-157 | witness: every frame leaves in order, but a replayed wildcard precedes the cancel of a single key, and that key stays silent |
| `Node.Component.FanOutFrame` | src/client.cpp:239-260 | one frame per connected subscriber, in list order |
| `Node.Component.Publish` | src/server.cpp:72-93 | the space and the frames sent equal `ApplyAndNotify` |
| `Node.Component.HandleSubscription` | src/server.cpp:108-152 | the space and the frames sent equal `OnSubscription`, a wildcard registration answered with a snapshot of the own published pairs |
| `Node.Component.SendSnapshot` | src/server.cpp:141-151 | the loop collects each own published pair once, then sends all of them |
| `Node.Component.RemoveOwn` | src/client.cpp:369-382 | the locked part of a removal: subscribers are read before the removal, then told |
| `Node.Component.HandleFrame` | src/server.cpp:60-70 | dispatch by message type equals `Handle` |
| `Node.Component.PerformCall` | src/client.cpp:326-398 | setting and dropping our own pair is accepted if and only if the client is ready, a request or subscription to another component if and only if there is a session for it; a refused call changes nothing, an accepted one acts as `Perform` |
| `Node.Component.SendToEveryone` | src/client.cpp:482-487 | the loop sends a subscription with any owner to every peer, addressed to it |
| `Mirror.ShowsLastQueued` | src/server.cpp:72-93 | for every history of API calls and received frames at an owner, registrations of the subscriber itself included, and every order in which the frames for that subscriber are queued: once it has handled them it shows under the key what the owner showed right after the event whose frame was queued last |
| `Mirror.StaysMirrored` | src/server.cpp:60-184 | so it shows the owner's current pair if and only if that event left the owner showing the same as it does now, and does whenever nothing newer about the key is owed and nothing older was queued last |
| `Mirror.MirrorsIffNewestLast` | src/server.cpp:60-184 | if the newest event about the key left what nothing else did, the subscriber shows the owner's current pair if and only if a frame of that event has been queued and none of an older one behind it |
| `Mirror.StaysMirroredInOrder` | src/client.cpp:326-384 | with the frames queued in the order of the events, a subscriber that hears about a key and mirrors it always goes on doing so |
| `Mirror.RegistrationOvertaken` | src/server.cpp:121-151 | for every value published between a registration's collecting and its answer: the subscriber is left with the older value |
| `Mirror.RegisteringMirrors` | src/server.cpp:141-151 | registering for a key makes the subscriber hear about it, and starts the mirror if and only if the owner has a value or the subscriber holds no old copy |
| `Mirror.WildcardMirrors` | src/server.cpp:134-151 | the same for a wildcard registration, first or repeated, and the snapshot it is answered with, for every key of the owner, published or not |
| `Mirror.RequestsActAsOwn` | src/client.cpp:352-398 | a set or remove request made on another component acts at the owner exactly as the owner's own call |
| `Mirror.SubscriptionsReachOwner` | src/client.cpp:468-480 | a subscription or cancel is one frame, for its owner only; handled there it makes the owner forward exactly the keys asked for, or no longer forward them, under the condition of `Subscriptions.HandleAllView`, and a first registration without any |
| `Mirror.EveryoneIsTold` | src/client.cpp:482-487 | one with any owner sends each peer exactly the frame a subscription of its own would |
| `Mirror.IgnoredFrames` | src/server.cpp:112-119 | a subscription or removal meant for somebody else, or a subscription of our own, changes and sends nothing |
| `Mirror.FanOutTo` | src/client.cpp:239-260 | a fan-out over a list without duplicates sends each listed and connected component exactly one frame |
| `Mirror.HappensIsOp` | src/server.cpp:60-184 | every call and every frame is at most one pair-space operation |
| `Mirror.HandleShows` | src/server.cpp:95-184 | what each frame does to what its receiver shows under each key |
| `Network.FanOutReaches` | src/client.cpp:239-250 | a frame goes to a component exactly when it is a subscriber with a session |
| `Network.UpdateForwardsIff` | src/server.cpp:102-106 | a received update is passed on to exactly the connected subscribers of the entry, or of the wildcard list if there is no entry; it is not forwarded if and only if there are none |
| `Network.HandleOk` | src/server.cpp:60-184 | without wildcard subscribers, handling any frame keeps foreign entries free of subscribers and sends strictly less than the frame weighed |
| `Network.OwnerOnlyEmission` | src/server.cpp:72-119 | in every run without wildcard registrations, entries of foreign pairs have no subscribers and every update in flight was sent by its owner |
| `Network.DeliveryLowersTotal` | src/server.cpp:60-184 | delivering or losing a frame strictly lowers the weighted count of undelivered frames |
| `Network.Quiesces` | src/server.cpp:72-119 | so in runs without wildcard registrations the number of deliveries after the last API call is bounded by the weight under way |
| `Network.EchoStep` | src/server.cpp:102-106 | with two mutual wildcard subscribers each delivery sends the update straight back |
| `Network.EchoForever` | src/PairSpace.cpp:42-57 | so deliveries alone go on for any number of steps |
| `Network.EchoReachable` | src/PairSpace.cpp:147-160 | and that network is reached by two wildcard registrations and one publish |
| `Network.OneWildcardEchoes` | src/PairSpace.cpp:42-57 | a network that echoes is also reached by one wildcard registration, one registration of a single key in the other direction, and one publish |
| `Downhill.DeliveryIsBetter` | src/server.cpp:60-184 | if everyone registers only with components ranked higher, each delivery or loss leaves fewer wildcard registrations under way, or as many and less weight |
| `Downhill.FallsQuiet` | src/server.cpp:72-119 | so after any such run deliveries alone cannot go on for ever, wildcard subscribers included; a condition on the registrations alone, the exact one on the network is `Echoes.RunsForeverIff` |
| `Downhill.QuiescesDownhill` | src/server.cpp:72-119 | and once no wildcard registration is under way, the weight under way bounds their number |
| `Echoes.RunsForeverIff` | src/server.cpp:72-119 | for every network in which only updates to known components are under way: deliveries and losses can go on for ever if and only if some update under way can be passed on, from subscriber to subscriber, as many times as there are components |
| `Echoes.RunsForeverIffReaches` | src/server.cpp:72-184 | whatever is under way: if and only if finitely many deliveries and losses lead to a state with such an update |
| `Echoes.RunRunsForeverIff` | src/server.cpp:60-184 | both, for every state of every run |
| `Echoes.EchoNetRunsForever` | src/PairSpace.cpp:42-57 | the mutual and the one-wildcard echo satisfy the condition |
| `Echoes.RankedIsQuiet` | src/server.cpp:102-106 | a ranking of the components for each key that falls along every hop rules the condition out |
| `Echoes.ViewerIsQuiet` | src/PairSpace.cpp:147-160 | so does one viewer subscribed to everything, with any components subscribed to single keys of each other's and nobody to the viewer |
| `Membership.NextFree` | src/master_hub.cpp:126-128 | the id chosen is free, not below the start, and everything between is taken |
| `Membership.OwnerIdsDistinct` | src/master_hub.cpp:117-155 | in every run of joins, leaves and reads, whatever ids are forced, live connections have distinct ids |
| `Membership.ViewsCurrent` | src/master_hub.cpp:49-91 | in every run, each component's first frame is its welcome and no other one is, and applying its undelivered frames to its view gives exactly the other live components with the addresses it can reach, also when ids are reused |
| `Membership.ViewShows` | src/server.cpp:223-238 | spelled out: each component ends up knowing exactly the others registered, under their id, the port they announced when they joined, and the address the master saw them at, or, where that is 127.0.0.1, the one it reached the master at itself |
| `Membership.JoinGrants` | src/master_hub.cpp:131-150 | in every run a join registers exactly one more id: the forced one if that is free, otherwise the first free one from the random start on |
| `Membership.LeaveUnregistersIff` | src/master_hub.cpp:80-88 | in every run, the id of a connection that leaves stays registered if and only if it is the reserved one |
| `Membership.ReservedRegisteredIff` | src/master_hub.cpp:131-150 | in every run, the reserved id is registered if and only if some component forced it while it was free |
| `Membership.RegisteredMeansLive` | src/master_hub.cpp:73-91 | in every run every registered id but the reserved one belongs to a live connection |
| `Membership.ReservedIdNeverLeaves` | src/master_hub.cpp:80-85 | witness: forcing id -1 leaves the id registered after its component is gone |
| `Master.MasterHub.MakeOwnerId` | src/master_hub.cpp:117-129 | the loop past collisions computes `NextFree` |
| `Master.MasterHub.ListComponents` | src/master_hub.cpp:131-150 | the loop lists every registered component exactly once with its address |
| `Master.MasterHub.RegisterComponent` | src/master_hub.cpp:131-150 | exactly the forced id if it is free, otherwise the first free one from the start; the welcome lists who registered before |
| `Master.MasterHub.RemoveComponent` | src/master_hub.cpp:152-155 | exactly that id is unregistered |
| `Master.MasterHub.SendToAll` | src/master_hub.cpp:157-169 | the loop appends the update to every queue except the one it is about |
| `Master.MasterHub.Join` | src/master_hub.cpp:49-72 | that id is registered, the newcomer's queue holds its welcome, and every other queue gets the announcement; equal to the step of the runs |
| `Master.MasterHub.Leave` | src/master_hub.cpp:73-91 | the id goes unless it is the reserved one, and then every other queue gets the farewell; equal to the step of the runs |
| `ApplyOrder.OrderKeptIff` | src/server.cpp:77-91 | in every interleaving of any number of calls that queue inside the lock and calls that queue after it: what each connected subscriber was handed is a prefix of the applications addressed to it, in the order they were made, if and only if none was handed to it while an earlier one was still owed; nothing is handed twice or forgotten, and the store is the applications in order |
| `ApplyOrder.LockedNeverOvertaken` | src/client.cpp:333-346 | calls that queue inside the lock are never overtaken |
| `ApplyOrder.QueueOrderIsApplyOrder` | src/client.cpp:333-346 | so among them queue order is apply order, and complete whenever the lock is free |
| `ApplyOrder.SplitGoesStale` | src/server.cpp:88-91 | witness: a handler and a locked call for one key, the subscriber handed the newer frame first |
| `Handover.PendingBounded` | src/client.cpp:159-180 | in every interleaving of send, connect and close, at most 1024 frames are held, none while a channel is installed |
| `Handover.ClosedForGood` | src/client.cpp:107-192 | once a close has returned no channel is installed or ever will be, and the channels still open are exactly the one another close holds and the one not adopted yet, which adoption shuts |
| `Handover.OrderKept` | src/client.cpp:107-125 | what the channel was and will be given is a suffix of the frames in the order they were accepted if no send went out during the flush, and with distinct frames only if so |
| `Handover.SendOvertakesFlush` | src/client.cpp:120-124 | witness: two frames accepted in one order and delivered in the other |
| `Handover.SecondCloseReturnsEarly` | src/client.cpp:182-192 | witness: one close has returned and the channel is open |
| `ClientSide.ClientSession.Send` | src/client.cpp:159-180 | dropped when closing; on an open channel the locked send of this frame under this key, the channel closed and emptied if that overfills it; without a channel held, with the oldest dropped at the cap |
| `ClientSide.ClientSession.Adopt` | src/client.cpp:107-119 | a closing session refuses and shuts the channel; otherwise it is installed and everything held is handed back |
| `ClientSide.ClientSession.Connect` | src/client.cpp:107-125 | undisturbed, the new channel's outbox lists everything held, in order, each frame with its bytes and its coalescing key |
| `ClientSide.ClientSession.Close` | src/client.cpp:182-192 | afterwards no channel, nothing held, and the channel there was is closed |
| `ClientSide.Registry.RegisterSubscription` | src/client.cpp:490-508 | zero and no change exactly for a duplicate, otherwise one more record under a fresh handle |
| `ClientSide.Registry.CancelHandle` | src/client.cpp:532-546 | exactly that record goes and is returned |
| `ClientSide.Registry.CancelKey` | src/client.cpp:514-528 | exactly the record of that owner and key goes |
| `ClientSide.Registry.SubscriptionsFor` | src/client.cpp:318-324 | the loop returns every applying record in handle order |
| `Subscriptions.ReplayLists` | src/client.cpp:318-324 | those are exactly the records for this component or for any, one registration each, by ascending handle |
| `Subscriptions.WantedIff` | src/client.cpp:318-324 | a key is wanted of a peer exactly when some record is for that peer or any, and for that key or all |
| `ClientSide.Registry.AddSession` | src/client.cpp:274-284 | a fresh session and the component entered under one id, the session it had before left unclosed |
| `ClientSide.Registry.RemoveSession` | src/client.cpp:286-297 | both tables forget the id, and the session is closed |
| `ClientSide.Registry.OnWelcome` | src/client.cpp:217-226 | the own id is set, every listed component gets a new session and an entry with the address and port listed, 127.0.0.1 replaced by the master's address, the others stay as they were, and the client is ready; the two tables agree and no session in them is closed |
| `ClientSide.Registry.OnComponentUpdate` | src/client.cpp:228-237 | one component learned with a new session, 127.0.0.1 replaced by the master's address, or forgotten with its session closed; the others untouched |
| `MetaText.DecimalRoundTrip` | src/client.cpp:46-52 | every 32-bit integer prints as one plain word that both number readers read back |
| `MetaText.WordsPlain` | src/client.cpp:66-76 | every word extracted from any text is non-empty, has no space and no parenthesis at either end |
| `MetaText.ExtractStrings` | src/client.cpp:66-76 | the splitting and stripping loops compute `Words` |
| `MetaText.PointerRoundTrip` | src/client.cpp:443-448 | for every 32-bit owner, parsing what `setMetaPair` prints returns the same owner and key if and only if the key is non-empty, has no space and no parenthesis at either end; which other texts are pointers is `MetaGrammar.ParseMetaIff` |
| `MetaText.TrackedRoundTrip` | src/meta_pair_callback.cpp:50-62 | the same for the tracker's parser, which in addition reads owner -1 with key NULL as pointing nowhere |
| `MetaGrammar.PartsJoin` | src/client.cpp:66-76 | every text is its parts, none with a space, joined by single spaces |
| `MetaGrammar.WordsOfParts` | src/client.cpp:66-76 | the words are what is kept of each part, in order |
| `MetaGrammar.KeptOf` | src/client.cpp:70-74 | what is kept of a part is the one plain word between parentheses on either side, or nothing if it is parentheses only |
| `MetaGrammar.ParseIntIff` | src/client.cpp:46-52 | a text is read as v if and only if all of it is an optional minus and digits whose place values add up to v, within 32 bits |
| `MetaGrammar.FromCharsIff` | src/meta_pair_callback.cpp:54-57 | a text is read as v up to some place if and only if it is that number up to there and no digit follows |
| `MetaGrammar.DecimalIsNumber` | src/client.cpp:445-445 | what is printed for a 32-bit integer is that number, without a leading zero |
| `MetaGrammar.ParseMetaIff` | src/client.cpp:55-62 | any text is a pointer to k if and only if its words are META, a text that is entirely the number of k's owner, and k's key |
| `MetaGrammar.ParseTrackedIff` | src/meta_pair_callback.cpp:50-62 | for the tracker if and only if its words are META, a text that starts with that number, and the key, other than -1 with NULL |
| `MetaGrammar.OrdinaryValue` | src/client.cpp:55-62 | so a value whose words are not three, the first META, points nowhere for either |
| `Indirect.PointerLeads` | src/client.cpp:411-441 | after `setMetaPair` to any other pair with a plain key, reading and writing through the meta-pair is reading and writing that pair; with any other key the pointer does not name it |
| `Indirect.WriteThroughOwn` | src/client.cpp:426-441 | what is written through a pointer to an own pair is read back through it |
| `Indirect.WriteThroughRemote` | src/client.cpp:426-441 | through a pointer to somebody else's pair its owner gets one request, and then shows the value |
| `Indirect.NullPointer` | src/client.cpp:450-453 | after `initMetaPair` the tracker follows nothing, while the client reads and writes the key NULL of component -1 |
| `MetaTracker.TrackersFollow` | src/meta_pair_callback.cpp:86-100 | in every history, shared and cancelled records included, a meta-pair is tracked exactly when last registered and not cancelled, and its tracker points where the last delivered value pointed |
| `MetaTracker.TrackerHoldsItsHandles` | src/meta_pair_callback.cpp:64-84 | each tracker holds live registrations for its meta-pair and for that target, and none without a target; which function is registered is stated by `MetaCallbacks.TrackerRuns` |
| `MetaTracker.NothingLeaks` | src/meta_pair_callback.cpp:64-148 | in every run each live subscription and callback is the application's own or held by the tracker that asked for it |
| `MetaShadow.StepRelatedIff` | src/meta_pair_callback.cpp:64-148 | compared with the same history without trackers, a step leaves the application's records, callbacks and the pair space the same but for placeholders if and only if it does not subscribe to a record only a tracker holds, nor is one of the two operations below |
| `MetaShadow.TrafficRelIff` | src/PairSpace.cpp:42-168 | for other pair-space traffic: exactly unless a wildcard subscriber cancels a key of which only a placeholder is left, or a pair nobody else is on is removed while a tracker's callback keeps its entry and there are wildcard subscribers |
| `MetaShadow.CancellingRestores` | src/meta_pair_callback.cpp:132-148 | over any stretch of any run between two states without trackers, with publishes, removals, subscriptions and the application's own registrations in between and no such step: records, callback registries and every entry end as in the history without trackers, and the entries beyond it are empty placeholders with the subscribers any new entry would get |
| `MetaCallbacks.TrackerRuns` | src/meta_pair_callback.cpp:78-119 | in every run, what a tracker has registered on its target is the function it had been given when its pointer moved there, under a live handle exactly if there was one; it is the one last given if and only if they are the same |
| `MetaCallbacks.ServesIff` | src/meta_pair_callback.cpp:102-119 | a step leaves every tracker running what it was last given if and only if it does not give one that holds a target a different function |
| `MetaCallbacks.RegivenIsIgnored` | src/meta_pair_callback.cpp:106-111 | for any two functions: a tracker given the second after following its pointer goes on running the first, or nothing |
| `MetaTracker.KeptIffNotShared` | src/client.cpp:490-528 | a step keeps all this if and only if no tracker asks for a record somebody already holds and the application does not cancel, by owner and key, a record a tracker holds |
| `MetaTracker.SharedTargetIsLost` | src/meta_pair_callback.cpp:78-84 | for all pointers: of two trackers on one target the second has no subscription, and none is left once the first moves on |
| `MetaTrackerTable.Trackers.ReleaseTarget` | src/meta_pair_callback.cpp:64-75 | the in-place method equals its specification on trackers, records and pair space |
| `MetaTrackerTable.Trackers.AcquireTarget` | src/meta_pair_callback.cpp:78-83 | as above |
| `MetaTrackerTable.Trackers.OnMetaPairChanged` | src/meta_pair_callback.cpp:86-100 | as above |
| `MetaTrackerTable.Trackers.RegisterTracker` | src/meta_pair_callback.cpp:102-119 | as above |
| `MetaTrackerTable.Trackers.CancelMetaCallback` | src/meta_pair_callback.cpp:132-148 | as above |

## Left out

- Sockets, resolvers, strands, timers and coroutine scheduling: a write accepts any number of bytes or fails, a connection attempt succeeds or is retried.
- `gui/`, `benchmarks/`, `tools/`, the demo programs, logging and printing: no invariant to state.
- The process-wide singletons of `src/srnp_kernel.cpp` beyond `snapshotPairs`: thin forwarding over what is modelled.
- A frame of a kind the receiver does not handle closes its connection: the handlers start from the kinds they do handle.
- `waitUntilReady`: the ready flag is modelled, waiting for it is not.
- Write and expiry times: opaque 64-bit integers in the codec, absent elsewhere; nothing acts on them.
- Wrap-around of the 64-bit handle counters, of list-node identities and of the 32-bit owner id: the counters are unbounded integers.
- The random start of `makeOwnerId`: any integer from 1000 to 10000; the collision loop is what is modelled.
- The bodies of user callbacks: opaque values that are stored and handed back; they make no calls, apart from the tracker's own. Running them is not modelled.
- Iteration order of maps: the order of a listing or a snapshot is left open; what is in it is fixed.
- Text of error messages: every thrown decoding error is the same failure.
- `sizeof(ComponentInfo)`, which caps the component count of a master message, is taken as 72, its value on 64-bit Linux.
- ChannelRuns.NoGoingBack: excludes, besides closed and failed channels, the moment between an overfull send and the close it triggers, because that send's frame is dropped.
- Convergence.Converges: one publisher and one subscriber, and subscriptions are not cancelled. Connecting flushes in one step; sends that overtake the flush are the subject of `Handover.OrderKept`.
- Subscriptions.SubscriptionsAgree: the connected channel loses nothing; connecting flushes and replays in one step; reconnecting after a failure and a component returning under an old id are not modelled. A change of the records and its frame are one step here and two in `SubscriptionRace`.
- SubscriptionRace.AgreesIff: no cancelled record overlaps another one, and no single key is cancelled on the channel while everything is subscribed to. Otherwise what is forwarded depends on whether the owner has an entry for the key when the cancel arrives and on when that entry is erased; `SubscriptionRace.ReplayOvertakes` is such a run.
- Echoes.RunsForeverIff: a run may lose frames as well as deliver them; whether it goes on for ever under every order of delivery is not stated.
- Network.OwnerOnlyEmission: links are FIFO and may lose frames; they do not overwrite or reorder them. Sends happen with the handler that causes them.
- Mirror.StaysMirrored: the subscriber cancels nothing during the history, and what is queued for it arrives in order without loss; loss and coalescing are the subject of `Convergence`.
- Network.UpdateForwardsIff: the pair space has every entry under its own key, which `PairSpaceModel.RunWellFormed` gives for every run.
- Membership.ViewsCurrent: components force an id only as `registerWithMaster` does, never the reserved one; addresses are strings, and a link to the master delivers in order.
- Handover.ClosedForGood: a channel closing itself after a write error is not a step of this system.
- ApplyOrder.QueueOrderIsApplyOrder: removing a key that is not stored counts as an application without subscribers.
- WireIo: the encoding and decoding errors thrown by the source are a flag that stays set once raised.
