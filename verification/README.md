# localaz: verified models

localaz emulates Azure services. These Dafny modules model six of its parts with the branches, errors and constants of
the Go code, and prove what each is for. What they take more abstractly is listed under "Left out".

- **AMQP 1.0 codec and framing** (`Bytes`, `AmqpCodec`, `AmqpCodecProofs`, `AmqpForms`, `AmqpMaps`, `AmqpOrder`,
  `AmqpReserve`, `AmqpCoder`, `AmqpFrame`, `AmqpFraming`, `AmqpEcho`): values and frames as bytes. Functions specify
  encoding and decoding, the classes `Encoder`, `Decoder` and `Wire` do it step by step, and the two are proved equal.
- **Service Bus delivery** (`Broker`, `Link`, `Delivery`, `DeliveryLaws`, `DeliveryProgress`, `CreditWindow`,
  `Transfers`, `TransfersLaws`, `TransfersRuns`): the broker's queues and wait channels, links and their credit,
  delivery loops as interleaved steps, and multi-frame messages. Blocking is a guard on a step.
- **Blob listing** (`ByteOrder`, `BlobListing`, `BlobMeaning`): prefix filter, virtual directories, pages and markers,
  against one unpaged listing.
- **Table `$filter` and key predicates** (`Operators`, `Strings`, `TableFilter`, `TableFilterPrint`,
  `TableFilterMeaning`, `TableFilterParser`, `TableKeys`): tokens, grammar, meaning and text.
- **Lease-style stores** (`EventGrid`, `EventGridRuns`, `EventGridLaws`, `EventGridStore`, `QueueStore`, `QueueRuns`,
  `EntityTags`, `TableStore`, `TableLaws`, `TableRuns`): lock tokens, visibility timeouts, pop receipts and ETags,
  over every run. Each store is checked against the log of what its clients saw: what a log allows is defined from the
  log alone.
- **Log queries** (`Sequences`, `StableSort`, `Kql`, `KqlMeaning`, `KqlRewrites`, `KqlCommute`, `KqlText`, `KqlWords`,
  `KqlPrint`, `KqlFind`, `KqlRoundTrip`, `KqlQuotes`, `KqlPipeline`, `KqlParser`): pipelines of stages, when two of
  them mean the same, and which where clauses survive being written and parsed.

Verify with `dafny verify dfyconfig.toml`.

## Where the code and its documentation differ

- `addCredit` adds each flow's link-credit (`internal/servers/sbserver/link.go:53-58`), where section 2.6.7 of AMQP 1.0
  computes it from the flow's delivery-count, which the code does not read. `Link.CreditIsStandard` and
  `Delivery.GrantIsStandard` say exactly when the two agree, and `Delivery.RepeatedFlowDoubles` shows a client's
  repeated flow doubling the credit.
- A drain is answered with zero credit even when a delivery loop has taken credit and not yet written
  (`internal/servers/sbserver/conn.go:367-372`), so one transfer can follow it; the comment there says a drain never
  wrongly delivers a message. `Delivery.DrainHolds` bounds this, and `Delivery.DrainRace` is such a run.
- A message whose socket write fails is dropped (`internal/servers/sbserver/conn.go:372-374`).
  `Delivery.DroppedIffWriteFails` says that nothing else drops one.
- `internal/servers/sbserver/link.go:6-8` calls 5000 the window of transfers a client may have outstanding. Counted at
  the server the bound is 5000; counted by the dispositions the client has seen it is 5001, because the flow that
  reopens the window is written before the disposition of the transfer that caused it. `CreditWindow.UnsettledBound`
  says exactly when.
- `internal/servers/sbserver/conn.go:207-210` promises that the client never stalls. That holds of link credit. The
  same flows repeat next-incoming-id 0 and incoming-window 65535, so a client that follows section 2.5.6 of AMQP 1.0
  has no session window left after 65535 transfers numbered from 0; `CreditWindow.StallsExactly` and
  `CreditWindow.EveryRunEnds` are exact about it.
- A transfer without a delivery-id is settled as delivery 0 (`internal/servers/sbserver/conn.go:266-308`), though
  section 2.7.5 of AMQP 1.0 lets continuation frames omit the id. `Transfers.SettledByName` says exactly when the
  settlements are right, and `Transfers.ContinuationSettledAsZero` shows one that is not.
- Symbol keys of a decoded map become strings (`internal/servers/sbserver/decode.go:287-294`), so a map with the symbol
  and the string of one name loses an entry, at any depth. `AmqpMaps.ComesBackWhole` says exactly when, and
  `AmqpCodecProofs.SymbolMeetsString` and `AmqpMaps.InnerMapLosesEntry` are such maps. `AmqpOrder.WriteOrderExactly` says
  when the order in which the runtime ranges over a map then shows.
- A map key that Go cannot hash, such as a list, is neither refused nor decoded: the insertion panics
  (`internal/servers/sbserver/decode.go:257-283`), and nothing in the package recovers. The models carry the panic as the
  outcome `UnhashableKey`; `AmqpCodecProofs.PanicsOnUnhashable` says which encodings cause it, and
  `AmqpFrame.ListKeyPanics` is a frame that does.
- The decoder returns bytes and shorts and the encoder panics on them (`internal/servers/sbserver/encode.go:71-73`), so an
  attach with one in a field that is echoed (`internal/servers/sbserver/conn.go:178-189`) ends the process.
  `AmqpEcho.AttachEcho` says exactly which attaches do, and `AmqpEcho.UnencodableAttach` is one. The message-id of a
  `$cbs` request is echoed too (`internal/servers/sbserver/cbs.go:58-69`); `AmqpEcho.EchoReadsBack` covers it.
- The comment on the count guards (`internal/servers/sbserver/decode.go:229-245`) speaks of rejecting a count before
  allocating. Each guard looks at one header; headers that nest reserve a number of slots quadratic in the input before
  the decoding fails, and `AmqpReserve.ReservedBounded` and `AmqpReserve.HeadersReserve` say how many.
- An Event Grid lock that has run out can still be acknowledged, released or renewed until the next receive on its
  subscription: `EventGridRuns.HeldUntilSwept` and `EventGridRuns.OutcomeExactly`.
- Splitting a where clause at its keywords is said to ignore quoted strings
  (`internal/servers/monitorserver/predicate.go:61-62`). It does, and squeezes their white space:
  `KqlQuotes.ReadsSqueezed`. A string that holds its own quote closes it early, and what follows may be cut or taken
  for an operator: `KqlRoundTrip.ClauseRoundTrip` says exactly when. Splitting a query at bars does not look at quotes:
  `KqlPipeline.PipelineSplits`.
- A message that was never dequeued has the empty pop receipt, so deleting or updating it with an empty receipt
  succeeds: `QueueRuns.EmptyReceiptDeletes`, and `QueueRuns.OnlyLatestReceipt` for every case.
- Sorting compares unlike values as equal (`internal/servers/monitorserver/literal.go:57-79`), which is an order exactly
  on the columns `KqlRewrites.OrderExactly` names; `KqlRewrites.MixedColumnDoesNotCommute` shows a sort stage that
  leaves numbers unsorted, and `KqlCommute.CommutesExactly` says on which columns filters and sorts commute.

## Model

| member | source | states |
|---|---|---|
| `AmqpCodecProofs.RoundTrip` | internal/servers/sbserver/decode.go:45-294 | for every encodable value whose lengths fit 32 bits and whose map keys are hashable, decoding its encoding followed by any bytes gives the value back (map keys normalised, later equal keys winning) and stops exactly where the encoding ends |
| `AmqpCodecProofs.RoundTripList` | internal/servers/sbserver/encode.go:109-131 | a list reads back item by item, whichever of the empty, 8-bit and 32-bit forms the writer chose |
| `AmqpCodecProofs.MapLosesNothing` | internal/servers/sbserver/decode.go:257-294 | a Go map keeps one entry for each entry written, in writing order, if and only if no symbol key has the name of a string key of the same map; what its values lose is not looked at |
| `AmqpCodecProofs.SymbolMeetsString` | internal/servers/sbserver/decode.go:257-294 | the map with the symbol and the string "a" is read back with one entry, the one written last, whichever that is |
| `AmqpMaps.NormIsRenamed` | internal/servers/sbserver/decode.go:257-294 | at every depth: what a Go value becomes is that value with its symbol keys turned into strings, nothing lost or moved, if and only if no map inside it has a symbol and a string key of one name |
| `AmqpMaps.ComesBackWhole` | internal/servers/sbserver/decode.go:45-294 | the same over the wire: a Go value is read back whole, maps inside maps included, if and only if no map at any depth has such a clash |
| `AmqpMaps.InnerMapLosesEntry` | internal/servers/sbserver/decode.go:257-294 | a concrete map with a single key, whose value is a map that loses an entry |
| `AmqpMaps.WriteOrderIrrelevant` | internal/servers/sbserver/encode.go:133-153 | two writes of one value, the entries of every map at any depth in any order, are read back as the same value up to that order, when no map has a clash |
| `AmqpOrder.WriteOrderExactly` | internal/servers/sbserver/encode.go:133-153 | over the wire, all orders of writing a value, at every depth, are read back as the same value if and only if, wherever a symbol key has the name of a string key of one map, both hold values that are read back as the same |
| `AmqpOrder.OrderExactly` | internal/servers/sbserver/decode.go:257-294 | the same condition on the value the decoder builds |
| `AmqpMaps.PermutedSame` | internal/servers/sbserver/encode.go:133-153 | another order of the entries of one map is the same value in that sense |
| `AmqpMaps.SameLookups` | internal/servers/sbserver/decode.go:257-283 | two maps that are the same in that sense have the same keys, and the same values under them |
| `AmqpCodecProofs.PanicsOnUnhashable` | internal/servers/sbserver/decode.go:257-283 | decoding the encoding of any value in which some map has an unhashable key panics, whatever follows; with the round trip, these are exactly the encodings that do |
| `AmqpCodecProofs.ShortEncodingFits` | internal/servers/sbserver/encode.go:76-153 | an encoding shorter than 2^32 bytes has no length or count that overflows its field, so the round trip needs no other size condition |
| `AmqpCodecProofs.ReadLocal` | internal/servers/sbserver/decode.go:45-283 | a decoding depends only on the bytes it consumed: any continuation after them gives the same value and position |
| `AmqpCodecProofs.ReadBounded` | internal/servers/sbserver/decode.go:45-283 | the values decoded, together with the bytes of their strings, symbols and binaries, are never more than the bytes consumed |
| `AmqpForms.CompactUnsigned` | internal/servers/sbserver/decode.go:53-184 | the forms of zero, of the empty list and of one unsigned byte, which this encoder mostly does not write, are read as the number, list or boolean they stand for, whatever follows |
| `AmqpForms.CompactSigned` | internal/servers/sbserver/decode.go:53-184 | one signed byte is read in two's complement as a byte, an int or a long |
| `AmqpForms.ShortForm` | internal/servers/sbserver/decode.go:53-184 | two bytes are read as a short in two's complement |
| `AmqpForms.FloatForms` | internal/servers/sbserver/decode.go:53-184 | floating-point numbers are read as the unsigned integer of their bits |
| `AmqpForms.CompactIsWide` | internal/servers/sbserver/decode.go:53-184 | each compact form gives the same value as that value written by the encoder |
| `AmqpForms.TextForms` | internal/servers/sbserver/decode.go:200-227 | a string, symbol or binary may come with a length of one or of four bytes, whatever its length |
| `AmqpForms.ListForms` | internal/servers/sbserver/decode.go:233-255 | a list is read back from either width, whatever its size field says |
| `AmqpForms.MapForms` | internal/servers/sbserver/decode.go:257-283 | so is a map, also when its count is one short |
| `AmqpForms.TooLarge` | internal/servers/sbserver/decode.go:239-245 | a collection announcing more elements than bytes remain is refused as too large before anything else |
| `AmqpForms.UnknownCodes` | internal/servers/sbserver/decode.go:53-184 | a constructor is refused as unknown exactly when it is none of the 34 the decoder knows |
| `AmqpForms.CutShort` | internal/servers/sbserver/decode.go:26-42 | an encoding cut short anywhere is refused |
| `AmqpForms.SizesAreTrue` | internal/servers/sbserver/encode.go:109-153 | every list and map is written with the number of bytes and of elements that follow, as section 1.6 of AMQP 1.0 asks, although this decoder ignores the size |
| `AmqpForms.ShortWhenItFits` | internal/servers/sbserver/encode.go:76-131 | the one-byte form is written exactly when size and count, or the length of a text, fit one byte |
| `AmqpForms.BadKeys` | internal/servers/sbserver/decode.go:257-283 | a binary, list or map as a map key, or inside a described key, makes the decoder panic |
| `AmqpForms.GoodKeys` | internal/servers/sbserver/decode.go:257-294 | every other key is read back with its value, a symbol as a string |
| `AmqpReserve.ReservedIfOk` | internal/servers/sbserver/decode.go:233-283 | a decoding that succeeds has reserved fewer slots for lists and maps than it consumed bytes |
| `AmqpReserve.ReservedBounded` | internal/servers/sbserver/decode.go:229-271 | the purpose of the count guards: decoding any n bytes, in success or failure, reserves at most (n^2 + 1530 n) / 18 slots |
| `AmqpReserve.HeadersReserve` | internal/servers/sbserver/decode.go:233-255 | that bound is reached up to its linear term: nested list headers of n bytes in all reserve at least (n^2 - 9 n) / 18 slots |
| `AmqpCodecProofs.EncodeItemsLength` | internal/servers/sbserver/decode.go:239-245 | every encoded item takes at least one byte, so the count guard never refuses what the writer wrote |
| `AmqpCoder.Encoder.WriteValue` | internal/servers/sbserver/encode.go:23-74 | appends exactly the specified encoding of the value to the buffer |
| `AmqpCoder.Encoder.WriteSized` | internal/servers/sbserver/encode.go:76-107 | appends the 8-bit or the 32-bit form of a string, symbol or binary, as its length asks |
| `AmqpCoder.Encoder.WriteList` | internal/servers/sbserver/encode.go:109-131 | appends exactly the specified encoding of a list, in one of its three forms |
| `AmqpCoder.Encoder.WriteMap` | internal/servers/sbserver/encode.go:133-153 | appends exactly the specified encoding of a map, its entries in the order given |
| `AmqpCoder.Decoder.ReadByte` | internal/servers/sbserver/decode.go:26-33 | returns the next byte and moves past it, or fails at the end without moving |
| `AmqpCoder.Decoder.ReadN` | internal/servers/sbserver/decode.go:35-42 | returns the next n bytes and moves past them, or fails without moving |
| `AmqpCoder.Decoder.ReadValue` | internal/servers/sbserver/decode.go:45-51 | returns what the specification decodes from the current position and moves by the bytes it used, never past the buffer |
| `AmqpCoder.Decoder.ReadBody` | internal/servers/sbserver/decode.go:53-184 | decodes the value behind any type code as the specification does, with the same errors |
| `AmqpCoder.Decoder.ReadSize` | internal/servers/sbserver/decode.go:186-198 | reads a size of one or four bytes |
| `AmqpCoder.Decoder.ReadBinary` | internal/servers/sbserver/decode.go:200-227 | reads a length and that many bytes |
| `AmqpCoder.Decoder.ReadList` | internal/servers/sbserver/decode.go:233-255 | reads the items of a list, refusing a count above the bytes that remain before reserving a slot for each item |
| `AmqpCoder.Decoder.ReadElements` | internal/servers/sbserver/decode.go:247-254 | its loop reads the specified items, with the slots they reserve themselves |
| `AmqpCoder.Decoder.ReadMap` | internal/servers/sbserver/decode.go:257-283 | reads the entries of a map, refusing a count above the bytes that remain before reserving half a slot for each element; an odd count still reads the value of its last key, and an unhashable key is the runtime panic, as an outcome of its own |
| `AmqpCoder.Decoder.ReadPairs` | internal/servers/sbserver/decode.go:272-282 | its loop inserts the specified entries in order, with the slots they reserve themselves |
| `AmqpFrame.FrameRoundTrip` | internal/servers/sbserver/frame.go:83-175 | what a peer does on a written frame, whatever follows it: it reads that frame exactly, refuses it when it exceeds the maximum size, or panics when a map in it has an unhashable key |
| `AmqpFrame.FrameReadBack` | internal/servers/sbserver/frame.go:138-175 | a frame is read back with its own code if and only if the code fits one byte, the frame fits the maximum size and its map keys are hashable |
| `AmqpFrame.FrameComesBackWhole` | internal/servers/sbserver/frame.go:83-175 | a frame of Go values is read back as it was written, up to trailing absent fields and the type of symbol keys, if and only if its code fits one byte, it fits the maximum size and no map inside it has a clash |
| `AmqpFrame.ListKeyPanics` | internal/servers/sbserver/decode.go:257-283 | a concrete frame of nineteen bytes with a list as a map key makes the reader panic |
| `AmqpFrame.FieldsSurvive` | internal/servers/sbserver/frame.go:178-183 | every performative field reads back, although trailing absent fields were trimmed |
| `AmqpFrame.StreamRoundTrip` | internal/servers/sbserver/frame.go:83-175 | any sequence of admissible frames written to a connection is read back as the same sequence |
| `AmqpFraming.HeaderDecides` | internal/servers/sbserver/frame.go:83-117 | which size, header length and shortage each header is refused for, in which order |
| `AmqpFraming.LongerHeader` | internal/servers/sbserver/frame.go:83-135 | a header longer than eight bytes is skipped and the frame is what its body says |
| `AmqpFraming.Heartbeat` | internal/servers/sbserver/frame.go:113-120 | a frame with no body, behind a header of any length, is a heartbeat: no performative, and nothing more is read |
| `AmqpFraming.AnyPerformative` | internal/servers/sbserver/frame.go:118-150 | a frame holds the performative its descriptor numbers, in any width, or number 0 when it is no number, the fields of its list, and the bytes behind it |
| `AmqpFraming.NotDescribedIsRefused` | internal/servers/sbserver/frame.go:121-128 | a body that is no described value is refused |
| `AmqpFraming.AnyHandle` | internal/servers/sbserver/helpers.go:10-27 | a handle is read as the same number from every integer form that can hold it |
| `AmqpFraming.ReplyMirrors` | internal/servers/sbserver/conn.go:171-189 | the reply to an attach has its name and handle, the other role, the settle modes, source and target it came with, or null, and no more |
| `AmqpFrame.Trim` | internal/servers/sbserver/encode.go:158-163 | what trimming removes is absent, and what it keeps does not end in an absent field |
| `AmqpFrame.Wire.WriteFrame` | internal/servers/sbserver/frame.go:153-175 | appends exactly the specified bytes of the frame to the stream |
| `AmqpFrame.Wire.DescribedList` | internal/servers/sbserver/encode.go:158-170 | builds the performative: descriptor byte and trimmed list |
| `AmqpFrame.Wire.ReadFrame` | internal/servers/sbserver/frame.go:83-135 | returns what the specification parses from the stream, with the same errors, and consumes exactly that frame |
| `AmqpEcho.ReadNormal` | internal/servers/sbserver/decode.go:45-294 | every decoded value has only Go maps without symbol keys inside |
| `AmqpEcho.EchoReadsBack` | internal/servers/sbserver/conn.go:178-189 | a value decoded from fewer than 2^32 bytes is one decoding does not change: written again and read back it is the same, unless the encoder panics on it |
| `AmqpEcho.EchoInAnyOrder` | internal/servers/sbserver/encode.go:133-153 | the same value is read back when its maps are written in any other order, and the encoder panics on one order if and only if on all |
| `AmqpEcho.AttachEcho` | internal/servers/sbserver/conn.go:141-192 | the reply to any attach that was read, its maps written in any order, makes the encoder panic if and only if it does on one of the four fields echoed; otherwise, if it fits the maximum size, the client reads the values the server had read, up to that order, and the very same ones when it is the stored order |
| `AmqpEcho.SmallIntegersCannotReturn` | internal/servers/sbserver/encode.go:71-73 | the decoder returns bytes and shorts, which the encoder refuses, alone and in any list |
| `AmqpEcho.UnencodableAttach` | internal/servers/sbserver/encode.go:71-73 | a concrete attach of nineteen bytes that is read and whose reply cannot be encoded |
| `Broker.Broker.RegisterSubscription` | internal/stores/sbstore/broker.go:32-47 | adds the address to the topic named before "/subscriptions/", and nothing without that infix |
| `Broker.Broker.Send` | internal/stores/sbstore/broker.go:52-63 | the new state has one copy more at every subscription of the topic, or in the named queue when there is none, and wakes who waits there |
| `Broker.Broker.EnqueueLocked` | internal/stores/sbstore/broker.go:65-70 | appends the message to one queue and wakes who waits on it |
| `Broker.Broker.Dequeue` | internal/stores/sbstore/broker.go:73-84 | takes the front message of a queue, or none when it is empty |
| `Broker.Broker.Requeue` | internal/stores/sbstore/broker.go:88-93 | puts a message back at the front of its queue and wakes who waits on it |
| `Broker.Broker.WaitChan` | internal/stores/sbstore/broker.go:97-109 | a new channel, already closed when the queue has messages and registered otherwise |
| `Broker.Broker.NotifyLocked` | internal/stores/sbstore/broker.go:111-116 | closes and forgets every channel registered for a queue, none of them twice |
| `Broker.FannedOnce` | internal/stores/sbstore/broker.go:52-63 | a send puts one copy in every registered subscription, or in the queue when there is none, and none anywhere else |
| `Broker.RegisteredUnder` | internal/stores/sbstore/broker.go:32-47 | a subscription is registered under the topic before its first "/subscriptions/", in any letter case, and changes the receivers of no other topic |
| `DeliveryLaws.SubscribersExactly` | internal/stores/sbstore/broker.go:32-47 | over any run the subscriptions of a topic are exactly the addresses under it that were attached |
| `DeliveryLaws.PublishReaches` | internal/stores/sbstore/broker.go:52-63 | after any run a message puts one copy at the end of the queue of each such subscription, or of the address itself when there is none, and nowhere else |
| `DeliveryLaws.SubscriberServed` | internal/stores/sbstore/broker.go:32-63 | from every reachable state an address can subscribe, and the next message to its topic is then at the end of its queue |
| `DeliveryLaws.FailedWriteEnds` | internal/servers/sbserver/conn.go:372-374 | a loop whose write failed has written for the last time, whatever follows |
| `Broker.PutQueueKeeps` | internal/stores/sbstore/broker.go:65-116 | enqueueing and requeueing keep the broker invariant: no waiter on a non-empty queue, every registered channel open and registered once |
| `Broker.FannedKeeps` | internal/stores/sbstore/broker.go:52-63 | a fan-out keeps the broker invariant |
| `Broker.WaitedKeeps` | internal/stores/sbstore/broker.go:97-109 | asking for a channel keeps the broker invariant, and the channel is closed or registered for that queue |
| `Delivery.InvStep` | internal/servers/sbserver/conn.go:349-377 | every step of every client and delivery loop keeps the invariant: conservation at each address, broker validity, wakeable sleepers and credit accounting |
| `Delivery.Safety` | internal/servers/sbserver/conn.go:349-377 | in every reachable state each copy enqueued at an address is in the queue, in one loop's hand, or settled (delivered, or dropped by a failed write) |
| `Delivery.NoLostWakeup` | internal/servers/sbserver/conn.go:351-361 | in every reachable state a loop asleep on a non-empty queue can wake up |
| `Delivery.NeverBeyondCredit` | internal/servers/sbserver/link.go:53-85 | a link never writes more transfers than the sum of the credit its client granted |
| `Delivery.DrainHolds` | internal/servers/sbserver/conn.go:364-376 | after a drain a link writes, until credit is granted again, at most one transfer, whatever else runs: the one whose credit its loop had already taken, and none when it had taken none |
| `Delivery.DrainRace` | internal/servers/sbserver/conn.go:364-376 | a concrete run in which a link still writes a transfer after its drain |
| `DeliveryLaws.DrainStops` | internal/servers/sbserver/conn.go:238-254 | a drain leaves no credit: whatever follows without a new grant, the link writes at most the transfer already paid for |
| `DeliveryLaws.CloseStops` | internal/servers/sbserver/link.go:123-131 | a closed link stays closed and writes at most that transfer, whatever is granted to it |
| `DeliveryLaws.CanAlwaysLeave` | internal/servers/sbserver/conn.go:349-371 | from every reachable state the loop of a closed link can end in three steps of its own, what it held being back at the front of its queue |
| `Delivery.GrantIsStandard` | internal/servers/sbserver/conn.go:223-257 | in every reachable state a flow leaves the credit section 2.6.7 of AMQP 1.0 prescribes if and only if the link held one credit for each transfer the client had not counted; for an up-to-date client, if and only if it held none |
| `Delivery.RepeatedFlowDoubles` | internal/servers/sbserver/conn.go:223-257 | a concrete run: two flows of ten credits, nothing sent in between, leave the server with twenty |
| `Delivery.DroppedIffWriteFails` | internal/servers/sbserver/conn.go:372-374 | a message is dropped in a run if and only if some transfer of the run could not be written |
| `Delivery.ConservedUnlessWriteFails` | internal/servers/sbserver/conn.go:349-377 | while every write succeeds, each copy enqueued at an address is in the queue, in one loop's hand, or delivered |
| `Delivery.FirstInFirstOut` | internal/servers/sbserver/conn.go:349-377 | with one live loop per address, settled ++ in hand ++ queue is exactly the sequence enqueued there |
| `DeliveryProgress.CanAlwaysDeliver` | internal/servers/sbserver/conn.go:349-377 | progress: from every reachable state a live loop on an open link with credit delivers, within five steps of its own, what it holds or else the first message of its queue |
| `DeliveryProgress.CanAlwaysDeliverAll` | internal/servers/sbserver/conn.go:349-377 | and so on: within five steps of its own for each, it delivers as many of the messages it holds and has queued as it has credit for, in order |
| `DeliveryProgress.ReturningIsClosed` | internal/servers/sbserver/conn.go:364-371 | in every reachable state a loop that is giving its message back has a closed link |
| `Link.CreditIsStandard` | internal/servers/sbserver/link.go:53-58 | adding a flow's credit gives the credit of section 2.6.7 of AMQP 1.0 if and only if the link already held the difference of the two delivery-counts |
| `Link.Link.AddCredit` | internal/servers/sbserver/link.go:53-58 | adds the credit with 32-bit wrap-around and changes nothing else |
| `Link.Link.DrainCredit` | internal/servers/sbserver/link.go:62-67 | sets the credit to zero and reports the delivery count |
| `Link.Link.TakeCredit` | internal/servers/sbserver/link.go:73-85 | once the wait is over, consumes one credit and counts a delivery, or refuses when the link has closed |
| `Link.Link.AppendPartial` | internal/servers/sbserver/link.go:88-92 | appends a chunk to the delivery in progress |
| `Link.Link.TakePartial` | internal/servers/sbserver/link.go:96-106 | returns the whole delivery and leaves the buffer empty |
| `Link.Link.RecordReceived` | internal/servers/sbserver/link.go:111-121 | counts a received transfer and says when a window's half has been used |
| `Link.Link.Close` | internal/servers/sbserver/link.go:123-131 | closes the link, also when called again |
| `CreditWindow.InvStep` | internal/servers/sbserver/conn.go:213-308 | every step of the two parties keeps the exact relation between link window, session window, replies in flight and counters, in 32-bit serial arithmetic |
| `CreditWindow.WindowHolds` | internal/servers/sbserver/conn.go:193-221 | a client that follows section 2.6.7 of AMQP 1.0 never has more than 5000 whole deliveries on their way to the server |
| `CreditWindow.RunCounts` | internal/servers/sbserver/conn.go:259-308 | over any run the counters are the numbers of transfers and of whole deliveries sent and taken |
| `CreditWindow.NeverOutOfCredit` | internal/servers/sbserver/link.go:111-121 | with nothing in flight the client's link credit exceeds 2500 |
| `CreditWindow.StallsExactly` | internal/servers/sbserver/conn.go:213-221 | for a client that also follows section 2.5.6 of AMQP 1.0, whatever number of transfers each delivery takes, the pair stalls if and only if no whole delivery and no reply is in flight and the client has sent all the transfers the session admits, which it never exceeds |
| `CreditWindow.EveryRunEnds` | internal/servers/sbserver/conn.go:213-221 | no flow reopens the session window, so every run is bounded, and one that cannot be continued has sent all the session admits: 65535 transfers when they are numbered from 0 |
| `CreditWindow.StallReachable` | internal/servers/sbserver/conn.go:213-221 | from every state that satisfies the invariant the pair can run into that stall |
| `CreditWindow.UnsettledBound` | internal/servers/sbserver/conn.go:289-308 | counted by dispositions seen the bound is 5001; it exceeds 5000 if and only if the credit is used up and the next reply is the disposition a flow has overtaken |
| `CreditWindow.OvertakenDisposition` | internal/servers/sbserver/conn.go:289-308 | wherever the session admits 7500 transfers, some run does reach 5001 unsettled deliveries |
| `Transfers.LinkKeyInjective` | internal/servers/sbserver/conn.go:38-40 | different channel and handle pairs have different link keys |
| `Transfers.RunAlone` | internal/servers/sbserver/conn.go:141-320 | however other links are attached, detached and send in between, a link behaves as if it were alone |
| `Transfers.FeedDeliveries` | internal/servers/sbserver/link.go:88-106 | a link fed the frames of some deliveries yields exactly their contents and settlements |
| `Transfers.Reassembly` | internal/servers/sbserver/conn.go:259-308 | for every interleaving with other links the broker receives each completed delivery of a link whole, once and in order, each settled once by its final frame, and the buffer ends empty |
| `Transfers.SettledByName` | internal/servers/sbserver/conn.go:259-308 | over any such run, the deliveries of a link are settled under their own ids if and only if every final frame carries its id, or leaves out the id 0 |
| `Transfers.ContinuationSettledAsZero` | internal/servers/sbserver/conn.go:259-308 | a concrete delivery 7 in two frames, the id on the first only, is settled as 0 |
| `TransfersRuns.EachAnswered` | internal/servers/sbserver/conn.go:259-308 | for every interleaving with other links, all a new link causes, in order: each delivery is handed on whole and then settled, and before every 2500th is settled the client is granted 5000 credits again |
| `TransfersLaws.AttachDoes` | internal/servers/sbserver/conn.go:141-205 | what an attach of each kind of address and role stores, registers, sends and starts, in which order |
| `TransfersLaws.DetachForgets` | internal/servers/sbserver/conn.go:310-320 | a detach forgets exactly its link, answers, and later transfers on the handle do nothing |
| `TransfersLaws.RequestAnswered` | internal/servers/sbserver/cbs.go:7-29 | a whole $cbs request is answered exactly when a receiver of the $cbs node is attached on its channel, is settled either way and reaches no queue |
| `TransfersLaws.ReceiverTakes` | internal/servers/sbserver/cbs.go:20-29 | attaching such a receiver lets its own channel be answered and no other |
| `Transfers.FailureLosesNothingSettled` | internal/servers/sbserver/conn.go:282-308 | wherever a socket write fails, messages handed on and deliveries settled are prefixes of those without a failure, and at most one message was handed on unsettled |
| `Transfers.FailureCutsShort` | internal/servers/sbserver/conn.go:42-62 | up to its failure a connection does exactly what it would do without one, and nothing after |
| `TransfersRuns.FailsExactly` | internal/servers/sbserver/conn.go:42-62 | a socket that takes n writes lets out exactly what a lasting one does before write n + 1, and the connection lasts if and only if there is none |
| `Transfers.Conn.AttachLink` | internal/servers/sbserver/conn.go:141-205 | stores a fresh link, registers a subscription, echoes, and grants credit or starts a delivery loop, stopping at a failed write |
| `Transfers.Conn.Announce` | internal/servers/sbserver/conn.go:171-205 | the effects of an attach, in the order of the source |
| `Transfers.Conn.Receive` | internal/servers/sbserver/conn.go:259-308 | does to links and effects exactly what the transfer step says, a failed write included, and nothing for an unknown handle |
| `Transfers.Conn.Complete` | internal/servers/sbserver/conn.go:276-308 | hands the whole message on, or answers a $cbs request when a receiver for the answer is attached on the channel, replenishes credit when due and settles the delivery, each write that fails being the last thing done |
| `Transfers.Conn.FindCbsReceiver` | internal/servers/sbserver/cbs.go:20-29 | finds a $cbs receiver link on the channel if and only if there is one, in whatever order the links are visited |
| `Transfers.Conn.DetachLink` | internal/servers/sbserver/conn.go:310-320 | closes and forgets the link, then echoes |
| `Transfers.Conn.Do` | internal/servers/sbserver/conn.go:405-425 | a write that fails ends the connection |
| `BlobListing.KeyMonotone` | internal/stores/blobstore/fsstore/blobs.go:146-163 | collapsing at the delimiter keeps name order: a later name never comes under an earlier entry |
| `BlobListing.ListingFacts` | internal/stores/blobstore/fsstore/blobs.go:125-183 | the one-shot listing is strictly increasing and holds exactly the entries of the matching blobs |
| `BlobListing.PagesAreTheListing` | internal/stores/blobstore/fsstore/blobs.go:113-183 | following the markers ends, and the pages put together are the one-shot listing, every page but the last full |
| `BlobListing.PagesFlatten` | internal/stores/blobstore/fsstore/blobs.go:125-183 | from any resume point the pages put together are exactly the entries above it |
| `BlobListing.MarkerMeansMore` | internal/stores/blobstore/fsstore/blobs.go:164-183 | the next marker is empty if and only if nothing remains |
| `BlobListing.NothingTwice` | internal/stores/blobstore/fsstore/blobs.go:125-183 | however the container changes between calls, entries of a later page are greater than those of an earlier one |
| `BlobListing.NothingMissed` | internal/stores/blobstore/fsstore/blobs.go:125-183 | an entry with some member at every call is listed in exactly one page, once |
| `BlobMeaning.ListedItself` | internal/stores/blobstore/fsstore/blobs.go:146-163 | a blob whose name has no delimiter behind the prefix is listed under its own name |
| `BlobMeaning.ListedUnderDirectory` | internal/stores/blobstore/fsstore/blobs.go:146-163 | one that has is listed under its name up to and including the first delimiter behind the prefix |
| `BlobMeaning.PageSplits` | internal/stores/blobstore/fsstore/blobs.go:166-183 | the entries of a page are parted into blobs and virtual directories, each in name order, none lost |
| `BlobMeaning.PageSizes` | internal/stores/blobstore/fsstore/blobs.go:122-123 | a request for 1 to 5000 entries gives pages of just that many, any other one of 5000, while more remain |
| `BlobListing.ListBlobs` | internal/stores/blobstore/fsstore/blobs.go:113-183 | returns the blobs and virtual directories of exactly one page of the listing, each in order, and its next marker |
| `BlobListing.ScanNames` | internal/stores/blobstore/fsstore/blobs.go:146-183 | the loop over the sorted names computes that page and marker |
| `BlobListing.CollectNames` | internal/stores/blobstore/fsstore/blobs.go:125-134 | collects the names with the prefix, each once, in whatever order the map is ranged over |
| `TableFilter.ParserIsTheGrammar` | internal/servers/tableserver/filter_parser.go:35-135 | the parser accepts a token sequence if and only if the or/and/primary grammar derives all of it with parentheses nested at most 64 deep, and returns that derivation's meaning |
| `TableFilter.SelectsWithinKind` | internal/servers/tableserver/odata.go:165-188 | values of different kinds compare under no operator, not even ne; within a kind ne selects exactly what eq does not |
| `TableFilter.Unquote` | internal/servers/tableserver/filter_lexer.go:54-74 | a string literal and what follows it are together shorter than the text read, so the tokenizer terminates |
| `TableFilterPrint.FilterRoundTrip` | internal/servers/tableserver/odata.go:131-149 | a filter printed with minimal parentheses and doubled quotes is accepted if and only if its parentheses nest at most 64 deep, and then selects the same entities |
| `TableFilterPrint.OrReads` | internal/servers/tableserver/filter_lexer.go:38-83 | the tokenizer reads a printed filter as the tokens of its derivation, up to whatever follows |
| `TableFilterPrint.QuotesRoundTrip` | internal/servers/tableserver/filter_lexer.go:54-74 | a text with its quotes doubled is read back as it was, whatever it contains |
| `TableFilterPrint.OrTooDeep` | internal/servers/tableserver/filter_parser.go:80-84 | a derivation nested deeper than the cap is refused |
| `TableFilterMeaning.NumberTests` | internal/servers/tableserver/odata.go:165-206 | the text of a test with a number selects exactly the entities whose number under that field is greater, at least, less, at most, equal or unequal |
| `TableFilterMeaning.StringTests` | internal/servers/tableserver/odata.go:165-224 | the text of a test with a string does so in byte order: by the first byte that differs, a beginning being less |
| `TableFilterMeaning.BoolTests` | internal/servers/tableserver/odata.go:165-188 | a test with a boolean selects by equality, and selects nothing with an order |
| `TableFilterMeaning.OrSelectsEither` | internal/servers/tableserver/filter_parser.go:35-53 | the text "a or b" selects what "a" or "b" selects |
| `TableFilterMeaning.AndSelectsBoth` | internal/servers/tableserver/filter_parser.go:55-73 | the text "a and b" selects what both select, an "or" on either side in parentheses |
| `TableFilterMeaning.BlankSelectsAll` | internal/servers/tableserver/odata.go:131-135 | a filter of nothing but blanks, tabs, line ends and form feeds selects every entity |
| `TableFilterMeaning.KeywordsInAnyCase` | internal/servers/tableserver/filter_lexer.go:85-103 | a word is a keyword, an operator or a boolean exactly when it is one in lower case |
| `TableFilterParser.TokenizeFilter` | internal/servers/tableserver/filter_lexer.go:38-83 | the index loop returns exactly the specified tokens, or fails on an unclosed string |
| `TableFilterParser.ReadQuoted` | internal/servers/tableserver/filter_lexer.go:54-72 | reads a string literal to its closing quote |
| `TableFilterParser.ReadWord` | internal/servers/tableserver/filter_lexer.go:74-80 | reads a word to the next space, tab or parenthesis |
| `TableFilterParser.FilterParser.ParseOr` | internal/servers/tableserver/filter_parser.go:35-53 | the cursor moves and the filter built are those of the specification, the depth restored on success |
| `TableFilterParser.FilterParser.ParseAnd` | internal/servers/tableserver/filter_parser.go:55-73 | the same for and-expressions |
| `TableFilterParser.FilterParser.ParsePrimary` | internal/servers/tableserver/filter_parser.go:75-135 | the same for parentheses and comparisons, with the nesting cap |
| `TableFilterParser.ParseFilter` | internal/servers/tableserver/odata.go:131-149 | a whole filter text is compiled exactly as specified; a blank one selects everything |
| `Operators.StringTrichotomy` | internal/servers/tableserver/odata.go:208-224 | on two strings exactly one of lt, eq and gt holds, and ne, le and ge are what their names say |
| `Operators.NumberTrichotomy` | internal/servers/tableserver/odata.go:190-206 | the same on two numbers |
| `TableKeys.LocationRoundTrip` | internal/servers/tableserver/tables.go:75-86 | the location printed for an entity leads back to its table and exactly its keys, whatever quotes, commas, equals signs or parentheses the keys hold |
| `TableKeys.KeysRoundTrip` | internal/servers/tableserver/odata.go:39-88 | two printed keys are read back exactly, in either order and with the names in any letter case |
| `TableKeys.SplitFacts` | internal/servers/tableserver/odata.go:67-88 | splitting loses nothing but an empty last part, and cuts exactly at the separators outside quotes: those left are quoted, and no part is cut off inside a quote |
| `TableKeys.HalvedDoubled` | internal/servers/tableserver/odata.go:39-44 | undoing doubled quotes gives every text back |
| `TableKeys.SplitTopLevel` | internal/servers/tableserver/odata.go:67-88 | the loop returns exactly the specified parts |
| `TableKeys.ReadEntityKeys` | internal/servers/tableserver/odata.go:48-64 | the loop over the parts returns exactly the specified keys |
| `TableKeys.SegmentSplits` | internal/servers/tableserver/odata.go:19-27 | a table name and a predicate in parentheses are separated again |
| `TableKeys.WholeTable` | internal/servers/tableserver/odata.go:19-27 | a table name by itself or with empty parentheses has no predicate |
| `TableKeys.OtherNamesIgnored` | internal/servers/tableserver/odata.go:48-64 | a part with any other name changes neither key, wherever it stands |
| `TableKeys.OneKey` | internal/servers/tableserver/odata.go:48-64 | a key that is not named is empty |
| `EventGridRuns.InvStep` | internal/stores/egstore/store.go:52-171 | every publish, receive, acknowledgement, rejection, release and renewal keeps the invariant of every subscription |
| `EventGridRuns.Safety` | internal/stores/egstore/store.go:52-171 | in every reachable state each backlog event is available, locked or settled, in one place and once, with the number of times it was received; and whatever was handed out was free then |
| `EventGridRuns.NotTwiceUnderOneLock` | internal/stores/egstore/store.go:69-96 | an event received twice, its first lock untouched in between, was received again only after that lock ran out |
| `EventGridRuns.OutcomeExactly` | internal/stores/egstore/store.go:100-157 | in every reachable state an acknowledgement, rejection, release or renewal of a token succeeds if and only if the token is held by the record of what the subscriber saw; a token named twice is resolved once |
| `EventGridRuns.HeldUntilSwept` | internal/stores/egstore/store.go:163-171 | a token is held if and only if no receive came later than the deadline it got when received or last renewed, nothing else having been done with it since; a lock that ran out unnoticed still counts |
| `EventGridRuns.ResolveOutcome` | internal/stores/egstore/store.go:140-157 | resolving succeeds for exactly the held tokens, each once, and every other mention of a token fails |
| `EventGridRuns.RenewOutcome` | internal/stores/egstore/store.go:120-136 | renewing succeeds for exactly the mentions of held tokens |
| `EventGridRuns.NothingStranded` | internal/stores/egstore/store.go:163-171 | an event neither settled nor under a running lock is received by the next receive that asks for enough |
| `EventGridLaws.PublishStores` | internal/stores/egstore/store.go:52-64 | a publish puts all its events, in order and never received, at the end of the backlog and of what every subscription has available |
| `EventGridLaws.BacklogIsPublished` | internal/stores/egstore/store.go:52-64 | over any run the backlog is exactly what was published, batch after batch |
| `EventGridLaws.ReceiveHandsOut` | internal/stores/egstore/store.go:69-96 | a receive hands out as many events as asked for, at least one, or all there are, from the front, each locked for the lock duration under its own token and counted once more |
| `EventGridLaws.LocksLast` | internal/stores/egstore/store.go:69-96 | in every run every lock was given for the lock duration |
| `EventGridLaws.ResolveLeaves` | internal/stores/egstore/store.go:140-157 | what is left after resolving tokens: the locks not named, and with a release the events of those named at the end of what is available |
| `EventGridLaws.RenewMoves` | internal/stores/egstore/store.go:120-136 | a renewal moves the deadlines of exactly the locks it names and changes nothing else |
| `EventGridLaws.RenewsExtend` | internal/stores/egstore/store.go:120-136 | a renewed lock lasts the lock duration from the renewal on |
| `EventGridLaws.ResolveAnswers` | internal/stores/egstore/store.go:140-157 | an answer lists each token once, in the order asked: as succeeded when it was under lock and named the first time, and as failed otherwise |
| `EventGridLaws.RenewAnswers` | internal/stores/egstore/store.go:120-136 | so does a renewal's, as succeeded every time it was under lock |
| `EventGridRuns.HandFacts` | internal/stores/egstore/store.go:69-96 | a receive hands out the available events in order, as many as asked for, each count one higher |
| `EventGridRuns.SweepFacts` | internal/stores/egstore/store.go:163-171 | a sweep removes exactly the locks that have run out, and what was available stays in front |
| `EventGridRuns.SeededKeeps` | internal/stores/egstore/types.go:20-30 | a subscription made late starts with the whole backlog, each event once |
| `EventGridStore.Store.GetTopic` | internal/stores/egstore/store.go:41-48 | returns the topic, storing an empty one on first reference |
| `EventGridStore.Store.Publish` | internal/stores/egstore/store.go:52-64 | appends every event to the backlog and to every subscription, and touches no other topic |
| `EventGridStore.Store.Receive` | internal/stores/egstore/store.go:69-96 | the new state and the events returned are those of a sweep in some order and then handing out |
| `EventGridStore.Store.Acknowledge` | internal/stores/egstore/store.go:100-102 | the new state and the outcome per token are those of settling the locked tokens |
| `EventGridStore.Store.Reject` | internal/stores/egstore/store.go:106-108 | the same as acknowledging |
| `EventGridStore.Store.Release` | internal/stores/egstore/store.go:111-115 | the new state and the outcome per token are those of returning the locked events to the end of the queue |
| `EventGridStore.Store.ResolveTokens` | internal/stores/egstore/store.go:140-157 | goes through the tokens in order; a repeated or unknown token fails |
| `EventGridStore.Store.RenewLocks` | internal/stores/egstore/store.go:120-136 | moves the deadline of every locked token given, and of no other |
| `EventGridStore.PublishTo` | internal/stores/egstore/store.go:57-63 | the inner loop of a publish gives every subscription the event, once, and the backlog too |
| `EventGridStore.GetSub` | internal/stores/egstore/types.go:20-30 | returns the topic with the subscription, made and seeded from the backlog on first reference |
| `EventGridStore.HandOut` | internal/stores/egstore/store.go:82-94 | the loop of a receive is the specified handing out |
| `EventGridStore.SweepExpired` | internal/stores/egstore/store.go:163-171 | visiting the locks in any order returns those that ran out to the queue |
| `QueueRuns.InvStep` | internal/stores/queuestore/messages.go:12-162 | every operation keeps the agreement between the queue and what its clients saw |
| `QueueRuns.Safety` | internal/stores/queuestore/messages.go:12-162 | in every reachable state the queue holds, in the order of sending, the messages as recorded; one is missing only after removal, clearing or its time to live; and every recorded action was allowed |
| `QueueRuns.HiddenWhileTaken` | internal/stores/queuestore/messages.go:44-96 | a message taken until some time is shown by no dequeue or peek before it, unless an update moves it first |
| `QueueRuns.OnlyLatestReceipt` | internal/stores/queuestore/messages.go:99-148 | a delete or update succeeds if and only if the message is recorded, still alive, and the receipt is the last one given out for it; the two errors are told apart exactly |
| `QueueRuns.StaleReceiptFails` | internal/stores/queuestore/messages.go:99-148 | once a message was taken or moved again, no earlier receipt, from a dequeue or an update, deletes or updates it |
| `QueueRuns.EmptyReceiptDeletes` | internal/stores/queuestore/messages.go:99-119 | a message never taken is deleted with the empty receipt: a concrete run |
| `QueueRuns.DequeueReturns` | internal/stores/queuestore/messages.go:12-69 | after any run a dequeued message carries the text last sent or moved for it, its sending and expiry times, one dequeue more and the new receipt, and comes no earlier than its delay or timeout and no later than its time to live |
| `QueueRuns.DequeueFindsAll` | internal/stores/queuestore/messages.go:44-69 | and every message that may be shown is dequeued when as many are asked for as there are |
| `QueueStore.TakeFirst` | internal/stores/queuestore/messages.go:53-66 | a dequeue returns the first visible messages in the queue's order, one per receipt, each hidden and counted once more |
| `QueueStore.TakeLeaves` | internal/stores/queuestore/messages.go:53-66 | a dequeue leaves every other message as it was and all in their places |
| `QueueStore.Queue.EvictExpired` | internal/stores/queuestore/store.go:90-98 | compacting the array in place leaves exactly the unexpired messages in their order |
| `QueueStore.Queue.Enqueue` | internal/stores/queuestore/messages.go:12-39 | after eviction the new message is the last, with its visibility and time to live |
| `QueueStore.Queue.Dequeue` | internal/stores/queuestore/messages.go:44-71 | the array and the messages returned are those of the specified taking |
| `QueueStore.Queue.Peek` | internal/stores/queuestore/messages.go:75-96 | returns the first visible messages and changes nothing but the eviction |
| `QueueStore.Queue.DeleteMessage` | internal/stores/queuestore/messages.go:99-119 | removes exactly the message with that id and receipt, or reports which of the two is wrong |
| `QueueStore.Queue.UpdateMessage` | internal/stores/queuestore/messages.go:123-148 | replaces text (unless empty), receipt and visibility of exactly that message, or reports the error |
| `QueueStore.Queue.ClearMessages` | internal/stores/queuestore/messages.go:151-162 | leaves no message |
| `TableRuns.Safety` | internal/stores/tablestore/entities.go:21-187 | in every reachable state the stored entities are those the log of successes says exist, each under the ETag issued last, with its own keys and no server property |
| `TableRuns.CompareAndSwap` | internal/stores/tablestore/entities.go:86-148 | an update or delete that names an ETag succeeds if and only if it is the one issued last for that entity; otherwise not found or mismatch, exactly |
| `TableRuns.NoWriteSince` | internal/stores/tablestore/entities.go:168-176 | success means no write or delete of that entity since the named ETag was issued |
| `TableRuns.AtMostOneSuccess` | internal/stores/tablestore/entities.go:86-148 | of all updates and deletes naming the same ETag at most one succeeds |
| `TableRuns.SameTimeSameTag` | internal/stores/tablestore/store.go:86-94 | after two writes, a caller that holds the first ETag is refused if and only if the two came at different times |
| `EntityTags.EtagInjective` | internal/stores/tablestore/store.go:86-94 | different times, to 100 ns, have different ETags, and none reads as "no condition" or "any" |
| `TableStore.MergeIsOverlay` | internal/stores/tablestore/entities.go:108-117 | a merge is exactly the old properties overlaid by the stripped new ones, with the keys forced |
| `TableStore.ReplaceForgets` | internal/stores/tablestore/entities.go:118-120 | an insert or a replace stores the stripped new properties with the keys forced, and no old one |
| `TableStore.MergesCompose` | internal/stores/tablestore/entities.go:86-127 | two successful merges, each at its own time and on its own condition, leave what the second would with both sets of properties, the later winning |
| `TableStore.FlattenInjective` | internal/stores/tablestore/types.go:42-73 | without empty partitions the two-level map is determined by the flat map it stores |
| `TableLaws.InsertStores` | internal/stores/tablestore/entities.go:21-36 | an insert stores the given properties without the server's own, the keys forced, with the time and its ETag, and fails without a change when the entity exists |
| `TableLaws.ReplaceStores` | internal/stores/tablestore/entities.go:86-127 | so does a replace, which creates the entity without a condition and fails under "*" when there is none |
| `TableLaws.MergeStores` | internal/stores/tablestore/entities.go:108-117 | a merge stores the given properties over the old ones |
| `TableLaws.DeleteRemoves` | internal/stores/tablestore/entities.go:130-148 | a delete removes exactly that entity |
| `TableLaws.EtagLooks` | internal/stores/tablestore/store.go:86-94 | the ETag of a concrete time, spelled out |
| `TableStore.Table.Get` | internal/stores/tablestore/types.go:42-49 | looks the entity up in the flat map |
| `TableStore.Table.Put` | internal/stores/tablestore/types.go:51-58 | stores the entity in the flat map and leaves no partition empty |
| `TableStore.Table.Remove` | internal/stores/tablestore/types.go:60-73 | removes one key from the flat map, reports whether it was there and leaves no partition empty |
| `TableStore.Table.InsertEntity` | internal/stores/tablestore/entities.go:21-36 | the flat map and the result are those of the specified insert |
| `TableStore.Table.ReplaceEntity` | internal/stores/tablestore/entities.go:77-79 | the flat map and the result are those of the specified update without merging |
| `TableStore.Table.MergeEntity` | internal/stores/tablestore/entities.go:82-84 | the same with merging |
| `TableStore.Table.UpdateEntity` | internal/stores/tablestore/entities.go:86-127 | the same for both, error cases included |
| `TableStore.Table.DeleteEntity` | internal/stores/tablestore/entities.go:130-148 | the flat map and the result are those of the specified delete |
| `TableStore.Table.BuildEntity` | internal/stores/tablestore/entities.go:152-164 | strips the server's properties and forces the keys |
| `TableStore.Table.StripServerProps` | internal/stores/tablestore/entities.go:178-187 | keeps exactly the properties that are not the server's |
| `KqlRewrites.GroupMeaning` | internal/servers/monitorserver/predicate.go:41-59 | a group of comparisons is their "and", and fails with an operator if and only if a comparison fails with it after all before held |
| `KqlRewrites.PredicateMeaning` | internal/servers/monitorserver/predicate.go:41-59 | a predicate is the "or" of its groups, decided by the first that is not refuted |
| `KqlRewrites.WhereIsFilter` | internal/servers/monitorserver/kql.go:95-112 | a where stage fails if and only if the evaluation of some row fails, and otherwise keeps the rows that satisfy it, in order |
| `KqlRewrites.WhereWhereIsAnd` | internal/servers/monitorserver/kql.go:95-112 | two where stages that are conjunctions equal one with "and" between them, in rows and in the error |
| `KqlRewrites.WhereSortCommute` | internal/servers/monitorserver/kql.go:159-186 | where and sort commute when the comparison is an order on the column: the same rows in the same order, or an error both times |
| `KqlRewrites.ConjunctionSortCommute` | internal/servers/monitorserver/kql.go:159-186 | for a conjunction even the error is the same |
| `KqlRewrites.OrderExactly` | internal/servers/monitorserver/literal.go:60-79 | the sort's comparison is an order if and only if the column holds only numbers, only strings, or nothing the sort tells apart |
| `KqlRewrites.HomogeneousOrder` | internal/servers/monitorserver/literal.go:60-79 | on a column of only numbers or only strings the sort's comparison is an order |
| `KqlRewrites.FilterMovesUp` | internal/servers/monitorserver/kql.go:70-186 | wherever it stands in a pipeline, a filter may be moved in front of a sort on a column the sort can order |
| `KqlRewrites.ErrorDependsOnOrder` | internal/servers/monitorserver/comparison.go:41-70 | with "or" the operator named in the error depends on the order of the rows: a concrete table |
| `KqlRewrites.ErrorInAnyOrder` | internal/servers/monitorserver/kql.go:95-112 | a where stage that fails gives the same error in every order of the rows if and only if all rows that fail do so with one operator |
| `KqlRewrites.OneErrorSortCommute` | internal/servers/monitorserver/kql.go:95-186 | then where and sort commute in the error too |
| `KqlRewrites.MixedColumnDoesNotCommute` | internal/servers/monitorserver/literal.go:60-79 | on a column of unlike values where and sort do not commute: a concrete table |
| `KqlCommute.CommutesExactly` | internal/servers/monitorserver/kql.go:95-186 | every filter commutes with a sort in every order of the rows if and only if the column holds only numbers, only strings, or nothing the sort tells apart |
| `KqlRewrites.WhereProjectCommute` | internal/servers/monitorserver/kql.go:115-135 | a where stage may move across a project that keeps the columns it names |
| `KqlRewrites.SortProjectCommute` | internal/servers/monitorserver/kql.go:115-186 | a sort may move across a project that keeps its column, on any rows |
| `KqlRewrites.TakeTakeIsLeast` | internal/servers/monitorserver/kql.go:138-147 | two takes are one of the smaller number |
| `KqlMeaning.SortOrdersNumbers` | internal/servers/monitorserver/kql.go:159-186 | a sort on a column of numbers leaves the same rows, never increasing when descending and never decreasing otherwise |
| `KqlMeaning.SortOrdersTexts` | internal/servers/monitorserver/kql.go:159-186 | so does one on a column of strings, in byte order |
| `KqlMeaning.NumberComparison` | internal/servers/monitorserver/comparison.go:41-90 | from the text: a where clause with a number keeps exactly the rows whose number stands to it as the sign says |
| `KqlMeaning.TextComparison` | internal/servers/monitorserver/comparison.go:41-109 | from the text: one with a string keeps exactly the rows whose string does, in byte order |
| `KqlMeaning.BoolComparison` | internal/servers/monitorserver/comparison.go:41-70 | booleans compare for equality, and an order on one fails exactly when some row has a boolean in the column |
| `KqlMeaning.CountCounts` | internal/servers/monitorserver/kql.go:150-156 | a count behind a filter gives one row with the number of rows the filter keeps |
| `KqlMeaning.TakeKeepsFirst` | internal/servers/monitorserver/kql.go:138-147 | a take keeps the first rows, as many as asked for or all, and refuses a negative number |
| `KqlMeaning.ProjectKeepsColumns` | internal/servers/monitorserver/kql.go:115-135 | a project leaves every row with exactly the named columns, null where it had none, and refuses to name none |
| `StableSort.StableSortUnique` | internal/servers/monitorserver/kql.go:179-186 | two sorted sequences that agree on the order of tied elements are equal, so any stable sort computes the same rows |
| `StableSort.SortStable` | internal/servers/monitorserver/kql.go:179-186 | the sort keeps the order of tied elements |
| `StableSort.SortSorted` | internal/servers/monitorserver/kql.go:179-186 | the sort's result is sorted |
| `Kql.EvalPredicate` | internal/servers/monitorserver/predicate.go:41-59 | the nested loops return exactly the specified verdict |
| `Kql.ApplyWhere` | internal/servers/monitorserver/kql.go:95-112 | the loop returns exactly the specified rows or error |
| `Kql.ApplyProject` | internal/servers/monitorserver/kql.go:115-135 | the loops return exactly the specified rows |
| `Kql.ApplySort` | internal/servers/monitorserver/kql.go:159-186 | sorting the rows in place leaves exactly the specified order, which is the only stable one where the comparison is an order |
| `Kql.ApplyStage` | internal/servers/monitorserver/kql.go:70-92 | a stage does to a table exactly what is specified |
| `Kql.EvalKql` | internal/servers/monitorserver/kql.go:33-57 | a pipeline does to a table exactly what is specified, stopping at the first error |
| `KqlRoundTrip.ClauseRoundTrip` | internal/servers/monitorserver/predicate.go:20-90 | a where clause written down, whatever its columns and strings hold and whichever quote is put around each string, is parsed back as it was if and only if each column is not empty, has only single inner blanks, no keyword, no open quote and no operator up to its own, each literal has only single blanks, no keyword outside its quotes and no operator before its own, and each literal but the last closes its quotes |
| `KqlQuotes.ReadsSqueezed` | internal/servers/monitorserver/predicate.go:63-90 | how much white space there is cannot be seen: a clause and the same with its columns and strings squeezed are parsed alike, and into the squeezed clause if and only if that one is read back |
| `KqlQuotes.OrdinaryRoundTrip` | internal/servers/monitorserver/predicate.go:20-90 | a clause whose columns are names and whose strings lack the quote put around them is parsed squeezed, and as it was written if and only if the white space of every string is single blanks |
| `KqlWords.ReadsWords` | internal/servers/monitorserver/predicate.go:20-38 | splitting at "or" and then at "and" is one pass over the words: a comparison up to the first keyword outside quotes, and the rest |
| `KqlFind.ComparisonExactly` | internal/servers/monitorserver/comparison.go:18-37 | a column, any of the six operators and a literal are read as these three parts if and only if the column is not empty, has no white space at its ends, closes its quotes and holds no operator up to its own, and the literal holds none before its own |
| `KqlWords.SqueezeShortens` | internal/servers/monitorserver/predicate.go:63-90 | squeezing changes nothing if and only if all white space is single blanks |
| `KqlFind.IndexParts` | internal/servers/monitorserver/comparison.go:111-131 | where an operator is found in a comparison: in the column, or at its place when the column leaves no quote open, or else in the literal |
| `KqlQuotes.QuotedUncut` | internal/servers/monitorserver/predicate.go:63-90 | no keyword inside a string that lacks its own quote cuts the clause |
| `KqlQuotes.SingleQuotesDo` | internal/servers/monitorserver/literal.go:27-32 | a concrete string with both quotes that is read back in single quotes |
| `KqlQuotes.DoubleQuotesDoNot` | internal/servers/monitorserver/literal.go:27-32 | the same string in double quotes is not |
| `KqlQuotes.NeitherQuoteDoes` | internal/servers/monitorserver/literal.go:27-32 | a concrete string that is read back in neither kind of quotes |
| `KqlPipeline.PipelineSplits` | internal/servers/monitorserver/kql.go:60-67 | a query is cut into the stages it was written from if and only if none of them has a bar, inside quotes or not |
| `KqlParser.SplitKeyword` | internal/servers/monitorserver/predicate.go:63-90 | the loop over words, with its buffer and quote, returns the specified parts |
| `KqlParser.ScanQuotes` | internal/servers/monitorserver/predicate.go:74-81 | the inner loop leaves the specified quote open |
| `KqlParser.IndexOperator` | internal/servers/monitorserver/comparison.go:111-131 | the loop returns the first position of the operator outside quotes, or -1 |
| `KqlParser.ParseComparison` | internal/servers/monitorserver/comparison.go:18-37 | trying the operators longest first gives the specified comparison or refusal |
| `KqlParser.ParseConjunction` | internal/servers/monitorserver/predicate.go:27-34 | the inner loop gives the specified group or refusal |
| `KqlParser.ParsePredicate` | internal/servers/monitorserver/predicate.go:20-38 | the loops give the specified predicate or refusal |

## Left out

- HTTP routing, headers, XML and JSON rendering, error mapping, TLS, tokens and certificates: plumbing over libraries.
- Persistence and the file system: the stores' snapshots, blob contents and block staging.
- The account, queue and table lookups in front of `QueueStore.Queue` and `TableStore.Table`: only the "not found" answers of two maps.
- SASL, open, begin, end and close handshakes, and the `$cbs` node's reply: fixed answers; answering a `$cbs` request is an effect, and the message-id it repeats is not read.
- Confirmations of client dispositions: replies that change no state.
- The `$cbs` and `$management` exceptions of an attach, in `Delivery` only: registering a subscription and starting a delivery loop are separate steps there, so its runs include those of the code.
- `CreditWindow` has one sending link alone on its session; on a shared session the window it counts is shared too. A link credit is counted as used when the last transfer of a delivery is sent.
- Sockets: a connection is the byte sequence written to it, and a failed write is a step of `Delivery` and a parameter of `Transfers`.
- Float and double values decode to their raw bits, and `int8` and `int16` have no encoding, as in the code.
- `Delivery` takes the delivery loops as interleaved atomic steps, one for each critical section of the code.
- The blob listing's opaque continuation token: the marker is the resume name it decodes to, base64url taken as a bijection; blob names are not empty.
- `ParseFloat` is any function from texts to numbers, numbers are reals, and NaN and rounding are not modelled.
- Broker.Broker.RegisterSubscription: lower-cases ASCII letters only, because the code indexes a lower-cased copy with positions of the original; addresses are ASCII.
- White space and letter case elsewhere are ASCII too.
- Percent-encoding of the location header and of request paths.
- `EventGrid` keeps deliveries as values with their backlog position instead of shared pointers, and topics as values each call replaces; a received event carries that position.
- Random lock tokens, message ids and pop receipts are parameters, assumed different from those in use; clocks are parameters that do not go back.
- EntityTags.EtagInjective: years have four digits, and writes are assumed at least 100 ns apart, the resolution of an ETag.
- `ListEntities`, `projectSelect`, `ListContainers`, ARM, Key Vault and Web PubSub: easy, or covered by harder results here.
- The text of the other stages of a log query, and of the operator word in front: they are taken as parsed.
- Kql.ApplySort: Go's stable sort is an insertion sort up to 20 rows and merges blocks beyond. Where the comparison is an order there is only one stable result; on a longer mixed column, where it is not one, the code may order rows differently.
