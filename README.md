# NegevSat ground station: telemetry parser and serial writer

This project models two worker objects of the NegevSat ground-station back end and proves properties about them.

- **`MessageParser`** takes each message the inbound framer queues and parses it into an XML document. It reads the document's `downstreamPacket` and its `type` and routes the packet to one of three decoders: Static, Temperature or Energy. Each decoder hands records to the database gateway. Invalid messages go to the error log. A message that does not parse, a decoder that throws and an unreadable timestamp are only printed.
- **`SerialWriter`** takes each outbound message and writes it to the serial stream, framed between a start and a stop delimiter.

The model is split by unit of the program:

| file | module | what it holds |
|---|---|---|
| `wrappers.dfy` | `Wrappers` | `Option` (Java's `null`, or a call that threw); `Flatten` and its lemmas |
| `dom.dfy` | `Dom` | the parsed document tree; `getNodeName`, `getChildNodes`, attribute lookup, `getTextContent`, `getElementsByTagName` |
| `rtems.dfy` | `Rtems` | the `yyyyMMddHHmmss` timestamp: `parseRTEMSTimestamp`, `toRTEMSTimestamp`, and their round trips |
| `telemetry.dfy` | `Telemetry` | `Status`, `SatelliteState`, `stringToStatus`, `stringToSatState`, and the three kinds of record the gateway receives |
| `static_decoder.dfy` | `StaticDecoder` | `parseStaticPacket` as a method with its two nested loops, its specification function, and reference lemmas |
| `sample_decoders.dfy` | `SampleDecoders` | `parseTemperaturePacket` and `parseEnergyPacket` in the same form |
| `message.dfy` | `Messages` | a queued message, as bytes |
| `message_parser.dfy` | `Parser` | `parseMessage`; one `run` iteration; the `MessageParser` class with `run` and `stopThread` |
| `serial_writer.dfy` | `Serial` | the output stream with scripted write failures; the `SerialWriter` class with `run` and `stopThread` |
| `scenarios.dfy` | `Scenarios` | one Energy document, traced through routing, timestamp parsing and decoding |

Each loop in the source is a Dafny `method` with a loop, proved equal to a specification function defined over prefixes. Each decoder's specification function is then related, by lemma, to an independent reference definition. The reference says which input makes Java throw, and which element's attribute ends up in each field. It uses notions like "the last child named `Sensor1`" or "the last `Info` naming a module".

A null dereference in Java is decoding failure: a missing attribute, or an attribute read on a text node. `NumberFormatException` from `Float.parseFloat` is decoding failure too. Records already handed to the gateway stay handed. The `run` loops drain a finite queue: the queue running out stands for the blocking `take`, and `stopThread` clears the flag the loop tests.

Behaviour of the code worth knowing; the model follows it:

- **Invalid downstream message, two log entries.** The code logs such a message twice: once inside `parseMessage` (no container, no `type`, or an unknown type), and once more as a parsing error in `run`.
- **Upstream echoes are still logged once.** The `upstreamPacket` check in `run` only skips the second entry. The entry written inside `parseMessage` stays.
- **Whole-document searches.** The container and `type` are looked up with `getElementsByTagName` over the whole document. The first in document order is used, and the container need not be the root.
- **Info nodes are not checked by name.** The Static decoder reads the `Module` tag with a capital M. It treats every child of a `Module` as an info node, whatever its name. A whitespace text node among them is a dereference of `null` and so a failure.
- **Read before the switch.** The sample decoders read `temp` (or `voltage` and `current`) before switching on the child's name. So an unrecognised child that lacks those attributes also makes the decoder throw.
- **Unknown status can make the Static packet fail.** An unrecognised status string on a known module gives `null`, and a later `Info` naming the same module overwrites it. When the last mention of some module carries an unrecognised status, the log message calls `toString()` on that `null`, so nothing is inserted.
- **Decode errors are not logged.** A message that fails `toDocument` is only printed, not logged, and is dropped.

## Model

| member | source | states |
|---|---|---|
| Dom.ElementsByTagName | src/communication/MessageParser.java:105-116 | every node returned is an element with the tag; the result is non-empty exactly when the tree holds such an element; a matching root comes first |
| Dom.FirstInDocumentOrder | src/communication/MessageParser.java:110-116 | `item(0)` is the first match in document order: below a non-matching root, it is the first match of the first child subtree holding one |
| Telemetry.StringToStatus | src/communication/MessageParser.java:329-349 | a status is returned only for its own name and is never `UNKNOWN`; each of the four reported names gives its status; everything else gives null |
| Telemetry.StringToSatState | src/communication/MessageParser.java:351-367 | operational exactly for `OPERATIONAL_STATE` or `INIT_STATE`; safe mode exactly for `SAFE_STATE`; unknown exactly otherwise |
| Rtems.ParseRtemsTimestamp | src/communication/MessageParser.java:309-318 | a time is read exactly when the text is fourteen ASCII digits; any other text gives the epoch sentinel 0 |
| Rtems.ToRtemsTimestamp | src/communication/MessageParser.java:320-323 | the text is digits only, at least fourteen of them, and exactly fourteen when every field fits its zero-padded width |
| Rtems.ParseFormatRoundTrip | src/communication/MessageParser.java:309-323 | formatting an in-range calendar time gives 14 digits that parse back to the same time |
| Rtems.FormatParseRoundTrip | src/communication/MessageParser.java:309-323 | a 14-digit timestamp holding an in-range calendar time is reproduced by formatting what it parses to |
| StaticDecoder.NoNullStatusEveryModule | src/communication/MessageParser.java:196-202 | the log message's six `toString()` calls all succeed exactly when no module's status is null |
| StaticDecoder.DecodeStatic | src/communication/MessageParser.java:133-210 | a Static packet inserts exactly one satellite record when it completes, and none when it throws |
| StaticDecoder.ParseStaticPacket | src/communication/MessageParser.java:133-210 | the two nested loops insert, and fail, exactly as the Static specification function says |
| StaticDecoder.ParseModuleInfos | src/communication/MessageParser.java:159-193 | the info loop of one `Module` leaves the module pairs the info walk computes, or throws where it says |
| StaticDecoder.InfosWalkReference | src/communication/MessageParser.java:159-193 | the info loop throws exactly on a child without `name` or `status`; otherwise each known module's pair is set by the last child naming it, with the enclosing `time`, and other modules keep their pairs |
| StaticDecoder.ChildrenWalkFails | src/communication/MessageParser.java:151-195 | the child loop throws exactly when some `Module` child has no `time` or a bad info child |
| StaticDecoder.ChildrenWalkValues | src/communication/MessageParser.java:151-195 | a completed child loop holds the state of the last `state` child and, per module, the pair from its last mention |
| StaticDecoder.ChildrenWalkReference | src/communication/MessageParser.java:151-195 | both of the above together |
| StaticDecoder.StaticFailure | src/communication/MessageParser.java:151-209 | the Static decoder inserts nothing exactly when a `Module` is malformed, or the deciding mention of some module carries an unrecognised status |
| StaticDecoder.StaticRecordReference | src/communication/MessageParser.java:135-209 | a completed Static packet's record takes its state from the last `state` child (unknown if none); an unmentioned module reports `UNKNOWN` with a null time; a mentioned one reports its status and the parsed `time` of its last `Module` |
| SampleDecoders.ReadSensors | src/communication/MessageParser.java:224-242 | the sensor loop leaves the readings the sensor walk computes, or throws where it says |
| SampleDecoders.ParseTemperaturePacket | src/communication/MessageParser.java:212-254 | the Temperature loops insert, in order, exactly the records of the sample walk, and fail exactly where it fails |
| SampleDecoders.ReadBatteries | src/communication/MessageParser.java:268-290 | the battery loop leaves the readings the battery walk computes, or throws where it says |
| SampleDecoders.ParseEnergyPacket | src/communication/MessageParser.java:256-302 | the Energy loops insert, in order, exactly the records of the sample walk, and fail exactly where it fails |
| SampleDecoders.SampleWalkReference | src/communication/MessageParser.java:215-253 | the inserted records are the decodings of the first samples, in order and one each; decoding stops early exactly when a sample fails, and then the next sample is the one that failed |
| SampleDecoders.SensorsWalkReference | src/communication/MessageParser.java:224-242 | the sensor loop throws exactly on a child without `temp` or a sensor with an unparsable `temp`; otherwise each reading is that of the last child with the sensor's name, 0 when none |
| SampleDecoders.TemperatureSampleReference | src/communication/MessageParser.java:217-251 | a `TemperatureSample` yields no record exactly when it lacks `time` or has a bad child; otherwise the record holds the last readings and the sample's parsed time |
| SampleDecoders.BatteriesWalkReference | src/communication/MessageParser.java:268-290 | the battery loop throws exactly on a child without `voltage` or `current`, or a battery with an unparsable one; otherwise each pair is that of the last child with the battery's name, 0 when none |
| SampleDecoders.EnergySampleReference | src/communication/MessageParser.java:261-299 | an `EnergySample` yields no record exactly when it lacks `time` or has a bad child; otherwise the record holds the last pairs and the sample's parsed time |
| Parser.RouteOf | src/communication/MessageParser.java:104-131 | no container exactly when no `downstreamPacket` exists; no type exactly when a container exists but no `type`; otherwise the first `type`'s text selects the decoder or is rejected, and the decoded packet is the first `downstreamPacket` |
| Parser.ParseMessage | src/communication/MessageParser.java:104-131 | `parseMessage` logs, inserts and ends exactly as the dispatch specification function says |
| Parser.DispatchReference | src/communication/MessageParser.java:104-131 | an invalid message inserts nothing and logs exactly one error; a routed one logs nothing, inserts what its decoder inserts, and fails exactly when that decoder does |
| Parser.HandleMessageErrors | src/communication/MessageParser.java:77-97 | a message `toDocument` rejects has no effect; an invalid one logs `parseMessage`'s single entry, followed by the parsing-error entry of `run` exactly when the document has no `upstreamPacket`; a valid one logs nothing |
| Parser.HandleAllAppend | src/communication/MessageParser.java:65-101 | processing `q1 + q2` is processing `q1` and then `q2` |
| Parser.HandleAllInOrder | src/communication/MessageParser.java:65-101 | the gateway receives each message's records in turn, in queue order |
| Parser.MessageParser.constructor | src/communication/MessageParser.java:59-61 | a new parser is running, and has inserted and logged nothing |
| Parser.MessageParser.StopThread | src/communication/MessageParser.java:325-327 | clears the running flag |
| Parser.MessageParser.Accept | src/communication/MessageParser.java:67-97 | one iteration appends the message's records and log entries, and nothing else |
| Parser.MessageParser.Run | src/communication/MessageParser.java:63-102 | a running parser takes every message and stopped one takes none; what it inserted and logged is the queue prefix's effects appended to what was there before |
| Serial.SendFrameContribution | src/communication/SerialWriter.java:19-30 | one message adds a prefix of its frame: all of it when none of its three writes throws, nothing when the start delimiter throws; it uses up one write outcome per attempted write |
| Serial.SendAllFaultFree | src/communication/SerialWriter.java:16-32 | with no write failing, the stream receives exactly the frames of the queue, in order |
| Serial.SendAllAppend | src/communication/SerialWriter.java:16-32 | sending `q1 + q2` is sending `q1` and then `q2` |
| Serial.FailureDoesNotBlockNext | src/communication/SerialWriter.java:18-31 | whatever became of one message, the next is written as a whole frame right after it when its own writes succeed |
| Serial.OutputStream.Write | src/communication/SerialWriter.java:21-23 | a write appends its bytes unless it throws, and consumes one write outcome |
| Serial.SerialWriter.constructor | src/communication/SerialWriter.java:10-14 | a new writer is running, on the given stream |
| Serial.SerialWriter.StopThread | src/communication/SerialWriter.java:34-36 | clears the running flag |
| Serial.SerialWriter.Run | src/communication/SerialWriter.java:16-32 | a running writer takes every message and a stopped one none; the stream ends as the framing of the taken prefix leaves it |
| Scenarios.EnergyDocumentRoute | src/communication/MessageParser.java:104-126 | the worked Energy document is routed to the Energy decoder with its `downstreamPacket` |
| Scenarios.SampleTimeParses | src/communication/MessageParser.java:309-318 | `20240229235959` reads as 29 February 2024, 23:59:59 |
| Scenarios.EnergySampleDecodes | src/communication/MessageParser.java:256-302 | the worked sample yields one record: Battery1's voltage and current, zeros for the other batteries |
| Scenarios.EnergyMessageScenario | src/communication/MessageParser.java:104-302 | `parseMessage` on the worked document inserts exactly that record and logs nothing |

## Left out

- XML parsing (`Message.toDocument`) is left out. It is a parameter of the model, and a failure there is a `None` result. `Message`'s own methods (`toDocument`, `toString`) are not modelled; a message is its `getBytes()` payload.
- `Float.parseFloat` is a parameter, and `None` stands for `NumberFormatException`. Readings are kept as 32-bit IEEE bit patterns, and the model does no floating-point arithmetic.
- Rtems.ParseRtemsTimestamp: weaker than Java's lenient `SimpleDateFormat`. It accepts only exactly 14 ASCII digits and keeps the raw fields without calendar normalisation. Java's leniency (out-of-range fields rolled over, fewer digits, trailing text) is not modelled. Thus a malformed string always gives the epoch sentinel.
- Rtems.ToRtemsTimestamp: civil fields stand for epoch milliseconds. The time zone and the conversion to `long` are not modelled, and neither is formatting the epoch sentinel back.
- Console output, `printStackTrace`, `Loggers.logAction` and the simulator's printing are left out. They produce no state the model observes. `Loggers.logError` is kept as the error log.
- Threads, blocking `take`, `InterruptedException` and the visibility of `isRunning` across threads are left out. The `run` loops are sequential methods over a finite queue.
- The `DataManager` gateway and `CommunicationManager` are not part of this model. The records the gateway receives are a sequence, the queues are parameters, and the two delimiter bytes are constructor parameters.
- Serial.OutputStream.Write: a failing write is modelled as writing nothing. A partial write before an `IOException` is not modelled.
- The inbound byte framer, the GUI and `Mission.java` are outside the modelled core.
