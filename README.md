# node-dns-sd: the query composer and the discovery engine

This project models the two parts of node-dns-sd that hold its logic.
node-dns-sd is a multicast DNS service discovery (DNS-SD) client for Node.js.

- **The query composer** (`lib/dns-sd-composer.js`) turns a list of service names into one DNS query message. The message has a 12-byte header (section 4.1.1 of RFC 1035) and one question per name (section 4.1.2). Each name is written as length-prefixed labels ending in a zero byte (section 3.1). Each question asks for QTYPE 255, "*" (section 3.2.3), in class IN (section 3.2.4).
  - `Composer.Compose` builds the buffer list the way the source does.
  - The functions `HeaderBytes`, `LabelBytes`, `QuestionBytes` and `QueryBytes` describe the same bytes as a whole.
  - The module `QueryReader` reads a query back (without name compression). It is the partner that shows every name comes back unchanged.
  - `Utf8` models `Buffer.from(part, 'utf8')`. Its decoder shows the encoding loses nothing.
- **The session engine** (`lib/dns-sd.js`) covers:
  - option validation (`DnsSdParams`), over a model of JavaScript values;
  - how a decoded message becomes a device (`DnsSdDevice`);
  - the device filters (`DnsSdFilter`);
  - the answer gates, keyed aggregation and the send loop of one discovery (`DnsSdSession`);
  - the host interface filter (`DnsSdNetif`);
  - the `DnsSd` object itself (`DnsSdEngine.DnsSd`), a class whose fields are the source's flags, device map, interface list and receive handler;
  - how calls made without awaiting each other interleave with the awaits inside them: `discover()` calls (`DnsSdStart`), and `startMonitoring()` and `stopMonitoring()` calls against the socket's close callback (`DnsSdListen`). The engine class runs each call as one step.

The socket, the timers and the decoder are outside the model.
- A socket is a flag, and whether binding succeeds is a method parameter.
- A datagram arriving and the wait timer firing are method calls (`Receive`, `WaitTimerExpired`).
- Outgoing queries and messages handed to `ondata` go to the ghost traces `sent` and `delivered`.

`Discover` returns once the session has started. The device list that `discover()` resolves with is what `Receive` (quick mode) or `WaitTimerExpired` hands back.

Two points where the source's own comments and its code part ways. The model follows the code in both.
- The comment on `discover()` (lib/dns-sd.js:41) calls `type` the query type, for example "PTR". The code validates it and passes it to the composer, which never reads it, so every question asks for QTYPE 255.
- The composer (lib/dns-sd-composer.js:23-56) writes a query for any list of names, including the empty one. Only `_checkDiscoveryParameters` rejects an empty `name` array (lib/dns-sd.js:196-197).

## Model

| member | source | states |
|---|---|---|
| Composer.Compose | lib/dns-sd-composer.js:23-56 | the buffer is exactly the query for the names: the header `00 00 00 00 00 n 00 00 00 00 00 00` with n = number of names mod 256, then one question per name in order |
| Composer.PushLabels | lib/dns-sd-composer.js:37-41 | pushing the parts of a name appends, for each part in order, its UTF-8 length byte and its bytes |
| Composer.PushQuestion | lib/dns-sd-composer.js:36-51 | pushing one name appends its labels, a zero byte, QTYPE 0x00FF and class 0x0001 |
| Composer.PushPart | lib/dns-sd-composer.js:38-40 | pushing one part appends its UTF-8 length byte and its UTF-8 bytes |
| Composer.PushU16 | lib/dns-sd-composer.js:44-50 | a two-byte buffer written with `writeUInt16BE` and pushed appends the value high byte first |
| Composer.WriteUInt16BE | lib/dns-sd-composer.js:44-49 | `writeUInt16BE` stores the high byte then the low byte at the offset and changes nothing else |
| Composer.ConcatAppend | lib/dns-sd-composer.js:52-54 | concatenating two buffer lists is concatenating their concatenations |
| Composer.LabelsBytesLength | lib/dns-sd-composer.js:37-42 | the labels of a name take one byte plus the UTF-8 length of each part |
| Composer.QuestionBytesShape | lib/dns-sd-composer.js:42-50 | a question is its labels, one zero byte and four bytes, and ends with `00 00 FF 00 01` whatever type was asked for |
| Composer.SectionBytesLength | lib/dns-sd-composer.js:35-51 | the question section is as long as the sum of its questions |
| Composer.QueryLength | lib/dns-sd-composer.js:23-56 | the query is 12 + Σ over names (Σ over parts (1 + UTF-8 length) + 1 + 4) bytes long |
| Composer.QuestionAt | lib/dns-sd-composer.js:35-55 | the question of the i-th name sits right after those of the names before it and ends with QTYPE 255 and class IN |
| Utf8.Encode | lib/dns-sd-composer.js:38 | the bytes of a whole part, character after character; what they mean is stated by `DecodeEncode` (decoding gives the part back) and `EncodeLength` (n to 4n bytes) |
| Utf8.EncodeChar | lib/dns-sd-composer.js:38 | a code point takes one to four bytes, one exactly when it is ASCII, and all bytes after the first are continuation bytes |
| Utf8.DecodeEncode | lib/dns-sd-composer.js:38 | decoding the UTF-8 encoding of a string gives the string back |
| Utf8.EncodeLength | lib/dns-sd-composer.js:38-39 | a string of n characters encodes to between n and 4n bytes, and only the empty string to none |
| Utf8.EncodeAscii | lib/dns-sd-composer.js:38-39 | an ASCII part is its own encoding, one byte per character |
| JsStrings.Split | lib/dns-sd-composer.js:37 | `split('.')` gives at least one part and no part contains a dot |
| JsStrings.JoinSplit | lib/dns-sd-composer.js:37 | joining the parts of a split with dots gives the name back |
| JsStrings.SplitJoin | lib/dns-sd-composer.js:37 | splitting dot-free parts joined with dots gives the parts back |
| JsStrings.IndexOf | lib/dns-sd.js:390-401 | `indexOf` gives the first position where the text occurs, or -1 exactly when it occurs nowhere |
| JsStrings.ToUpperAscii | lib/dns-sd.js:227 | `toUpperCase` keeps the length and leaves no lower-case ASCII letter: each one becomes its upper-case partner, and every other character is kept |
| JsStrings.StripUnderscore | lib/dns-sd.js:169-170 | `replace(/^_/, '')` drops one leading underscore when there is one and otherwise changes nothing |
| QueryReader.QueryHeader | lib/dns-sd-composer.js:26-33 | for fewer than 256 names the first 12 bytes are the header with the name count in byte 5, followed by the questions |
| QueryReader.QueryHeaderFields | lib/dns-sd-composer.js:26-33 | read as 16-bit fields the header has id 0, flags 0, QDCOUNT = number of names and all other counts 0 |
| QueryReader.ReadLabelsOfParts | lib/dns-sd-composer.js:37-42 | labels of 1 to 255 bytes each, followed by a zero byte, read back as the encoded parts and leave what follows |
| QueryReader.DecodeEncodedParts | lib/dns-sd-composer.js:37-40 | the label bytes decode to the parts |
| QueryReader.ReadQuestionOfName | lib/dns-sd-composer.js:36-51 | a question reads back as the name's parts with QTYPE 255 and class IN |
| QueryReader.ReadQuestionsOfNames | lib/dns-sd-composer.js:36-51 | the questions read back one per name, in order |
| QueryReader.ComposedQueryReadsBack | lib/dns-sd-composer.js:23-56 | the whole query reads back as id 0, flags 0, the expected questions and no records, with nothing left over |
| QueryReader.NamesOfExpected | lib/dns-sd-composer.js:37-42 | the expected questions spell the names |
| QueryReader.ComposedNamesRoundTrip | lib/dns-sd-composer.js:23-56 | every list of fewer than 256 names whose parts are 1 to 255 UTF-8 bytes long reads back from its query unchanged |
| QueryReader.EmptyPartEndsName | lib/dns-sd-composer.js:37-42 | an empty part (as in "a..b") is written as a zero length byte, so a reader ends the name there |
| DnsSdParams.ParseParams | lib/dns-sd.js:178-267 | the options are accepted exactly when they meet every rule at once; a falsy argument is "required" and a non-object "invalid" |
| DnsSdParams.ErrorOrder | lib/dns-sd.js:178-267 | the options are checked in source order: when every earlier check passes and one fails, its own error is reported; an error is only reported when every earlier check passed; and once `name` passes, only an option error can follow |
| DnsSdParams.ParseName | lib/dns-sd.js:188-220 | `name` is accepted exactly when it is a non-empty string or 1 to 255 non-empty strings; a string becomes a one-name list, an array is kept in order; a missing name is "required" |
| DnsSdParams.Strings | lib/dns-sd.js:201-214 | the names of an array are its strings, in order |
| DnsSdParams.CheckName | lib/dns-sd.js:188-220 | the loop over the array, stopping at the first bad element, gives the same result as `ParseName` |
| DnsSdParams.ParseType | lib/dns-sd.js:222-228 | `type` must be 1 to 10 ASCII letters or digits, or "*", and is stored upper-cased, with no lower-case letter left |
| DnsSdParams.ParseKey | lib/dns-sd.js:230-236 | `key` must be exactly "address" or "fqdn" |
| DnsSdParams.ParseWait | lib/dns-sd.js:238-244 | `wait` must be a positive whole number; NaN and the infinities are refused |
| DnsSdParams.ParseQuick | lib/dns-sd.js:246-254 | `quick` must be a boolean and is false when absent |
| DnsSdParams.ParseFilter | lib/dns-sd.js:256-264 | `filter` must be a string or a function; an empty string is dropped, so it filters nothing |
| DnsSdParams.CheckDiscoveryParameters | lib/dns-sd.js:178-267 | filling the options one by one gives the same result as `ParseParams` |
| DnsSdDevice.RecordsOfType | lib/dns-sd.js:87-96 | the records grouped under a type all have that type, and there are no more of them than records |
| DnsSdDevice.RecordsOfTypeFirst | lib/dns-sd.js:87-96 | the group of a type is empty exactly when no record has the type, and it starts with the first record that does |
| DnsSdDevice.FirstOfTypeSpec | lib/dns-sd.js:87-110 | `trecs[type][0]` is the first record of the type across answers, authorities and additionals |
| DnsSdDevice.GroupedPush | lib/dns-sd.js:89-95 | pushing a record onto the list of its type, created on first use, keeps the grouping up to date |
| DnsSdDevice.GroupSection | lib/dns-sd.js:89-95 | the loop over one section leaves every type's list holding its records in order |
| DnsSdDevice.GroupRecords | lib/dns-sd.js:87-96 | the loop over the three sections leaves `trecs` holding, for each type present, its records in order across answers, authorities and additionals |
| DnsSdDevice.GroupedFirst | lib/dns-sd.js:98-110 | once grouped, `trecs[t]` exists exactly when some record has type t, and `trecs[t][0]` is the first such record |
| DnsSdDevice.CreateDeviceObject | lib/dns-sd.js:84-176 | the device built in place is the device of the message: address, fqdn and service from the first A, PTR and SRV records |
| DnsSdDevice.AddressOfFirstA | lib/dns-sd.js:98-104 | the address is the data of the first A record when it is not empty, and otherwise the sender's address |
| DnsSdDevice.FqdnOfFirstPtr | lib/dns-sd.js:106-110 | the fqdn is the target of the first PTR record, or null without one |
| DnsSdDevice.ServiceOfFirstSrv | lib/dns-sd.js:162-172 | the service comes from the name and port of the first SRV record, or is null without one |
| DnsSdDevice.ServiceNameParts | lib/dns-sd.js:165-171 | the protocol and type are the second and third parts from the end of the SRV name, with one leading underscore removed |
| DnsSdDevice.RecordsOfTypeAppend | lib/dns-sd.js:87-96 | grouping the records of two lists one after the other groups each list and joins the groups |
| DnsSdDevice.InsertRecordShape | lib/dns-sd.js:87-96 | a record inserted at index i of a section sits, across answers, authorities and additionals, at that section's offset plus i |
| DnsSdDevice.OtherRecordsIgnored | lib/dns-sd.js:87-110 | a record of any type other than A, PTR and SRV, inserted at any index of any section, changes neither address, fqdn nor service |
| DnsSdDevice.DeviceOf | lib/dns-sd.js:84-176 | the device of a message: the address, fqdn and service that `AddressOfFirstA`, `FqdnOfFirstPtr` and `ServiceOfFirstSrv` describe, the vendor names and the message itself |
| DnsSdDevice.AddressOf | lib/dns-sd.js:98-104 | the address read off the first A record; its meaning is stated by `AddressOfFirstA` |
| DnsSdDevice.FqdnOf | lib/dns-sd.js:106-110 | the fqdn read off the first PTR record; its meaning is stated by `FqdnOfFirstPtr` |
| DnsSdDevice.ServiceOf | lib/dns-sd.js:162-172 | the service read off the first SRV record; its meaning is stated by `ServiceOfFirstSrv` |
| DnsSdDevice.ServiceOfAsWritten | lib/dns-sd.js:162-172 | the source's reading of the SRV name succeeds exactly when the name has at least three parts |
| DnsSdDevice.ShortSrvNameThrows | lib/dns-sd.js:165-170 | a two-part SRV name makes the source's reading throw |
| DnsSdDevice.ServiceOfName | lib/dns-sd.js:162-172 | the corrected reading agrees with the source wherever the source does not throw, and gives no service where it does |
| DnsSdFilter.EvaluateDeviceFilter | lib/dns-sd.js:374-387 | no filter and the empty string pass every device; a non-empty string passes as the string test says; a function passes exactly when it returns a truthy value without throwing |
| DnsSdFilter.EvaluateDeviceFilterString | lib/dns-sd.js:389-403 | the fields are tried in the order fqdn, address, model name, family name; its meaning is stated by `StringFilterMeaning` |
| DnsSdFilter.EvaluateDeviceFilterFunction | lib/dns-sd.js:405-412 | a filter function passes a device exactly when it returns a truthy value; a throw counts as a rejection |
| DnsSdFilter.StringFilterMeaning | lib/dns-sd.js:389-403 | a non-empty filter string passes a device exactly when it occurs in one of fqdn, address, model name and family name that is set |
| DnsSdFilter.EmptyStringFilter | lib/dns-sd.js:374-386 | `_evaluateDeviceFilter` passes every device for an empty filter string; the string test alone would pass exactly the devices with some non-empty field |
| DnsSdFilter.ModelNameFilterExample | lib/dns-sd.js:389-403 | the filter "hue" passes a device whose model name is "Philips hue" |
| DnsSdSession.IsTargettedDevice | lib/dns-sd.js:363-372 | the loop sets `hit` exactly when some answer record has a non-empty name that was asked for |
| DnsSdSession.StorageKey | lib/dns-sd.js:308-313 | a device is keyed by the sender address, or with key "fqdn" by its fqdn, and by "null" when it has none |
| DnsSdSession.SessionOf | lib/dns-sd.js:273-298 | the session waits the given number of seconds, or 3 when `wait` is absent or 0; it keys by fqdn only when asked to, and keeps the names, quick mode and filter as given |
| DnsSdSession.IsAnswerPacket | lib/dns-sd.js:589-597 | a message counts as an answer when it comes from none of the host's own addresses and is a response with the standard-query opcode; `OnlyAnswersCount` states what the others do |
| DnsSdSession.Store | lib/dns-sd.js:308-317 | an accepted device is stored under its key, replacing what was there; every other key keeps its device; the session ends exactly when a device was stored in quick mode |
| DnsSdSession.Step | lib/dns-sd.js:300-318 | an arrival that is not accepted changes nothing; an accepted one stores its device under its key, and ends the session exactly in quick mode |
| DnsSdSession.RunIsStepByStep | lib/dns-sd.js:300-318 | a session handles arrivals one at a time, in order, and stops at the first one that ends it |
| DnsSdSession.OnlyAnswersCount | lib/dns-sd.js:589-597 | a message from one of the host's own addresses, or one that is not a standard-query response, changes nothing |
| DnsSdSession.CollectKeys | lib/dns-sd.js:308-313 | without quick mode, the keys at the end are the keys from before plus the key of every stored device |
| DnsSdSession.CollectKeepsOthers | lib/dns-sd.js:308-313 | storing under other keys leaves a key's device alone |
| DnsSdSession.CollectLastWins | lib/dns-sd.js:308-313 | the last device stored under a key is the one kept |
| DnsSdSession.CollectQuick | lib/dns-sd.js:314-317 | in quick mode the first stored device ends the session |
| DnsSdSession.RunKeys | lib/dns-sd.js:300-318 | without quick mode, a key is present at the end exactly when it was before or some accepted arrival has it |
| DnsSdSession.RunKeepsOthers | lib/dns-sd.js:308-313 | a device stays under its key unless some accepted arrival has that key |
| DnsSdSession.RunLastWins | lib/dns-sd.js:308-313 | the last accepted arrival for a key overwrites every earlier one |
| DnsSdSession.RunQuickStopsAtFirst | lib/dns-sd.js:314-317 | in quick mode the session ends at the first accepted arrival, holding just that device in addition, and later arrivals are not looked at |
| DnsSdSession.Attempts | lib/dns-sd.js:327-335 | the attempts on one interface are numbered 0, 1, 2 in order |
| DnsSdSession.AllAttemptsShape | lib/dns-sd.js:325-341 | with the discovery flag cleared, send k goes to interface k / 3 as attempt k % 3 |
| DnsSdSession.SendSchedule | lib/dns-sd.js:325-341 | the sends of the loop as written, given whether the discovery flag is set when the loop checks it; what they are is stated by `SendScheduleBounds` and `AllAttemptsShape` |
| DnsSdSession.SendScheduleBounds | lib/dns-sd.js:325-341 | while the discovery flag is set the loop sends exactly once, as attempt 0 on the first interface, when there is an interface, and not at all when there is none; otherwise three times per interface, only on the host's interfaces |
| DnsSdNetif.UsableAddresses | lib/dns-sd.js:447-464 | the listed addresses are no more than the entries and each belongs to a usable entry; `UsableAddressesMembers` gives the converse |
| DnsSdNetif.UsableAddressesAppend | lib/dns-sd.js:447-464 | filtering two lists of entries one after the other gives the two filtered lists, one after the other |
| DnsSdNetif.UsableAddressesMembers | lib/dns-sd.js:444-466 | an address is listed exactly when some entry with it is external, IPv4 and not link-local |
| DnsSdNetif.FilterExample | lib/dns-sd.js:449-460 | loopback, IPv6 and 169.254 entries are dropped and an ordinary IPv4 address is kept |
| DnsSdNetif.GetNetifAddressList | lib/dns-sd.js:444-466 | the loop over every interface's entries gives the usable addresses in order |
| DnsSdStart.StepAsWritten | lib/dns-sd.js:55-82 | as written, a call's check never sets the flag: a call is turned away exactly when the flag is already set, and only a resolved listen raises the flag, for the session of that call |
| DnsSdStart.StepGuarded | lib/dns-sd.js:55-82 | corrected: after any call the flag is set, a call that finds it clear waits for its socket, and a resolved listen leaves the flag as it is |
| DnsSdStart.GuardedRejectsWhileInFlight | lib/dns-sd.js:56-58 | with the flag set by the call that passes the check, every call made while another is in flight is turned away as busy and changes nothing else |
| DnsSdStart.GuardedAtMostOne | lib/dns-sd.js:55-82 | with that ordering, however calls and their awaits interleave, at most one discovery is in flight and the flag says whether one is |
| DnsSdStart.AsWrittenTwoSessions | lib/dns-sd.js:55-72 | as written, two calls made together both pass the check and both start a session on the one object; the corrected ordering turns the second away |
| DnsSdStart.AsWrittenFailedBindClearsFlag | lib/dns-sd.js:70-81 | as written, a second call whose bind fails clears the flag of the first call's running session, so a third call gets through |
| DnsSdListen.StepAsWritten | lib/dns-sd.js:543-563 | as written, a stop clears the monitoring flag but leaves the socket in `_udp` and `_is_listening` set until the close callback; a start made while listening opens nothing, even with a close pending; the callback drops the socket and the listening flag and leaves the monitoring flag alone |
| DnsSdListen.StepCorrected | lib/dns-sd.js:543-563 | corrected: a stop clears both flags and takes the socket out of `_udp` at once; a start on a consistent object leaves it monitoring and listening on a socket; the callback changes neither flag nor the current socket |
| DnsSdListen.CorrectedMonitorsOnSocket | lib/dns-sd.js:471-563 | with the corrected stop, however starts, stops and close callbacks interleave, the object listens exactly when it holds a socket and monitors only on one |
| DnsSdListen.AsWrittenRestartLosesSocket | lib/dns-sd.js:471-563 | as written, start, stop, start and then the close callback leave the object monitoring with no socket, and a further start changes nothing; with the corrected stop the same calls leave it monitoring on a fresh socket |
| DnsSdEngine.DnsSd.constructor | lib/dns-sd.js:17-34 | a new object is idle: no interfaces, no devices, not discovering, monitoring or listening, no socket |
| DnsSdEngine.DnsSd.Discover | lib/dns-sd.js:55-82 | a running discovery makes it fail with "The discovery process is running." and change nothing; invalid options fail with their error and change nothing; otherwise it refreshes the interfaces, listens, starts the session with its query and sends it once, on the first interface, if there is one, or on a failed bind stops with no socket |
| DnsSdEngine.DnsSd.StartDiscovery | lib/dns-sd.js:269-323 | clears the devices, sets the flag, installs the session's handler and sends the composed query |
| DnsSdEngine.DnsSd.SendQueryPacket | lib/dns-sd.js:325-341 | the sends follow the loop: one send on the first interface, if there is one, while discovering, three per interface otherwise |
| DnsSdEngine.DnsSd.OnReceive | lib/dns-sd.js:300-318 | the handler leaves the devices as one session step says, and clears itself when quick mode ends the session |
| DnsSdEngine.DnsSd.Receive | lib/dns-sd.js:571-587 | an undecodable datagram changes nothing; a running discovery takes the step for the arrival, and when that ends it the devices are handed back and the discovery stops; a monitor passes the message, with the sender as its address, to `ondata` |
| DnsSdEngine.DnsSd.WaitTimerExpired | lib/dns-sd.js:284-295 | the timer hands back the devices collected and stops the discovery, and the socket stays open only while monitoring |
| DnsSdEngine.DnsSd.StopDiscovery | lib/dns-sd.js:414-422 | always empties the devices and clears the discovery flag; the socket goes unless monitoring |
| DnsSdEngine.DnsSd.StartMonitoring | lib/dns-sd.js:471-487 | does nothing while monitoring; otherwise refreshes the interfaces and listens, and on a failed bind is left not monitoring with no socket |
| DnsSdEngine.DnsSd.StopMonitoring | lib/dns-sd.js:492-503 | clears the flag, refreshes the interfaces and keeps the socket only for a running discovery |
| DnsSdEngine.DnsSd.StartListening | lib/dns-sd.js:505-541 | does nothing while listening; otherwise opens a socket and listens exactly when binding succeeds |
| DnsSdEngine.DnsSd.StopListening | lib/dns-sd.js:543-569 | closes the socket and stops listening only when neither discovering nor monitoring |

## Left out

- The `dgram` socket is a flag. Creating, binding, closing, `setMulticastInterface` and sending are not modelled. Neither are joining and leaving the multicast group on each interface (`_addMembership`, `_dropMembership`) or the logging around them. Sends appear only as trace events.
- Timers and `_wait` are not modelled: the 100 ms pauses, the 100 ms delay after binding, and the `wait` duration itself. Timer expiry is the `WaitTimerExpired` call. The query is sent when the session starts.
- The case where a session ends during the first 100 ms pause of the send loop is not modelled. Quick mode can end it that early. What follows depends on whether a monitor is running.
  - With no monitor, `_stopListening` has closed the socket, and its callback sets `_udp` to null (lib/dns-sd.js:552). Once that has run, `this._udp.send` (line 345) throws a TypeError when the pause ends. `_sendQueryPacket` is not awaited (line 321), so its promise rejects with no handler, and nothing is sent. Current Node versions end the process on such a rejection by default.
  - With a monitor, the socket stays open and the flag stays clear, so the loop never breaks and sends all three attempts on every interface.
- The message decoder (`dns-sd-parser.js`) is not part of this model. `Receive` takes its result as `Option<Message>`. Only the header fields `qr` and `op` and the record sections are modelled.
- The vendor heuristics that set `modelName` and `familyName` (lib/dns-sd.js:112-160) are pattern matches on vendor names. They are the `classify` function the object is built with.
- DnsSdDevice.CreateDeviceObject: takes the model and family names from `classify`. It does not model the Apple TV, googlecast, Philips hue, Canon and iPad patterns.
- DnsSdDevice.CreateDeviceObject: uses the corrected `ServiceOfName`, so an SRV record named with fewer than three parts gives a device with no service. The source throws there (see Findings). `_receivePacket` has no try/catch (lib/dns-sd.js:571-587), so the error leaves the socket's 'message' listener as an uncaught exception, which ends the process by default. Only if the application installs its own handler for uncaught exceptions does the process go on. Then the arrival stores nothing, ends no quick session and never reaches `ondata`. The model stores the device and delivers the message.
- DnsSdDevice.DeviceOf: builds a device with no service from an SRV record named with fewer than three parts, where the source throws (see `DnsSdDevice.CreateDeviceObject` above).
- DnsSdDevice.ServiceOf: gives no service for an SRV record named with fewer than three parts, where the source throws; `DnsSdDevice.ServiceOfAsWritten` models the throw.
- DnsSdSession.Step: stores a device for an accepted arrival whose SRV record is named with fewer than three parts, and can end a quick session with it, where the source throws. The session lemmas about `Run` inherit this.
- DnsSdEngine.DnsSd.OnReceive: stores such a device, where the source's handler throws.
- DnsSdEngine.DnsSd.Receive: takes the session step for such a message and hands it to `ondata`, where the source throws before either.
- DnsSdEngine.DnsSd.Discover: runs the busy check, validation, listening and the start of the session as one step. This is the corrected ordering of `DnsSdStart`. In the source, `_is_discovering` is set only after `_startListening` resolves, which is at least a microtask later and at least 100 ms on a fresh bind. A second `discover()` in that window gets past the check. If the first call is still binding, the second creates another socket and replaces `_udp`. Both sessions reset and share `_discovered_devices`. The first session's `clearTimer` replaces the second's handler with a no-op. `DnsSdStart` models the calls in that window as events and shows them (see Findings); the engine class does not.
- DnsSdEngine.DnsSd.StartMonitoring: runs the whole call as one step, as every async method of the class does. In the source, `_stopListening` starts `close` and only its callback clears `_is_listening` and `_udp` (lib/dns-sd.js:549-563). Until then, `_startListening` resolves at once (lines 507-510). So `stopMonitoring(); startMonitoring();` with no await between them leaves the object monitoring with no socket. Every later `startMonitoring()` then returns at line 472. `DnsSdListen` models this window and shows it (see Findings). The class invariant `Valid` (`socketOpen` exactly when listening, listening exactly when discovering or monitoring) and the ensures of this method hold only because each call is one step.
- DnsSdEngine.DnsSd.StopMonitoring: removes the 'listening' listener at once (line 560). So `startMonitoring(); stopMonitoring();` with no await between them leaves the first call's promise pending forever when the bind has not completed yet. Not modelled: the model runs the start to its end first.
- DnsSdEngine.DnsSd.StopListening: closes the socket in one step. In the source, `stopMonitoring(); discover(...)` with no await between them lets the `discover()` call find `_is_listening` still set while the close is pending. The call starts a session, which the close callback then leaves with no socket. `DnsSdListen` leaves discovery out.
- `_stopListening` always leaves the mDNS group on every interface, even when a monitor keeps the socket open. Group membership is not modelled, so the model does not show that monitoring after a discovery no longer receives multicast traffic.
- JavaScript strings are sequences of UTF-16 code units, while a Dafny `char` is a Unicode scalar value. A name containing a lone surrogate cannot be represented. `Buffer.from(part, 'utf8')` would write it as `EF BF BD`. `split` and `indexOf` work on code units, which the model does not distinguish from characters.
- A user filter function is a function to `Option<bool>`. `None` stands for "it threw" and `Some(b)` for the truthiness of its result. The user code itself is not modelled.
- The `ondata` callback, and the check that it is a function, are not modelled. Messages passed to it are appended to the ghost trace `delivered`.
- DnsSdSession.StorageKey: with `key: 'fqdn'`, a PTR target of `"__proto__"` makes the assignment at lib/dns-sd.js:310 set the prototype of `_discovered_devices` instead of adding an entry, so `Object.values` leaves that device out. The model stores it under that key like any other.
- The device list of `discover()` is returned as the map of devices. The insertion order that `Object.values` follows is not modelled.
- The class table `dns-sd-classes.json` is not part of this model. IN is the constant 1 (section 3.2.4 of RFC 1035).
- JavaScript numbers are finite reals plus NaN and the two infinities. Negative zero is not modelled separately; it is rejected as a `wait` like zero.
- `key in params` also finds properties inherited through an object's prototype. The model looks only at the object's own properties, and an array argument has none of the option names.

## Findings

| source | as written | input that shows it | evidently intended | confidence | as-written member | corrected member |
|---|---|---|---|---|---|---|
| lib/dns-sd.js:56-72 | the busy check reads `_is_discovering`, which only `_startDiscovery` sets (line 272), after `await this._startListening()` | `Promise.all([d.discover(a), d.discover(b)])` on an idle object | the second call rejected with "The discovery process is running." | not executed | DnsSdStart.AsWrittenTwoSessions | DnsSdStart.GuardedAtMostOne |
| lib/dns-sd.js:543-563 | `_stopListening` clears `_is_listening` and `_udp` only in the socket's close callback, while `_startListening` (lines 507-510) resolves at once whenever `_is_listening` is set | `d.stopMonitoring(); d.startMonitoring();` with no await between them, on a monitoring object | the object monitors on an open socket | not executed | DnsSdListen.AsWrittenRestartLosesSocket | DnsSdListen.CorrectedMonitorsOnSocket |
| lib/dns-sd.js:165-170 | protocol and type are read as parts 1 and 2 of the reversed SRV record name, with no check that the name has three parts; `undefined.replace` then throws inside the receive handler | an answer message for a requested name that carries an SRV record named "host.local" | a device with no service when the SRV name has fewer than three parts | not executed | DnsSdDevice.ShortSrvNameThrows | DnsSdDevice.ServiceOfName |
