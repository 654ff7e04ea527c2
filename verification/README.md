# Boots, modelled in Dafny

Boots answers the DHCP, HTTP and syslog traffic of machines that boot over the
network. This project models its most intricate parts and proves what they promise.
`dafny verify dfyconfig.toml` checks everything.

| module | what it models |
|---|---|
| Bytes | bytes, options and ASCII literals used by the other modules |
| SyslogMessage | the syslog parser as functions of a buffer and a size; a field is a view, a pair of offsets |
| SyslogParser | the same parser as the program has it: a class that overwrites its fields while it scans a 1024-byte array |
| SyslogTheorems | printing and parsing, wire order, the legacy tag, and when a recycled buffer shows |
| SyslogReceiver, SyslogRuns | reader, channel, parsers, pool and shutdown as a transition system, and what every run keeps |
| SyslogCrash | the runs in which the slice panic of the priority scan happens |
| SyslogGrammar | both layouts as grammars of texts, and what every datagram with a priority parses to |
| Option43 | the sub-option codec of section 8.4 of RFC 2132, for every order of sub-options |
| HexScanner | the shell scanner that reads sub-option 69 back from a hex dump, and the bytes written under it |
| DhcpReply, JobDhcp | the configuration, the reply packet and the path of one DHCP request through a job |
| Jobs | hardware records, lookups by MAC and by address, jobs, and the boot file they name |
| PhoneHome | the reporter calls a phone-home makes |
| Netboot | DHCP, HTTP and phone-home requests interleaved, with the backend's record |
| UnitBuilder | the systemd unit builder, whose sections are written to after later ones were added |
| IpxeScript, Osie, ScriptText, Served | the iPXE script buffer, the OSIE scripts made with it, their lines as plain text, and the script a request is served |
| Cacher | MAC and address selection in the cacher data model |

Updates in place are modelled in place: messages, configurations, packets, sections,
scripts, reporters and discoveries are classes, and each method is proved against a
function of the old state. Goroutines and request handlers are steps of a transition
system. Times, JSON, path joining, CIDR text, RSA and the backend's replies are
parameters or abstract functions.

## What the code does not promise

- Parsing the priority reads four bytes after the first whatever the size of the
  datagram, and a recycled buffer keeps the bytes of earlier datagrams. A datagram of
  three or four bytes that is `<` followed by digits only is therefore decided by bytes
  that were never received, and a leftover `>` makes the parser panic.
  `SyslogTheorems.ReuseInvisibleIffDecided` and `SyslogTheorems.PanicsIff` give the exact
  conditions; datagrams of five bytes or more are always safe. `SyslogCrash.UndecidedCrashes`
  gives the run for each such datagram, for example `<12>` and then `<12`, and
  `SyslogCrash.CrashesIffUndecided` states that no other datagram can do it.
- After the phone-home that switches PXE off, a request whose job was built before the
  switch can still be offered a script. `Netboot.SafeAfterPhoneHome` states that no script
  is ever offered if and only if no request in flight was allowed PXE when its job was
  made and asks for a script. `Netboot.OvertakenIff` says from which records such a run
  starts, and `Netboot.DhcpOvertaken` is one.
- The primary data MAC depends on the order of ports when two eth0 data ports have
  different MACs. `Cacher.OrderIndependentIff` gives the exact condition.
- The state of a cacher instance is documented as choosing the address
  (client/cacher/discovery.go:140-141); the later branch for hardware offers the same address in
  every state, so the state only chooses the host name (`Cacher.StateOnlyNames`).

## Model

| member | source | states |
|---|---|---|
| `SyslogParser.Message.constructor` | syslog/receiver.go:11-13 | a new pool item is a zeroed buffer with every field cleared |
| `SyslogParser.Message.Receive` | syslog/receiver.go:87-101 | a datagram overwrites a prefix of the buffer and the rest keeps its old bytes |
| `SyslogParser.Message.Reset` | syslog/message.go:306-313 | clears the parsed fields, keeps buffer, size and time |
| `SyslogParser.Message.ParsePriority` | syslog/message.go:249-268 | the scan in place refines the pure scan, including the slice panic past the size |
| `SyslogParser.Message.ParseVersion` | syslog/message.go:291-304 | accepts exactly version 1 followed by a space, and then skips both |
| `SyslogParser.Message.ParseTimestamp` | syslog/message.go:270-289 | NILVALUE keeps the time, too long or unparsable fails, otherwise the parsed time |
| `SyslogParser.Message.ParseHeader` | syslog/message.go:153-167 | refines the split into six parts, each with NILVALUE as nil |
| `SyslogParser.Message.ParseStructuredData` | syslog/message.go:169-177 | accepts exactly nil structured data |
| `SyslogParser.Message.SkipTagBytes` | syslog/message.go:210-231 | the loop stops at the first byte that is not a tag character |
| `SyslogParser.Message.ParseLegacyTag` | syslog/message.go:207-247 | refines the pure tag parser on every path |
| `SyslogParser.Message.ParseLegacyTime` | syslog/message.go:179-193 | the optional legacy timestamp is skipped only with its space and a parsable layout |
| `SyslogParser.Message.TrimLegacyPrefixes` | syslog/message.go:315-329 | severity, time and carriage return are trimmed in this order |
| `SyslogParser.Message.ParseLegacyHeader` | syslog/message.go:179-205 | refines the whole legacy branch, which never fails |
| `SyslogParser.Message.Parse` | syslog/message.go:139-151 | the parser in place computes the pure parse, and panics exactly when that does |
| `SyslogMessage.ScanPriority` | syslog/message.go:254-265 | a priority found ends at a `>` among the four bytes after the first |
| `SyslogMessage.ParseLegacyTime` | syslog/message.go:184-193 | only time and the start of the message change |
| `SyslogMessage.ParseLegacyTag` | syslog/message.go:207-247 | the message stays a suffix that ends where it ended |
| `SyslogMessage.TrimLegacyPrefixes` | syslog/message.go:315-329 | the message stays a suffix through every trim |
| `SyslogTheorems.ScanMeaning` | syslog/message.go:253-265 | the byte accumulator is the decimal number modulo 256, and the scan finds the `>` after digits wherever it is |
| `SyslogTheorems.SplitJoined` | syslog/message.go:155-155 | splitting a space-joined text gives its parts back |
| `SyslogTheorems.JoinedSplit` | syslog/message.go:155-155 | joining the parts of any split gives the text back |
| `SyslogTheorems.ParsePrint` | syslog/message.go:139-177 | parsing what section 6 of RFC 5424 prints, with any timestamp of up to 32 bytes that is a time, gives back priority, time, host, app, procid, msgid and message, NILVALUE as nil, in any buffer of 1024 bytes |
| `SyslogTheorems.PrefixedPriority` | syslog/message.go:249-268 | any text of up to three digits is a priority, its value modulo 256; none at all and leading zeros count too |
| `SyslogGrammar.EveryDatagram` | syslog/message.go:249-268 | and every accepted priority is such a text |
| `SyslogGrammar.Version1Iff` | syslog/message.go:139-177 | a version-1 datagram with any such priority is accepted exactly when it has six parts, its timestamp is NILVALUE or a time of at most 32 bytes, and its structured data is nil |
| `SyslogGrammar.HeaderAccepted` | syslog/message.go:153-167 | the same for the header alone, with the sixth part as the message |
| `SyslogGrammar.EveryText` | syslog/message.go:155-157 | every text has a split into at most so many parts, so no version-1 text is left out |
| `SyslogTheorems.PrintParse` | syslog/message.go:139-177 | every accepted version-1 datagram is reprinted from its fields to the same bytes after the `>` |
| `SyslogTheorems.ReprintHeader` | syslog/message.go:153-167 | an accepted header joins back to its text |
| `SyslogTheorems.PriorityText` | syslog/message.go:249-268 | an accepted priority is the decimal text before the `>`, modulo 256 |
| `SyslogTheorems.FieldsInWireOrder` | syslog/message.go:139-329 | after every path all fields are views inside the datagram, disjoint, in wire order, and the message ends at the size |
| `SyslogTheorems.LegacyTagLosesNothing` | syslog/message.go:207-247 | app, bracketed procid, colon and message concatenate to the input (section 4.1.3 of RFC 3164) |
| `SyslogTheorems.LegacyTagIsMaximal` | syslog/message.go:207-247 | app is the maximal run of tag characters, absent exactly when nothing ends it; procid exactly when brackets close |
| `SyslogGrammar.LegacyParsed` | syslog/message.go:179-247 | every other datagram with a priority, parsed from a reset message, is accepted: the stamp of 15 characters is skipped and corrected exactly when it is one, tag and process id come back, and the message loses one severity, one time and one carriage return, in this order |
| `SyslogGrammar.ParsePrintLegacy` | syslog/message.go:179-247 | parsing the printed legacy layout of section 4 of RFC 3164 gives back priority, time, tag, process id and message |
| `SyslogGrammar.EveryBody` | syslog/message.go:207-247 | every text is a tag, perhaps a process id, and a rest, so no legacy text is left out |
| `SyslogGrammar.TagStep` | syslog/message.go:207-247 | tag and process id of every text |
| `SyslogGrammar.SeverityIs` | syslog/message.go:315-329 | the prefix of each of the eight severities |
| `SyslogGrammar.TrimmedText` | syslog/message.go:315-329 | the three trims, with the names of the severities |
| `SyslogGrammar.StampText` | syslog/message.go:184-193 | when a legacy stamp is taken, and the time it gives |
| `SyslogTheorems.StaleBytesInvisible` | syslog/message.go:249-268 | for a decided datagram no byte after it changes the outcome or the fields, and nothing panics |
| `SyslogTheorems.UndecidedDependsOnTail` | syslog/message.go:249-268 | for any other datagram two leftovers give a panic and a rejection |
| `SyslogTheorems.ReuseInvisibleIffDecided` | syslog/message.go:249-268 | the result is the same for every leftover if and only if the datagram is decided |
| `SyslogTheorems.PanicsIff` | syslog/message.go:249-268 | the slice panic happens exactly when the size is at least three and the first `>` after digits is past it |
| `SyslogTheorems.ReuseShowsAsPanic` | syslog/message.go:249-268 | for every datagram and every leftover the result is that of a fresh buffer or a panic |
| `SyslogTheorems.LeftoverIsPanic` | syslog/message.go:249-268 | which earlier contents of the buffer make a datagram panic |
| `SyslogTheorems.HandlePooled` | syslog/receiver.go:78-119 | receive, parse and reset on a recycled message panic exactly on such a leftover, and otherwise give what a fresh message gives and leave it clean for the pool |
| `SyslogReceiver.OwnedKept` | syslog/receiver.go:68-121 | every step of every goroutine keeps the ownership of message objects |
| `SyslogReceiver.OwnedMeansOneHolder` | syslog/receiver.go:68-121 | each live object has exactly one holder among pool, reader, channel and parsers |
| `SyslogRuns.OrderlyKept` | syslog/receiver.go:61-104 | `err` before the close, the close before `done`, a bounded channel, parsers leave only an empty closed channel; none of it is undone |
| `SyslogRuns.ParseDecodes` | syslog/receiver.go:107-109 | parsing a loaded message panics only for an undecided datagram |
| `SyslogRuns.DecodedEntryOk` | syslog/receiver.go:109-117 | the log line of a decoded message is right whatever buffer it sat in |
| `SyslogRuns.FaithfulKept` | syslog/receiver.go:68-121 | pooled messages are clean, queued ones hold their datagram, log lines are those of fresh messages; kept by every step |
| `SyslogRuns.ConservedKept` | syslog/receiver.go:68-121 | each datagram read is in exactly one of reader, channel, one parser and the log; with one parser the log is in receive order |
| `SyslogRuns.GoodKept` | syslog/receiver.go:61-121 | all invariants together are kept by every step |
| `SyslogRuns.InitGood` | syslog/receiver.go:24-51 | they hold at the start, with as many parsers as requested and at least one |
| `SyslogRuns.SendWaitsIff` | syslog/receiver.go:41-41 | the channel has one place per parser: the reader waits exactly when all are taken |
| `SyslogRuns.NeverStuckOpen` | syslog/receiver.go:68-121 | an open receiver without a fault can always take a step |
| `SyslogRuns.RunsAreGood` | syslog/receiver.go:24-121 | they hold in every state of every run |
| `SyslogRuns.RunsGoForward` | syslog/receiver.go:61-104 | over any part of a run nothing is received or queued after the close |
| `SyslogRuns.ClosedOnceAndLast` | syslog/receiver.go:61-66 | the channel is closed at most once, with `err` set, and nothing is sent afterwards |
| `SyslogRuns.ClosedStepsDrain` | syslog/receiver.go:107-121 | after the close every step that does not panic decreases a measure |
| `SyslogRuns.StuckMeansDrained` | syslog/receiver.go:107-121 | a closed receiver that cannot go on has logged every datagram exactly once |
| `SyslogRuns.ClosedRunsDrain` | syslog/receiver.go:107-121 | the measure bounds the steps of any run after the close |
| `SyslogRuns.ClosedRunsEnd` | syslog/receiver.go:61-121 | whatever the schedule the run ends within the bound, drained or at the slice panic |
| `SyslogRuns.DecidedNeverPanics` | syslog/receiver.go:107-121 | if all datagrams are decided nothing panics and each log line is that of a fresh message |
| `SyslogCrash.UndecidedCrashes` | syslog/receiver.go:68-121 | for every undecided datagram and every number of parsers a run from the start in which it panics, after the same bytes with a `>` |
| `SyslogCrash.CrashesIffUndecided` | syslog/receiver.go:68-121 | a datagram can bring the receiver down, all others being decided, if and only if it is undecided |
| `SyslogCrash.TwelveCrashes` | syslog/message.go:254-258 | the two datagrams `<12>` and `<12` do it |
| `Option43.DecodeEncode` | dhcp/config.go:123-139 | decoding an encoding in any order gives the listed sub-options over the starting ones |
| `Option43.DecodeInverts` | dhcp/config.go:123-139 | decoding any serialisation gives the map back |
| `Option43.Serialize` | dhcp/config.go:134-138 | serialising takes the sub-options in some order and closes with the end mark |
| `Option43.OverlayIsLast` | dhcp/config.go:123-139 | after any sequence of settings a sub-option has its last value, or the one it started with |
| `HexScanner.TurnAt` | test/extract-traceparent-from-opt43.sh:29-73 | every turn of the scan advances |
| `HexScanner.TurnAtSubOption` | test/extract-traceparent-from-opt43.sh:29-73 | at a sub-option boundary a turn reads exactly its type and value and stops only at the end mark |
| `HexScanner.ExtractTraceparent` | test/extract-traceparent-from-opt43.sh:21-75 | the scan ends on every input and, for every order and content of the others, finds the value of sub-option 69 |
| `HexScanner.BinaryTraceparent` | dhcp/pxe.go:183-202 | version, trace id, span id and flags in 26 bytes |
| `HexScanner.ReportsIsHex` | test/extract-traceparent-from-opt43.sh:48-60 | a report of bytes is their hex text and no other |
| `HexScanner.TraceparentRecovered` | test/extract-traceparent-from-opt43.sh:48-60 | the text put together from the value is the W3C text of the span that was written |
| `DhcpReply.Config.constructor` | dhcp/config.go:11-14 | a zero configuration has no address and no options |
| `DhcpReply.Config.Setup` | dhcp/config.go:60-77 | replaces the options by mask and router |
| `DhcpReply.Config.SetLeaseTime` | dhcp/config.go:79-81 | sets one option and keeps the configuration valid |
| `DhcpReply.Config.SetHostname` | dhcp/config.go:83-88 | an empty name sets nothing |
| `DhcpReply.Config.SetDHCPServer` | dhcp/config.go:90-98 | an absent address sets nothing |
| `DhcpReply.Config.SetDNSServers` | dhcp/config.go:100-120 | the loop joins the IPv4 servers in order; none sets nothing |
| `DhcpReply.JoinInOrder` | dhcp/config.go:104-113 | the servers of a list follow those of the list before it |
| `DhcpReply.JoinOne` | dhcp/config.go:106-112 | one server is its four bytes, or nothing if it is not IPv4 |
| `DhcpReply.Config.SetOpt43SubOpt` | dhcp/config.go:123-139 | decode, update and encode changes one sub-option and no other option |
| `DhcpReply.Config.SetAllSubOpts` | dhcp/config.go:123-139 | any sequence of settings decodes to the overlay of all of them |
| `DhcpReply.Assemble` | dhcp/pxe.go:129-140 | any settings, then ApplyTo, then SetupPXE: 6 and 69 are set and every other code has its last non-empty setting or its first value, for every order |
| `DhcpReply.Config.ApplyTo` | dhcp/config.go:16-27 | the reply's options are overlaid with the configured ones; without an address nothing changes |
| `DhcpReply.NewReply` | dhcp/dhcp.go:13-71 | offer or acknowledgement by message type, with option 82 of the request over whatever options the library puts there |
| `DhcpReply.SetupPXE` | dhcp/pxe.go:81-143 | which requests ask for PXE, which identifier is copied; the vendor options decode to the previous ones overlaid with 6 and 69, for every order; other options keep |
| `DhcpReply.SetupIPXE` | ipxe/dhcp_options.go:66-69 | sets two options and no other |
| `DhcpReply.SetFilename` | dhcp/pxe.go:145-161 | the file field gets the name, or the program stops when it is too long |
| `DhcpReply.ReadBackTraceparent` | test/extract-traceparent-from-opt43.sh:21-75 | scanning the option 43 of any reply that went through PXE setup gives exactly the W3C text of the span that was put in |
| `JobDhcp.SetLease` | job/job.go:217-227 | each lease setting reaches its option |
| `JobDhcp.SetupConfig` | job/job.go:212-230 | the lease's options and the VLAN's sub-option, or a panic exactly for an address that is not IPv4 |
| `JobDhcp.SetPXEFilename` | job/dhcp.go:104-168 | the reply names the file the job decides on, or is left alone |
| `JobDhcp.SetupBoot` | job/dhcp.go:79-92 | iPXE setup and file name touch no other option |
| `JobDhcp.ConfigurePXE` | job/dhcp.go:65-94 | PXE setup, iPXE setup and file name, for a PXE client only |
| `JobDhcp.ConfigureDHCP` | job/dhcp.go:65-94 | configured options reach the reply, option 82 is untouched |
| `JobDhcp.ConfigSurvives` | job/dhcp.go:65-94 | no key of a configuration and no key of PXE setup is option 82 |
| `JobDhcp.SentFileIs` | job/dhcp.go:104-168 | when a boot file is set the file field begins with its text: name, base URL and scheme for every record and client; it is too long exactly when this text has more than 128 bytes |
| `JobDhcp.ServeDHCP` | job/dhcp.go:34-63 | when a reply is sent, and when the program stops on a file name that is too long instead; a reply has option 82 of the request, the configured options, all vendor sub-options and the boot file the record and the client call for (section 2.2 of RFC 3046) |
| `Jobs.MacTextInjective` | client/util.go:27-29 | equal texts are equal addresses |
| `Jobs.MacTextIs` | client/util.go:27-29 | the text of an address, character by character |
| `Jobs.ByMacFinds` | client/instance.go:217-225 | the first interface with the MAC, or the zero interface when there is none |
| `Jobs.ByMacAt` | client/instance.go:217-225 | an interface is found by its MAC |
| `Jobs.ByIPAt` | client/instance.go:229-237 | an interface is found by its address |
| `Jobs.LookupsInverse` | client/instance.go:217-237 | the two lookups undo each other on distinct MACs and addresses |
| `Jobs.ByIPFinds` | client/instance.go:229-237 | the first interface with the address, or the zero interface when there is none |
| `Jobs.AllowPXEIff` | job/job.go:83-92 | PXE is allowed exactly when the first interface with the MAC allows it, or an instance with an id does |
| `Jobs.PxeFileIs` | job/dhcp.go:104-168 | which boot file is named for every record and client, if any, from which base and over which protocol |
| `Jobs.OffersAutoIff` | job/dhcp.go:104-168 | auto.ipxe is named exactly when the record allows PXE, the client is the Tinkerbell iPXE, and a machine in use has an active instance |
| `Jobs.FromDHCPIff` | job/job.go:104-123 | a MAC gets a job exactly when its first interface has an address |
| `Jobs.FromIPIff` | job/job.go:142-168 | an address gets a job exactly when its first interface has a MAC other than zero that gets one |
| `Jobs.OfferIsServed` | job/job.go:104-168 | the job built from the offered address is the job of the DHCP request, so an offered script is served |
| `PhoneHome.Post` | job/events.go:208-292 | no call with an empty id, otherwise one, and which identifier the event then has |
| `PhoneHome.Error` | job/logging.go:12-15 | an error posts a warning event when there is someone to post for |
| `PhoneHome.CustomPXEDone` | job/events.go:15-30 | one closing phone-home when there is an instance |
| `PhoneHome.DisablePXE` | job/events.go:32-46 | one PATCH with the instance's id, and a warning if it fails |
| `PhoneHome.Follow` | job/events.go:123-128 | after the post the PATCH, and the deferred closing phone-home last |
| `PhoneHome.PhoneHome` | job/events.go:78-128 | the calls are those of the specification for every body, job and pattern of failures |
| `PhoneHome.ReadableIff` | job/events.go:155-190 | which bodies cannot be read |
| `PhoneHome.PostedCall` | job/events.go:155-292 | the call each kind of body makes: phone-home, password, failure or event, for an instance and for hardware |
| `PhoneHome.InstanceCallsAre` | job/events.go:78-128 | every call of a phone-home for an instance, in order, by what its body says |
| `PhoneHome.ProvisionedIff` | job/events.go:90-99 | which body ends the provisioning of an instance |
| `PhoneHome.HardwareCallsAre` | job/events.go:100-110 | without an instance a readable body makes one call for a machine that is being preinstalled, and nothing else makes any |
| `PhoneHome.CallsBounded` | job/events.go:78-128 | at most four calls, none with an empty id |
| `PhoneHome.DisablesOnlyAfterPost` | job/events.go:78-128 | the PATCH comes exactly after a successful provisioned post of the same instance |
| `PhoneHome.ProvisionedPost` | job/events.go:208-244 | that post is the instance event 104.01 |
| `PhoneHome.ClosingIsLast` | job/events.go:90-128 | for custom_ipxe the closing phone-home is the last call and the only one |
| `Netboot.QuietKept` | job/dhcp.go:104-168 | with PXE off and nothing in flight, no step offers a script |
| `Netboot.QuietRuns` | cmd/boots/http.go:147-168 | nor does any run without an outside change that allows it again |
| `Netboot.OfferIffAllowed` | job/dhcp.go:104-168 | a request is offered a script exactly when the record it was looked up in lets it: provisioner, PXE client, iPXE, PXE allowed by interface or instance and an active instance for DHCP; PXE allowed and a known name for HTTP |
| `Netboot.SafeIffNothingInFlight` | job/job.go:83-92 | with PXE off, no run ever offers a script if and only if no request in flight passes these guards |
| `Netboot.PhoneHomeBars` | job/events.go:78-128 | a delivered provisioned phone-home switches PXE off |
| `Netboot.PatchesIff` | job/events.go:78-128 | exactly which finished request changes the record |
| `Netboot.FinishRecord` | job/events.go:32-46 | and how: the instance loses its permission and nothing else changes |
| `Netboot.SafeAfterPhoneHome` | job/events.go:78-128 | after it no reply names auto.ipxe and no script is served, if and only if no allowed request was in flight |
| `Netboot.Overtake` | job/job.go:104-168 | from every record that allows PXE only by its instance, and for every allowed DHCP or HTTP request: look-up, phone-home, PXE off, script offered |
| `Netboot.OvertakenIff` | job/job.go:104-168 | PXE can be off and a script offered later if and only if the instance alone allows PXE and some address leads to a job |
| `Netboot.DhcpOvertaken` | job/dhcp.go:34-63 | such a record, with a DHCP request that is told auto.ipxe after PXE was switched off |
| `Netboot.NoPatchNoChange` | job/events.go:32-46 | if the post or the PATCH fails the record is unchanged |
| `UnitBuilder.Section.Reset` | installers/flatcar/files/unit/builder.go:74-79 | the text becomes the header alone |
| `UnitBuilder.Section.Add` | installers/flatcar/files/unit/builder.go:47-53 | appends one setting |
| `UnitBuilder.Section.AddLines` | installers/flatcar/files/unit/builder.go:55-61 | the loop appends the lines in order |
| `UnitBuilder.Section.AddComment` | installers/flatcar/files/unit/builder.go:63-68 | appends one comment line |
| `UnitBuilder.Builder.AddSection` | installers/flatcar/files/unit/builder.go:7-12 | a new section object follows the others and is handed out |
| `UnitBuilder.Builder.Len` | installers/flatcar/files/unit/builder.go:14-23 | the length of the rendered text |
| `UnitBuilder.Builder.MarshalText` | installers/flatcar/files/unit/builder.go:25-35 | the sections' texts in order, a blank line between them |
| `UnitBuilder.WriteTo` | installers/flatcar/files/unit/builder.go:47-53 | writing to a section after later ones were added changes its text and no other |
| `UnitBuilder.AddRoute` | installers/flatcar/networkd.go:64-77 | a route section for one address |
| `UnitBuilder.AddAddress` | installers/flatcar/networkd.go:57-77 | one address goes to the network section, and its route, if it has one, to a new section |
| `UnitBuilder.AddAddresses` | installers/flatcar/networkd.go:61-78 | interleaved writes to the network section and new route sections give all addresses, then the routes in order |
| `UnitBuilder.ConfigureNetworkUnit` | installers/flatcar/networkd.go:49-79 | for every list of servers and addresses the builder holds the pure form of the unit |
| `UnitBuilder.UnitTextIs` | installers/flatcar/networkd.go:12-79 | the pure form as text: headers, settings, the route of each management address, and blank lines between sections |
| `UnitBuilder.RouteIs` | installers/flatcar/networkd.go:64-77 | the route section of each address, or none |
| `UnitBuilder.NetworkFile` | installers/flatcar/networkd.go:49-79 | the file is this text and has the announced length |
| `IpxeScript.SplitInverse` | ipxe/script.go:9-111 | a buffer is the join of its lines, and no line holds a newline |
| `IpxeScript.CallKeeps` | ipxe/script.go:16-111 | whatever its arguments a call keeps the header and the final newline and, unless it is Reset, removes at most that newline; for newline-free ones it edits a list of lines |
| `IpxeScript.RunKeeps` | ipxe/script.go:9-111 | the same over every sequence of calls, Reset among them |
| `IpxeScript.Script.constructor` | ipxe/script.go:9-14 | a new script has the three initial lines |
| `IpxeScript.Script.Reset` | ipxe/script.go:88-91 | so does a reset one |
| `IpxeScript.Script.Args` | ipxe/script.go:16-24 | extends the last line by its arguments |
| `IpxeScript.Script.AppendString` | ipxe/script.go:27-30 | adds a line |
| `IpxeScript.Script.PhoneHome` | ipxe/script.go:33-42 | adds the seven lines of a phone-home |
| `IpxeScript.Script.Chain` | ipxe/script.go:45-48 | adds a chain line |
| `IpxeScript.Script.Dhcp` | ipxe/script.go:50-52 | adds a dhcp line |
| `IpxeScript.Script.Boot` | ipxe/script.go:54-56 | adds a boot line |
| `IpxeScript.Script.Initrd` | ipxe/script.go:62-70 | adds an initrd line with its arguments |
| `IpxeScript.Script.Kernel` | ipxe/script.go:72-80 | adds a kernel line with its arguments |
| `IpxeScript.Script.Or` | ipxe/script.go:82-86 | extends the last line by an alternative |
| `IpxeScript.Script.Echo` | ipxe/script.go:94-97 | adds an echo line |
| `IpxeScript.Script.Set` | ipxe/script.go:99-103 | adds a set line |
| `IpxeScript.Script.Shell` | ipxe/script.go:105-107 | adds a shell line |
| `IpxeScript.DigitsReadBack` | ipxe/script.go:109-111 | the decimal text of a number reads back as the number, without a leading zero |
| `IpxeScript.Script.Sleep` | ipxe/script.go:109-111 | adds a sleep line with the decimal number |
| `Osie.KernelParams` | installers/osie/main.go:151-219 | the open kernel line carries every argument, in order, for every job |
| `Osie.SetBootScript` | installers/osie/main.go:140-149 | the calls from architecture to boot |
| `Osie.Install` | installers/osie/main.go:96-120 | the calls of an install, or of a rescue |
| `Osie.Rescue` | installers/osie/main.go:123-127 | the calls of a rescue |
| `Osie.Discover` | installers/osie/main.go:129-138 | the calls of a discovery |
| `Osie.BootScript` | installers/osie/main.go:84-93 | which slug makes which script, and that any other is refused |
| `Osie.ScriptBootsOnce` | installers/osie/main.go:96-219 | for every job, installer and action exactly one kernel line with all arguments, then exactly one initrd line, then the only boot; the path is that of the `initrd=` argument |
| `ScriptText.KernelLineIs` | installers/osie/main.go:144-235 | the kernel line as text: its path, and the text of each setting exactly when it is there |
| `ScriptText.InitrdLineIs` | installers/osie/main.go:146-146 | the initrd line as text |
| `ScriptText.SlugIs` | installers/osie/main.go:193-193 | the slug is the name without a final _image |
| `ScriptText.ScriptIs` | installers/osie/main.go:96-254 | every line of an OSIE script as text, for every installer, job and action |
| `Osie.ScriptOneLine` | installers/osie/main.go:96-235 | newline-free settings make newline-free calls |
| `Served.Preamble` | job/ipxe.go:71-81 | the text, and for newline-free settings the lines, before any installer's |
| `Served.Auto` | job/ipxe.go:95-124 | the installer is the first found by installer, slug and distribution, then the default, then the shell; the script is what it makes |
| `Served.PreambleIs` | job/ipxe.go:71-81 | the lines before every script, as text |
| `Served.TablesInOrder` | job/ipxe.go:95-124 | which table decides: installer, slug, distribution, default, in this order |
| `Served.OsieServed` | job/ipxe.go:53-93 | for all newline-free settings every line of the response as text; it loads one kernel with all arguments and one initrd and boots, last |
| `Served.ShellServed` | job/ipxe.go:126-128 | the shell script is the preamble and one line |
| `Served.Serve` | job/ipxe.go:53-93 | which names are found, and the whole text of the response for each |
| `Served.HollowReachesIff` | installers/osie/main.go:160-163 | two values of the hardware-report secrets give the same response if and only if they are equal or the machine is not deprovisioned |
| `Served.PasswordReachesIff` | installers/osie/main.go:189-205 | two password hashes give the same response if and only if they are equal or the script is not an install |
| `Cacher.TextOrder` | client/util.go:27-29 | the order of MAC texts is the numeric order of the addresses |
| `Cacher.Compare` | client/instance.go:156-162 | a zero MAC has the empty text, which comes before all and so still stands for the least address |
| `Cacher.PrimaryDataMAC` | client/cacher/discovery.go:210-235 | the loop with its early exit gives the first eth0 address, else the least one, all ones counted as zero |
| `Cacher.LeastIs` | client/cacher/discovery.go:210-235 | the least address belongs to a data port and is below all others |
| `Cacher.Eth0Wins` | client/cacher/discovery.go:220-232 | the first data port named eth0 with a MAC decides, all ones counted as zero |
| `Cacher.SetDetermines` | client/cacher/discovery.go:210-235 | with agreeing eth0 ports the set of ports determines the answer |
| `Cacher.RivalsMatter` | client/cacher/discovery.go:220-224 | exchanging two rival eth0 ports changes it |
| `Cacher.OrderIndependentIff` | client/cacher/discovery.go:210-235 | the answer is the same for every order of ports if and only if no two eth0 data ports disagree |
| `Cacher.FallbackIsLeast` | client/cacher/discovery.go:209-235 | without eth0 it is the numeric minimum of the data MACs, or zero when there is none below all ones |
| `Cacher.FindIPIsFirst` | client/instance.go:55-63 | the first matching address, none only when none matches |
| `Cacher.NotBothTypes` | client/cacher/discovery.go:82-92 | a MAC has one port type |
| `Cacher.CascadesAgree` | client/cacher/discovery.go:95-133 | the address is that of the mode's branch, and an address implies a host name |
| `Cacher.OneDataMac` | client/cacher/discovery.go:142-172 | apart from a BMC only the primary data MAC is offered an address, and never the zero one |
| `Cacher.AddressChoice` | client/cacher/discovery.go:114-160 | public management address, else private, else that of the hardware |
| `Cacher.PortTextIff` | client/instance.go:155-162 | a port has the text of a non-zero address exactly when it has the address |
| `Cacher.TypeAt` | client/cacher/discovery.go:82-92 | the first port with the address decides its type |
| `Cacher.FindIPMatches` | client/cacher/discovery.go:142-207 | the first address of the asked kind is found, and none exactly when there is none |
| `Cacher.DataAddress` | client/cacher/discovery.go:95-189 | address and mode of every data port, with and without an instance |
| `Cacher.BmcAddress` | client/cacher/discovery.go:191-207 | address, mode and host name of a BMC, known or newly discovered |
| `Cacher.OtherAddress` | client/cacher/discovery.go:82-133 | no address and no host name for any other MAC |
| `Cacher.StateOnlyNames` | client/cacher/discovery.go:142-172 | the instance's state never changes the address |
| `Cacher.Discovery.constructor` | client/cacher/discovery.go:15-18 | a discovery starts without a MAC |
| `Cacher.Discovery.SetMAC` | client/cacher/discovery.go:271-273 | records the MAC |
| `Cacher.Discovery.Hostname` | client/cacher/discovery.go:248-269 | for the MAC that was set: the instance's name unless it is being removed, the hardware's in every other known mode, an error in the unknown one |
| `Cacher.SetupJob` | job/job.go:199-224 | with the MAC set first, a job that finds an address never fails for want of a host name |

## Left out

- Sockets, HTTP and gRPC servers, the Packet, Kubernetes and standalone backends: input and output; the backend is a record that steps may change, with arbitrary success or failure.
- Logging, metrics and tracing calls: no effect on results, except that an error of a job posts an event, which is modelled.
- Calendar arithmetic: times are numbers, and parsing, formatting and the legacy correction are arbitrary functions.
- The TLV codec of the DHCP library is not part of the repository; it is modelled from section 8.4 of RFC 2132, with an arbitrary order and a closing end mark.
- SyslogRuns.ClosedRunsEnd: assumes nothing about fairness, so before the close a run may go on for ever; the end of runs is stated for runs that were closed.
- SyslogReceiver.OwnedKept: a read error is retried or fatal without a cause, because the test of a wrapped error for net.Error is not modelled.
- DhcpReply.Config.SetOpt43SubOpt: says what option 43 then holds for codes 1 to 254 and values up to 255 bytes, the range the sub-option format can carry; for others the library's encoding is left open. Like the other setters it needs an IPv4 address set up before, since the program's option map is nil otherwise.
- DhcpReply.Config.SetAllSubOpts: the same range.
- JobDhcp.SetupConfig: says what option 43 holds for VLAN texts up to 255 bytes.
- DhcpReply.NewReply: the options of the library's offer and acknowledgement are a parameter, since the library is not part of the repository.
- JobDhcp.SetPXEFilename: processor architecture tables and the HTTP client test are given as flags of the client.
- Jobs.ByMacFinds: interfaces have a MAC; the program panics on a record without one.
- UnitBuilder.ConfigureNetworkUnit: CIDR text is given with each address; the bond units are left out as easier uses of the same builder.
- IpxeScript.Script.PhoneHome: the aliasing of the slice returned by Bytes is not modelled.
- Served.Serve: a script function other than OSIE's is any list of calls of the script's methods; the fatal errors of registering one twice are left out.
- Osie.BootScript: a variable of the installer has a name and a value; a shorter list makes the program panic.
- The text of a log line, facility names and the reading of MAC addresses from JSON: formatting around what is modelled.
- The installer's parameters are given as texts; how flags are joined into them is left out.
- Problem reports, failure classes of hardware events, user events, kickstart templates, disk tables, flag parsing, installer registration and the VMware and custom iPXE scripts: easier members of the same kinds.
