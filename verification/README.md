# RustFlow, verified

A Dafny model of the parts of RustFlow whose behaviour is hardest to see from one function at a time, with proofs of
what they promise together. `dafny verify dfyconfig.toml` checks all of it.

## What is modelled

**The IPFIX codec and what a collector learns.** `Decoding` and `Encoding` are the wire format as pure functions:
headers, sets, templates, options templates, withdrawals, reduced-size integers, variable-length fields and the three
RFC 6313 lists under their depth cap. `IpfixParsing.IpfixParser` and `Encoder.Buffer` are the parser and the encoder in
the program's own form, loops over what remains and a buffer appended to, proved equal to those functions. `RoundTrip`
and `MessageRoundTrip` prove that decoding undoes encoding and say exactly when. `TemplateCaching` is the budgeted
template cache with its lazy sweeps, proved to answer like a cache that drops every expired template at once.
`TemplateLives` says what that cache finds and accepts by the calls alone. `ElementTyping` is RFC 5610 learning;
`TypeRecords` and `TypeCodes` say what a type record describes and teaches, field by field and code by code.
`Collecting` puts templates, learning and data together as one state machine and proves that cached templates never go
stale; `Withdrawals` follows a withdrawn template through messages. `Scalars` is the parser of a single value, data type
by data type, `CodePoints` says which octets are text, and `WireFormat` and `ValueFormat` say at which octets everything
lies and what becomes of malformed input. `Domains` is what options records say of sampling rates and boot times, and
what flows take from it; `StatedRates` and `FlowRates` say by element numbers which rate and times those are.
`Processing`, `QuietExporters` and `FlowProcessing` add the exporters a collector keeps, and forgets; `Forgetting`,
`TellingMessages` and `ForgottenRuns` say exactly what forgetting costs, and `ExporterTables` runs the table of parsers
and domains in the program's own form.

**The exporter.** `FlowCaching` and `Metering` take captured frames through sampling, the flow cache with its two
timeouts and its eviction (whose in-place selection is `Selection`), to the flows handed out, and prove the books
balance. `Exporting` is the packing of records into messages and the sequence numbers; `EndToEnd` joins exporter and
collector, and `MeterToCollector` goes all the way from captured frames to decoded records.

**The output tree.** `Calendar`, `Digits`, `Layouts` and `OutputTrees` model partition names, the time they cover and
the walk that skips partitions outside a range. `Expiring`, `SweptTrees` and `SweptDirectories` are the expiry sweep
over a modelled file tree. `Naming` and `Claiming` are the names a file goes by and how concurrent collectors claim
them, and `OwnNames` says that no other names are taken for the collector's own. `CollectorTrees` shows that the tree
collectors make is one these results apply to, and `OpenWindows` that expiry leaves open windows alone.

**The pipeline** between ingest threads and encoder (`Pipelines`, `PipelineRunning`) is a step relation over any number
of producers, the bounded channel and the encoder; `ProducerRuns` drives real producers through it by their clock, and
`Batching` says when they send.

**Arithmetic.** `CryptoPans` is Crypto-PAn over any block function; `Timestamps` has uptimes that wrap and NTP
fractions; `FixedWidth` counts records, in IPFIX and in NetFlow v9. `TwoLevels` is the map of maps behind the template
caches and the learned types, and `Sequences` holds what is said of any sequence.

### Conventions

- Octets are `seq<byte>`; machine integers are subset types, and wrapping, truncation and saturation are written out.
- Time is a natural number of nanoseconds on a monotonic clock, read once per datagram and passed in. Calendar times are
  integers, so dates before 1970 are covered.
- The element registry is a parameter. The block cipher, the packet dissector and the export clock are function
  parameters: every result holds for all of them.
- Classes carry ghost fields for what a run has done so far (`stored`, `known`, `offered`, `exported`, `tried`), and
  `Valid()` ties them to the real ones. Methods such as `Replay`, `Collect`, `Run` and `ExportAndCollect` drive a class
  through an arbitrary run and state what holds of all of it.

### Findings

- An options template without fields does not survive the wire: the encoder writes a scope field count that no parser
  reads on a withdrawal (crates/rustflow_core/src/ipfix/encoder.rs:66-70,
  crates/rustflow_core/src/ipfix/parser.rs:754-775). `MessageRoundTrip.OptionsTemplateRoundTrip` gives the exact
  condition.
- A message's export time survives only in whole seconds that 32 bits can count: fractions are dropped, and earlier and
  later times wrap (crates/rustflow_core/src/ipfix/encoder.rs:38-47, 78-93; `MessageRoundTrip.PacketRoundTrip`). A
  DateTime in NTP form survives only when 5^9 divides its nanoseconds and its second is in NTP's first era
  (crates/rustflow_core/src/ipfix/encoder.rs:13-21; `RoundTrip.ScalarRoundTrip`).
- The guard against records that consume nothing covers templates without fields
  (crates/rustflow_core/src/ipfix/parser.rs:101-109). A set fails, whatever it holds, exactly when its template has
  fields and each has length 0 and is not a list to decode; one variable-length field or one list above the depth cap
  is enough for it not to fail (`FixedWidth.SetFails`).
- A producer given raw lines and decoded flows in turn would not keep their order, since a flush sends flows first
  (crates/rustflow_collect/src/sink/pipeline/mod.rs:161-173; `PipelineRunning.MixedOutOfOrder`).
  `PipelineRunning.NothingLost` gives the exact condition on what it is given. No run of the program mixes the kinds
  (crates/rustflow_collect/src/lib.rs:96-100), so all a producer is given is encoded in order
  (`PipelineRunning.OneKindEncodedInOrder`).
- Forgetting a quiet exporter (crates/rustflow/src/processor.rs:225-262) hides no template, but with its parser and its
  domains go the element types, sampling rates and boot times it told. Messages and flows come out as if it had been
  remembered exactly when it told none of these (`ForgottenRuns.ForgottenExactly`, `ForgottenRuns.ForgottenShows`). For
  how specifiers are read, the types alone decide, conflicts included (`Forgetting.ForgottenTypesMatter`).
- Files kept for at least an interval (crates/rustflow_collect/src/args.rs:249-253) are safe until their window ends
  (`OpenWindows.WindowKept`). Kept for just that long, a file can go a second later, before it is given its final name
  (crates/rustflow_collect/src/sink/expire.rs:38-53; `OpenWindows.WindowLost`).
- Names carry years 0 to 9999 only: a file of another year is not recognised as the collector's own
  (crates/rustflow_collect/src/sink/layout.rs:106-144, 207-235; `Naming.CandidateReadsBack`).

## Model

| member | source | states |
|---|---|---|
| `RoundTrip.ScalarRoundTrip` | crates/rustflow_core/src/ipfix/encoder.rs:130-198 | a scalar value survives a field of n octets if and only if it is typed for it: reduced-size integers in range, strings valid UTF-8 without a trailing NUL and padded, times exactly representable |
| `RoundTrip.SpecifierRoundTrip` | crates/rustflow_core/src/ipfix/parser.rs:816-835 | a field specifier comes back if and only if it has the enterprise bit just when it has a number, and an ID below 0x8000 |
| `RoundTrip.LengthRoundTrip` | crates/rustflow_core/src/ipfix/parser.rs:969-982 | the parser reads the length the encoder wrote, in one octet or three, and is left with exactly the value |
| `RoundTrip.ValueRoundTrip` | crates/rustflow_core/src/ipfix/parser.rs:317-529 | any typed value, lists nested to the depth cap included, is encoded in its width and decodes to itself whatever follows |
| `RoundTrip.TemplatedRoundTrip` | crates/rustflow_core/src/ipfix/parser.rs:78-117 | the records of a set or a list decode to themselves, all of them, nothing left over |
| `RoundTrip.ItemsRoundTrip` | crates/rustflow_core/src/ipfix/parser.rs:472-529 | the items of a subTemplateMultiList decode to themselves |
| `MessageRoundTrip.TemplateRoundTrip` | crates/rustflow_core/src/ipfix/parser.rs:719-732 | a template record of good specifiers decodes to itself |
| `MessageRoundTrip.OptionsTemplateRoundTrip` | crates/rustflow_core/src/ipfix/parser.rs:754-775 | an options template decodes to itself if and only if it has fields |
| `MessageRoundTrip.SetRoundTrip` | crates/rustflow_core/src/ipfix/parser.rs:144-172 | a set decodes to itself with its length filled in, and leaves the state made by defining its templates and learning from its options records |
| `MessageRoundTrip.HeaderRoundTrip` | crates/rustflow_core/src/ipfix/parser.rs:592-609 | any header comes back with its export second modulo 2^32, or not at all in another version; as it was, if and only if the version is 10 and the time a whole second that fits 32 bits |
| `MessageRoundTrip.MessageReceived` | crates/rustflow_core/src/ipfix/parser.rs:67-76 | what parsing an encoded message gives, and the state the records of its sets make, each set seeing the templates and types of those before it |
| `MessageRoundTrip.PacketRoundTrip` | crates/rustflow_core/src/ipfix/encoder.rs:78-106 | parse after encode is the identity, lengths filled in, if and only if the version is 10 and the export time a whole second that fits 32 bits |
| `WireFormat.HeaderAt` | crates/rustflow_core/src/ipfix/parser.rs:592-609 | a header is sixteen octets of version 10, its length, seconds, sequence number and domain at their offsets; anything else is an error |
| `WireFormat.MessageAt` | crates/rustflow_core/src/ipfix/parser.rs:67-76 | the sets lie between the header and the length it tells; a message cut short is an error and teaches nothing |
| `WireFormat.SetAt` | crates/rustflow_core/src/ipfix/parser.rs:144-172 | a set is bad if and only if its length is below 4 or past the end; else its records are what lies within its length |
| `WireFormat.BadSetEnds` | crates/rustflow_core/src/ipfix/parser.rs:67-76 | any good sets before a bad one decode as without it, and leave what they taught |
| `WireFormat.TemplatesThenFew` | crates/rustflow_core/src/ipfix/parser.rs:181-210 | octets too few for another template at the end of a template set change nothing |
| `WireFormat.SetIds` | crates/rustflow_core/src/ipfix/parser.rs:174-263 | IDs 2 and 3 define templates, those from 256 on hold records, all others are skipped and change nothing |
| `WireFormat.DataLaidOut` | crates/rustflow_core/src/ipfix/parser.rs:78-117 | every record of a set is laid out by the data template of its ID, or else by the options template; without either there is none |
| `WireFormat.SpecifierAt` | crates/rustflow_core/src/ipfix/parser.rs:816-835 | ID, length and enterprise number lie at their offsets, the number only after a set top bit |
| `WireFormat.TemplateAt` | crates/rustflow_core/src/ipfix/parser.rs:719-732 | template ID and field count come first |
| `WireFormat.OptionsTemplateAt` | crates/rustflow_core/src/ipfix/parser.rs:754-775 | and a scope field count, but in a withdrawal |
| `ValueFormat.LengthAt` | crates/rustflow_core/src/ipfix/parser.rs:969-982 | a field of 65535 octets has its length in an octet, or after 255 in two more |
| `ValueFormat.BooleanAt` | crates/rustflow_core/src/common/parser.rs:76-85 | 1 is true and 2 is false; any other octet is no value |
| `ValueFormat.StringAt` | crates/rustflow_core/src/common/parser.rs:62-74 | a string is read as s if and only if the octets are UTF-8 and s followed by NULs, s not ending in one; other octets are no value |
| `ValueFormat.MillisecondsAt` | crates/rustflow_core/src/common/parser.rs:36-45 | milliseconds past the last representable second are no value |
| `ValueFormat.IntegerFixed` | crates/rustflow_core/src/ipfix/encoder.rs:180-198 | an integer written at any width is the same modulo 256 to the width |
| `ValueFormat.OctetsFixed` | crates/rustflow_core/src/ipfix/encoder.rs:174-178 | octets are cut at the end or followed by zeros |
| `ValueFormat.StringFixed` | crates/rustflow_core/src/ipfix/encoder.rs:150-178 | a string is cut to the longest beginning that fits and is UTF-8, and followed by zeros |
| `ValueFormat.DeepLists` | crates/rustflow_core/src/ipfix/parser.rs:366-383 | lists nest eight deep, each of its own kind; deeper ones stay octets |
| `ValueFormat.BasicListAt` | crates/rustflow_core/src/ipfix/parser.rs:385-431 | a basicList is a semantic, a specifier and elements |
| `ValueFormat.FixedElements` | crates/rustflow_core/src/ipfix/parser.rs:385-431 | elements of w octets are exactly as many as fit, the i-th at offset i times w; one cut short is none |
| `ValueFormat.ElementsOf` | crates/rustflow_core/src/ipfix/parser.rs:385-431 | elements of a kind nothing defines are octets, others are of their definition |
| `ValueFormat.SubTemplateListAt` | crates/rustflow_core/src/ipfix/parser.rs:433-470 | a subTemplateList is a semantic, a template ID and records |
| `ValueFormat.ItemsAt` | crates/rustflow_core/src/ipfix/parser.rs:472-529 | an item is a template ID, a length that counts both, and records; one too short for a record is passed over, one past the end an error |
| `CodePoints.ValidIs` | crates/rustflow_core/src/common/parser.rs:62-74 | octets are text if and only if they are the UTF-8 of some code points, none a surrogate |
| `Scalars.ScalarTaken` | crates/rustflow_core/src/ipfix/parser.rs:317-383 | for every data type and length the parser dispatched to takes exactly that length, fails on less, and gives what those octets mean |
| `Scalars.FoldIsBigEndian` | crates/rustflow_core/src/common/parser.rs:87-94 | folding octets into a 64-bit word by shifts is their big-endian value, nothing lost up to eight octets |
| `Scalars.ShiftsExtendSign` | crates/rustflow_core/src/common/parser.rs:96-104 | shifting a word of n octets up and arithmetically down again is their two's complement |
| `Decoding.ParseFieldValue` | crates/rustflow_core/src/ipfix/parser.rs:317-383 | a value that parses takes exactly its declared length; unless it is a list to decode, it is what its octets mean; recursion ends by list depth left, then octets left |
| `Decoding.ParsedNesting` | crates/rustflow_core/src/ipfix/parser.rs:385-529 | decoded lists nest no deeper than the lists left below the cap of 8 |
| `Decoding.TemplatedNesting` | crates/rustflow_core/src/ipfix/parser.rs:78-117 | so do the lists in any records of a data set |
| `IpfixParsing.IpfixParser.ParseValue` | crates/rustflow_core/src/ipfix/parser.rs:317-383 | scalars dispatched on type and length, lists by the parser's recursive loops, as specified |
| `IpfixParsing.IpfixParser.ParseBasic` | crates/rustflow_core/src/ipfix/parser.rs:385-431 | the loop over a basicList computes the specified elements |
| `IpfixParsing.IpfixParser.ParseSubTemplates` | crates/rustflow_core/src/ipfix/parser.rs:433-470 | a subTemplateList is read with the template cached for it, or kept undecoded |
| `IpfixParsing.IpfixParser.ParseMulti` | crates/rustflow_core/src/ipfix/parser.rs:472-529 | the loop over a subTemplateMultiList computes the specified items, empty ones skipped |
| `IpfixParsing.IpfixParser.ParseTemplatedRecords` | crates/rustflow_core/src/ipfix/parser.rs:78-117 | records are parsed until one fails; data templates win over options templates; one that consumes nothing is an error |
| `IpfixParsing.IpfixParser.ParseRecord` | crates/rustflow_core/src/ipfix/parser.rs:288-315 | the loop over a template's fields computes the specified values |
| `IpfixParsing.IpfixParser.ParseTemplateSet` | crates/rustflow_core/src/ipfix/parser.rs:123-142 | template records define, replace and withdraw as the eager state machine does, which `Withdrawals` and `TemplateLives` characterise |
| `Withdrawals.TemplatesWithdrawn` | crates/rustflow_core/src/ipfix/parser.rs:119-142 | after a template set that only withdraws, the template is in no live data template cache, or with ID 2 none of the domain is; every other template of either kind is as it was |
| `Withdrawals.OptionsWithdrawn` | crates/rustflow_core/src/ipfix/parser.rs:211-246 | likewise for options templates, with ID 3 for all |
| `Withdrawals.UntilDefined` | crates/rustflow_core/src/ipfix/parser.rs:95-98 | over any run of messages, sets of an ID without a template give no records until one defines it again |
| `Withdrawals.WithdrawnUntilDefined` | crates/rustflow_core/src/ipfix/parser.rs:119-142 | so it is for every ID withdrawn, singly or with all of its kind |
| `IpfixParsing.IpfixParser.LearnElementTypes` | crates/rustflow_core/src/ipfix/parser.rs:265-286 | refreshing only when a lookup changed leaves the caches as refreshing always would |
| `IpfixParsing.IpfixParser.Parse` | crates/rustflow_core/src/ipfix/parser.rs:67-76 | one message decodes to what the eager state machine says and leaves its state |
| `IpfixParsing.Collect` | crates/rustflow_core/src/ipfix/parser.rs:174-263 | over any run of messages the parser, on its lazy caches, decodes what the eager state machine does |
| `Encoder.Buffer.PutFieldValue` | crates/rustflow_core/src/ipfix/encoder.rs:130-172 | the encoder appends exactly the specified octets of a value, at any declared width |
| `Encoder.Buffer.PutInt` | crates/rustflow_core/src/ipfix/encoder.rs:190-198 | low-order octets, or sign extension, are the two's complement at the declared width |
| `Encoder.SignedOctets` | crates/rustflow_core/src/ipfix/encoder.rs:190-198 | narrowing and extending an i64's octets is the two's complement of the value at that width |
| `Encoder.Buffer.PutSet` | crates/rustflow_core/src/ipfix/encoder.rs:95-106 | a set is written behind the length of its encoded records |
| `Encoder.Buffer.PutPacket` | crates/rustflow_core/src/ipfix/encoder.rs:78-93 | a message is written behind a header with its whole length |
| `Utf8.ValidCut` | crates/rustflow_core/src/ipfix/encoder.rs:150-172 | cutting a string at the character boundary at or before the field's width leaves valid UTF-8 |
| `TemplateCaching.TemplateCache.Get` | crates/rustflow_core/src/common/template_cache.rs:48-58 | a lookup finds a template if and only if it is stored and has not expired |
| `TemplateCaching.TemplateCache.Fits` | crates/rustflow_core/src/common/template_cache.rs:148-155 | the running count decides as the true sum of all cached fields would |
| `TemplateCaching.TemplateCache.MakeRoom` | crates/rustflow_core/src/common/template_cache.rs:64-78 | skipping sweeps while nothing can have expired changes no decision, and no live template is swept |
| `TemplateCaching.TemplateCache.Insert` | crates/rustflow_core/src/common/template_cache.rs:64-103 | a template is accepted if and only if it fits beside the live ones; a refused redefinition drops the old template; after it no entry is as old as two timeouts |
| `TemplateCaching.TemplateCache.Remove` | crates/rustflow_core/src/common/template_cache.rs:105-116 | exactly one template goes, the sum stays true and no empty domain is left |
| `TemplateCaching.TemplateCache.RemoveDomain` | crates/rustflow_core/src/common/template_cache.rs:119-127 | exactly the domain's templates go |
| `TemplateCaching.TemplateCache.RefreshDomain` | crates/rustflow_core/src/common/template_cache.rs:129-138 | exactly the domain's fields are resolved again, and no template's age changes |
| `TemplateCaching.TemplateCache.RemoveExpired` | crates/rustflow_core/src/common/template_cache.rs:157-167 | exactly the live templates stay |
| `TemplateCaching.FirstExpiry` | crates/rustflow_core/src/common/template_cache.rs:163-166 | no entry expires before the bound kept |
| `TemplateCaching.Apply` | crates/rustflow_core/src/common/template_cache.rs:48-138 | any one operation answers as on an eager cache and leaves the same templates live |
| `TemplateCaching.Replay` | crates/rustflow_core/src/common/template_cache.rs:48-168 | over any run of operations the lazy cache gives the answers of a cache that drops what expires at once |
| `TemplateLives.FoundIs` | crates/rustflow_core/src/common/template_cache.rs:48-138 | in any run a template is found if and only if its last definition was accepted, nothing touched it since and it is younger than the timeout, with the fields it was defined with as resolved anew since |
| `TemplateLives.AcceptedIs` | crates/rustflow_core/src/common/template_cache.rs:64-103 | in any run a template is accepted if and only if its fields and those of all others that would be found are at most 65536 |
| `ElementTyping.ReadDescription` | crates/rustflow_core/src/ipfix/element_types.rs:132-181 | the loop over a record's fields reads the specified description |
| `TypeRecords.DescriptionStated` | crates/rustflow_core/src/ipfix/element_types.rs:132-181 | a record describes an element if and only if it states ID and type, and semantics throughout as numbers below 256; of several fields of one element the last counts |
| `ElementTyping.LearnedIsFaithful` | crates/rustflow_core/src/ipfix/element_types.rs:58-116 | after any type records, what is known of an element reflects the set of descriptions accepted for it, never a registry element, never past 1024 elements |
| `ElementTyping.BelowTheCap` | crates/rustflow_core/src/ipfix/element_types.rs:86-116 | while they fit, exactly the elements described are known |
| `ElementTyping.OrderIndependent` | crates/rustflow_core/src/ipfix/element_types.rs:58-116 | below the cap what is known depends neither on the order of the records nor on repeats |
| `ElementTyping.ConflictStays` | crates/rustflow_core/src/ipfix/element_types.rs:92-110 | an element described in two ways is unknown forever |
| `ElementTyping.ElementTypes.LearnFrom` | crates/rustflow_core/src/ipfix/element_types.rs:58-116 | learning returns true if and only if some lookup changed |
| `TypeCodes.TypeOfCode` | crates/rustflow_core/src/ipfix/element_types.rs:183-223 | each of the 23 codes is its type, with the semantics that fit it |
| `TypeCodes.CodeTaught` | crates/rustflow_core/src/ipfix/element_types.rs:132-223 | after one type record a collector reads the element as the type of the code, and as octets if there is none or the semantics do not fit |
| `TypeCodes.NameTaught` | crates/rustflow_core/src/ipfix/element_types.rs:156-169 | and under its name, if that is 1 to 256 octets without NUL |
| `Collecting.SetKeepsCoherence` | crates/rustflow_core/src/ipfix/parser.rs:174-263 | every set, parsable or not, leaves cached templates as a fresh resolution would make them, with IDs of 256 and up and at least a field |
| `Collecting.RefreshedCoherent` | crates/rustflow_core/src/ipfix/parser.rs:679-707 | refreshing a domain after learning restores that agreement everywhere |
| `Collecting.LearnedElsewhere` | crates/rustflow_core/src/ipfix/parser.rs:265-286 | learning in one domain changes no other domain's types |
| `Collecting.RunKeepsCoherence` | crates/rustflow_core/src/ipfix/parser.rs:174-286 | over any run of messages every cached template stays coherent |
| `Domains.RatesAreLatest` | crates/rustflow/src/processor.rs:183-212 | after any rates told, each sampler up to the cap of 1024 has the one last told of it, the domain the last that named no sampler, and the shared rate is the one all samplers have |
| `Domains.SetSamplingRate` | crates/rustflow/src/processor.rs:183-200 | the loop over the samplers finds the rate they share, if they agree |
| `Domains.SamplingRate` | crates/rustflow_core/src/common/convert/ipfix.rs:284-324 | the loop over a record's fields reads the specified rate |
| `Domains.PairIsOneIn` | crates/rustflow_core/src/common/convert/ipfix.rs:310-324 | a count-based pair is read as one in n if and only if n times the packets is the packets and the space together |
| `Domains.NoteSets` | crates/rustflow/src/processor.rs:336-349 | the loops over a packet's options records leave the domain as specified |
| `StatedRates.RateStated` | crates/rustflow_core/src/common/convert/ipfix.rs:284-324 | in any record the first field of 34 or 50 that is a number is the rate; without one, the last pair of 305 and 306 if it is one in a whole number, or 305 alone |
| `StatedRates.SamplerStated` | crates/rustflow_core/src/common/convert/ipfix.rs:327-340 | the first field of 48 or 302 names the sampler |
| `FlowRates.RateAnswered` | crates/rustflow/src/processor.rs:202-215 | the rate last told of the sampler asked for, or else the one last told of none, or else the one all samplers were last told, if they agree |
| `FlowRates.DomainIsTold` | crates/rustflow/src/processor.rs:331-350 | after any messages a domain is what its options records told, in order |
| `FlowRates.BootIsLast` | crates/rustflow/src/processor.rs:331-350 | and has the boot time told last |
| `FlowRates.FlowRatesAnswered` | crates/rustflow/src/processor.rs:359-420 | after any messages each data record of a message gives one flow, in order, with the rate it states itself or else the answer to all its domain was told, this message included |
| `FlowRates.RatesByNumber` | crates/rustflow_core/src/common/convert/ipfix.rs:284-340 | the elements that state a rate and name a sampler are 34, 50 and 305, and 48 and 302 |
| `FlowRates.DeltasByNumber` | crates/rustflow_core/src/common/convert/ipfix.rs:27-33 | 158 sets the start and 159 the end, so many microseconds before the export time |
| `FlowRates.UptimesByNumber` | crates/rustflow_core/src/common/convert/ipfix.rs:35-45 | 22 sets the start and 21 the end, so long after the boot time |
| `FlowRates.DatesByNumber` | crates/rustflow_core/src/common/convert/ipfix.rs:47-190 | 150, 152, 154 and 156 set the start, 151, 153, 155 and 157 the end |
| `Processing.SweepInvisible` | crates/rustflow/src/processor.rs:243-262 | for any parser, forgetting quiet exporters changes no answer of a run in which each exporter heard again a timeout later has a parser as good as new by then |
| `QuietExporters.KeptWhileHeard` | crates/rustflow/src/processor.rs:243-262 | no datagram takes the parser from an exporter heard within the timeout |
| `QuietExporters.NoneKeptLong` | crates/rustflow/src/processor.rs:243-262 | after any datagram of a run everyone kept was heard within the timeout and ten seconds |
| `Processing.ForgettingHidesNoTemplate` | crates/rustflow/src/processor.rs:243-262 | over any run of template cache operations, hits, misses and acceptances are those of a map never swept |
| `Processing.ForgettingHidesNoRecord` | crates/rustflow/src/processor.rs:307-335 | every message decodes as if no exporter were forgotten, as long as no exporter heard again a timeout later had learned element types; the others may teach |
| `Forgetting.ForgottenTypesMatter` | crates/rustflow/src/processor.rs:225-262 | a collector that remembers and one that forgot read every specifier alike, whatever type records follow, if and only if nothing had been learned, conflicts included |
| `ForgottenRuns.ForgottenExactly` | crates/rustflow/src/processor.rs:225-262 | after any messages and a timeout of silence, an exporter remembered and one forgotten answer every later run alike, messages and flows, if and only if it told no element type, rate or boot time |
| `ForgottenRuns.ForgottenShows` | crates/rustflow/src/processor.rs:243-262 | in runs of the swept and the unswept table, whatever an exporter sends when heard again is answered alike if and only if it had told nothing |
| `ForgottenRuns.ForgottenAndHeardAgain` | crates/rustflow/src/processor.rs:243-262 | for any element types can be taught of and any silence long enough, what follows can be answered otherwise than if the exporter had been kept |
| `FlowProcessing.ForgettingHidesNoFlow` | crates/rustflow/src/processor.rs:331-350 | every message and flow comes out as if no exporter were forgotten, as long as none heard again a timeout later had told anything |
| `ExporterTables.ReceiveAll` | crates/rustflow/src/processor.rs:331-350 | over any run of datagrams the table of parsers and domains, swept in place, answers as the specified run does, messages and flows; `FlowRates` says which rates those are |
| `ExporterTables.ReceiveForever` | crates/rustflow/src/processor.rs:243-262 | and as if no exporter were ever forgotten, when none heard again after a timeout had told anything |
| `FixedWidth.FixedRecordCount` | crates/rustflow_core/src/ipfix/parser.rs:78-117 | n octets of a list-free template of fixed width w > 0 are exactly n / w records, the rest left over |
| `FixedWidth.RecordsFail` | crates/rustflow_core/src/ipfix/parser.rs:101-117 | parsing records of any template is an error, on any input, if and only if no field of it can take an octet |
| `FixedWidth.SetFails` | crates/rustflow_core/src/ipfix/parser.rs:78-117 | a data set fails, whatever it holds, if and only if its template has fields and none of them can take an octet |
| `FixedWidth.V9ValueTaken` | crates/rustflow_core/src/netflow_v9/parser.rs:400-443 | a v9 value takes exactly its declared length and is what those octets mean |
| `FixedWidth.ParseDataRecord` | crates/rustflow_core/src/netflow_v9/parser.rs:162-177 | a v9 record needs exactly its template's width and takes its values at consecutive offsets |
| `FixedWidth.ParseV9Records` | crates/rustflow_core/src/netflow_v9/parser.rs:123-154 | n octets of a v9 template of width w > 0 are exactly n / w records at consecutive stretches; without width, an error |
| `Timestamps.FractionRoundTrip` | crates/rustflow_core/src/ipfix/encoder.rs:13-21 | NTP and back loses at most a nanosecond, and none if and only if 5^9 divides it |
| `Timestamps.Epochs` | crates/rustflow_core/src/common/parser.rs:13-30 | NTP's epoch is the start of 1900, and the last representable second that of the date library |
| `Timestamps.WrappingDifferenceIsTrue` | crates/rustflow_core/src/common/convert/mod.rs:20-33 | the wrapped difference of two uptimes is the true one if and only if that fits 32 signed bits |
| `Timestamps.UptimeIsExact` | crates/rustflow_core/src/common/convert/mod.rs:20-33 | the time computed is the export time less the true difference, if and only if that fits |
| `Timestamps.IpfixUptimeIsExact` | crates/rustflow_core/src/common/convert/ipfix.rs:39-45 | for IPFIX it is boot time plus uptime, under the same condition |
| `Exporting.PackIsSplit` | crates/rustflow_export/src/exporter.rs:191-215 | every record is packed once, in order, in messages of one template within the size limit |
| `Exporting.StaysAhead` | crates/rustflow_export/src/exporter.rs:191-215 | after every record the greedy packing is ahead of any other split |
| `Exporting.GreedyIsOptimal` | crates/rustflow_export/src/exporter.rs:191-215 | no order-preserving split within the limits uses fewer messages |
| `Exporting.MessageFits` | crates/rustflow_export/src/exporter.rs:185-200 | a message of records that each fit is at most 1400 octets when encoded |
| `Exporting.Exporter.SendSets` | crates/rustflow_export/src/exporter.rs:73-91 | one attempt is made, stamped with the sequence number of the records delivered before |
| `Exporting.Exporter.SendData` | crates/rustflow_export/src/exporter.rs:93-105 | the sequence number grows by the records of a message that was sent, modulo 2^32, and by nothing else |
| `Exporting.Exporter.SendRecords` | crates/rustflow_export/src/exporter.rs:191-215 | exactly the messages of the greedy packing are tried, whatever became of those before, and the result says whether all were sent |
| `EndToEnd.SameRecord` | crates/rustflow_export/src/ipfix/data.rs:44-60 | a flow's record is encoded as the record its template describes, every value at its natural width |
| `EndToEnd.CollectedIsInjective` | crates/rustflow_export/src/ipfix/data.rs:44-60 | decoded records determine the flows, times in milliseconds |
| `EndToEnd.CollectedHolds` | crates/rustflow_export/src/ipfix/template.rs:49-88 | looked up by element number, a decoded record holds addresses, ports, protocol, counts, flags, floored times and end reason of its flow |
| `EndToEnd.SamplingHolds` | crates/rustflow_export/src/ipfix/data.rs:109-133 | so does the sampling record: domain, interval, algorithm, and one packet taken of so many |
| `EndToEnd.TemplatesReceived` | crates/rustflow_export/src/exporter.rs:107-132 | a collector that knows nothing learns exactly the exporter's templates from their message |
| `EndToEnd.FlowsReceived` | crates/rustflow_export/src/exporter.rs:157-175 | a data message decodes to its flows' records and changes nothing known |
| `EndToEnd.Partition` | crates/rustflow_export/src/exporter.rs:163-170 | the flows split by family, each in order |
| `EndToEnd.Export` | crates/rustflow_export/src/exporter.rs:157-175 | the datagrams sent are the template message and the encoded parts of a split of the flows, as few as any split allows and none above 1400 octets |
| `EndToEnd.ExportAndCollect` | crates/rustflow_export/src/exporter.rs:107-215 | exporting any flows and parsing every datagram gives back exactly those flows, times floored to milliseconds, IPv4 before IPv6, each in order, and each record holds every property of its flow under the number of its element |
| `MeterToCollector.MeterAndCollect` | crates/rustflow_export/src/lib.rs:75-107 | for any run of frames and timer ticks, the records collected of every key, read by element numbers, add up to the sampled packets that parse and are not the exporter's own |
| `MeterToCollector.SamplingTold` | crates/rustflow_export/src/ipfix/data.rs:109-133 | the sampling record tells a collector the rate the meter samples at |
| `Selection.SelectNth` | crates/rustflow_export/src/flow/mod.rs:147-150 | in place: a permutation with nothing larger before the k-th element and nothing smaller after |
| `Selection.NthSmallest` | crates/rustflow_export/src/flow/mod.rs:147-150 | at least k + 1 values are at most the one selected, and just so many when all are distinct |
| `FlowCaching.FlowCache.UpdateFlow` | crates/rustflow_export/src/flow/mod.rs:132-143 | the packet is counted in its flow, after making room if the cache is full; the cache never exceeds its limit, the accounts balance, and every cached flow starts with a packet of its key and ends with the latest |
| `FlowCaching.FlowCache.EvictIdleLongest` | crates/rustflow_export/src/flow/mod.rs:147-160 | at least a batch of flows ends as lacking resources, each last seen strictly before every flow kept, and exactly a batch when last-seen times differ |
| `FlowCaching.BatchIs` | crates/rustflow_export/src/flow/mod.rs:147-160 | a batch is an eighth of the limit, at least one flow |
| `FlowCaching.FlowCache.CheckExpiredFlows` | crates/rustflow_export/src/flow/mod.rs:168-195 | exactly the flows at a timeout end, after those evicted: with the active one as reason if and only if that has passed, and else the idle one; no flow kept has reached either, and none that ends was overdue at an earlier check |
| `FlowCaching.FlowCache.ExportAll` | crates/rustflow_export/src/flow/mod.rs:198-206 | every flow ends, nothing remains, and per key all ever exported equals all ever offered |
| `Flows.ReasonExported` | crates/rustflow_export/src/flow/mod.rs:13-18 | reasons are exported as 1, 2, 4 and 5, and 0 without one, each exactly when that is the reason |
| `FlowCaching.CountingBalances` | crates/rustflow_export/src/flow/mod.rs:83-89 | counting a packet keeps packets, octets and OR-ed flags of every key in balance |
| `FlowCaching.CountingSpans` | crates/rustflow_export/src/flow/mod.rs:61-89 | counting a packet keeps every cached flow from its first packet's time to its latest |
| `FlowCaching.EndingBalances` | crates/rustflow_export/src/flow/mod.rs:168-206 | moving ended flows out of the cache keeps them in balance |
| `FlowCaching.EndedCome` | crates/rustflow_export/src/flow/mod.rs:168-206 | every flow ended starts and ends at the times of packets of its key that were offered |
| `Metering.SampledCount` | crates/rustflow_export/src/sampler.rs:31-46 | n frames sample exactly n / N rounded up |
| `Metering.Sampler.Select` | crates/rustflow_export/src/sampler.rs:31-46 | the countdown selects a frame if and only if N divides its position |
| `Metering.MeteredAre` | crates/rustflow_export/src/meter.rs:71-106 | a packet is metered if and only if some frame gives it and it is not UDP from the local port to the collector's address and port |
| `Metering.PacketKept` | crates/rustflow_export/src/meter.rs:79-106 | in packet mode a frame is left out if and only if it parses to the exporter's own; of others the start is kept |
| `Metering.Meter.Observe` | crates/rustflow_export/src/meter.rs:79-106 | a frame adds to the books just what sampling, parsing and the exporter's own traffic leave of it |
| `Metering.Run` | crates/rustflow_export/src/meter.rs:71-131 | over any run of frames and timer ticks, exported flows account per key for exactly the sampled, parseable packets that are not the exporter's own; each tick hands out only flows at a timeout or evicted, and none that was overdue at an earlier tick; in packet mode, those frames' starts come out once and in order |
| `Calendar.AtTimestamp` | crates/rustflow_collect/src/sink/layout.rs:106-144 | a timestamp is the time of exactly one date and time |
| `Calendar.MonthStarts` | crates/rustflow_collect/src/sink/layout.rs:106-144 | the months start at the days they do, in leap years one later from March on |
| `Calendar.SpanHolds` | crates/rustflow_collect/src/sink/layout.rs:254-270 | a year, month, day, hour or bucket holds a time if and only if the time's own parts begin with its parts |
| `Layouts.PartitionsNest` | crates/rustflow_collect/src/sink/layout.rs:239-271 | what holds a partition is a partition, and covers its time |
| `Layouts.SiblingsApart` | crates/rustflow_collect/src/sink/layout.rs:276-337 | partitions side by side share no time |
| `Layouts.PartitionsHoldStart` | crates/rustflow_collect/src/sink/layout.rs:106-144 | every directory on the path of a window is a partition whose period holds the window's start |
| `Layouts.WindowStart` | crates/rustflow_collect/src/sink/destination.rs:154-168 | the window opened for a time holds that time and ends at the next rotation |
| `Layouts.PartitionsHoldWindow` | crates/rustflow_collect/src/args.rs:277-296 | with an accepted interval every ancestor partition holds the whole window |
| `Layouts.CheckIsNeeded` | crates/rustflow_collect/src/args.rs:277-296 | with any other interval some window leaves its partition |
| `OutputTrees.OverlapsShares` | crates/rustflow_collect/src/sink/layout.rs:84-98 | a period overlaps a range that holds some time if and only if they share one |
| `OutputTrees.Walk` | crates/rustflow_collect/src/sink/layout.rs:174-202 | the walk makes the specified visits, children before their directory |
| `OutputTrees.WalkFindsOwn` | crates/rustflow_collect/src/sink/layout.rs:149-202 | below any directory of a filed tree, pruning loses no file in the range |
| `OutputTrees.FilesOfFiledTree` | crates/rustflow_collect/src/sink/layout.rs:149-159 | on any tree filed by the layout, at any levels mixed, the pruned listing equals filtering every own file |
| `Expiring.Expiry.Run` | crates/rustflow_collect/src/sink/expire.rs:39-66 | removing file by file and directory by directory leaves the swept tree; the count is that of the files removed, and the hooks are told of the complete ones |
| `Expiring.CompleteAre` | crates/rustflow_collect/src/sink/expire.rs:39-58 | the files told of are the complete ones among those removed, each as often |
| `Expiring.CompleteAt` | crates/rustflow_collect/src/sink/expire.rs:39-58 | and in their order |
| `Expiring.DirsOrdered` | crates/rustflow_collect/src/sink/layout.rs:161-172 | directories are listed children first |
| `SweptTrees.OnlyExpiredGo` | crates/rustflow_collect/src/sink/expire.rs:39-66 | of everything but directories, the expired files go and nothing else |
| `SweptTrees.FiledSweep` | crates/rustflow_collect/src/sink/expire.rs:39-58 | on a filed tree exactly the own files whose window started before the cutoff go; `OwnNames` says which are own |
| `SweptTrees.SweptNoneEmpty` | crates/rustflow_collect/src/sink/expire.rs:60-64 | no visited partition is left empty |
| `SweptTrees.SweptUnvisited` | crates/rustflow_collect/src/sink/expire.rs:39-66 | every directory not visited is left exactly as it was |
| `SweptDirectories.WalkedDirs` | crates/rustflow_collect/src/sink/layout.rs:161-202 | the directories a sweep goes through, and may remove, are those of the tree that overlap its range together with all above them |
| `SweptDirectories.VisitedIs` | crates/rustflow_collect/src/sink/layout.rs:84-98 | a directory overlaps the times before the cutoff if and only if it is one the collector has for some earlier time |
| `SweptTrees.SecondSweep` | crates/rustflow_collect/src/sink/expire.rs:39-66 | a second sweep at the same time finds no file and changes nothing |
| `Naming.CandidateReadsBack` | crates/rustflow_collect/src/sink/destination.rs:115-129 | every final and numbered name reads back to its window, as complete, if and only if its year has four digits |
| `Naming.TempReadsBack` | crates/rustflow_collect/src/sink/destination.rs:190-197 | so does the temporary name, as temporary |
| `Naming.CandidatesDiffer` | crates/rustflow_collect/src/sink/destination.rs:115-129 | the names tried for a file all differ |
| `Naming.CandidateParts` | crates/rustflow_collect/src/sink/destination.rs:115-129 | the n-th name is prefix, dash, stamp, from the second on a dash and the number, and the extension |
| `OwnNames.StampIs` | crates/rustflow_collect/src/sink/layout.rs:207-235 | sixteen characters are read as a time if and only if they are how it is written, or with second 60 for the last of a minute |
| `OwnNames.StampAt` | crates/rustflow_collect/src/sink/layout.rs:106-144 | a stamp has the digits of year, month, day, hour, minute and second at their places |
| `OwnNames.CompleteIs` | crates/rustflow_collect/src/sink/layout.rs:207-235 | any name is read as complete for a time if and only if it is prefix, dash, stamp, nothing or a dash and a number, and the extension, and not of the temporary form |
| `OwnNames.TemporaryIs` | crates/rustflow_collect/src/sink/layout.rs:207-220 | and as temporary if and only if it is such a name hidden, with a number and .tmp |
| `OwnNames.OthersStay` | crates/rustflow_collect/src/sink/expire.rs:39-66 | a sweep of any tree removes no file of any other name |
| `OwnNames.PartitionIs` | crates/rustflow_collect/src/sink/layout.rs:239-337 | directory names are a partition holding a time if and only if they are the first names the collector gives for it |
| `OwnNames.PartitionAt` | crates/rustflow_collect/src/sink/layout.rs:106-144 | and those have the digits of its year, month, day, hour and five minutes, after `date=`, `hour=` and `minute=` where they are named |
| `Claiming.Folder.ClaimFinalName` | crates/rustflow_collect/src/sink/destination.rs:86-100 | undisturbed, a file moves to the first free of its 1000 names, or stays when none is free |
| `Claiming.RunHolds` | crates/rustflow_collect/src/sink/destination.rs:86-100 | however claims interleave and whoever stops early, each file stays under its temporary or final name and no taken name changes hands |
| `Claiming.ClaimedNames` | crates/rustflow_collect/src/sink/destination.rs:79-100 | claimants that finish hold distinct names, free before, that read back to their windows; one gives up only when all its names are taken |
| `CollectorTrees.NamedIsFiled` | crates/rustflow_collect/src/sink/destination.rs:154-197 | a file the collector finds its own under any name it gives lies in its window's directories, at any level |
| `CollectorTrees.TreeIsFiled` | crates/rustflow_collect/src/sink/destination.rs:154-188 | after any run of files opened, claimed, expired and put there by others the tree is filed, so pruned listings lose nothing and sweeps take just what has expired |
| `OpenWindows.SweepTakes` | crates/rustflow_collect/src/sink/expire.rs:38-58 | a sweep of a filed tree takes a window's file if and only if it is recognised and the window started before the cutoff |
| `OpenWindows.WindowKept` | crates/rustflow_collect/src/args.rs:249-253 | with expiry no shorter than the interval, a window's file survives whatever else goes on until the window ends |
| `OpenWindows.WindowLost` | crates/rustflow_collect/src/sink/expire.rs:38-58 | a second later, with expiry equal to the interval, a sweep can take it, and no claim brings it back |
| `ProducerRuns.RunProducers` | crates/rustflow_collect/src/sink/pipeline/mod.rs:121-185 | any number of producers, driven through any acts by the clock they read, hold, send and have encoded what the run of the step relation says |
| `ProducerRuns.HeldYoung` | crates/rustflow_collect/src/sink/pipeline/mod.rs:145-159 | what a producer still holds back was begun less than 100 ms before the end of any push since |
| `Batching.SentWhenDue` | crates/rustflow_collect/src/sink/pipeline/mod.rs:121-173 | in any run a push sends all that is held, flows first, if and only if there are 256 records of its kind or the first was pushed 100 ms before |
| `Batching.WaitsForRoom` | crates/rustflow_collect/src/sink/pipeline/mod.rs:66-90 | a chunk waits exactly while the channel holds 1024 |
| `Batching.CountsKept` | crates/rustflow_collect/src/sink/pipeline/mod.rs:132-173 | over any run the flows that raw lines stand for are all told of, with chunks gone or with lines held |
| `Pipelines.SortedSame` | crates/rustflow_collect/src/sink/pipeline/mod.rs:161-173 | a flush keeps the order of what it sends if and only if flows came first |
| `PipelineRunning.RunKeeps` | crates/rustflow_collect/src/sink/pipeline/mod.rs:121-185 | over any interleaving the channel holds at most 1024 chunks, each producer holds back fewer than 256 flows and lines, and everything pushed is encoded, on its way, or held back |
| `PipelineRunning.NothingLost` | crates/rustflow_collect/src/sink/pipeline/mod.rs:190-228 | at the end each producer's flows and octets are encoded once, each kind in order, and nothing of anyone else; all it was given is in order if and only if it was never given a flow while raw octets were held back |
| `PipelineRunning.GivenIsPushed` | crates/rustflow_collect/src/sink/pipeline/mod.rs:121-159 | what a producer counts as pushed, and whether in order, is what the events gave it |
| `PipelineRunning.OneKindEncodedInOrder` | crates/rustflow_collect/src/lib.rs:96-100 | a producer given only flows or only raw lines has all of it encoded, in order |
| `PipelineRunning.MixedOutOfOrder` | crates/rustflow_collect/src/sink/pipeline/mod.rs:161-173 | a line and then a flow can be encoded the other way round |
| `PipelineRunning.DrainAdvances` | crates/rustflow_collect/src/sink/pipeline/mod.rs:92-100 | with every producer dropped some step always brings the end nearer |
| `CryptoPans.AnonymizeBits` | crates/rustflow_core/src/common/cryptopan.rs:59-70 | the masks and shifts flip each bit by the cipher of the bits before it and the padding, and keep the rest |
| `CryptoPans.AnonymizeV4` | crates/rustflow_core/src/common/cryptopan.rs:46-50 | the padding bits stay zero, so narrowing to 32 bits loses nothing |
| `CryptoPans.BitFlipped` | crates/rustflow_core/src/common/cryptopan.rs:56-70 | a bit is flipped if and only if the block of the bits before it, completed with the padding, encrypts to one whose first bit is set |
| `CryptoPans.PrefixPreserved` | crates/rustflow_core/src/common/cryptopan.rs:56-70 | for any cipher and key, outputs share exactly as many first bits as inputs do |
| `CryptoPans.Injective` | crates/rustflow_core/src/common/cryptopan.rs:46-54 | different addresses stay different |
| `CryptoPans.Original` | crates/rustflow_core/src/common/cryptopan.rs:46-54 | every address is the anonymized form of one |

## Left out

- Sockets, capture files and rings, signals, the metrics server, command line parsing and logging: input and output.
- Packet dissection and tunnels: the dissector is a parameter of `Metering`, and rests on the etherparse library.
- NetFlow v5, sFlow, v9 headers, templates and set framing, and the conversion to common flows field by field: long but
  local. Of v9 the fixed-width record parsing is modelled.
- Output encoders, enrichment, the MMDB, command hooks and file rotation by size: thin over libraries or processes.
- Of flows converted from IPFIX only the rate and the times are modelled: the rest depends on the record alone. The
  rates of v9 sources follow the same rules and are left out.
- Domains.Domain: is a value, replaced in its exporter's entry rather than updated in place.
- Floats are their bits, as the codec treats them. Elements of 256 bits are not modelled.
- The name of an unknown element is kept as its number and enterprise rather than as text.
- The registry's contents are a parameter; `EndToEnd` asks of it only the twelve elements of the flow templates, and
  `ForgottenRuns` those of type records, selectorId and flowStartSysUpTime.
- Template lookups read the clock several times per datagram in the program; the model reads it once. The flag that
  keeps a refused template from being logged twice is kept but decides nothing.
- Flow counters, and sums of them, are modulo 2^64, as in a release build; a debug build stops at the overflow.
- Dates outside what the date library can hold, when computing a nanosecond stamp or a window's start, are not modelled.
- Layouts.ParseStamp: reads stamps of exact widths; the date library behind the program also takes stamps with spaces
  or short fields, which the collector never writes.
- File names are text. A prefix with a path separator, and names that are not valid text, are not modelled.
- File systems without hard links, where claiming falls back to a check and a rename with no atomicity to prove.
- Faults while removing files or directories: the tree of an expiry sweep is fault-free and changes only by the sweep.
- The rotation, flushing and error counting of the encoder thread, and an encoder thread that panics.
- The order in which a hash map is walked: ended flows come in an unspecified order.
- EndToEnd.ExportAndCollect: every datagram arrives, in order and within the template timeout; a network that loses or
  reorders them is not modelled.
- MeterToCollector.MeterAndCollect: likewise, and the datagrams of one run are its templates and its flows; the
  templates and sampling options the program repeats between batches are left out.
- CollectorTrees.TreeIsFiled: collectors of one tree share prefix, extension and partition naming; their levels may
  differ.
- AES itself: `CryptoPans` holds for any block function.
- Packet records are modelled up to their export; that packet templates round trip is an instance of `RoundTrip`.
