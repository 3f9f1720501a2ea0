# Verified model of the OpenTelemetry C library's hard core

This project models four parts of the library and proves what each is for.

**The log export flattener.** A custom log exporter hands a batch of log records to a C
callback. Every record body, attribute and nested list or map is compiled, breadth-first and
without recursion, into one flat node pool per owner, addressed by child ranges. `LogValues`
gives both sides (the upstream trees and the pool), `PoolLayout` the shape of a finished pool
and what its partly built forms have in common, `LogMeaning` what a pool says of an upstream
value and which values fit, `LogFlattener` the flattener itself as a class with a node vector and
a work queue, and `LogBatch` the conversion of a whole batch with its shared scope views.
`KeyOrder` is the byte order of map keys.

**The wire codecs.** `Utf8` is the lossy copy loop against section 4 of RFC 3629.
`BaggageCodec`, `BaggageMember` and `BaggageHeader` read and write the baggage header of W3C
Baggage; `BaggageBuilder` is the builder behind it, and `BaggageCalls` tells what any run of its
calls amounts to. `TraceParent`, `TraceState` and `TracePropagation` read and write the two headers
of W3C Trace Context.

**The context scopes.** `ContextScopes` has the stack of attached contexts of one thread as a
class, and whole runs of attach, detach and current calls on any number of threads, with tokens
that callers may copy, keep or make up.

**The lifetime protocols.** `ProviderSlot`, `ObservableCallback` and `ExporterShutdown` are state
machines; `ProviderIds` is about the registration ids of the first and `ProviderCalls` about the
calls that it makes through vtables. One step is one atomic access, one lock operation, one change
of a reference count or the start or end of one callback; a run is any interleaving of the steps of
any number of threads, and every theorem about a protocol is about all runs: what no run does, and
that no call that is due is lost. Each has a class beside it with the code of the calls, proved to
be the steps that one uninterrupted thread takes.

Strings are sequences of bytes throughout; a `&str` is such a sequence that is well-formed UTF-8.
`Bytes` and `Outcome` hold what all files share.

One place where the code and its own expectations part:
`fuzz/fuzz_targets/baggage_propagation.rs:58` expects every re-injected header to come back with
as many entries. The extraction call always accepts it, but the count comes back exactly when the
entries, printed again, fit in 8192 bytes (`BaggageHeader.Reinjection`). They always fit when the
percent-decoded values are UTF-8 (`BaggageHeader.ReinjectionOfUtf8`); a value of 911 to 2730 bytes
`%FF` is a header for which they do not (`BaggageHeader.ReinjectionCanLose`), because each byte
becomes U+FFFD and that is written with nine bytes.

Registration ids are taken before the lock is. Of two ids written to a provider slot the smaller is
the one whose thread took it first (`ProviderIds.IdsFollowTakes`), which need not be the one
written first (`ProviderIds.IdsNeedNotRise`). Ids do rise across every moment at which no taken id is
unwritten (`ProviderIds.RiseAcrossRest`), and after a registration that took its id while no other
thread held one (`ProviderIds.RiseWhenAlone`). Unregistering by token depends on none of this
(`ProviderIds.UnregisterOwnOnly`).

## Model

| member | source | states |
|---|---|---|
| LogFlattener.Flattener.Flatten | sdk/src/log_export_view.rs:619-693 | succeeds exactly for owners within every limit (attributes, container sizes, string lengths, nesting, node count); then the pool shows the body and each attribute under its key, is breadth-first, and the loop dequeued each root and each pool node once, at most 1281 items |
| LogFlattener.FlattenOwner | sdk/src/log_export_view.rs:619-693 | the same for the flattener made for one owner: verdict and meaning, stated on the upstream values |
| LogFlattener.FlatteningShows | sdk/src/log_export_view.rs:405-616 | a pool that reads back as the owner shows every attribute in order under its own key, and the body |
| LogFlattener.OwnerFitsIff | sdk/src/log_export_view.rs:619-693 | the limits on the upstream values are the limits on their trees |
| LogMeaning.DecodedShows | sdk/src/log_export_view.rs:405-501 | a pool that reads back as the tree of a value shows the value: each scalar by kind and payload, element i of a list at child i, each entry of a map under its own key, keys ascending |
| LogMeaning.AttributeShows | sdk/src/log_export_view.rs:503-616 | the same for attribute values and the elements of their arrays |
| LogMeaning.ValueFitsIff | sdk/src/log_export_view.rs:364-501 | a value fits when each string, byte value, key and container in it does and it nests no deeper than allowed |
| LogMeaning.ValueNodesIs | sdk/src/log_export_view.rs:364-390 | a value takes as many pool nodes as it has elements and entries, at every level |
| LogFlattener.FlatteningUnique | sdk/src/log_export_view.rs:642-686 | the pool is determined by what it means: two breadth-first pools that read back alike are equal |
| LogFlattener.IterationOrderIrrelevant | sdk/src/log_export_view.rs:470-491 | owners equal up to the order in which their hash maps iterate get the same verdict and the same pool |
| LogFlattener.PoolInvariants | sdk/src/log_export_view.rs:18-29 | each pool node is referenced by exactly one root or node, and that one stands before it |
| LogFlattener.TurnKeepsProgress | sdk/src/log_export_view.rs:642-686 | one turn of the work loop keeps the link between pool, queue and trees not yet dequeued, and the two quantities that decide the verdict |
| LogFlattener.TurnFails | sdk/src/log_export_view.rs:643-683 | each way in which a turn can fail is a limit the whole owner breaks |
| LogFlattener.StartProgress | sdk/src/log_export_view.rs:630-641 | the loop's invariant holds when the roots have been queued |
| LogFlattener.EndProgress | sdk/src/log_export_view.rs:642-692 | with an empty queue the invariant is the result: within the limits, breadth-first, decoding to the roots, at most 1281 turns |
| LogFlattener.Flattener.ReserveChildren | sdk/src/log_export_view.rs:364-390 | appends blank children past every node, exactly when the pool stays within 1024 |
| LogFlattener.Flattener.Enqueue | sdk/src/log_export_view.rs:392-403 | appends to the queue exactly when the depth is at most 16 |
| LogFlattener.Flattener.ConvertAny | sdk/src/log_export_view.rs:405-501 | converts a value exactly when its own limits and the pool allow, to its own kind and payload; its children are reserved blank and left pending in key order |
| LogFlattener.Flattener.ConvertAttributeArray | sdk/src/log_export_view.rs:503-562 | the elements in order, or failure exactly for an unknown kind or an oversized string |
| LogFlattener.Flattener.ConvertAttributeValue | sdk/src/log_export_view.rs:564-616 | the same for attribute values, array elements checked before the array |
| LogFlattener.Flattener.Convert | sdk/src/log_export_view.rs:643-647 | a value of any source is shown with its children's range, or one of its limits is broken |
| LogFlattener.Flattener.EnqueueChildren | sdk/src/log_export_view.rs:655-682 | a container's children are queued in order, one level deeper, map keys written, unless depth or a key forbids it |
| LogFlattener.Flattener.WriteKey | sdk/src/log_export_view.rs:667 | writes one key, exactly when it is at most 2^20 bytes |
| LogFlattener.Flattener.EnqueueEntries | sdk/src/log_export_view.rs:665-674 | a map's entries are queued in order and their keys written, and nothing else in the pool |
| LogFlattener.Flattener.EnqueueEntry | sdk/src/log_export_view.rs:667-672 | one entry: its key written in its slot and its value queued, or key or depth forbids it |
| LogFlattener.Flattener.Drain | sdk/src/log_export_view.rs:653-684 | draining what a conversion left pending queues exactly the tree's children |
| LogFlattener.Flattener.EnqueueAttributes | sdk/src/log_export_view.rs:635-638 | every attribute in order, duplicate keys included, keys kept |
| LogFlattener.Flattener.EnqueueRoots | sdk/src/log_export_view.rs:630-638 | the body, then the attributes, each in its own slot |
| LogFlattener.Flattener.Turn | sdk/src/log_export_view.rs:642-685 | one dequeued item: its slot written, its children reserved and queued, or a limit broken |
| PoolLayout.ReferencedOnce | sdk/src/log_export_view.rs:18-29 | child ranges partition the pool and lie past their owner |
| PoolLayout.LayoutUnique | sdk/src/log_export_view.rs:642-686 | cells are determined by root count, keys and decoded trees |
| PoolLayout.Finished | sdk/src/log_export_view.rs:642-692 | when every tree has been dequeued the pool is breadth-first and every cell decodes to its tree |
| PoolLayout.SettleNext | sdk/src/log_export_view.rs:648-652 | writing one slot and appending its blank children settles one more cell and unsettles none |
| PoolLayout.WaitingNext | sdk/src/log_export_view.rs:643-683 | replacing a tree in the queue by its children keeps the verdict and the number of nodes to come |
| PoolLayout.FitsIff | sdk/src/log_export_view.rs:392-397 | the depth test of the queue is the height of the tree |
| LogValues.SameTree | sdk/src/log_export_view.rs:470-491 | values equal as upstream compares them mean the same tree |
| LogValues.KeysAreExported | sdk/src/log_export_view.rs:27-34 | array elements carry an empty key; map entries carry unique keys in strict byte order, the empty key included |
| KeyOrder.SortedByKey | sdk/src/log_export_view.rs:476-484 | sorting distinct keys makes them strictly increasing |
| KeyOrder.LessIff | sdk/src/log_export_view.rs:476-484 | the order is bytewise: a smaller byte at the first difference, or a proper prefix |
| KeyOrder.SortedUnique | sdk/src/log_export_view.rs:476-484 | a strictly sorted arrangement is unique, so an unstable sort returns the same |
| LogBatch.ConvertBatch | sdk/src/log_export_view.rs:868-982 | all or nothing: succeeds exactly when resource, records and scopes all fit and there are at most 65536; then records are in order, each attribute of each record shows its own value under its own key in the record's own pool, scope and resource attributes likewise, with one view per distinct scope, every pointer at its own vector and every record at its own scope |
| LogBatch.BatchShown | sdk/src/log_export_view.rs:868-982 | what the view of a batch says of every record, scope and resource attribute |
| LogBatch.RecordSources | sdk/src/log_export_view.rs:782-791 | a record hands its attributes to the flattener in order, each key with its own value |
| LogBatch.OwnerSources | sdk/src/log_export_view.rs:829-836 | the same for scopes and resources |
| LogBatch.ConvertRecords | sdk/src/log_export_view.rs:905-947 | the loop over the batch ends exactly when all fits, with aligned vectors |
| LogBatch.FirstSeenIsTheScopes | sdk/src/log_export_view.rs:890-933 | the scope keys are pairwise distinct and are exactly the scopes of the batch |
| LogBatch.ScopesShared | sdk/src/log_export_view.rs:918-968 | two records point at one scope view exactly when they were emitted through one scope |
| LogBatch.ScopeIndex | sdk/src/log_export_view.rs:917-933 | finds a scope or appends its conversion, the four scope vectors staying aligned |
| LogBatch.AppendRecord | sdk/src/log_export_view.rs:934-946 | the four record vectors stay aligned, one longer, or the record does not fit |
| LogBatch.Assembled | sdk/src/log_export_view.rs:949-979 | the patched vectors are the view of the batch |
| LogBatch.ConvertRecord | sdk/src/log_export_view.rs:739-819 | converts exactly the records that fit; header fields and presence bits are the record's, body and attributes are shown in its own pool, key by key |
| LogBatch.ConvertHeader | sdk/src/log_export_view.rs:739-784 | each presence bit tells whether its field is there, each present field is carried over; times before the epoch or past 64 bits and oversized texts fail |
| LogBatch.ConvertTrace | sdk/src/log_export_view.rs:768-780 | trace identity is carried over, zeros stand for an absent one |
| LogBatch.ConvertScope | sdk/src/log_export_view.rs:828-853 | converts exactly the scopes that fit, to the flattening of their attributes |
| LogBatch.PatchRecords | sdk/src/log_export_view.rs:960-972 | every record is pointed at its own vectors and scope and at nothing else |
| LogBatch.PatchScopes | sdk/src/log_export_view.rs:954-957 | every scope view is pointed at its own vectors |
| LogBatch.Position | sdk/src/log_export_view.rs:918 | finds the scope by identity, or it is not there |
| Utf8.TryOwnedStringLossy | abi/src/lib.rs:269-291 | the copy loop terminates and computes the replacement of every maximal ill-formed subpart |
| Utf8.LossyIsWellFormed | abi/src/lib.rs:238-247 | its output is always well-formed |
| Utf8.LossyKeepsWellFormed | abi/src/lib.rs:274-277 | its output is its input exactly when the input is well-formed |
| Utf8.LossyLength | abi/src/lib.rs:278-288 | its output is at most three times as long |
| Utf8.SubpartIsMaximal | abi/src/lib.rs:278-287 | what is replaced at once is the longest prefix that begins some character, or one byte |
| Utf8.LossySubpart | abi/src/lib.rs:278-287 | one replacement character stands for it, and the rest follows |
| Utf8.ReplacementIsFFFD | abi/src/lib.rs:280-283 | the replacement is the encoding of U+FFFD |
| Utf8.WellFormedIff | abi/src/lib.rs:238-247 | well-formed text is exactly what encodes a sequence of Unicode scalar values |
| Utf8.CharEncodes | abi/src/lib.rs:238-247 | one encoded character is the encoding of its code point |
| Utf8.EncodesChar | abi/src/lib.rs:238-247 | and each scalar value has its encoding |
| BaggageCodec.PercentDecode | api/src/baggage.rs:451-471 | decodes every escape, or fails on a malformed one, then replaces ill-formed UTF-8 |
| BaggageCodec.HasValidPercentEncoding | api/src/baggage.rs:473-490 | accepts exactly what can be decoded |
| BaggageCodec.HexDigitsAre | api/src/baggage.rs:451-471 | digits denote 0 to 9, letters of both cases 10 to 15, nothing else anything |
| BaggageCodec.UnescapePlain | api/src/baggage.rs:451-471 | a byte that is no percent sign stands for itself |
| BaggageCodec.UnescapeEscaped | api/src/baggage.rs:451-471 | a percent sign stands with two hex digits for the byte they denote, high digit first, and spoils the text without them |
| BaggageCodec.TokenBytesAre | api/src/baggage.rs:430-449 | token bytes are the visible characters that are no delimiters |
| BaggageCodec.ValueBytesAre | api/src/baggage.rs:503-505 | value bytes are visible and neither quote, comma, semicolon nor backslash |
| BaggageCodec.EncodeValue | api/src/baggage.rs:539-550 | appends the escaped value |
| BaggageCodec.EscapedBytesAre | api/src/baggage.rs:539-550 | value bytes but the percent sign are written as they are, all others with two capital hex digits |
| BaggageCodec.UnescapeEscape | api/src/baggage.rs:451-550 | escaping any byte string and decoding it gives it back |
| BaggageCodec.UnescapeShrinks | api/src/baggage.rs:451-550 | re-escaping what was decoded is no longer than the source |
| BaggageCodec.PaddedIsUtf8 | api/src/baggage.rs:494-508 | the white space that trimming drops is whole characters: around a UTF-8 core the text is UTF-8 |
| BaggageCodec.TrimPadded | api/src/baggage.rs:494-508 | trimming finds the core between any white space characters of Unicode |
| BaggageCodec.TrimParts | api/src/baggage.rs:494-508 | and drops nothing but white space |
| BaggageMember.ParseMember | api/src/baggage.rs:492-537 | computes what a member means, if it means anything |
| BaggageMember.MemberIff | api/src/baggage.rs:492-537 | a member means an entry exactly when it is a token, an equals sign, a percent-coded value and properties with white space between, and it can be read in one way only |
| BaggageMember.EncodedMember | api/src/baggage.rs:552-571 | computes the printed member, or none for an entry that cannot be written |
| BaggageMember.PrintedParses | api/src/baggage.rs:492-571 | a printed member parses to its entry, metadata trimmed and rejoined |
| BaggageMember.ParsedPrints | api/src/baggage.rs:492-571 | what was parsed can be printed and is already in normal form |
| BaggageMember.NormalIsIdempotent | api/src/baggage.rs:507-533 | normalizing metadata twice is normalizing it once |
| BaggageMember.ReprintNoLonger | api/src/baggage.rs:492-571 | a member whose decoded value is UTF-8 prints no longer than it was received |
| BaggageMember.ParsedSizes | api/src/baggage.rs:492-537 | key, value and metadata together are shorter than the member, replacement included |
| BaggageMember.MetadataIsUtf8 | api/src/baggage.rs:506-533 | every text that passes as a property list is UTF-8, white space included |
| BaggageMember.PrintedIsUtf8 | api/src/baggage.rs:552-571 | every printed member is UTF-8, whatever bytes its value holds |
| BaggageHeader.Extract | api/src/baggage.rs:576-622 | gathers the members of a header; an oversized header yields nothing, an ill-formed one within the bound an error |
| BaggageHeader.Inject | api/src/baggage.rs:627-657 | joins the printed entries that fit, skipping the others |
| BaggageHeader.KeptGreedily | api/src/baggage.rs:645-657 | what is written is a subsequence: an entry is left out exactly when it cannot be printed or does not fit behind those kept before it, and later ones still get their turn |
| BaggageHeader.RoundTrip | api/src/baggage.rs:576-657 | the extraction call accepts what was injected and gives the kept entries in order, unchanged but for normalized metadata; never more than 8192 bytes |
| BaggageHeader.Reinjection | api/src/baggage.rs:576-657 | what was extracted and injected is accepted again, and comes back whole, or as many, exactly when the entries printed again fit the budget |
| BaggageHeader.ReinjectionOfUtf8 | api/src/baggage.rs:576-657 | when the decoded values are UTF-8 they print no longer than the header, and the extraction call gives them back |
| BaggageHeader.ReinjectionCanLose | fuzz/fuzz_targets/baggage_propagation.rs:40-58 | headers of 911 to 2730 `%FF` are accepted, and so is what is injected, but their only entry is lost |
| BaggageHeader.ExtractedBounds | api/src/baggage.rs:594-616 | extraction meets the builder's bounds unchecked: at most 64 distinct keys, stored bytes at most the header's length |
| BaggageHeader.RetainedKeys | api/src/baggage.rs:603-615 | the first 64 distinct keys are retained, in order of first occurrence |
| BaggageHeader.LastWins | api/src/baggage.rs:607-612 | each retained key carries what its last member says |
| BaggageHeader.ExtractedIs | api/src/baggage.rs:594-616 | the whole header counts: of all its members the first 64 distinct keys, each as its last member says |
| BaggageHeader.InjectedIsUtf8 | api/src/baggage.rs:627-657 | whatever the entries, the injected header is a string of at most 8192 bytes, and the extraction call accepts it |
| BaggageBuilder.Builder.Set | api/src/baggage.rs:187-269 | accepts exactly a named entry of strings that fits beside the other entries, by size and count, and puts it; each refusal has its own condition and changes nothing |
| BaggageBuilder.AcceptedIff | api/src/baggage.rs:207-267 | the refusals leave exactly the sets with a name, strings and room |
| BaggageBuilder.StoredPush | api/src/baggage.rs:135-140 | the stored size adds up key, value and metadata of every entry |
| BaggageBuilder.Builder.Remove | api/src/baggage.rs:274-292 | drops the key from the map, or refuses a key that is not UTF-8 |
| BaggageBuilder.Builder.Build | api/src/baggage.rs:297-325 | the bounds check never fails and the result is the builder's entries |
| BaggageBuilder.RunsRefine | api/src/baggage.rs:135-325 | after any run of calls the list stands for the insertion-ordered map those calls make, keys distinct and non-empty, at most 64 entries and 8192 bytes |
| BaggageCalls.LastCallWins | api/src/baggage.rs:187-292 | after any run of calls the builder holds an entry exactly when some accepted set wrote it and no later accepted set or removal touched its key |
| BaggageCalls.OrderIsByBirth | api/src/baggage.rs:257-289 | entries stand in the order in which their keys were brought in; replacing does not move them |
| BaggageBuilder.NextRefines | api/src/baggage.rs:187-292 | one call keeps the bounds and takes the list to the list of the right map |
| BaggageBuilder.AssignedIsPut | api/src/baggage.rs:257-264 | replacing in place or pushing is putting in the ordered map |
| BaggageBuilder.RemovedIsDrop | api/src/baggage.rs:287-289 | removing at the position is dropping from the ordered map |
| BaggageBuilder.Projected | api/src/baggage.rs:237-245 | the projected size never underflows and is the stored size of the resulting list |
| BaggageBuilder.ViewIsFaithful | api/src/baggage.rs:135-140 | the ordered map determines the list |
| BaggageBuilder.BuiltTravels | api/src/baggage.rs:294-657 | whatever any run of calls built is injected as a string, which the extraction call accepts and reads back as the entries that fit |
| TraceParent.ParseTraceparent | api/src/propagation.rs:204-260 | finds the one reading of a header, or the header is not a traceparent |
| TraceParent.LaidOnce | api/src/propagation.rs:204-260 | a header can be read in one way only |
| TraceParent.LaidIff | api/src/propagation.rs:204-260 | the layout byte by byte: fields between dashes, no version ff, no zero id, and more only behind a dash in a higher version |
| TraceParent.DecodeHex | api/src/propagation.rs:32-51 | finds the bytes whose lowercase hex is the input, or there are none |
| TraceParent.EncodeHex | api/src/propagation.rs:55-60 | appends the lowercase hex |
| TraceParent.DigitsAre | api/src/propagation.rs:45-53 | digits denote 0 to 9, small letters 10 to 15, capitals nothing |
| TraceParent.ByteHex | api/src/propagation.rs:55-60 | the high digit of a byte comes before its low one |
| TraceParent.HexInjective | api/src/propagation.rs:32-60 | different bytes have different hex |
| TraceState.ValidateTracestate | api/src/propagation.rs:70-103 | accepts exactly the language: at most 512 bytes, at most 32 members present, padded key=value pairs of the grammar, keys distinct |
| TraceState.LanguageIff | api/src/propagation.rs:70-103 | what the code reads is the only way to read a value by the grammar |
| TraceState.KeyGrammar | api/src/propagation.rs:106-149 | the key test is the simple or multi-tenant key of the grammar |
| TraceState.ValueGrammar | api/src/propagation.rs:156-167 | the value test is 0*255(chr) nblk-chr |
| TraceState.CharsAre | api/src/propagation.rs:106-108 | the character classes of the grammar, spelled out |
| TraceState.TrimIsCore | api/src/propagation.rs:79-80 | trimming finds the one text that a list member pads |
| TraceState.TracestateIsUtf8 | api/src/propagation.rs:70-103 | every accepted value is a string |
| TracePropagation.Extract | api/src/propagation.rs:182-282 | errors in order of precedence, each exactly on its condition; an ill-formed tracestate is dropped without losing the traceparent |
| TracePropagation.ExtractsOnce | api/src/propagation.rs:182-282 | two headers determine the result |
| TracePropagation.ExtractInjected | api/src/propagation.rs:182-401 | a valid context comes back with both ids and all eight flag bits, its state exactly when it is in the grammar |
| TracePropagation.InjectExtracted | api/src/propagation.rs:182-401 | a version-00 header is reproduced byte for byte, of a higher one bytes 2 to 55 behind 00; an accepted state is reproduced, a rejected one is empty |
| TracePropagation.InjectTraceparent | api/src/propagation.rs:348-368 | 55 bytes for a valid context, written when they fit and only then |
| TracePropagation.InjectTracestate | api/src/propagation.rs:378-401 | the state of a valid context, written when it fits and only then |
| TracePropagation.CopyOut | api/src/propagation.rs:295-338 | length query, short buffer and copy, nothing else in the buffer touched |
| ContextScopes.ContextStack.AllocateGeneration | api/src/context.rs:82-89 | hands out the next generation, wrapping past zero |
| ContextScopes.ContextStack.Attach | api/src/context.rs:306-363 | pushes and fills the token, or resets the token and leaves the stack alone at depth 64 or without a context |
| ContextScopes.ContextStack.Detach | api/src/context.rs:368-412 | pops and resets the token exactly when it names this thread's innermost scope; otherwise changes nothing |
| ContextScopes.ContextStack.Current | api/src/context.rs:103-114 | the context on top, if any |
| ContextScopes.WellBracketed | api/src/context.rs:306-412 | over any run each thread's attaches and detaches nest, the open ones are its stack, at most 64, and no scope closes twice or before it opens |
| ContextScopes.CurrentIsInnermost | api/src/context.rs:103-114 | current is the context of the last scope opened and not closed, as the record of calls alone tells it |
| ContextScopes.DetachAccepted | api/src/context.rs:368-412 | a token handed out, however copied, is accepted on its own thread while its scope is innermost, and nowhere and never else |
| ContextScopes.DetachExactly | api/src/context.rs:368-412 | any token at all, made up or copied, is accepted exactly when this thread was handed it and its scope is this thread's innermost |
| ContextScopes.AttachExactly | api/src/context.rs:306-363 | an attach is refused exactly when the record has 64 scopes open; otherwise it hands out a token that no thread was ever handed before and records the context |
| ContextScopes.OnlyOwnStack | api/src/context.rs:306-412 | a call changes a thread's entries exactly when that thread made it and it succeeded |
| ContextScopes.RunsTrack | api/src/context.rs:69-90 | with fewer than 2^64 - 1 attaches generations rise and the stack is told by the record |
| ContextScopes.RunsApart | api/src/context.rs:67-80 | with fewer than 2^64 - 1 threads no two stacks share a thread token |
| ProviderSlot.ReferencesConserved | abi/src/lib.rs:553-566 | in every reachable state a provider's count is what its callers own, the slot, the running calls and the backed handles hold |
| ProviderSlot.NeverCalledDead | api/src/logs_global.rs:98-116 | no retain, use or free ever reaches a provider at zero |
| ProviderSlot.DeadStaysDead | abi/src/lib.rs:553-566 | a provider at zero is never revived |
| ProviderSlot.StepConserves | api/src/global.rs:71-156 | every step of every thread keeps the count, trace slot included |
| ProviderSlot.StepLocked | api/src/global.rs:59-94 | every step keeps the lock's exclusion, and what was seen under the read lock stays in the slot |
| ProviderSlot.RetainingConserves | api/src/trace.rs:801-828 | retaining under the read lock raises the count of a provider that is alive |
| ProviderSlot.HandlesConserve | api/src/trace.rs:844-861 | making a backed handle moves the caller's reference, destroying it frees that one |
| ProviderSlot.RefusedLeavesNoTrace | api/src/logs_global.rs:51-68 | a call refused for its vtable can be struck from any run, anywhere, without changing where the run ends: owner, counts and slot included |
| ProviderIds.EmptyIsZero | api/src/metrics_global.rs:26-30 | an empty slot is exactly registration id zero |
| ProviderIds.BearsWhileUntouched | api/src/metrics_global.rs:58-75 | the slot bears a token exactly while the installation that returned it stands, and then holds its provider |
| ProviderIds.UnregisterOwnOnly | api/src/logs_global.rs:159-189 | unregistering by any token - returned, taken and not yet written, or never issued - empties the slot exactly when an installation returned it and still stands, and otherwise changes nothing |
| ProviderIds.WrittenByInstall | api/src/logs_global.rs:69-82 | an id has been in the slot exactly when some installation wrote it |
| ProviderIds.IdsFollowTakes | api/src/logs_global.rs:37-82 | of two installations the one with the smaller id is the one whose thread took its id first; every installation has such a take |
| ProviderIds.RiseAcrossRest | api/src/logs_global.rs:69-82 | an installation after a moment at which no taken id is unwritten has a larger id than every one before it |
| ProviderIds.RiseWhenAlone | api/src/logs_global.rs:69-82 | a registration that takes its id while no other thread holds one unwritten is followed by larger ids only |
| ProviderIds.IdsNeedNotRise | api/src/logs_global.rs:69-82 | without such a moment they need not rise: a run in which id 2 is followed by id 1 |
| ProviderSlot.GlobalProvider.Install | api/src/logs_global.rs:51-87 | a refused vtable changes nothing; an accepted one takes the slot under the id returned and frees the previous provider, and the call is exactly the machine's steps taken by one thread without interruption |
| ProviderSlot.GlobalProvider.NextRegistrationId | api/src/logs_global.rs:37-44 | the loop ends with the next non-zero id |
| ProviderSlot.GlobalProvider.UnregisterToken | api/src/metrics_global.rs:165-194 | zero is refused, a stale token changes nothing, the slot's own empties it; the machine's steps, uninterrupted |
| ProviderSlot.GlobalProvider.RetainGlobal | api/src/global.rs:71-94 | tells an empty slot from a failed retain, and counts a successful one |
| ProviderSlot.GlobalProvider.Resolve | api/src/trace.rs:801-828 | an empty slot calls nothing, a failed retain only that, otherwise the provider in the slot is retained, used and freed, in this order; every count is left as it was; the machine's steps, uninterrupted |
| ProviderSlot.GlobalProvider.GetTracer | api/src/trace.rs:786-828 | a tracer that does nothing exactly for an empty slot; otherwise one made by the provider in the slot, or none when retaining or making it failed |
| ProviderCalls.ResolvesInOrder | api/src/trace.rs:801-828 | in every run, each successful retain of a thread is followed by one use and one free of the same provider, nothing is used in any other way, and a thread at rest owes nothing |
| ProviderCalls.EverySightRetains | api/src/global.rs:71-94 | in every run, each look at an occupied slot asks the provider seen for a reference, and nothing else does |
| ProviderCalls.RetainsTheSlot | api/src/global.rs:71-94 | the provider asked for a reference is the one in the slot at that moment, alive |
| ProviderCalls.NeverStuck | api/src/global.rs:59-94 | no deadlock: unless all threads are at rest, one of the others can take a step |
| ProviderSlot.AloneInstalls | api/src/global.rs:112-156 | the steps of an uninterrupted registration make the new slot and free the previous provider once, for all three signals |
| ObservableCallback.DestroyedAtMostOnce | api/src/metrics.rs:1001-1012 | the destroy function runs at most once, and not at all if there is none |
| ObservableCallback.NeverDuringCallback | api/src/metrics.rs:1015-1037 | never while a callback that acquired the data is running, nor any callback after it |
| ObservableCallback.DestroyedExactlyOnce | api/src/metrics.rs:1460-1470 | in a run whose creation succeeded the destroy function, if given, has run exactly when the handle is destroyed and every callback has let go, and then once |
| ObservableCallback.NotBeforeLetGo | api/src/metrics.rs:1015-1037 | not before the owner took the data and the last holder let go |
| ObservableCallback.NoAcquireAfterTake | api/src/metrics.rs:1015-1037 | after the release step took the data no acquire succeeds |
| ObservableCallback.FailureNeverDestroys | api/src/metrics.rs:1436-1438 | in a run whose first creation turn failed it never runs, whatever follows, even with a callback in flight |
| ObservableCallback.DestroyedLast | api/src/metrics.rs:1001-1037 | in the log of every run the destroy function is the last call, with every callback finished |
| ObservableCallback.EveryAdmissionCalls | api/src/metrics.rs:1015-1146 | in every run, the callbacks begun and finished are those of the collections that saw the flag set under the lock |
| ObservableCallback.GivesUpWhenDisabled | api/src/metrics.rs:1015-1027 | a collection gives up exactly when it finds the flag clear |
| ObservableCallback.NeverStuck | api/src/metrics.rs:1015-1037 | no deadlock: unless all threads are outside, one of the others or the owner can go on |
| ObservableCallback.CallbackState.Create | api/src/metrics.rs:1416-1450 | a failed creation gives the data back undestroyed, a successful one leaves it enabled |
| ObservableCallback.StepInv | api/src/metrics.rs:1132-1178 | every step of every thread keeps count, mutex, data and destroy function in agreement |
| ObservableCallback.UserData.Drop | api/src/metrics.rs:1001-1012 | the last reference takes the destroy function and runs it |
| ObservableCallback.CallbackState.AcquireUserData | api/src/metrics.rs:1015-1027 | a counted reference while enabled, none otherwise |
| ObservableCallback.CallbackState.Trampoline | api/src/metrics.rs:1132-1146 | uninterrupted, a collection calls the callback once if enabled, and leaves the data as it was; the machine's steps |
| ObservableCallback.CallbackState.DisableAndRelease | api/src/metrics.rs:1029-1037 | uninterrupted, the machine's steps: the data is destroyed once |
| ObservableCallback.CallbackState.DisableAndRelinquish | api/src/metrics.rs:1039-1054 | uninterrupted, the machine's steps: the data is let go and not destroyed |
| ExporterShutdown.ShutdownAlone | sdk/src/custom_log_exporter.rs:212-264 | when the shutdown callback starts no export or flush callback is running; none starts before it ends, or ever after; it is not started again |
| ExporterShutdown.NothingAfterDown | sdk/src/custom_log_exporter.rs:212-264 | once the flag is set no continuation starts or ends an export or flush callback, whether or not there is a shutdown callback |
| ExporterShutdown.DestroyLast | sdk/src/custom_log_exporter.rs:271-280 | the destroy callback starts when nothing is running and is the last there is |
| ExporterShutdown.ClosingOnce | sdk/src/custom_metric_exporter.rs:186-218 | neither callback is started twice; once the exporter is dropped, each that was given has run exactly once |
| ExporterShutdown.EveryDueCalls | sdk/src/custom_log_exporter.rs:212-260 | in every run, each thread starts and ends one callback for each export, flush or shutdown that found the flag clear and had something to call, and no other |
| ExporterShutdown.ReadersShare | sdk/src/custom_trace_exporter.rs:148-190 | an export or flush waits only while a shutdown holds the lock |
| ExporterShutdown.NeverStuck | sdk/src/custom_trace_exporter.rs:148-214 | no deadlock: unless all threads are at rest or gone, one of the others can go on |
| ExporterShutdown.GoesInv | sdk/src/custom_trace_exporter.rs:148-214 | every step of an export, flush, shutdown or drop keeps the lock, the flag and the log of callbacks in agreement |
| ExporterShutdown.LogShape | sdk/src/custom_trace_exporter.rs:148-223 | the log of a reachable state is exports and flushes, all ended if more follows, then shutdown, then destroy |
| ExporterShutdown.CustomExporter.Export | sdk/src/custom_log_exporter.rs:212-244 | refused once shut down, otherwise one callback, started and ended, exactly if the batch converts; the machine's steps, uninterrupted |
| ExporterShutdown.CustomExporter.ForceFlush | sdk/src/custom_metric_exporter.rs:170-184 | refused once shut down, otherwise one callback exactly if it was given; the machine's steps, uninterrupted |
| ExporterShutdown.CustomExporter.ShutDown | sdk/src/custom_trace_exporter.rs:191-209 | uninterrupted, the machine's steps: the first call sets the flag and runs the callback, later ones are refused |
| ExporterShutdown.CustomExporter.Release | sdk/src/custom_log_exporter.rs:271-280 | the machine's drop, uninterrupted, its whole final state: shutdown unless it has run, then destroy, and the dropping thread gone for good |

## Left out

- Raw pointers: handle headers, `struct_size` prefixes, NULL views and NULL outputs are not modelled; a pointer into a vector is its index, and a `OtelStringView` is the bytes it names.
- Allocation failure: every `try_reserve` succeeds, and conversions of lengths to 32 bits, which cannot fail below 1024, are not modelled.
- Panics and lock poisoning: callbacks return, and a poisoned lock is an ordinary one.
- Weak memory orderings: steps of the protocols are sequentially consistent, locks are guards on steps.
- Interleaving inside methods: a method body cannot be interleaved, so the theorems about provider slots, observable user data and exporters are about state machines; the classes beside them hold the code, and each of their methods is proved to be the steps of one thread that is not interrupted.
- Library functions: `sort_unstable_by`, `split`, `trim`, `find`, `from_utf8` and its error positions, and `to_digit` are functions here, with the properties the proofs need; Unicode white space is the White_Space set in UTF-8.
- Doubles are their bit patterns, and the presence bits of an exported record are seven booleans.
- The severity enumeration: a record carries its canonical number already.
- Hash maps are lists of entries in an arbitrary order; `LogFlattener.IterationOrderIrrelevant` is what makes the order immaterial.
- The baggage injector's copy into the caller's buffer, which differs from the one of the trace injectors only in a NULL buffer with a capacity.
- The struct-size check of context scopes, and the loss of thread-local storage at thread exit.
- The reference count of the callback state itself: the SDK side is taken to release its callback only when no collection is running it.
- Timeouts and statuses that C callbacks return, and the mapping of those statuses to SDK errors.
- Observer tokens, instrument validation, scope-attribute validation and the forwarding of spans, logs and measurements through the vtables.
- `api/src/diagnostic.rs`, the builders of processors and providers and `sdk/src/handle.rs`: the patterns of reference counts and of moves on success above, with less state.
- The conversions of spans and metrics for custom exporters, OTLP exporters, processors and everything inside the upstream SDK.
- ProviderIds.EmptyIsZero: for runs with fewer than 2^64 - 1 registrations, as are the other statements about registration ids, because the counter wraps.
- ContextScopes.WellBracketed: for fewer than 2^64 - 1 attaches on the thread, as are the other statements about its record, because generations wrap.
