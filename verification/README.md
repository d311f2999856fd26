# A verified model of the VLAN tagger

The VLAN tagger captures Ethernet frames, adds an 802.1Q tag to those whose IPv4
destination lies in a configured range, and sends them on. It is a pipeline of threads
connected by bounded queues. This project models its logic in Dafny and proves what the
design relies on.

Two layers meet in the queue:

- **The code, in place.** `Ring` holds the ring buffer of `queue/queue.c` as a class,
  `Graph` and `Patterns` the graph that `pipeline/pipeline.c` builds, `ConfigParser` the
  loader with its character buffer and rule table, `Tagger`, `Checksum` and `HexDump` the
  frame buffers, `Dispatcher` and `Endpoints` the nodes with counters. Every method is
  proved against a function or relation whose meaning is proved beside it (`RuleTable`,
  `ConfigText`, `ConfigCodes`, `ConfigRoundTrip`, `Decimal`).
- **The threads.** `Monitor` interleaves any number of threads inside one queue, one C
  statement at a time, with the mutex, the condition variable, spurious wakeups and
  failing waits. `PipelineRun` interleaves the nodes of any pipeline over such queues, one
  queue operation, capture or send at a time; `NodeThreads` proves that this loses nothing:
  node threads that interleave statement by statement in several queues at once have the
  same runs. `ThreadTheorems` draws conclusions about the threads themselves, among them that
  they never deadlock. `RunSteps` says what each move does, in the terms of the C code.
  `RunInvariant`, `RunConservation` and `RunTheorems` prove what holds in every reachable state
  of every topology, `PatternRuns` what follows for the two pipelines of
  `pipeline_patterns/patterns.c`, and `LiveRuns` that frames do get through both.

In the run model a frame carries an identity and its route. The code has neither, and no
step depends on them: they only make it possible to say which frame is where.

## What the proofs show about the code

- **A tagged frame is not IPv4 for the IP modifier.** `type_field` is a signed `short`, so
  the comparison with 0x8100 never succeeds: the branch for tagged frames is dead, and a
  tagged frame passes unchanged (`Checksum.TaggedFramesAreSkipped`). The repository's
  README promises the modification without that exception.
- **A rewritten IPv4 header is right exactly when it lies inside the frame.** The routine
  trusts the header length field. If the field points past the frame, it sums bytes that
  older frames left in the buffer: the bytes sent then depend on those frames
  (`Checksum.SentDependsOnFrameAlone`, with the input `Checksum.OverlongHeaderLeaks`), and no
  receiver can accept the header. If the field is below 3, the checksum field is not part of
  the header, which is accepted afterwards only if it was before, and never for a length of
  zero (`Checksum.SentHeaderIsAccepted`, `Checksum.EmptyHeaderNeverVerifies`).
- **Frames of 1514 bytes and more are tagged and then never sent.** The tag makes them 1518
  bytes long, which the sender skips (`PatternRuns.FullFramesAreTooLong`, with an input in
  `PatternRuns.OneByteTooMany`).
- **A comment is harmless exactly up to 99 characters.** Comment lines of n characters never
  change what is loaded if and only if n is at most 99 (`ConfigRoundTrip.CommentsAreHarmless`).
  Of a longer one the first 99 characters are dropped and the rest is loaded as if it stood at
  the start of a line (`ConfigRoundTrip.CommentHeadIsDropped`), so a rule there takes effect
  (`ConfigRoundTrip.LongCommentLeaks`).
- **A deeply indented last line makes the line editor leave its buffer.** It looks at 37
  characters without minding the end of the string. That stays inside the 100-character
  buffer exactly for a comment, a start at place 63 or before, or a stop character behind the
  start (`ConfigText.EditorIsSafe`); every line with its newline is safe, an unfinished one
  without trailing text exactly up to 63 indentation characters
  (`ConfigRoundTrip.UnfinishedLineIsSafe`,
  `ConfigRoundTrip.DeepIndentLeavesTheBuffer`). The loader is modelled for files that keep
  it inside.
- **A content of 37 characters is not trimmed.** What follows it then decides the error code,
  and the final newline decides whether it is a rule at all
  (`ConfigRoundTrip.TrailingTextIsIrrelevant`, `ConfigRoundTrip.FinalNewline`, with the input
  `ConfigRoundTrip.OneCharacterTooMany`). Which rules load does not depend on the layout even
  then (`ConfigRoundTrip.LayoutLoadsTheSameRules`).
- **Tag 0 is valid in a rule file but never tags**: the lookup uses 0 for "no rule"
  (`RuleTable.TaggedWhenCovered`, with an input in `Tagger.TagZeroNeverTags`).
- **The patterns ignore the results of the connect calls**: they report success even when the
  dispatcher could not be created or a queue could not be allocated. A result of 0 means the
  full topology exactly when the dispatcher is created and the first five queue allocations of
  the VLAN tagger, or the first eight of the logging pipeline, succeed
  (`Patterns.VlanTaggerPattern`, `Patterns.DetailedLoggingPattern`).
- **A node added twice gets two threads on one queue**: a valid graph has a well-formed shape
  exactly when no node with an input is registered twice (`Patterns.ShapeIsWellFormed`, with
  such a graph in `Patterns.AddedTwice`).

## Model

| member | source | states |
|---|---|---|
| Ring.TestsAreExact | queue/queue.c:48-63 | Although no count is kept, the empty test holds exactly at length 0 and the full test exactly at length 1000 |
| Ring.OccupiedSlots | queue/queue.c:48-63 | `sizes` is nonzero exactly on the cyclic interval of slots that holds the contents |
| Ring.ContentsAreUnique | queue/queue.c:48-63 | A ring stands for one sequence of frames only |
| Ring.FrontIsOldest | queue/queue.c:168-169 | The front slot holds the oldest frame |
| Ring.BackIsNewest | queue/queue.c:192-200 | The slot before `rear`, across the wrap, holds the newest frame |
| Ring.CopyInKeeps | queue/queue.c:91 | Between the copy and the size write of a push the ring still holds what it held |
| Ring.PushCompletes | queue/queue.c:92-93 | The size write and the advance append the frame, wherever `rear` is |
| Ring.RemoveCompletes | queue/queue.c:118-119 | Clearing the front size and advancing removes the oldest frame |
| Ring.RingQueue.constructor | queue/queue.c:40-43 | A new queue is empty |
| Ring.RingQueue.Push | queue/queue.c:66-100 | In place, `push` appends a frame of 1 to 1522 bytes while fewer than 1000 are queued, and otherwise changes nothing and answers 0, or -1 above 1522 bytes; accepted = removed ++ contents |
| Ring.RingQueue.Take | queue/queue.c:141-148 | The part of `pop` after the wait returns the oldest frame with its exact size and keeps accepted = removed ++ contents |
| Ring.RingQueue.Pop | queue/queue.c:125-149 | With Q(k) the contents after everything that other threads did before the k-th wakeup: `pop` fails if and only if Q(k) is empty for every k, and otherwise returns the oldest frame of Q(k) for the least k with frames and leaves the rest of Q(k), however many wakeups find nothing |
| Ring.RingQueue.RemoveFront | queue/queue.c:103-122 | Removes the oldest frame, or does nothing on an empty queue |
| Ring.RingQueue.Front | queue/queue.c:153-174 | Reads the oldest frame without changing the queue, or reports that it is empty |
| Ring.RingQueue.Back | queue/queue.c:177-205 | Reads the newest frame without changing the queue, or reports that it is empty |
| Ring.FifoLaws | queue/queue.c:66-205 | In the bounded FIFO contents change only by an accepted frame at the end or a removed one at the front; the limits are 1 to 1522 bytes and 1000 frames; `pop` and `front` read the oldest frame and `back` the newest |
| Ring.DisturbIsAnOperation | queue/queue.c:66-122 | What another thread does to the queue during a wait is an operation of the bounded FIFO, the only one with that outcome |
| Monitor.InvKept | queue/queue.c:66-149 | Every statement of every thread keeps mutual exclusion, the ring between statements, the trace discipline and the wakeup bound |
| Monitor.AcceptedIsRemovedThenContents | queue/queue.c:66-149 | In every legal trace the accepted frames are the removed ones followed by the contents, never more than 1000 |
| Monitor.Linearizable | queue/queue.c:66-205 | For any number of threads and any interleaving, each operation takes effect once, under the mutex, between call and return; the effects form a run of the bounded FIFO; a free mutex means that the ring holds exactly what that run leaves |
| Monitor.ReturnsWhatItTook | queue/queue.c:141-148 | What an operation returns is the result its effect had: `pop` returns no phantom frame |
| Monitor.NoLostWakeup | queue/queue.c:91-97 | While a consumer sleeps and the mutex is free, queued frames are at most the woken consumers that have not tested again, so a sleeper beside a nonempty queue is never alone |
| Monitor.MutualExclusion | queue/queue.c:82-97 | Two threads are never both between lock and unlock |
| Monitor.OwnerNeverStuck | queue/queue.c:82-148 | The thread that holds the mutex always has a next statement, with every copy inside its slot |
| Monitor.MovesSeenFromOutside | queue/queue.c:66-205 | A statement changes the phase of its own thread only, and the contents only when its operation takes effect, by one step of the bounded FIFO |
| RuleTable.ValidateRules | config_parser/config_parser.c:113-157 | Returns 0 exactly when all ranges are ordered, pairwise disjoint and the tags within 0..4095, and otherwise the code of the first failing check |
| RuleTable.VerdictMeans | config_parser/config_parser.c:113-157 | The code is -11 if a range is reversed, else -12 if an address lies in two rules, else -13 if a tag is outside 0..4095, else 0 |
| RuleTable.GetTag | nodes/src/tagger_node.c:56-64 | The scan returns the tag of the first covering rule, or 0 |
| RuleTable.LookupIsTheCover | nodes/src/tagger_node.c:56-64 | Among disjoint rules the covering rule is unique and its tag is the answer |
| RuleTable.LookupOutside | nodes/src/tagger_node.c:63 | An uncovered address gets 0 |
| RuleTable.LookupIsOrderFree | nodes/src/tagger_node.c:56-64 | Any permutation of validated rules gives every address the same tag |
| RuleTable.ValidityIsOrderFree | config_parser/config_parser.c:127-144 | Validity does not depend on the order of the rules |
| RuleTable.WidthsMeasureCoverage | config_parser/config_parser.c:127-144 | The widths of disjoint ordered ranges add up to the number of addresses covered, hence to 2^32 at most |
| RuleTable.TaggedWhenCovered | nodes/src/tagger_node.c:172-180 | An address gets a nonzero tag exactly when a rule with a nonzero tag covers it, and tags fit 12 bits |
| Tagger.StripRestores | nodes/src/tagger_node.c:105-126 | Stripping the tag gives back the frame and the VLAN id; priority and drop bits are zero, and the tag begins with the bytes 81 00 |
| Tagger.TagBytes | nodes/src/tagger_node.c:110-125 | The tagged frame is the first 12 bytes, 81 00, the id in network byte order, and the rest |
| Tagger.VlanBytes | nodes/src/packet_counter_node.c:32-42 | A frame counts as tagged if and only if it has 16 bytes and 81 00 after the addresses |
| Tagger.TaggedBytes | nodes/src/tagger_node.c:162-183 | For an IPv4 frame whose destination bytes form a nonzero address in rule k with a nonzero tag, the frame that goes on, byte by byte |
| Tagger.NeverTwice | nodes/src/tagger_node.c:78-82 | A tagged frame is never tagged again, whatever the rules |
| Tagger.TaggingIsInjective | nodes/src/tagger_node.c:105-126 | Different frames or ids give different tagged frames |
| Tagger.TaggingIsExact | nodes/src/tagger_node.c:162-183 | An IPv4 frame of 34 bytes or more with a nonzero covered destination is forwarded exactly when the covering rule's tag is nonzero, with that id |
| Tagger.ForwardedExactly | nodes/src/tagger_node.c:162-183 | A frame is forwarded if and only if it has 34 bytes, EtherType 0x0800 and a nonzero destination under a rule with a nonzero tag |
| Tagger.TagZeroNeverTags | nodes/src/tagger_node.c:176-180 | An address under a valid rule with tag 0 is not tagged |
| Tagger.GetIpOffset | nodes/src/tagger_node.c:66-88 | Finds an IPv4 header exactly for EtherType 0x0800 |
| Tagger.GetIp | nodes/src/tagger_node.c:90-103 | The destination in host order, or 0 without an IPv4 header |
| Tagger.EditPacket | nodes/src/tagger_node.c:105-126 | The four copies assemble the tagged image in the output buffer and leave the rest of it alone |
| Tagger.ProcessOne | nodes/src/tagger_node.c:162-183 | One iteration sends exactly what the tagging rule says of the popped frame, whatever older frames left in the two buffers |
| Tagger.Process | nodes/src/tagger_node.c:149-184 | Over any sequence of pops the node sends the tagged images of the taggable frames, in order, with its buffers reused throughout |
| Checksum.FoldValue | nodes/src/ip_modifier_node.c:80-83 | The carry loop computes the representative of the sum modulo 65535 in 1..65535, and 0 for 0 only |
| Checksum.FoldModulus | nodes/src/ip_modifier_node.c:80-83 | Folding keeps the value modulo 65535 and turns nothing nonzero into zero |
| Checksum.FoldAgrees | nodes/src/ip_modifier_node.c:80-83 | Nonzero sums that agree modulo 65535 fold to one word |
| Checksum.SumWords | nodes/src/ip_modifier_node.c:73-78 | The 32-bit accumulation equals the exact sum: it never overflows |
| Checksum.FoldLoop | nodes/src/ip_modifier_node.c:80-83 | Each pass shrinks the sum and the loop ends with the folded value |
| Checksum.ModifyDestinationIp | nodes/src/ip_modifier_node.c:53-89 | In place, the bytes from the header on become the specified rewriting and those before it stay |
| Checksum.ProcessOne | nodes/src/ip_modifier_node.c:139-149 | A frame below 46 bytes is discarded; the frame sent is the popped size of the buffer after the rewriting for an untagged IPv4 frame, and the popped frame otherwise |
| Checksum.SentDependsOnFrameAlone | nodes/src/ip_modifier_node.c:107-149 | The bytes sent for an IPv4 frame depend on that frame alone, whatever older frames left in the buffer, if and only if its header lies inside it |
| Checksum.OverlongHeaderLeaks | nodes/src/ip_modifier_node.c:68-78 | For a 46-byte frame that announces a 60-byte header, two buffers that hold it send different bytes |
| Checksum.SentHeaderIsAccepted | nodes/src/ip_modifier_node.c:65-88 | The header sent lies inside the frame and sums to all ones if and only if it lay inside the popped frame; for a header length below 12, if and only if the popped header already did |
| Checksum.EmptyHeaderNeverVerifies | nodes/src/ip_modifier_node.c:68-88 | A header of length zero never verifies after the rewrite |
| Checksum.TaggedFramesAreSkipped | nodes/src/ip_modifier_node.c:41-61 | The signed comparison with 0x8100 never succeeds: the header offset is always 14 and a tagged frame is never IPv4 |
| Checksum.HeaderLengthInWords | nodes/src/ip_modifier_node.c:68 | A first byte of 16 v + n means a header of 4 n bytes, for every version v and length n |
| Checksum.OnlyTwoFieldsChange | nodes/src/ip_modifier_node.c:65-88 | Only the destination and checksum fields change |
| Checksum.RewriteVerifies | nodes/src/ip_modifier_node.c:65-88 | After the rewrite the one's-complement sum of the header folds to 0xFFFF, as section 3.1 of RFC 791 requires, for every header length of 12 bytes or more |
| Checksum.OrdinaryHeaderVerifies | nodes/src/ip_modifier_node.c:65-88 | For a first byte of 0x45 the ten 16-bit words of the rewritten header, written out from its bytes, add up to a nonzero multiple of 65535 that folds to 0xFFFF, and the last two are the new destination |
| Checksum.ShortHeaderIsLeftAsItWas | nodes/src/ip_modifier_node.c:68-88 | With a shorter header length the rewritten header verifies if and only if the old one did |
| Checksum.LastRewriteWins | nodes/src/ip_modifier_node.c:65-88 | Two successive rewrites equal the last one alone |
| Checksum.RecomputationIsIncremental | nodes/src/ip_modifier_node.c:65-88 | From a checksum of the same routine, full recomputation equals equation 3 of section 3 of RFC 1624 applied to the two destination words |
| ConfigText.ChunksAreLines | config_parser/config_parser.c:177-185 | Reading in chunks is splitting into lines if and only if no line, newline included, exceeds 99 characters |
| ConfigText.EditorIsSafe | config_parser/config_parser.c:77-111 | Trimming stays inside the 100-character buffer if and only if the line is a comment, begins at place 63 or before, or has a stop character behind its start |
| ConfigText.FinishedFileIsSafe | config_parser/config_parser.c:177-209 | A file whose lines have at most 98 characters and all end in a newline never makes the editor leave the buffer |
| ConfigParser.Fgets | config_parser/config_parser.c:179-185 | A read takes at least one character up to a newline or 99, and leaves it NUL-terminated in the zeroed buffer |
| ConfigParser.CharCount | config_parser/config_parser.c:58-75 | Counts the occurrences of a character |
| ConfigParser.FindStart | config_parser/config_parser.c:85-92 | Finds the first character that is no space or tab, or stays at the start of a blank line |
| ConfigParser.CutInPlace | config_parser/config_parser.c:101-108 | The unguarded scan of 37 characters, where it stays inside the buffer, cuts the line at the first stop character by one NUL written in place |
| ConfigParser.LineEditor | config_parser/config_parser.c:77-111 | Where trimming stays inside the buffer, the moved start and the NUL leave the trimmed line, whatever the scan meets past the end of the string |
| ConfigParser.TagRules.ReadRule | config_parser/config_parser.c:206-270 | Fills entry `count` from a trimmed line, or gives the error code of the first thing wrong with it; earlier rules stay |
| ConfigParser.TagRules.ReadRules | config_parser/config_parser.c:177-271 | The reading loop terminates, and the table holds exactly the rules in the text or the first error is returned |
| ConfigParser.TagRules.Load | config_parser/config_parser.c:159-291 | For a file whose lines are trimmed inside the buffer, a nonnegative result is the number of rules, the table then holds the file's rules in order and is valid; each failure has its code, a missing file leaves the table alone and a read error leaves it empty |
| ConfigCodes.LinesWithoutRules | config_parser/config_parser.c:206-222 | A trimmed line is skipped exactly if it is empty or begins with `#` or a newline; any other fails with -5 exactly unless it has one dash or two, and then with -6 exactly when 128 rules are loaded |
| ConfigCodes.OneDash | config_parser/config_parser.c:211-283 | The result of every line with one dash: a rule for one address, or -7, -8 or -9 by the first field that is missing or wrong |
| ConfigCodes.TwoDashes | config_parser/config_parser.c:211-283 | The result of every line with two dashes: a rule for a range, or -7, -8 or -9; empty fields are passed over |
| ConfigCodes.FirstFailureDecides | config_parser/config_parser.c:177-287 | After lines that load, the first line that fails makes the whole file fail with its code, whatever follows |
| ConfigCodes.NumeralsAreTags | config_parser/config_parser.c:32-56 | White space, an optional sign and digits are a tag exactly when the number fits 32 bits |
| ConfigCodes.OnlyNumeralsAreTags | config_parser/config_parser.c:32-56 | Nothing else is a tag |
| ConfigRoundTrip.DottedReadsBack | config_parser/config_parser.c:231-235 | Every address printed as a dotted quad reads back, in at most 15 characters |
| ConfigRoundTrip.BytesOfAddress | config_parser/config_parser.c:17-30 | The text of an address lists its four bytes from the highest to the lowest |
| ConfigRoundTrip.QuadsCanBeRead | config_parser/config_parser.c:24 | What the theorems ask of `inet_aton` can be met |
| ConfigRoundTrip.TagReadsBack | config_parser/config_parser.c:32-56 | Every printed VLAN id reads back |
| ConfigRoundTrip.PrintedShape | config_parser/config_parser.c:13 | A printed rule has 1 to 36 characters, none of which trimming would cut at |
| ConfigRoundTrip.LongestRule | config_parser/config_parser.c:13 | The bound is tight: one printed rule has exactly 36 characters |
| ConfigRoundTrip.PrintedParses | config_parser/config_parser.c:211-264 | A printed rule, in the range or the single-address form, is read as that rule |
| ConfigRoundTrip.TrimIsExact | config_parser/config_parser.c:100-108 | Indentation and trailing text are trimmed away if and only if the content has at most 36 characters |
| ConfigRoundTrip.LayoutLoadsTheSameRules | config_parser/config_parser.c:177-209 | For lines of at most 98 characters with any content, comment lines, blank lines, indentation and trailing text change neither the rules that are loaded nor whether any are |
| ConfigRoundTrip.LayoutDoesNotMatter | config_parser/config_parser.c:177-209 | When every content has at most 36 characters, the layout does not change the error code either |
| ConfigRoundTrip.TrailingTextIsIrrelevant | config_parser/config_parser.c:100-108 | Trailing text never changes what a line means, error code included, if and only if the content has at most 36 characters or more than two dashes |
| ConfigRoundTrip.NewlineNeverLoads | config_parser/config_parser.c:211-268 | A line that keeps its newline when it is trimmed is never a rule |
| ConfigRoundTrip.LayoutIsSafe | config_parser/config_parser.c:177-209 | Reading and trimming any laid-out file of whole lines stays inside the buffer |
| ConfigRoundTrip.FinalNewline | config_parser/config_parser.c:185-191 | Where trimming the last line stays inside the buffer, its missing newline changes nothing for a content of at most 36 characters, and changes the loaded rules exactly when a longer content is a rule by itself |
| ConfigRoundTrip.UnfinishedLineIsSafe | config_parser/config_parser.c:101-108 | Trimming an unfinished line without trailing text stays inside the buffer if and only if it has at most 63 indentation characters |
| ConfigRoundTrip.DeepIndentLeavesTheBuffer | config_parser/config_parser.c:101-108 | A rule behind 64 spaces at the end of the file makes the scan leave the buffer |
| ConfigRoundTrip.OneCharacterTooMany | config_parser/config_parser.c:100-108 | A content of 37 characters loads as a rule without its newline, gives -9 with it, and -5 when a comment with a dash follows |
| ConfigRoundTrip.PrintedRulesLoadBack | config_parser/config_parser.c:159-291 | Every valid set of at most 128 rules, printed in either form per rule and laid out in any way, loads back with its count as result, and the line editor stays inside its buffer |
| ConfigRoundTrip.EveryRuleSetPrints | config_parser/config_parser.c:159-291 | Such a layout exists for every set of rules with valid tags |
| ConfigRoundTrip.CommentsAreHarmless | config_parser/config_parser.c:94-98 | Comment lines of n characters, indented or not, change nothing whatever precedes and follows them, if and only if n is at most 99 |
| ConfigRoundTrip.CommentHeadIsDropped | config_parser/config_parser.c:177-209 | When the first 99 characters of a line begin a comment, the rest is loaded as if it stood at the start of a line |
| ConfigRoundTrip.LongCommentLeaks | config_parser/config_parser.c:94-98 | A comment of 99 characters followed by a rule on the same line loads that rule |
| HexDump.BodyDecodes | nodes/src/logger_node.c:51-117 | The printed body decodes to exactly the bytes of the frame, a partial last row included |
| HexDump.BodyIsInjective | nodes/src/logger_node.c:51-117 | Different frames have different dumps |
| HexDump.RowOffset | nodes/src/logger_node.c:53-54 | Every row begins with its offset as four lower-case hex digits, a colon and a space |
| HexDump.RowLayout | nodes/src/logger_node.c:61-115 | Each of 16 places holds the two lower-case hex digits of its byte and a space, or three spaces past the end; between the bars bytes 32 to 126 stand as characters and others as dots; a newline follows every row but the last |
| HexDump.HeaderExample | nodes/src/logger_node.c:41-43 | The header line of one frame, character by character |
| HexDump.BodyLength | nodes/src/logger_node.c:51-117 | The body has exactly 58 characters for each row, one glyph for each byte, and one newline less |
| HexDump.DumpFits | nodes/src/logger_node.c:35-58 | Header and body take at most 7204 of the 8192 bytes for every frame up to 1522 bytes, node name and 64-bit number |
| HexDump.Snprintf | nodes/src/logger_node.c:41-43 | Writes the text after `offset` if it fits and returns the length it has, leaving what precedes |
| HexDump.Append | nodes/src/logger_node.c:44-48 | A step is truncated exactly when the text does not fit with its NUL; otherwise the text is appended |
| HexDump.AppendRow | nodes/src/logger_node.c:53-116 | The row loop appends offset, hex cells, glyphs and newline as specified |
| HexDump.LogPacketHex | nodes/src/logger_node.c:33-118 | The buffer holds exactly the header and the body, and no truncation branch is ever taken |
| Decimal.ValueOfPrint | nodes/src/logger_node.c:42-43 | Printing a number in decimal and reading it gives the number back |
| Dispatcher.CollectRebuilds | nodes/src/dispatcher_node.c:93-109 | Merging the offered streams cyclically rebuilds the input stream, in order |
| Dispatcher.DealIsFair | nodes/src/dispatcher_node.c:93-97 | All outputs have been offered the same number of frames, plus one for those already served in this round |
| Dispatcher.OffersAreBalanced | nodes/src/dispatcher_node.c:93-97 | At every moment the offer counts differ by one at most |
| Dispatcher.TargetIsModular | nodes/src/dispatcher_node.c:93-97 | The k-th frame goes to output (start + k) mod n |
| Dispatcher.DealtByNumber | nodes/src/dispatcher_node.c:93-97 | Output j is offered, in order, exactly the frames whose number is j modulo n |
| Dispatcher.OffersAddUp | nodes/src/dispatcher_node.c:106-117 | Every popped frame is offered exactly once |
| Dispatcher.DispatcherNode.Process | nodes/src/dispatcher_node.c:58-118 | The loop deals the popped frames in turn whatever the target queues accept: output j takes, in order, exactly the accepted frames whose number is j modulo n; a refused push still advances the index; `packets_sent` grows by the number of accepted pushes modulo 2^64 |
| Endpoints.TallyAgrees | nodes/src/packet_counter_node.c:86-97 | total = vlan + non_vlan = number of frames, bytes = sum of their sizes, vlan = number of frames with 81 00 after the addresses, and non_vlan = 0 if every frame is tagged |
| Endpoints.CounterNode.Count | nodes/src/packet_counter_node.c:86-113 | One frame adds to the wrapping counters what the tally says, and goes on unchanged |
| Endpoints.CounterNode.Process | nodes/src/packet_counter_node.c:66-114 | After any sequence of pops the four counters hold, modulo 2^64, the number of frames, of bytes, and of frames with and without the bytes 81 00 after the addresses |
| Endpoints.FourInARow | nodes/src/sender_node.c:92-104 | A run of more than three failures means four failed sends in a row |
| Endpoints.AttemptsAndSuccesses | nodes/src/sender_node.c:78-106 | Attempted are exactly the frames below 1518 bytes and sent those attempts that succeed, in order |
| Endpoints.Send | nodes/src/sender_node.c:69-106 | Frames below 1518 bytes are attempted in order, and the exit flag is set exactly when four sends in a row have failed |
| Graph.Node.AddOutput | pipeline/node.c:36-45 | Appends the queue, or refuses null and a list of 16 outputs |
| Graph.Node.SetInput | pipeline/node.c:47-56 | Sets the input queue, or refuses null |
| Graph.SendToOutputs | pipeline/node.c:106-123 | Every output queue takes or drops the frame on its own; a queue listed several times is offered it as many times |
| Graph.OfferedCopies | pipeline/node.c:106-123 | A queue listed n times ends with n copies more, or with 1000 frames; a frame of 0 or more than 1522 bytes leaves it as it was |
| Graph.Pipeline.QueuesFewerThanNodes | pipeline/pipeline.c:55-76 | In every valid graph there are at most as many queues as nodes, at most 32, so the limit of 64 queues is not reached |
| Graph.Pipeline.OneReaderEach | pipeline/pipeline.c:87-108 | Each queue is the input of exactly one registered node |
| Graph.Pipeline.AddNode | pipeline/pipeline.c:41-53 | Appends the node, or refuses null and a full table; the graph stays valid if the node was unconnected or already part of it |
| Graph.Pipeline.CreateQueue | pipeline/pipeline.c:55-76 | Appends a new queue exactly when the table has room and the allocation succeeds |
| Graph.Pipeline.Connect | pipeline/pipeline.c:78-118 | For any two nodes: reuses the target's input queue or creates one, and appends it to the source's outputs; it fails exactly on a null node, a full output list or a queue that cannot be created; between registered nodes the graph stays valid even then |
| Graph.Pipeline.ConnectShared | pipeline/pipeline.c:120-173 | Adds one dispatcher whose outputs are, in order, the queues that the non-null targets read; on unconnected targets it succeeds exactly when the dispatcher can be created, every table has room and each queue can be allocated; between registered nodes the graph stays valid even when it fails halfway |
| Graph.Pipeline.ConnectTargets | pipeline/pipeline.c:155-170 | The connect loop serves the targets in order and, if none was connected, creates exactly their queues, one allocation for each |
| Patterns.VlanTaggerPattern | pipeline_patterns/patterns.c:16-64 | Returns 1 only with nothing added; with result 0 the graph is exactly the topology of the VLAN tagger if and only if the dispatcher can be created and the first five queues can be allocated |
| Patterns.DetailedLoggingPattern | pipeline_patterns/patterns.c:66-129 | The same for the detailed logging pipeline, its dispatcher and its eight queues |
| Patterns.EveryGraphHasAShape | pipeline/pipeline.c:41-173 | Every valid graph has a shape that the run model can take |
| Patterns.ShapeIsWellFormed | pipeline/pipeline.c:41-53 | That shape is well formed, so that the run theorems apply, if and only if no node with an input was added twice |
| PipelineRun.MovesAreQueueOperations | queue/queue.c:66-149 | Every move of every node acts on every queue as one push or pop of the bounded FIFO, or not at all |
| RunSteps.CaptureDoes | nodes/src/sniffer_node.c:89-92 | An idle sniffer can capture any frame up to 1518 bytes; it then holds it for all its outputs and its error count is 0 |
| RunSteps.TakeDoes | nodes/src/collector_node.c:43-56 | A collector, logger or counter that takes a frame holds it unchanged for all its outputs; a tagger holds the tagged image or drops a frame without one, a dispatcher holds the frame for its next output alone, and a sender holds it for sending if it is shorter than 1518 bytes |
| RunSteps.CounterCounts | nodes/src/packet_counter_node.c:86-97 | A counter adds one packet and the size, as tagged exactly if the bytes 81 00 follow the addresses |
| RunSteps.PushDoes | pipeline/node.c:113-122 | One push appends to the output's queue if the frame has 1 to 1522 bytes and fewer than 1000 are queued, and drops it otherwise; the node goes on to its next output either way |
| RunSteps.FinishDoes | pipeline/node.c:106-123 | After its last output a node can go on, and is idle again |
| RunSteps.SendDoes | nodes/src/sender_node.c:90-106 | A success resets the error count; a failure after three others in a row sets the exit flag and stops the sender, any other only counts |
| RunSteps.CaptureFailsDoes | nodes/src/sniffer_node.c:74-88 | The fourth capture error in a row sets the exit flag and stops the sniffer |
| RunSteps.StopDoes | nodes/src/sender_node.c:82-88 | A failed wait stops every consumer but a sender, and the exit flag lets an idle node stop |
| Patterns.AddedTwice | pipeline/pipeline.c:41-53 | A valid graph in which a node with an input is registered twice, and whose shape is not well formed |
| NodeThreads.ThreadsRefineTheRun | queue/queue.c:66-149 | For every interleaving of node threads, statement by statement over all queues at once, there is a run of atomic queue operations with the same captures, the same frames sent in the same order, the same errors, exit flag and queue contents, and the same counters of every node outside a call |
| NodeThreads.Simulates | queue/queue.c:66-149 | A call happens in the run at the statement where it takes effect; every other statement is no move of the run |
| NodeThreads.PushCanBeCalled | pipeline/node.c:106-123 | A thread with outputs left can always make its next `push`: the model refuses no call that the code makes |
| NodeThreads.PopCanBeCalled | queue/queue.c:125-132 | An idle consumer can always call `pop` |
| ThreadTheorems.NoDeadlock | queue/queue.c:66-149 | While a queue whose reader has not stopped holds a frame, some thread can execute a statement, call, return, finish or send, whatever all threads on all queues are doing |
| ThreadTheorems.NothingMultiplies | pipeline/node.c:106-123 | Without fan-out, the frames waiting in all queues and the frames sent are together never more than those captured |
| ThreadTheorems.ThreadsMultiplyNothing | queue/queue.c:66-149 | The same for the threads, statement by statement |
| RunInvariant.InvKept | pipeline/node.c:106-123 | Every move of every node in any well-formed topology keeps the invariant: queued and held frames are images of frames taken in earlier, each hop delivers in order, and counters and indices agree with the frames taken in |
| RunInvariant.InvReached | pipeline/pipeline.c:175-195 | The invariant holds in every state reachable from the start of the threads |
| RunConservation.Conservation | pipeline/node.c:106-123 | In every reachable state of every topology, a captured frame and the extra copies that fan-outs made of it are exactly those queued, held, dropped, filtered, skipped, failed, sent and consumed; nothing else is anywhere |
| RunConservation.EachFrameInOnePlace | nodes/src/sender_node.c:76-106 | Without fan-out each captured frame is in exactly one of these places |
| RunTheorems.Provenance | pipeline/node.c:106-123 | Every queued frame is the image, along a route of the graph that starts at its sniffer, of the frame captured under its identity |
| RunTheorems.SameRouteInOrder | pipeline/node.c:106-123 | Frames that took one route into a queue are there in the order of capture, under any schedule and any drops |
| RunTheorems.DealtInTurn | nodes/src/dispatcher_node.c:93-109 | In every reachable state a frame behind output j of n is, unchanged, the k-th one the dispatcher took in with k mod n = j |
| RunTheorems.TurnAgrees | nodes/src/dispatcher_node.c:96-97 | In every reachable state a dispatcher's index equals the number of frames it has taken in modulo the number of its outputs |
| RunTheorems.OncePerDepth | nodes/src/dispatcher_node.c:93-109 | In a set of queues without fan-out no frame is twice at the same depth of the pipeline |
| RunTheorems.NoFrameIsSentTwice | nodes/src/sender_node.c:76-106 | No frame is sent twice by senders whose frames come along queues without fan-out, whatever else in the pipeline fans out |
| RunTheorems.SentIsImage | nodes/src/sender_node.c:76-90 | Whatever is sent is the image of a captured frame and shorter than 1518 bytes |
| RunTheorems.SentInOrder | nodes/src/sender_node.c:69-106 | Frames that reach a sender by one route are sent in the order of capture |
| RunTheorems.BehindIsTagged | nodes/src/tagger_node.c:162-183 | Every frame in a queue that only taggers feed, directly or through other nodes, carries a tag |
| RunTheorems.TaggedFrameFits | nodes/src/tagger_node.c:141-142 | In every reachable state of every pipeline the tagged image of a queued frame fits the 1522-byte output buffer, because what gets a tag was captured with 1518 bytes at most |
| RunTheorems.CountersAgree | nodes/src/packet_counter_node.c:86-97 | In every reachable state a counter behind the taggers has total = vlan + non_vlan = frames taken, total_bytes = their sizes, non_vlan = 0 |
| PatternRuns.WorkerOrder | pipeline_patterns/patterns.c:43-52 | In every reachable state of the VLAN tagger every sent frame went through one of the two workers, and those sent through a worker are, in order, a subsequence of the tagged images of the captured frames |
| PatternRuns.VlanSendsOnce | pipeline_patterns/patterns.c:43-52 | The VLAN tagger sends no frame twice |
| PatternRuns.LoggingSendsOnce | pipeline_patterns/patterns.c:102-114 | The detailed logging pipeline sends no frame twice, although its sniffer and collector fan out |
| PatternRuns.ThreadsSendImages | pipeline_patterns/patterns.c:43-52 | Whatever the threads of the VLAN tagger send, statement by statement, is the tagged image of a captured frame |
| PatternRuns.ThreadsKeepOrder | pipeline_patterns/patterns.c:43-52 | What the threads of the VLAN tagger send, statement by statement, splits into two sequences, one for each worker, each in order a subsequence of the tagged images of the captured frames |
| PatternRuns.VlanConservation | pipeline_patterns/patterns.c:43-52 | In every reachable state of the VLAN tagger each captured frame is in exactly one place |
| PatternRuns.FullFramesAreTooLong | nodes/src/sender_node.c:78-80 | A tagged image is short enough for the sender if and only if the frame has fewer than 1514 bytes |
| PatternRuns.OneByteTooMany | nodes/src/sender_node.c:78-80 | For one rule and destination, a frame of 1513 bytes can be sent and one of 1514 cannot |
| PatternRuns.SentFramesRestore | nodes/src/tagger_node.c:162-183 | Stripping the tag of a sent frame gives back the captured frame, and its VLAN id is the nonzero tag that the rules give its destination |
| PatternRuns.PatternCountersAgree | pipeline_patterns/patterns.c:102-114 | In every reachable state of both patterns the counter shows exactly the number and bytes of the frames it took, all of them tagged |
| PatternRuns.PlacesOf | pipeline_patterns/patterns.c:43-52 | The subsequences of the order theorems name strictly increasing places in the captured images |
| PatternRuns.PickedIsWithin | pipeline_patterns/patterns.c:43-52 | Any strictly increasing places make such a subsequence |
| LiveRuns.Relay | pipeline/node.c:106-123 | In any pipeline, an idle node with a frame to read and room behind its outputs can take it and hand it on to all of them |
| LiveRuns.VlanDelivers | pipeline_patterns/patterns.c:43-52 | In the VLAN tagger, for every valid rule set and every IPv4 frame of 34 to 1513 bytes with a nonzero destination under a nonzero tag, a run from the start exists in which the captured frame is counted and sent with its tag, byte by byte |
| LiveRuns.LoggingDelivers | pipeline_patterns/patterns.c:102-114 | In the detailed logging pipeline the same, and the tagged frame is also taken by the counter and by logger 2 |
| LiveRuns.SampleIsDeliverable | pipeline_patterns/patterns.c:43-52 | There are such frames of every length from 34 to 1513 bytes |

## Left out

- Sockets, `recvfrom` and `sendto`: a capture is an arbitrary frame, a send succeeds or fails; no ioctl, bind, daemonising or rlimits.
- Frames above 1518 bytes at capture: the sniffer's buffer admits 1522, and tagging such a frame would write past the output buffer; the run model assumes 1518 at most.
- Logging, timestamps, statistics output and the `printL` text; the hex dump is modelled up to the final print.
- Memory allocation beyond the outcomes of node creation and queue allocations, `pthread_create` and `pthread_join`, destroy paths, and `should_exit` pointers.
- Shutdown: `pop` waits again while the queue is empty and does not look at the exit flag, so nothing is claimed about `pipeline_stop` ending a waiting thread. In the run model a node may go on or stop once the flag is set.
- Progress beyond the absence of deadlock and the runs of `LiveRuns`: the theorems say what holds in every reachable state and that delivering runs exist, not that every fair run delivers.
- Random dispatch: only the round-robin strategy is modelled.
- Order across the two workers: the code does not keep it.
- The IP modifier is not part of the run model; neither pattern uses it.
- TCP and UDP checksums and IPv6: the code does not touch them.
- ConfigParser.LineEditor: lines whose trimming leaves the buffer, which is undefined in C, are excluded by its precondition, as they are for ConfigParser.TagRules.Load; the theorems above say which lines these are.
- ConfigParser.TagRules.Load: a null table and the unreachable -4 are not modelled.
- ConfigParser.TagRules.ReadRule: `strtok_r` and `strtol` are functions on the rest of the line, not updates of the buffer.
- ConfigRoundTrip.PrintedRulesLoadBack: `inet_aton` is any function that reads plain decimal dotted quads; its octal, hexadecimal and short forms may mean anything.
- Dispatcher.DispatcherNode.Process, Endpoints.CounterNode.Process, Endpoints.Send and Tagger.Process: the popped frames and the answers of pushes and sends are given as sequences, since other threads run meanwhile; `PipelineRun` and `NodeThreads` have them interleaved.
- Ring.RingQueue.Pop: what other threads do during each wait is given as a list of operations; `Monitor` has their statements interleaved.
- PipelineRun: `stats` counts without wrap-around; `Endpoints.CounterNode` shows that the C counters are these numbers modulo 2^64.
- A queue listed twice among the outputs of one node in the run model is two hops; `Graph.SendToOutputs` covers the aliasing.
- Node constructors, contexts and names beyond the 63-character bound, and null-argument checks of the node functions.
