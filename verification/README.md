# Carrier firmware decoders and index: a verified model

The repository decodes carrier firmware and keeps a derived index in step with it. This project models the parts whose
correctness is not visible from any one function: the LZFSE entropy decoder of `tools/ftab`, the queue protocol that
keeps the index derived, the merging of per-device build records, the byte-format readers, and the writing of a table
scope. Each is stated in Dafny's terms with the branches, limits and errors of the code, and proved against an
independent description: an encoder, a reference meaning, a plain recursion, a state machine, or a statement of the
output that names no step of the code.

| files | what they model |
|---|---|
| `FseTables`, `BackBits`, `LmdValues`, `FseCoding`, `LzCopy`, `LzParse`, `LzfseBlock`, `LzfseEncoding`, `FreqCode`, `LzfseHeader`, `LzfseStream` | LZFSE: tables, backward bit reader, tANS decoding and its encoder, matches, blocks, the frequency code, headers, streams of blocks |
| `IndexProtocol`, `DeriveChain`, `IndexWork`, `IndexConsumer` | the index queue: the state machine and its runs, the chain of derive messages, the handlers in place and why the queue drains |
| `HeldRecords`, `ReindexChain`, `ReindexRedelivery`, `ReindexDebounce` | the resumable listing a reindex walks, its chain of messages from the first record to the rederive, the same with messages delivered more than once, and settles meanwhile |
| `BuildRecords` | device records of one build joining its rows |
| `Lz4`, `Der`, `Varint`, `Protobuf`, `CarrierSettings`, `CarrierConfigs`, `CarrierFiles`, `XmlTokens`, `XmlPlist`, `BinaryObjects`, `BinaryPlist`, `BinaryTrees`, `Png`, `BundleReader` | readers and what their inputs write |
| `Batches`, `SyncScope` | runs of limited size, and a table scope made as wanted |
| `Arithmetic`, `Bits`, `Options`, `Sequences`, `Text` | shared vocabulary |

Conventions. An exception is `None`, whatever its message. Bytes are integers below 256, buffers sequences, and a buffer
that the code fills in place an `array`. Loops of the code are methods with invariants, tied by `ensures` to functions
that the lemmas are about; objects whose fields the code updates (`_BackBits`, `Reader`, the plist cursor and cache, the
index, a table) are classes. Numbers are unbounded; where the code drops or bounds bits (varints past 64 bits, lengths
past 2^53 - 1, sums modulo 256) the model does too. A `hide` statement only keeps definitions a proof does not need from
the solver.

Places where the code does what its comments say only under a condition; the model follows the code.

- `packages/decode-ios/src/plist.ts:220-221` says a malformed tag can never make a parent swallow its sibling's
  terminator. With anything behind it, a close tag ends an open array or dict if and only if it is the container's own
  (`XmlPlist.ArrayEndsAtOwn`, `XmlPlist.DictEndsAtOwn`, from the branches that test the name); other elements take no
  tag but their own (`XmlPlist.LeafEndsAtOwn`). So an array left open in a dict takes the dict's end for a stray tag and
  what is behind the dict for its own items (`XmlPlist.OpenArraySwallows`, for all entries and items;
  `XmlPlist.OpenArrayTakesNext`, in XML text).
- `apps/extractor/src/indexing.ts:535-538` says no settle derives the platform before the last reindex step. While a
  reindex message waits that still finds a record, a settle derives its platform if and only if nothing of it was counted
  since the settle was numbered (`ReindexDebounce.SettleDuringReindex`); `ReindexDebounce.SettleBeforeLast` is a run in
  which it does.
- `packages/db/src/sync.ts:131` says the scope becomes exactly the wanted rows. It does if and only if they are of the
  scope and no two of them differ under one key; otherwise the first row put of a key
  wins (`SyncScope.Table.Sync`; `SyncScope.TwoOfOneKey` has two rows of one key).
- `apps/extractor/src/records.ts:187-190`: a record's rows join a build's if and only if the record names no firmware
  twice (`BuildRecords.WithPart`; `BuildRecords.NamedTwice` is such a record).

## Model

| member | source | states |
|---|---|---|
| FseTables.SlotsTile | tools/ftab/lzfse.py:91-125 | for a symbol of frequency f, 0 < f <= nstates, the ranges its slots lead to tile the states: each state is led to by exactly one of its f slots |
| FseTables.SlotIsShift | tools/ftab/lzfse.py:91-125 | a slot pulls so many bits as shift its symbol's number plus its place into the upper half of twice the table, and its delta is what remains of that |
| FseTables.SlotInRange | tools/ftab/lzfse.py:91-125 | every slot's whole range of next states lies within the table |
| FseTables.NextStateInRange | tools/ftab/lzfse.py:91-125 | whatever bits are pulled, the next state indexes the table |
| FseTables.SlotOwner | tools/ftab/lzfse.py:109-125 | every slot of a table but the padding belongs to a symbol that occurs |
| FseTables.LitTable | tools/ftab/lzfse.py:91-106 | the loop builds the specified literal table; it fails exactly when some frequency needs a negative shift |
| FseTables.ValTable | tools/ftab/lzfse.py:109-125 | the loop builds the specified length and distance table, total bits, own bits, delta and base; same error |
| BackwardReader.BackBits.Open | tools/ftab/lzfse.py:132-143 | opening gives the stack of the buffer's bits read backwards without its padding, and fails exactly when the padding is not zeros |
| BackwardReader.BackBits.Flush | tools/ftab/lzfse.py:145-164 | a refill leaves the stack as it is and 56 bits or more held; it pads with zeros only in front of the buffer |
| BackwardReader.BackBits.Pull | tools/ftab/lzfse.py:166-170 | pulling n pops the stack's top n bits as a number |
| LmdValues.LengthsContiguous | tools/ftab/lzfse.py:70-81 | the literal-length bases continue one another from 0 to 315 |
| LmdValues.MatchLengthsContiguous | tools/ftab/lzfse.py:70-81 | the match-length bases continue one another from 0 to 2359 |
| LmdValues.DistancesContiguous | tools/ftab/lzfse.py:70-81 | the distance bases continue one another from 0 |
| LmdValues.ValueHasOneToken | tools/ftab/lzfse.py:70-81 | every value in range is exactly one symbol's with exactly one number in its extra bits |
| FseCoding.StepInverts | tools/ftab/lzfse.py:211-239 | decoding one symbol that the encoder pushed gives its value, the state it was pushed from and the bits below |
| FseCoding.DecodeInvertsEncode | tools/ftab/lzfse.py:211-239 | for any channels whose tables have room, any symbols and final states, decoding what the reverse-order encoder pushed gives back the values and ends in the encoder's starting states |
| FseCoding.DecodePops | tools/ftab/lzfse.py:222-239 | decoding more symbols only pops more of the stack |
| LzCopy.CopiedIsEcho | tools/ftab/lzfse.py:251-260 | a match copied byte by byte is the only extension of its length in which each byte repeats the one a distance before |
| LzCopy.CopiedTwice | tools/ftab/lzfse.py:251-260 | copying a match in two goes of any lengths is copying it once |
| LzCopy.CopyMatch | tools/ftab/lzfse.py:251-260 | the slice-or-repeat copy is the byte-by-byte one; a distance of 0 or past the output is an error |
| LzfseBlock.TripleWithinRefill | tools/ftab/lzfse.py:229-239 | an L, M, D triple pulls at most 14 + 17 + 23 bits, so one refill is enough |
| LzfseBlock.DecodeLiterals | tools/ftab/lzfse.py:217-227 | four interleaved states, refilled per group, decode a stream's literals and never run dry on an ample one |
| LzfseBlock.DecodeMatches | tools/ftab/lzfse.py:228-247 | triples are replayed as they are read: the output is the one text they parse, each triple the next literals and then bytes each equal to the one a distance before it, the distance being the last of the triples so far that is not 0 |
| LzfseBlock.ReplayIsParse | tools/ftab/lzfse.py:233-247 | replaying triples comes to an end exactly when some text is parsed by the literals and triples, and writes that text and no other |
| LzfseBlock.DecodeFseBlock | tools/ftab/lzfse.py:211-248 | a block that holds given literals and triples decodes to the one text of its raw size that they parse, and fails exactly when there is none |
| LzfseEncoding.WrittenStreamHolds | tools/ftab/lzfse.py:128-170 | a stream the encoder wrote and packed to bytes holds exactly its symbols' values |
| LzfseEncoding.WrittenBlockHolds | tools/ftab/lzfse.py:211-248 | a block the encoder wrote for a plan of literals and triples holds them, so decoding it replays them |
| LzfseEncoding.BlockIsWritten | tools/ftab/lzfse.py:211-248 | every plan whose symbols occur in frequencies that fit their tables can be written as a block, behind and before any bytes |
| LzfseHeader.ReadHeader | tools/ftab/lzfse.py:173-208 | a header's fields are cut from its three words at the code's places, and its frequencies read from the bits behind them |
| LzfseHeader.HeaderReadBack | tools/ftab/lzfse.py:173-208 | every header whose numbers fit their fields, written to bytes behind and before any others, is read back, frequencies included |
| LzfseStream.DecodeWritten | tools/ftab/lzfse.py:173-248 | a block so written, header and all, decodes, wherever it is and whatever was output before it, to the one text that its plan's literals and triples parse; it fails exactly when there is none of the raw size |
| LzfseStream.Decompress | tools/ftab/lzfse.py:308-327 | a stream of stored and written blocks, their headers read from its bytes, decodes to the text that each block adds to the one before, matches reaching into earlier blocks, no distance kept between blocks, nothing read past the end mark; it fails exactly when some block adds none |
| FreqCode.ParseInvertsCodes | tools/ftab/lzfse.py:82-84 | the prefix code of frequencies is uniquely read: codes parse back to the list they were written for |
| FreqCode.CodeCutOff | tools/ftab/lzfse.py:185-207 | no part of a code is read as a code |
| FreqCode.ReadFreqs | tools/ftab/lzfse.py:185-207 | the 32-bit accumulator loop reads exactly the codes the header's bits hold; a code cut off is an error and an empty list all zeros |
| FreqCode.ReadInvertsCodes | tools/ftab/lzfse.py:185-207 | a frequency list's codes written to bytes, padded with zeros, are read back |
| IndexProtocol.NextKeeps | apps/extractor/src/indexing.ts:419-610 | every delivery, effect, hand-on, acknowledgement and crash keeps the invariant |
| IndexProtocol.RunsAreSafe | apps/extractor/src/indexing.ts:419-610 | in every state of every run, a source is derived from its platform's facts as they are or has a pending message that leads to it |
| IndexProtocol.DrainedIsDerived | apps/extractor/src/queues.ts:113-121 | whenever the queue is empty every source is derived from the current facts |
| IndexProtocol.CountAdds | packages/db/src/facts-written.ts:10-30 | between any two states of a run the platform's number grows by the messages counted |
| IndexProtocol.SettleDebounces | apps/extractor/src/indexing.ts:571-589 | a settle numbered at one step of a run and decided at a later one derives exactly if nothing of its platform was counted between |
| ReindexDebounce.SettleDuringReindex | apps/extractor/src/indexing.ts:535-589 | while a reindex message with a record left waits, a settle derives the platform if and only if nothing was counted since its number, and then the message still waits |
| ReindexDebounce.SettleBeforeLast | apps/extractor/src/indexing.ts:535-538 | a run in which a settle derives its platform although a reindex of it is not over |
| DeriveChain.MessageDoesPart | apps/extractor/src/indexing.ts:419-442 | one derive message does a first part of the listed work and hands on exactly the rest |
| DeriveChain.ChainDoesAll | apps/extractor/src/indexing.ts:419-442 | a derive chain derives every listed source once, in order, then each release's changes once, and ends by linking if there were changes |
| DeriveChain.MessageLinks | apps/extractor/src/indexing.ts:419-442 | one derive message takes no more sources and releases than its limits, releases only once no source is left, and links last and once, exactly if a source it derived changed identity or the last changes are derived |
| DeriveChain.RelinkedIsLinked | apps/extractor/src/indexing.ts:419-442 | behind every source of a derive chain that changed identity there is a link |
| IndexWork.HandledIsLess | apps/extractor/src/indexing.ts:224-258 | what a message hands on is lexicographically less work: missing profiles and records first, then derivations |
| IndexWork.QueueShrinks | apps/extractor/src/queues.ts:113-121 | handling any one message of the queue lessens the queue's work |
| IndexWork.HeldStepIs | apps/extractor/src/indexing.ts:534-553 | a reindex message writes the least held record that is left of the platform's own name or feed, and of no other; with none left it hands on the rederive and writes nothing |
| IndexConsumer.Index.PutNew | apps/extractor/src/indexing.ts:224-258 | profile rows written are the message's own missing ones, each once, at least one if any was missing; a further group is read only while the byte budget is not reached, and rows are left only once it is; done exactly when none is left |
| IndexConsumer.Index.IndexFacts | apps/extractor/src/indexing.ts:571-580 | a unit written in part carries on as itself with progress made; a whole one is counted and settles under its number |
| IndexConsumer.Index.IndexSettle | apps/extractor/src/indexing.ts:583-589 | hands on a rederive exactly if its number is the platform's last |
| IndexConsumer.Index.IndexRederive | apps/extractor/src/indexing.ts:448-459 | lists exactly the platform's sources that some record of its facts has a copy of, and exactly the releases among those records, each once |
| IndexConsumer.Index.IndexDerive | apps/extractor/src/indexing.ts:419-442 | the first sources get the rows their facts give, no other row changes; what is derived, changed and linked is the message's part of the chain; the rest is handed on |
| IndexConsumer.Index.IndexHeld | apps/extractor/src/indexing.ts:534-553 | counts, writes the facts of the next held record under the platform's own name or feed, and moves on only once they are whole; with no such record left hands on one rederive; on an `after` that is not under them it fails with nothing done |
| IndexConsumer.Index.Consume | apps/extractor/src/queues.ts:113-121 | a message is acknowledged after what it hands on is queued: the queue loses the one and gains the other, the index changes as the handler says, the run extends the one before it, work shrinks; one that fails stays queued and changes nothing |
| IndexConsumer.Index.Drain | apps/extractor/src/queues.ts:113-121 | without crashes, new messages and unreadable ones, consuming in any order ends, with every source derived from the facts |
| HeldRecords.Records | apps/extractor/src/reindex.ts:148-161 | the generator gives the whole listing, or the listing after a record; a key under no prefix is an error |
| HeldRecords.AfterIsRemaining | apps/extractor/src/reindex.ts:148-161 | over one bucket, listing on from a record gives exactly the suffix after it of the listing from the start |
| HeldRecords.AfterIsLater | apps/extractor/src/reindex.ts:148-161 | listing on from any key gives the whole listing's records that follow it, held or not; a key under no prefix is an error |
| HeldRecords.AllIs | apps/extractor/src/reindex.ts:148-161 | the listing holds exactly the keys under a prefix that name a record |
| HeldRecords.AllSorted | apps/extractor/src/reindex.ts:144-161 | the listing is in key order, so no record repeats |
| HeldRecords.RecordPrefixesSeparate | apps/extractor/src/reindex.ts:126-133 | the prefixes are sorted and none is a prefix of another |
| HeldRecords.PrefixesOwn | apps/extractor/src/reindex.ts:117-133 | a key is under a platform's prefixes if and only if it is a release of its name or a file of a feed that is the platform's |
| HeldRecords.AllPrefixesOwn | apps/extractor/src/reindex.ts:117-133 | a key is under the prefixes of all if and only if it is some platform's |
| HeldRecords.ReleaseOwner | apps/extractor/src/reindex.ts:126-133 | a key under `releases/<name>/` is a platform's if and only if the name is its own |
| HeldRecords.FileOwner | apps/extractor/src/reindex.ts:120-133 | a key under `ota/<feed>/files/` is iOS's exactly for the Apple feed, Android's exactly for the Pixel feed, and no one's for any other |
| ReindexChain.ChainWritesInOrder | apps/extractor/src/indexing.ts:534-553 | at every point of a chain from a platform's first reindex message, the records written whole and those left are the platform's listing; it hands on reindex messages while any is left and then, all written, its rederive, whatever else changes the index in between |
| ReindexChain.RepeatsUnfinished | apps/extractor/src/indexing.ts:534-553 | a message of the chain comes again only while its record is unfinished, with nothing else of the chain in between |
| ReindexChain.EachCounted | apps/extractor/src/indexing.ts:534-553 | nothing else of the platform being counted, each message of the chain counts once, but for the one that rederives |
| ReindexChain.ChainEnds | apps/extractor/src/indexing.ts:224-258 | profile rows only being added, a chain has at most one message a record, one a missing profile row and the rederive's |
| ReindexChain.FactsWritten | apps/extractor/src/indexing.ts:534-553 | no facts being dropped, the platform's facts end with every record the chain wrote whole |
| ReindexChain.ListingIs | apps/extractor/src/reindex.ts:144-161 | a platform's listing is each held record of its own name or feed once, in key order |
| ReindexChain.Reindexed | apps/extractor/src/queues.ts:113-121 | consuming a queue of only a platform's first reindex message comes to a queue of only its rederive, by such a chain; the platform's facts are then those before and exactly the held records of its own name or feed |
| ReindexRedelivery.RederivedOnceWritten | apps/extractor/src/indexing.ts:534-553 | however often its messages are delivered again, in any order and cut off anywhere, a reindex hands on a rederive only once every held record is written whole, and they are then all in the platform's facts |
| ReindexRedelivery.PendingMore | apps/extractor/src/queues.ts:113-121 | each delivery cut off between its hand-on and its acknowledgement leaves one message more to be handled, and nothing else does |
| ReindexRedelivery.DeliveriesEnd | apps/extractor/src/queues.ts:113-121 | there are at most the chain's work in deliveries once, and again for each delivery cut off after its hand-on, beside those cut off before |
| ReindexRedelivery.ReindexedDespite | apps/extractor/src/queues.ts:113-121 | consuming a platform's first reindex message and what it leads to, in any order, with deliveries cut off before or after their hand-on as told, comes to rederives alone, one more than were delivered again; the facts then gain exactly the held records of the platform's own name or feed |
| BuildRecords.SameConfigs | apps/extractor/src/records.ts:180-185 | comparing label-sorted configurations compares what two devices carry as sets |
| BuildRecords.WithPart | apps/extractor/src/records.ts:191-224 | a record joins the rows: they then say exactly the build with that device's entry replaced, if and only if the record names no firmware twice; an error exactly if headers disagree; the devices of the release and of every modem joined are in order, and configuration rows keep theirs, the record's last |
| BuildRecords.NamedTwice | apps/extractor/src/records.ts:191-197 | a build's first record that names a firmware twice gives rows that do not say the build |
| BuildRecords.SaysDetermines | apps/extractor/src/records.ts:187-224 | rows that say one build have the same devices, configurations and modem groups |
| BuildRecords.GroupIsTogether | apps/extractor/src/records.ts:201-212 | a modem's devices are all those with its firmware and the same configurations |
| BuildRecords.Fold | apps/extractor/src/records.ts:191-224 | folding any records, in any order and with repeats, the rows read back in any order between two of them, gives rows that say what the records say |
| BuildRecords.FoldTwice | apps/extractor/src/records.ts:191-224 | two orders of the same records, with any repeats and any reading back, end in the same grouping |
| BuildRecords.ReadBackSays | apps/extractor/src/records.ts:187-224 | rows read back from the index in another order say the same build |
| Lz4.DecodeEncoded | packages/binary/src/lz4.ts:33-69 | for every valid list of sequences, decoding its encoding gives the byte-by-byte expansion, matches reaching before the block included |
| Lz4.DecodedIsEncoding | packages/binary/src/lz4.ts:33-69 | whatever decodes is the encoding of some valid list of sequences, and decodes to its expansion |
| Lz4.UpToIsPrefix | packages/binary/src/lz4.ts:29-69 | when the whole decode succeeds, the partial one into any buffer gives the output's first bytes |
| Lz4.Extended | packages/binary/src/lz4.ts:10-27 | the length loop reads what the length bytes say; one that runs past its block is an error |
| Lz4.CopyWithin | packages/binary/src/lz4.ts:59-65 | copying at most an offset at a time in place is the byte-by-byte copy, and touches nothing past it |
| Lz4.DecodeSequence | packages/binary/src/lz4.ts:35-67 | one pass of the loop advances the decode, whole or partial, by one sequence |
| Lz4.DecodeInto | packages/binary/src/lz4.ts:33-69 | decoding in place succeeds exactly if the expansion exists and fits (or, partial, as far as the buffer goes), writes it behind what was there and nothing past it |
| Lz4.DecodeBlock | packages/binary/src/lz4.ts:71-77 | exactly the expansion, or an error unless it has the size asked for |
| Der.LimitIndependent | packages/decode-ios/src/der.ts:29-70 | an element reads the same up to any limit at or past its end, and not up to one before |
| Der.ReadFurther | packages/decode-ios/src/der.ts:29-70 | more bytes behind an element, or fewer levels above it, do not change it |
| Der.ChildrenArePassed | packages/decode-ios/src/der.ts:52-60 | children re-reads exactly the elements the scan for an indefinite end skipped |
| Der.ReadAllTiles | packages/decode-ios/src/der.ts:77-85 | children tile the content from start to end |
| Der.ReadEncoded | packages/decode-ios/src/der.ts:30-70 | any element written as a class, a form and a number with its content, definite or indefinite, whatever follows it, reads as that kind at its own places; exactly when indefinite lengths nest past 64 it is an error |
| Der.TreeReadBack | packages/decode-ios/src/der.ts:30-85 | any encoding of a tree, each node's class, form and number included, reads back as the tree if and only if no more than 64 indefinite lengths nest directly |
| Der.OctetSays | packages/decode-ios/src/der.ts:33-49 | an identifier's first octet is its class, its form and its number up to 30, or 31 for a longer one |
| Der.KindDecides | packages/decode-ios/src/der.ts:30-85 | whatever the content, a definite element is a node if and only if its identifier's form says it has parts, with the parts its content reads as, and otherwise a leaf of its content |
| Der.IndefiniteRead | packages/decode-ios/src/der.ts:50-59 | an indefinite length is read, as far as the 00 00 behind its children, exactly if the identifier's form says it has parts |
| Der.LongLength | packages/decode-ios/src/der.ts:61-67 | a length of more than four octets, or one past what there is to read, is an error |
| Der.OctetsAreLeaves | packages/decode-ios/src/der.ts:87-98 | a chunked string's octets are its tree's leaves in order |
| Der.ChunksJoined | packages/decode-ios/src/der.ts:87-98 | the octets of any encoded string, chunked to any depth or not, are those of its chunks one after another |
| Der.OidReadBack | packages/decode-ios/src/der.ts:100-115 | an object identifier's arcs read back, the first two from one number |
| Der.OidArcs | packages/decode-ios/src/der.ts:100-115 | the loop computes the arcs the octets say |
| Der.ReadTlv | packages/decode-ios/src/der.ts:30-70 | the cursor code reads the element its window of bytes says, with absolute places |
| Der.FindEnd | packages/decode-ios/src/der.ts:52-60 | the scan loop stops at the 00 00 behind the children |
| Der.Children | packages/decode-ios/src/der.ts:77-85 | the loop lists the children with absolute places |
| Varint.ReadBack | packages/binary/src/varint.ts:22-31 | every 64-bit number's varint reads back whatever follows it |
| Varint.DigitsRead | packages/binary/src/varint.ts:22-31 | up to ten digits, minimal or not, read as their number modulo 2^64; more are an error |
| Varint.ReadVarint | packages/binary/src/varint.ts:22-31 | the ten-byte loop gives the digits' number modulo 2^64 and the next offset; errors exactly on a truncated or longer varint |
| Protobuf.FieldsOfBoth | packages/binary/src/protobuf.ts:40-75 | the fields of two messages one behind the other are the first's and then the second's |
| Protobuf.FieldsReadBack | packages/binary/src/protobuf.ts:40-75 | fields written read back |
| Protobuf.BadField | packages/binary/src/protobuf.ts:40-75 | a field of number 0 or past 2^29 - 1, or of a wire type other than the four, is an error |
| Protobuf.MessageCutOff | packages/binary/src/protobuf.ts:40-75 | a message that ends anywhere within a field is an error |
| Protobuf.WireFields | packages/binary/src/protobuf.ts:40-75 | the generator loop yields the message's fields, or fails where they do |
| CarrierSettings.ListBoth | packages/decode-android/src/carrier-settings.ts:33-42 | a wrapper's fields in two runs are listed as the first's items and the second's numbered on |
| CarrierSettings.ListMoved | packages/decode-android/src/carrier-settings.ts:228-236 | starting a list's numbers later only renumbers its unknown fields; configurations are not numbered |
| CarrierSettings.RunMerged | packages/decode-android/src/carrier-settings.ts:238-290 | running on behind a state merges it with what the later fields say alone |
| CarrierSettings.DecodedBoth | packages/decode-android/src/carrier-settings.ts:238-290 | two messages that decode, concatenated, decode to their merge: lists appended, later configs and scalars winning, unknown indexes shifted |
| CarrierSettings.SplitMerges | packages/decode-android/src/carrier-settings.ts:238-290 | an embedded list sent in two parts decodes exactly as the list sent in one |
| CarrierSettings.EntriesBoth | packages/decode-android/src/carrier-settings.ts:205-213 | what entries say, each key its last, is the same for two lists one behind the other as for the later over the earlier |
| Sequences.LatestWins | packages/decode-android/src/carrier-settings.ts:278-278 | settings made of entries have exactly the entries' keys, each with the value of its last entry |
| CarrierSettings.RepeatedItems | packages/decode-android/src/carrier-settings.ts:33-42 | the loop lists a wrapper's items and unknown fields |
| CarrierSettings.Decode | packages/decode-android/src/carrier-settings.ts:238-290 | the loop decodes a file; without a name, or with an empty one, it is an error |
| CarrierConfigs.EntriesInBoth | packages/decode-android/src/carrier-settings.ts:205-213 | configuration entries in two messages one behind the other are the first's and then the second's, or an error if either is |
| CarrierConfigs.BundleOfBoth | packages/decode-android/src/carrier-settings.ts:159-180 | a bundle of two bundles' bytes has both bundles' keys, a later value winning |
| CarrierConfigs.OrderBetweenKinds | packages/decode-android/src/carrier-settings.ts:151-203 | a key may come last: however key, value and other fields are interleaved, a configuration is the same |
| CarrierConfigs.EntriesReadBack | packages/decode-android/src/carrier-settings.ts:159-213 | entries written to bytes, fields of no meaning and incomplete configurations among them, bundles nested to any level, read back: each its key and last value, a bundle having exactly the keys written in it, each with the value written last; every other field is found as unknown |
| CarrierConfigs.ListedEntries | packages/decode-android/src/carrier-settings.ts:258-261 | a file's configurations are read as a bundle's entries are |
| CarrierConfigs.ReadConfig | packages/decode-android/src/carrier-settings.ts:183-203 | the loop keeps the last key and value and every other field; a configuration without a key or a value is kept whole as unknown |
| CarrierConfigs.ReadEntries | packages/decode-android/src/carrier-settings.ts:205-213 | the loop lists a message's entries and unknown fields, at any level of nesting |
| CarrierFiles.FileReadBack | packages/decode-android/src/carrier-settings.ts:237-284 | a file written field by field, in any order and with repeats, decodes to its last name, version and time, its APNs and vendor clients in order, exactly the configuration keys written, each with its last value, and the other fields with their places; it fails exactly without a name or if a part does not decode |
| CarrierFiles.ConfigsRead | packages/decode-android/src/carrier-settings.ts:237-284 | in whatever decodes, a key is in the configurations if and only if some entry read has it, with the value of the last such entry |
| XmlTokens.TokensReadBack | packages/decode-ios/src/plist.ts:180-218 | tags written out, each letter of a name in either case, with any attributes, and behind them any text, CDATA, comments, declarations and instructions, are read back with exactly the text and CDATA as their text |
| XmlTokens.CutOff | packages/decode-ios/src/plist.ts:192-211 | a comment without an end drops what is behind it, and so does whatever else has no `>` behind it; CDATA without an end is text |
| XmlTokens.PrologsSkipped | packages/decode-ios/src/plist.ts:180-218 | any instructions, declarations, comments, CDATA and text before a document give no tokens |
| XmlTokens.Tokenize | packages/decode-ios/src/plist.ts:180-218 | the loop cuts XML as specified: comments skipped, CDATA kept as text, declarations skipped, tags lower-cased |
| XmlPlist.Element | packages/decode-ios/src/plist.ts:237-350 | on any tokens reading an element ends, takes a token when one is left and never runs past the end |
| XmlPlist.TextBetweenElements | packages/decode-ios/src/plist.ts:237-350 | text behind any tag that is not a key's or scalar's never changes what is read |
| XmlPlist.ReadPrinted | packages/decode-ios/src/plist.ts:237-350 | a printed tree reads back whatever follows it, and fails exactly when it nests past the depth limit |
| XmlPlist.DocumentReadBack | packages/decode-ios/src/plist.ts:222-352 | a document's tokens give the tree in its plist element, whatever text is between elements |
| XmlPlist.XmlReadBack | packages/decode-ios/src/plist.ts:180-352 | a tree printed as XML text, with attributes, text between elements, and comments, declarations and CDATA anywhere in it and before it, reads back as the tree |
| XmlPlist.MeaningIsLast | packages/decode-ios/src/plist.ts:273-291 | a dict has exactly the keys of its entries, each with the value written last |
| XmlPlist.StrayBefore | packages/decode-ios/src/plist.ts:349-350 | close tags before a document, but a plist's, are skipped |
| XmlPlist.DictSkips | packages/decode-ios/src/plist.ts:281-284 | an element in a dict without a key before it is read and dropped |
| XmlPlist.KeyAlone | packages/decode-ios/src/plist.ts:285-288 | a key with a close tag behind it is null |
| XmlPlist.EndsWithDocument | packages/decode-ios/src/plist.ts:273-303 | arrays and dicts left open at the end of a document have what was read |
| XmlPlist.ArrayEndsAt | packages/decode-ios/src/plist.ts:292-303 | an open array with any printed items ends at a close tag if it is an array's, and else reads on behind it; past the depth limit it fails |
| XmlPlist.DictEndsAt | packages/decode-ios/src/plist.ts:273-291 | the same of an open dict with any printed entries |
| XmlPlist.ArrayEndsAtOwn | packages/decode-ios/src/plist.ts:220-221 | with anything behind it, a close tag ends an open array if and only if it is an array's |
| XmlPlist.DictEndsAtOwn | packages/decode-ios/src/plist.ts:220-221 | with anything behind it, a close tag ends an open dict if and only if it is a dict's |
| XmlPlist.LeafEndsAtOwn | packages/decode-ios/src/plist.ts:304-342 | any other element but a plist takes a close tag behind it if and only if it is its own |
| XmlPlist.OpenArraySwallows | packages/decode-ios/src/plist.ts:273-303 | an array left open as a dict's last value takes the dict's close tag for a stray one and all that reads as items behind it, whatever entries and items precede |
| XmlPlist.OpenArrayTakesNext | packages/decode-ios/src/plist.ts:220-221 | in `<dict><key>a</key><array></dict><string>x</string>` the array takes the string behind the dict |
| XmlPlist.Parser.ReadElement | packages/decode-ios/src/plist.ts:237-342 | the cursor code gives the element's value and leaves the cursor behind it |
| XmlPlist.Parser.ReadDict | packages/decode-ios/src/plist.ts:271-289 | the dict loop reads entries to its close tag or the end, stray close tags skipped |
| XmlPlist.Parser.ReadArray | packages/decode-ios/src/plist.ts:290-300 | the array loop reads items to its close tag or the end |
| XmlPlist.Parse | packages/decode-ios/src/plist.ts:222-352 | tokenizing and reading give the document's value |
| BinaryObjects.ObjectReadBack | packages/decode-ios/src/plist.ts:75-161 | every object written, its count in the marker or behind it in any width, reads back as its node whatever is before and behind it |
| BinaryObjects.BlobCut | packages/decode-ios/src/plist.ts:119-138 | a blob said to be longer than what is left is what is left |
| BinaryObjects.NoObject | packages/decode-ios/src/plist.ts:163-165 | an offset past the end and any other marker is an error |
| BinaryObjects.ObjectCut | packages/decode-ios/src/plist.ts:79-161 | an object of a fixed size or of references that the bytes end anywhere within is an error |
| BinaryObjects.FileReadBack | packages/decode-ios/src/plist.ts:56-69 | any objects written one after another with offsets and references of any widths they fit, and a trailer, are found where the trailer and table say |
| BinaryObjects.NoTable | packages/decode-ios/src/plist.ts:56-69 | a file too short for a trailer, more objects than an array can have, or a table that runs past the end is an error |
| BinaryObjects.ReadNode | packages/decode-ios/src/plist.ts:75-166 | the object at an offset: a fixed-size scalar, a blob as far as there are bytes, or references; an error past the end or for another marker |
| BinaryObjects.ReadTable | packages/decode-ios/src/plist.ts:56-67 | the trailer's numbers and all offsets, an error for a file too short or an offset past the end |
| BinaryPlist.WrittenFile | packages/decode-ios/src/plist.ts:56-171 | the file of a layout's bytes has exactly the layout's objects and top |
| BinaryTrees.TreeReadBack | packages/decode-ios/src/plist.ts:56-171 | the bytes written for a tree of no more than 65 levels have, by plain recursion, the value the tree says: an atom its bytes, an array its items in order, a dictionary exactly its key children's keys, each with the value of its last one |
| BinaryTrees.SaysOnce | packages/decode-ios/src/plist.ts:142-161 | a tree says one value |
| BinaryTrees.ParseWritten | packages/decode-ios/src/plist.ts:56-171 | parsing them gives the one value the tree says |
| BinaryPlist.Reader.ObjAt | packages/decode-ios/src/plist.ts:70-168 | over any bytes every value returned is what its object says: of an array its references' values in order, of a dictionary exactly the keys its key references read as, each with the value of the last value reference so keyed; what plain recursion reads within the depth is read; each object is begun once |
| BinaryPlist.Parse | packages/decode-ios/src/plist.ts:56-171 | a parse of any bytes that succeeds gives what the top object says and begins no object twice; a cycle the top object reaches always ends in an error |
| BinaryPlist.HasOne | packages/decode-ios/src/plist.ts:70-168 | plain recursion gives an object one value, however many levels it is allowed |
| BinaryPlist.HasIsValueOf | packages/decode-ios/src/plist.ts:70-168 | an object has a value by plain recursion if and only if the object says it, of its references' values |
| BinaryPlist.CycleHasNone | packages/decode-ios/src/plist.ts:70-76 | an object on a cycle has no value |
| BinaryPlist.NoCycleBelow | packages/decode-ios/src/plist.ts:70-76 | nothing an object with a value reaches is on a cycle |
| Png.Paeth | packages/decode-ios/src/png.ts:45-51 | the predictor is whichever of left, above and above left is nearest the plane through them, ties in that order |
| Png.FiltersUndone | packages/decode-ios/src/png.ts:53-92 | for every image and every filter per row, unfiltering its scanlines gives its pixels |
| Png.PixelsUndone | packages/decode-ios/src/png.ts:53-92 | every restored byte is its scanline's byte plus, modulo 256, nothing, the byte a pixel left, the one above, half the sum of both, or the nearest of left, above and above left, by the row's filter |
| Png.UnfilterRow | packages/decode-ios/src/png.ts:64-89 | a row is restored in place from its own restored bytes and the row above, the rows before it untouched |
| Png.Unfilter | packages/decode-ios/src/png.ts:53-92 | the output is the pixels of all scanlines, row by row, each byte as its row's filter says of those before it |
| BundleReader.Reader.Read | packages/decode-mediatek/src/bundle.ts:43-61 | a read at or past the last one's end returns exactly the stream's bytes there, short only at its end, however the stream is cut |
| BundleReader.BundleSegment | packages/decode-mediatek/src/bundle.ts:69-87 | for any stream the segment read is the one the stream's bytes name, or an error: no table, another name, an overlap or a cut anywhere |
| BundleReader.SegmentReadBack | packages/decode-mediatek/src/bundle.ts:17-86 | a bundle written with a table of names, offsets and lengths gives, of a name, the bytes at the offset and of the length of its first segment; an error if they begin in the table or end past the bundle |
| BundleReader.NoSegment | packages/decode-mediatek/src/bundle.ts:17-86 | a name not in the table, or any segment whose two lengths differ, is an error |
| BundleReader.NotBundle | packages/decode-mediatek/src/bundle.ts:18-30 | bytes that do not begin as a bundle, or have an entry that does not begin as one or is cut off, have no segment |
| BundleReader.CutTwice | packages/decode-mediatek/src/bundle.ts:69-87 | two cuts of any one stream give the same segment |
| Batches.JsonBatches | packages/db/src/sync.ts:32-58 | rows are cut into runs within the JSON limit, none lost, repeated or moved, each as full as the next row allows |
| Batches.SendBatches | apps/extractor/src/queues.ts:38-58 | the same for messages, at most 100 and 200,000 bytes a run |
| Batches.GreedyIsFewest | packages/db/src/sync.ts:32-58 | no other cut into runs within the limit has fewer |
| SyncScope.Diff | packages/db/src/db.ts:51-63 | the rows to put are the wanted ones not held as they are, those gone the held ones of no wanted key |
| SyncScope.HeldIsLast | packages/db/src/db.ts:57-60 | a wanted row counts as held exactly if the last held row of its key is the same |
| SyncScope.FirstIsTaken | packages/db/src/sync.ts:140-142 | of the rows put under one key the first is the one inserted |
| SyncScope.SyncedIs | packages/db/src/db.ts:51-63 | deleting what is gone or differs and inserting what is put leaves the scope as wanted if and only if the wanted rows are of the scope and one a key, and then changes only what differs |
| SyncScope.TwoOfOneKey | packages/db/src/sync.ts:131-144 | wanting two different rows of one key does not leave both |
| SyncScope.Table.Sync | packages/db/src/sync.ts:131-144 | whatever is wanted, the rows not put or gone stay and of each key put the first row is inserted; the scope becomes exactly the wanted rows if and only if they are of the scope and one a key; the first wanted row of a key not held as it is is then the key's row; only keys that differ are touched, and nothing is written when none does |
| SyncScope.SyncedAgain | packages/db/src/sync.ts:131-144 | syncing again to the same rows finds nothing to change if and only if they are of the scope and one a key, and then changes nothing |
| SyncScope.Table.SyncTwice | packages/db/src/sync.ts:131-144 | of two syncs in a row to the same rows the second finds nothing to change if and only if the rows are of the scope and one a key; it then makes no statement |
| SyncScope.NothingDiffers | packages/db/src/sync.ts:131-144 | once a scope is as wanted, none of its keys differs |

## Left out

- LzfseBlock.DecodeFseBlock: corrupt headers are excluded (frequencies past the table, states out of range, streams past the buffer); on a stream that holds no symbols it states only sizes.
- BuildRecords.WithPart: a record's labels are distinct, as records are written; `order` is any comparison, and labels and devices are compared by code points, which is the code's UTF-8 order for labels but not its UTF-16 order for devices.
- BuildRecords.Fold: records name each firmware once.
- SyncScope.Table.Sync: canonical JSON text is taken as row equality, and the statements of one batch as one transaction.
- XmlTokens.TokensReadBack: `Lower` folds ASCII letters only.
- IndexConsumer.Index.Drain: crash-free and with no new messages; each queued reindex message goes on from the start or from a key under its platform's prefixes, and each source a queued derive message lists has a copy among its platform's facts. Runs with crashes are `IndexProtocol`'s, and of a reindex `ReindexRedelivery`'s.
- LzfseStream.Decompress: on streams of blocks the encoder writes.
- LzfseHeader.ReadHeader: a header that says it ends past the stream is taken for an error at once; the code reads on to the missing byte, if its codes go that far.
- LZFSE: the native library path, `bvx1` blocks and LZVN; `_BackBits`'s `start`, which is always 0.
- Index queue: purging readers and linking under redelivery, `devicesSynced`, dead letters, the delay of a settle, what routes and linking write; deriving a source is an abstract function of its platform's facts.
- Concurrent reads inside one message (`Promise.all`) and the reads' cache: one read at a time.
- DER: certificate and name summaries, and a tag number past 2^53, which the code rounds.
- Protobuf: `packedVarints`, whose proof is that of `WireFields` again, and groups, which are an error.
- Carrier settings: what the bytes of one APN, vendor client or configuration value other than a bundle decode to (functions of the bytes), and `splitMultiCarrierSettings`.
- XML plists: entity, integer, real, base64 and date texts (functions of the text), and a dict key named `__proto__`.
- Binary plists: what a scalar's bytes stand for, and numbers past 2^53, which the code rounds before it finds them out of range.
- PNG: chunks, checksums, inflation, premultiplied pixels.
- HTTP, storage, SQL text, schemas, routes and user interface; `packages/schema`, `packages/storage` and `packages/firmware` are not part of this model.
