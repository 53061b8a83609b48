# Embedded CEA-608 captions in the dash.js text source buffer

This project models, in Dafny, how the dash.js `TextSourceBuffer` pulls CEA-608
closed captions out of fragmented MP4 video and hands them to its caption
parsers. It covers five pieces:

- **The NAL unit walk of `checkNalus`.** It walks the 4-byte length-prefixed NAL
  units of a sample. In each SEI unit (type 6) it decodes the ff_byte coded
  payloadType and payloadSize of each message. It keeps the windows whose body
  carries the ATSC A/53 caption signature: country 0xB5, provider 0x0031,
  user identifier "GA94", user data type 3.
- **The cc_data extraction of `processCCWindow`.** It reads cc_count and the
  3-byte cc_data triplets of a window. Each valid, non-padding byte pair goes
  to field 0 or field 1.
- **The fragment walk of `checkCC`.**
  - Every sample of the first `trun` gets a byte window and a decode time.
  - Each field's `[time, bytes]` entries are collected with `insertInOrder`.
  - The fragment spans from `baseMediaDecodeTime` to that time plus the sample
    durations.
- **The continuity engine.** This is the video branch of `append`, plus
  `addEmbeddedTrack` and `resetEmbeddedCc`. It captures the timescale from the
  initialization segment and sets up one field parser per embedded track. It
  skips sequence numbers already seen and resets the parsers on a sequence
  gap. It feeds every field to its parser in seconds.
- **The small choices.** These are `getIsDefault` and `getParser`, plus the
  `firstSubtitleStart` anchor of the fragmented-text branch of `append`.

A `DataView` read outside the buffer throws a `RangeError` in the source. Here
it is the `RangeError` value of `Result`, and every parsing function returns
either its value or that error. A `TypeError` the source throws is an
explicit outcome as well, except in the cases listed under "## Left out".

Each loop of the source is a `method` with the same loop, proved equal to a
pure function. The properties are then proved as lemmas about those functions.
The closure state of the text source buffer is the class
`EmbeddedCc.EmbeddedCcBuffer`. Each of its methods is proved to move the state,
and a log of every call made on the field parsers, exactly as the step
functions of `EmbeddedCc` say.

Modules:

- `DataView` (dataview.dfy): bytes, big-endian reads and the `Result` type.
- `NalScanner` (nal_scanner.dfy): `checkNalus` and `isCEA608SEI`.
- `CcExtractor` (cc_extractor.dfy): `processCCWindow`.
- `FragmentTiming` (fragment_timing.dfy): `checkCC` and `insertInOrder`.
- `CcCollection` (cc_collection.dfy): what `checkCC` collects, against a
  reference list that appends every entry in sample and window order.
- `EmbeddedCc` (embedded_cc.dfy): the continuity engine.
- `TextTracks` (text_tracks.dfy): `getIsDefault` and `getParser`.
- `FragmentedText` (fragmented_text.dfy): the subtitle anchor.

Where the code and its own comment disagree, the model follows the code.

- The comment on `insertInOrder` promises an ordered insertion. The backwards
  search stops at its first index, so an early entry is spliced in just before
  the last one (`FragmentTiming.Inserted`).
- `FragmentTiming.InsertedSortedIff` states exactly when this keeps a field
  sorted. `FragmentTiming.InsertedCanUnsort` gives an input where it does not.

Three more behaviours of the continuity engine are modelled as written:

- **The parser slot is the track's list position, not its CEA-608 field.** A
  stream whose only embedded track is CC3 feeds that track field 0
  (`EmbeddedCc.Cc3OnlyTrackGetsField0`).
- **A setup interrupted by a missing text track is never resumed.** This
  happens when CC3's track is missing while CC1's already has a parser
  (`EmbeddedCc.LateCc3TrackNeverFed`).
- **Parser setup runs before the check for a sequence number already seen.**
  A re-delivered segment makes no call, but it can still install parsers
  (`EmbeddedCc.Redelivery`, `EmbeddedCc.RedeliveryCanSetUp`).

## Model

| member | source | states |
|---|---|---|
| NalScanner.FfCoded | src/streaming/TextSourceBuffer.js:668-681 | a decoded ff_byte value lies inside the buffer and consumes at least one byte |
| NalScanner.FfCodedSum | src/streaming/TextSourceBuffer.js:668-681 | the value is 255 for each leading 0xFF plus the final non-0xFF byte, one byte per summand; decoding fails exactly when only 0xFF bytes follow |
| NalScanner.FfRoundTrip | src/streaming/TextSourceBuffer.js:668-681 | decoding the ff_byte encoding of any value gives the value back and consumes exactly the encoding |
| NalScanner.FfExample | src/streaming/TextSourceBuffer.js:668-681 | `FF FF 05` decodes to 515 and consumes 3 bytes |
| NalScanner.ReadFfCoded | src/streaming/TextSourceBuffer.js:668-674 | the `while (b === 0xFF)` loop computes the ff_byte decoding, or the RangeError of a read past the end |
| NalScanner.IsCea608Sei | src/streaming/TextSourceBuffer.js:648-657 | true exactly for payloadType 4, payloadSize at least 8 and the A/53 signature at `pos`; RangeError exactly when those header reads leave the buffer |
| NalScanner.SeiMessageAt | src/streaming/TextSourceBuffer.js:668-681 | a message body starts at least two header bytes past `pos` |
| NalScanner.SeiWindows | src/streaming/TextSourceBuffer.js:665-687 | the windows of one SEI unit: a message is decoded at `pos` while `pos` is before the trailing-bits byte, its window is kept when `isCEA608SEI` accepts it, and the scan goes on after its body; any read past the end is the RangeError |
| NalScanner.SeiMessages | src/streaming/TextSourceBuffer.js:667-686 | the SEI messages the inner scan decodes, each with the position of its header, without testing them |
| NalScanner.SeiWalk | src/streaming/TextSourceBuffer.js:667-686 | the scan decodes its first message at `pos`, each next one right after the previous body, and only messages starting before the trailing-bits byte |
| NalScanner.CaptionWindowsMembers | src/streaming/TextSourceBuffer.js:682-685 | a window is recorded if and only if it is the body and size of a decoded message of payloadType 4, payloadSize at least 8 and the signature |
| NalScanner.SeiWindowsFilter | src/streaming/TextSourceBuffer.js:665-687 | the windows of an SEI unit are those of the accepted messages among the ones it decodes, in order |
| NalScanner.SeiWindowsExactly | src/streaming/TextSourceBuffer.js:665-687 | a window is recorded exactly for each accepted message the scan reaches, and each comes from a message decoded inside the unit with payloadType 4 and the window's size and body |
| NalScanner.SeiWindowsSigned | src/streaming/TextSourceBuffer.js:667-687 | every window the inner scan records carries the signature, has size at least 8 and lies past its payload header |
| NalScanner.NalWindowsSigned | src/streaming/TextSourceBuffer.js:658-690 | every window of a whole sample passes the signature filter |
| NalScanner.NalWindows | src/streaming/TextSourceBuffer.js:658-690 | the windows of a sample: each unit's 4-byte length and header byte are read, a unit of type 6 is scanned up to its trailing-bits byte, and the walk steps over `nalSize + 4` bytes until it reaches the end |
| NalScanner.NalUnits | src/streaming/TextSourceBuffer.js:658-689 | the units the outer walk visits: start, length and nal_unit_type |
| NalScanner.UnitMessages | src/streaming/TextSourceBuffer.js:660-686 | the SEI messages decoded in the units of type 6, unit after unit |
| NalScanner.NalWindowsFilter | src/streaming/TextSourceBuffer.js:658-690 | the windows of a sample are those of the accepted messages among all SEI messages its units of type 6 decode, in order |
| NalScanner.NalWindowsExactly | src/streaming/TextSourceBuffer.js:642-692 | a window of the sample is recorded if and only if it comes from an accepted SEI message decoded in one of its units of type 6 |
| NalScanner.NalWalk | src/streaming/TextSourceBuffer.js:658-690 | the outer walk starts at `startPos`, visits only units starting before the end, and its last unit (`nalSize + 4` bytes) reaches the end |
| NalScanner.NoSeiNoWindows | src/streaming/TextSourceBuffer.js:660-662 | a walk that meets no unit of type 6 records no window |
| NalScanner.WindowsComeFromSeiUnits | src/streaming/TextSourceBuffer.js:660-686 | every recorded window lies in a visited unit of type 6, past its length field and header |
| NalScanner.ScanSeiMessages | src/streaming/TextSourceBuffer.js:665-687 | the inner loop computes the windows of one SEI unit, scanning while `pos` is before the trailing-bits byte and skipping `payloadSize` after each message |
| NalScanner.CheckNalus | src/streaming/TextSourceBuffer.js:642-692 | the nested loops compute the caption windows of the sample `[startPos, startPos + size)` |
| CcExtractor.WindowTriplets | src/streaming/TextSourceBuffer.js:698-700 | a window has cc_count (low five bits of the byte at `window[0] + 8`) triplets, fewer than 32 |
| CcExtractor.CcFields | src/streaming/TextSourceBuffer.js:694-722 | succeeds exactly when the count byte and every triplet are inside the buffer, and then yields two fields |
| CcExtractor.FieldBytes | src/streaming/TextSourceBuffer.js:711-718 | the bytes field `k` receives, pushed pair by pair in triplet order, as the loop does |
| CcExtractor.Emitting | src/streaming/TextSourceBuffer.js:711-718 | the triplets that are valid, not padding and of cc_type `k`, in order |
| CcExtractor.Pairs | src/streaming/TextSourceBuffer.js:713-717 | the two data bytes of each triplet, in order: exactly twice as many bytes as triplets |
| CcExtractor.FieldBytesArePairs | src/streaming/TextSourceBuffer.js:711-718 | the bytes pushed to field `k` are the data bytes, in order, of exactly the triplets that emit to `k` |
| CcExtractor.EmittingMembers | src/streaming/TextSourceBuffer.js:711-718 | a triplet is kept for field `k` if and only if it is read and is valid, non-padding and of cc_type `k` |
| CcExtractor.FieldsDisjoint | src/streaming/TextSourceBuffer.js:712-718 | no triplet feeds both fields |
| CcExtractor.PairsIndex | src/streaming/TextSourceBuffer.js:713-717 | pair `i` of a field is the unmasked d1, d2 of its `i`-th emitting triplet |
| CcExtractor.CcFieldsPairs | src/streaming/TextSourceBuffer.js:699-718 | each field is the pairs of its emitting triplets; together the fields hold at most `2 * ccCount` bytes |
| CcExtractor.CcFieldsEmpty | src/streaming/TextSourceBuffer.js:711-718 | field `k` is empty if and only if no triplet read emits to `k` |
| CcExtractor.ProcessCcWindow | src/streaming/TextSourceBuffer.js:694-722 | the `for` loop computes `CcFields`, or the RangeError of a read past the end |
| FragmentTiming.Inserted | src/streaming/TextSourceBuffer.js:572-588 | `insertInOrder` as written: appended when the field is empty or the time is not before the last entry, otherwise spliced in at `len - 1` |
| FragmentTiming.InsertedKeepsEntries | src/streaming/TextSourceBuffer.js:572-588 | insertion grows the field by exactly the new entry, keeps the old entries in order, and places it at `len - 1` or `len` |
| FragmentTiming.InsertedSortedIff | src/streaming/TextSourceBuffer.js:572-588 | on a sorted field, the result is sorted if and only if the field has fewer than two entries or the new time is not before the second-to-last |
| FragmentTiming.InsertedCanUnsort | src/streaming/TextSourceBuffer.js:571-588 | inserting time 0 into times 5, 10 leaves the field unsorted, against the comment's promise |
| FragmentTiming.InsertedMembers | src/streaming/TextSourceBuffer.js:572-588 | the result holds exactly the old entries and the new one |
| FragmentTiming.LastLater | src/streaming/TextSourceBuffer.js:578-583 | the backwards search finds the last index with a later time, or -1 |
| FragmentTiming.SearchBackwards | src/streaming/TextSourceBuffer.js:578-583 | the loop computes `LastLater` |
| FragmentTiming.InsertInOrder | src/streaming/TextSourceBuffer.js:572-588 | `insertInOrder` computes `Inserted` |
| FragmentTiming.SampleStart | src/streaming/TextSourceBuffer.js:609-631 | sample `i` starts at `moof.offset + trun.data_offset` plus the sizes of the samples before it |
| FragmentTiming.SampleTime | src/streaming/TextSourceBuffer.js:613-619 | sample `i` is at `baseMediaDecodeTime` plus the durations before it plus its composition offset |
| FragmentTiming.AddFieldData | src/streaming/TextSourceBuffer.js:623-627 | a window keeps both field lists |
| FragmentTiming.AddWindows | src/streaming/TextSourceBuffer.js:621-628 | a sample's windows keep both field lists, unless a window read fails |
| FragmentTiming.AddSample | src/streaming/TextSourceBuffer.js:620-628 | a sample keeps both field lists, unless its scan fails |
| FragmentTiming.FieldsAfter | src/streaming/TextSourceBuffer.js:617-632 | the sample loop keeps both field lists |
| FragmentTiming.SampleStep | src/streaming/TextSourceBuffer.js:630-631 | each step advances `startPos` by the sample size and `accDuration` by its duration |
| FragmentTiming.FirstTrunOnly | src/streaming/TextSourceBuffer.js:602-609 | only the first `trun` matters: any others leave the result unchanged |
| FragmentTiming.SameFirstTrun | src/streaming/TextSourceBuffer.js:609-632 | fragments agreeing on moof offset, base time and first `trun` give the same fields |
| FragmentTiming.SameSample | src/streaming/TextSourceBuffer.js:609-619 | fragments agreeing on moof offset, base time and first `trun` give every sample the same windows and time |
| FragmentTiming.SumDurationsPrefix | src/streaming/TextSourceBuffer.js:630 | the accumulated duration never exceeds the total |
| FragmentTiming.SampleWithinFragment | src/streaming/TextSourceBuffer.js:613-635 | each sample's decode interval lies within `[startTime, endTime]` |
| FragmentTiming.AddFieldDataGrows | src/streaming/TextSourceBuffer.js:623-627 | a window adds only entries at the sample time holding non-empty whole byte pairs |
| FragmentTiming.CcFieldsEven | src/streaming/TextSourceBuffer.js:711-718 | each field of a window has even length |
| FragmentTiming.AddWindowsEntries | src/streaming/TextSourceBuffer.js:621-628 | a sample's windows add only entries at the sample time holding non-empty whole byte pairs |
| FragmentTiming.SampleTimes | src/streaming/TextSourceBuffer.js:619 | one time per sample visited |
| FragmentTiming.EntriesGrow | src/streaming/TextSourceBuffer.js:619-628 | after one more sample, every entry is at a time among the visited samples' times |
| FragmentTiming.FieldsAfterEntries | src/streaming/TextSourceBuffer.js:617-632 | every entry is at the time of a visited sample and holds non-empty whole byte pairs |
| FragmentTiming.CcEntriesFromSamples | src/streaming/TextSourceBuffer.js:615-636 | every entry `checkCC` returns is at one of the first `trun`'s sample times and holds whole byte pairs |
| FragmentTiming.InsertedAppends | src/streaming/TextSourceBuffer.js:575-576 | an entry not earlier than all others is appended and the field stays sorted |
| FragmentTiming.AddFieldDataSorted | src/streaming/TextSourceBuffer.js:623-627 | a window at a time not before any entry keeps both fields sorted |
| FragmentTiming.AddWindowsSorted | src/streaming/TextSourceBuffer.js:621-628 | a sample's windows keep both fields sorted when nothing is later than its time |
| FragmentTiming.SampleGrowsSorted | src/streaming/TextSourceBuffer.js:619-628 | a sample not earlier than the previous ones keeps both fields sorted |
| FragmentTiming.FieldsAfterSorted | src/streaming/TextSourceBuffer.js:617-632 | with nondecreasing sample times, both fields stay sorted and nothing is later than the last sample |
| FragmentTiming.CcFieldsSortedWhenMonotone | src/streaming/TextSourceBuffer.js:602-636 | with nondecreasing sample times, both fields `checkCC` returns are sorted |
| FragmentTiming.NoWindowsNoEntries | src/streaming/TextSourceBuffer.js:620-628 | samples with no caption window leave both fields empty |
| FragmentTiming.AddWindowsFails | src/streaming/TextSourceBuffer.js:621-622 | a failing window read makes the whole sample fail |
| FragmentTiming.FieldsAfterFails | src/streaming/TextSourceBuffer.js:617-622 | a failing sample makes the whole walk fail |
| FragmentTiming.AddWindowData | src/streaming/TextSourceBuffer.js:621-628 | the window loop computes `AddWindows` |
| FragmentTiming.CcSpec | src/streaming/TextSourceBuffer.js:590-637 | no result without a `trun`; otherwise the fields of the first `trun`'s samples and the span from the base time to it plus all durations, or the RangeError of any read |
| FragmentTiming.CheckCc | src/streaming/TextSourceBuffer.js:569-637 | `checkCC` computes `CcSpec`: null without a `trun`, otherwise the fields and the `[base, base + durations]` span |
| CcCollection.WindowEntries | src/streaming/TextSourceBuffer.js:621-628 | reference for one sample: one entry per window whose field `k` is non-empty, at the sample time, in window order; RangeError on the first unreadable window |
| CcCollection.Collected | src/streaming/TextSourceBuffer.js:617-632 | reference for the walk: the entries of each sample in turn, appended without `insertInOrder`; RangeError on a failed scan or window read |
| CcCollection.AddWindowsCollects | src/streaming/TextSourceBuffer.js:621-628 | a sample's windows fail exactly when the reference does, and otherwise add to field `k` exactly the reference entries (as a multiset) |
| CcCollection.AddWindowsAppends | src/streaming/TextSourceBuffer.js:621-628 | into fields with nothing later than the sample time, the windows append exactly the reference entries, in order |
| CcCollection.FieldsAfterCollected | src/streaming/TextSourceBuffer.js:617-632 | the walk fails exactly when the reference does, and otherwise field `k` is a permutation of the reference list |
| CcCollection.FieldsAfterInOrder | src/streaming/TextSourceBuffer.js:617-632 | with nondecreasing sample times, field `k` equals the reference list |
| CcCollection.WindowEntriesMembers | src/streaming/TextSourceBuffer.js:621-628 | an entry is in a sample's reference list if and only if it is at the sample time and some window gave field `k` exactly its bytes |
| CcCollection.CollectedSound | src/streaming/TextSourceBuffer.js:617-632 | every reference entry comes from a window of one of the samples, at that sample's time |
| CcCollection.CollectedComplete | src/streaming/TextSourceBuffer.js:617-632 | every window of every sample that gave field `k` bytes has its entry, at its own sample's time |
| CcCollection.CcFieldsCollected | src/streaming/TextSourceBuffer.js:602-636 | `checkCC` fails exactly when the reference does; otherwise field `k` is a permutation of the reference list, and equals it under nondecreasing sample times |
| CcCollection.CcEntriesExactly | src/streaming/TextSourceBuffer.js:602-636 | an entry is in `checkCC`'s field `k` if and only if some window of some sample `i` gave field `k` exactly its bytes and the entry carries sample `i`'s time |
| EmbeddedCc.VideoStep | src/streaming/TextSourceBuffer.js:188-556 | the video branch of `append`: an initialization segment sets the timescale only while it is 0; a media segment is a `MediaStep` |
| EmbeddedCc.MediaStep | src/streaming/TextSourceBuffer.js:196-555 | a media segment does nothing before the timescale is known; it runs setup, returns when setup is unfinished or the number was seen, and otherwise processes the segment |
| EmbeddedCc.NewSegment | src/streaming/TextSourceBuffer.js:528-555 | a new number resets every parser when it does not follow the last one; a failed `checkCC` read throws a RangeError, a missing `trun` or a failed feed a TypeError; otherwise the number is recorded as last and seen |
| EmbeddedCc.SetupAfter | src/streaming/TextSourceBuffer.js:222-240 | track `i` gets a parser in slot `i` feeding its text track; a missing text track ends setup unfinished |
| EmbeddedCc.SetupStep | src/streaming/TextSourceBuffer.js:222 | setup runs only while slots 0 and 1 are both empty |
| EmbeddedCc.FeedAfter | src/streaming/TextSourceBuffer.js:538-552 | slot `k`'s parser gets field `k`; an occupied slot past the two fields throws a TypeError and stops the feed |
| EmbeddedCc.Resets | src/streaming/TextSourceBuffer.js:530-534 | one `reset` per occupied slot among the first `n`, in slot order |
| EmbeddedCc.ResetStep | src/streaming/TextSourceBuffer.js:758-768 | `resetEmbeddedCc` resets every occupied parser and then restores the initial state |
| EmbeddedCc.AddTrack | src/streaming/TextSourceBuffer.js:750-756 | adding a track keeps the state valid: only CC1 and CC3 enter the list |
| EmbeddedCc.SetSlot | src/streaming/TextSourceBuffer.js:238 | assigning slot `i` sets it, grows the list to `i + 1` if needed and leaves every other slot as it was |
| EmbeddedCc.DataCalls | src/streaming/TextSourceBuffer.js:545-547 | one `addData` per entry |
| EmbeddedCc.SetupSlots | src/streaming/TextSourceBuffer.js:222-240 | track `i` gets a parser in slot `i` for its text track exactly when every track up to `i` has one; setup completes if and only if all do; no other slot changes |
| EmbeddedCc.SetupAbortSticks | src/streaming/TextSourceBuffer.js:233-236 | a missing text track ends the setup with the slots filled so far |
| EmbeddedCc.ResetsMembers | src/streaming/TextSourceBuffer.js:530-534 | the reset loop resets exactly the occupied slots |
| EmbeddedCc.ResetsOrdered | src/streaming/TextSourceBuffer.js:530-534 | the resets come in increasing slot order, so none is repeated |
| EmbeddedCc.ResetsSlots | src/streaming/TextSourceBuffer.js:530-534 | each occupied slot is reset exactly once, in slot order, and nothing else |
| EmbeddedCc.DataCallsIndex | src/streaming/TextSourceBuffer.js:545-547 | call `i` is `addData(time_i / timescale, bytes_i)` for entry `i` |
| EmbeddedCc.SlotCallsShape | src/streaming/TextSourceBuffer.js:545-550 | a parser gets its field's entries in order, then one `cueSplitAtTime(endTime / timescale)` if and only if endTime is non-zero |
| EmbeddedCc.DataCallTimesOrdered | src/streaming/TextSourceBuffer.js:545-547 | sorted entries are fed in nondecreasing time |
| EmbeddedCc.FeedSlots | src/streaming/TextSourceBuffer.js:538-552 | the feed loop throws if and only if an occupied slot has no field; it resets nothing and calls only occupied slots |
| EmbeddedCc.FeedThrowSticks | src/streaming/TextSourceBuffer.js:539-545 | once the feed loop throws, later slots add nothing |
| EmbeddedCc.StepValid | src/streaming/TextSourceBuffer.js:188-556 | every `append` keeps the state valid |
| EmbeddedCc.TimescaleSetOnce | src/streaming/TextSourceBuffer.js:189-221 | the initialization segment sets the timescale only while it is 0 and changes nothing else; before that a media segment does nothing |
| EmbeddedCc.GapResetsBeforeData | src/streaming/TextSourceBuffer.js:528-552 | on a new sequence number that does not follow the last one, the calls start with one reset per occupied parser, then no reset; otherwise no reset at all |
| EmbeddedCc.Redelivery | src/streaming/TextSourceBuffer.js:222-528 | a media segment whose number is already recorded makes no call and returns; only setup, which runs first, may fill parser slots, and once slot 0 or 1 holds a parser nothing changes |
| EmbeddedCc.ImmediateRepeatIgnored | src/streaming/TextSourceBuffer.js:222-554 | a segment the step just recorded, arriving again straight away with any bytes, changes nothing and makes no call |
| EmbeddedCc.RedeliveryCanSetUp | src/streaming/TextSourceBuffer.js:222-528 | segment 5 recorded with no track, then CC1 added: segment 5 again installs the CC1 parser in slot 0 without a call |
| EmbeddedCc.ResetRestoresInitial | src/streaming/TextSourceBuffer.js:758-768 | `resetEmbeddedCc` resets each occupied parser once in slot order and restores the initial state, in which media segments do nothing |
| EmbeddedCc.Cc3OnlyTrackGetsField0 | src/streaming/TextSourceBuffer.js:222-551 | with CC3 as the only track, its parser sits in slot 0 and receives field 0 |
| EmbeddedCc.SetUpParsersStay | src/streaming/TextSourceBuffer.js:222-552 | once slot 0 or 1 holds a parser, the slots never change and only occupied slots get calls |
| EmbeddedCc.LateCc3TrackNeverFed | src/streaming/TextSourceBuffer.js:222-240 | a setup interrupted at CC3 is never resumed: slot 1 stays empty and gets no call |
| EmbeddedCc.FedInTimeOrder | src/streaming/TextSourceBuffer.js:536-547 | with nondecreasing sample times, each parser is fed in nondecreasing time |
| EmbeddedCc.EmbeddedCcBuffer.constructor | src/streaming/TextSourceBuffer.js:34-38 | the initial state: no tracks, timescale 0, no sequence numbers, no last, two empty slots |
| EmbeddedCc.EmbeddedCcBuffer.AddEmbeddedTrack | src/streaming/TextSourceBuffer.js:750-756 | `addEmbeddedTrack` moves the state as `AddTrack` says and makes no call |
| EmbeddedCc.EmbeddedCcBuffer.ResetParsers | src/streaming/TextSourceBuffer.js:530-534 | the loop makes exactly the calls `Resets` lists and changes no state |
| EmbeddedCc.EmbeddedCcBuffer.ResetEmbeddedCc | src/streaming/TextSourceBuffer.js:758-770 | `resetEmbeddedCc` makes the calls and reaches the state `ResetStep` gives |
| EmbeddedCc.EmbeddedCcBuffer.SetupFieldParsers | src/streaming/TextSourceBuffer.js:222-240 | the setup loop fills the slots as `SetupAfter` says and reports whether it finished |
| EmbeddedCc.EmbeddedCcBuffer.FeedFields | src/streaming/TextSourceBuffer.js:538-552 | the feed loop makes the calls `FeedAfter` lists and reports whether it threw |
| EmbeddedCc.EmbeddedCcBuffer.ProcessNewSegment | src/streaming/TextSourceBuffer.js:528-555 | a new sequence number moves the state, the calls and the outcome as `NewSegment` says |
| EmbeddedCc.EmbeddedCcBuffer.AppendMediaSegment | src/streaming/TextSourceBuffer.js:196-555 | a media segment moves the state, the calls and the outcome as `MediaStep` says |
| EmbeddedCc.EmbeddedCcBuffer.Append | src/streaming/TextSourceBuffer.js:188-556 | the video branch of `append` moves the state, the calls and the outcome as `VideoStep` says, keeping the state valid |
| TextTracks.IsDefault | src/streaming/TextSourceBuffer.js:724-739 | the TypeError is returned exactly when one embedded track meets a truthy numeric id (no `substring`), or there are neither embedded tracks nor media infos; otherwise a result |
| TextTracks.OnlyCc1DefaultAmongSeveral | src/streaming/TextSourceBuffer.js:729-730 | with several embedded tracks, an embedded track is default if and only if it is CC1 |
| TextTracks.SingleEmbeddedIsDefault | src/streaming/TextSourceBuffer.js:731-734 | a single embedded track is the default |
| TextTracks.FirstMediaInfoIsDefault | src/streaming/TextSourceBuffer.js:735-737 | without embedded tracks and with distinct indices, exactly the first media info is default |
| TextTracks.GetParser | src/streaming/TextSourceBuffer.js:772-780 | the VTT parser if and only if `text/vtt`; the TTML parser if and only if `application/ttml+xml` or `application/mp4` |
| FragmentedText.Rebased | src/streaming/TextSourceBuffer.js:175 | every sample is kept |
| FragmentedText.FirstSampleAtChunkStart | src/streaming/TextSourceBuffer.js:172-175 | a freshly computed anchor puts the first sample at the chunk start |
| FragmentedText.RebasedKeepsSpacing | src/streaming/TextSourceBuffer.js:175 | rebasing keeps the distance between any two samples |
| FragmentedText.AnchorSticksUnlessZero | src/streaming/TextSourceBuffer.js:172-174 | a non-zero anchor never changes; an anchor of 0 is recomputed from the next segment |
| FragmentedText.FragmentedTextBuffer.constructor | src/streaming/TextSourceBuffer.js:172 | the anchor starts unset (0) |
| FragmentedText.FragmentedTextBuffer.RebaseSamples | src/streaming/TextSourceBuffer.js:171-175 | the sample loop sets the anchor as `Anchored` says and shifts every sample time by it in place |

## Left out

- **Box parsing is not modelled.** The parsing done by `boxParser.parse`,
  `fragmentExt.getSamplesInfo` and `fragmentExt.getMediaTimescaleFromMoov` is
  foreign code. Its outputs are inputs here: the `moof` offset, the `tfdt`
  base time, the `trun` boxes, the sequence number and the `moov` timescale.
- `FragmentTiming.CcSpec`, and with it `FragmentTiming.CheckCc`: assume the
  boxes are present and complete.
  - Every `trun` sample has its own size, duration and composition offset.
    Without `tfhd` defaults the source computes NaN from `undefined`. The
    times become NaN, the sample positions after the first are NaN so no
    later window is found, and a NaN end time is falsy, so
    `cueSplitAtTime` is skipped. None of this is modelled.
  - `trun.data_offset` is present, and `trun.sample_count` is the number of
    samples.
  - A fragment without `moof`, `mfhd` or `tfdt` is not modelled. There,
    reading `offset`, `sequence_number` or `baseMediaDecodeTime` from
    `undefined` throws a TypeError.
- **The caption parser is an opaque sink.** `cea608parser.Cea608Parser` is not
  part of this model. Its `reset`, `addData` and `cueSplitAtTime` calls are
  recorded, with their arguments, in the order they are made.
- **Track lookups are inputs.** `getTrackIdxForId` results are an input
  (`EmbeddedCc.TrackLookup`).
- **Text track creation and rendering are not modelled.** These are:
  `createTextTrackFromMediaInfo` (called from the initialization segment
  branch), `makeCueAdderForIndex`, `createHTMLCaptionsFromScreen`, the DOM, and
  `setTextTrack`. A field parser records only which text track its cues go to.
- **`abort` is not modelled.** It runs at the end of `resetEmbeddedCc`. It
  deletes every text track, clears `parser`, `sp`, `isFragmented` and
  `allTracksAreDisabled`, and sets `mediaInfos` to `null`.
- `TextTracks.IsDefault`: with more than one embedded track, the source
  returns `mediaInfo.id && mediaInfo.id === "CC1"`, which for a falsy id is
  the id itself (`""` or `0`) rather than `false`. The model returns `false`.
  Both are falsy, so no caller of `getIsDefault` can tell them apart.
- `TextTracks.IsDefault`: takes the media infos as a parameter, so it does not
  show that after `resetEmbeddedCc` (through `abort`) the call with no
  embedded track reads `null[0]` and throws until `mediaInfos` is set again.
- **The rest of the out-of-band text path is not modelled.** Only the anchor is
  modelled. Left out: `this.buffered` (`customTimeRanges`), UTF-8 decoding,
  TTML and WebVTT parsing, `addCaptions`, and the `try`/`catch` around them.
- **Logging is not modelled.** This covers every `console` call, including the
  "Too many truns" notice.
- **Numbers are exact.** JavaScript numbers are doubles. Here byte offsets,
  sizes and times in timescale units are unbounded integers. Seconds
  (`time / timescale`) are exact rationals.
- `FragmentedText.FragmentedTextBuffer.RebaseSamples`: takes
  `chunk.start * timescale` as an integer parameter rather than a
  floating-point product. An undefined `firstSubtitleStart` is the value 0,
  which is falsy in the same way.
- **Some values are rebuilt, not mutated.** `insertInOrder` splices the array
  it is given, and `checkNalus`/`processCCWindow` push into local arrays. Here
  they build new sequences. Nothing else holds those arrays, so no aliasing is
  lost.
- **Media info ids are a string or an unsigned integer** (`EmbeddedCc.Id`).
  Only a string can equal "CC1" or "CC3" under `===`, and `getIsDefault`
  throws when it calls `substring` on a truthy numeric id. Other JavaScript
  values as ids, such as `undefined` or `null`, are not modelled.
- `EmbeddedCc.SetupAfter`: assumes every track id is CC1 or CC3.
  `addEmbeddedTrack` guarantees this. So the case where the setup loop reuses a
  `trackIdx` left over from an earlier track, for an id that is neither, cannot
  arise.
