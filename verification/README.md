# Camera station: recordings, playback and control

These Dafny modules model the parts of CamStation where correctness is hardest to
see from the code, and prove what those parts are for.

**Recordings** (`internal/recordingmedia`). A recording is a fragmented MP4 file.
`ReadIndex` indexes the committed part of a file that is still growing;
`NormalizedMP4` presents a finished one as an ordinary MP4 through a virtual
reader: new sample tables, edit lists and a new movie header over the untouched
source bytes. The two box parsers, the table emitter, the two-pass layout and the
spliced reader are modelled byte for byte, and compared with an independent
reader of ISO/IEC 14496-12 files (`demux.dfy`, `flatfile.dfy`, `sampletables.dfy`).

| files | about |
|---|---|
| `options`, `bytes`, `boxes`, `tracks` | fields, boxes, movie header parser |
| `samples`, `fragments`, `fragmentloops`, `walks`, `agreement` | the record table of track runs, both fragment parsers, their loops, their agreement |
| `boxheaders`, `fragmentwriter`, `writtenmoof`, `writtenheader`, `writtenclock`, `padding`, `keyframes` | writers of boxes, fragments and movie headers, and that the parsers read exactly what was written |
| `flatscan`, `scanloops`, `scanlemmas`, `sourcetruth` | the scan as specification and as loops, and what it collects |
| `boxorder`, `acceptance`, `presentable`, `layout`, `nextfragment`, `nextwritten` | which files are accepted and presented, box by box, and fragment after fragment |
| `stretches`, `firstfragments`, `lateclocks` | runs with clocks of their own: the fragment that introduces a track, and decode times behind a run |
| `flatmovie`, `timing`, `producerclock` | origin, delays, edit lists and the list of producer references |
| `sampletables`, `tableloops`, `movieboxes`, `boxloops`, `carried` | the emitter as specification and as loops, and the table round trip |
| `normalized`, `normalizer`, `toplevel`, `reread`, `moviereader` | layout, idempotence and the virtual reader |
| `demux`, `flatfile`, `endtoend`, `presentation`, `origins`, `producerview`, `samplereads` | the independent reader, and the end-to-end theorems about samples, times, edits and producer references |
| `specimenparts`, `specimenscan`, `specimenheader`, `specimen`, `specimenfar`, `specimentwo`, `specimenindex` | small recordings, one for each case the theorems tell apart, and one of two fragments |
| `recordingindex`, `indexloops`, `fragmentclocks`, `indexacceptance`, `indexgrowth` | indexing a growing file, as specification and as loops, what the recorded times mean, and which files are indexed, box by box |

**Playback** (`internal/store/playback*.go`, `cmd/camstationd/routes_playback.go`).
Tables are maps; statements run with the triggers of the schema. `playbackdb`,
`lookupruns` and `playbackstore` cover the lookup, its migration and the in-place
form, `lookupmeaning` what the lookup and each operation say of a row, `publication`,
`publishedinterval` and `histories` the append-only publication of a growing file
amid everything else, and `listings`, `playback`, `resolution` and `seeking` the
queries, cursor paging, gaps, the one right answer to an instant, and seeking.

**Camera control** (`ptzgate`, `ptzprogress`) is the generation, gate and cancel
protocol between commands and stops as a step machine with any number of both.
**Viewer updates** (`committoken`, `updategate`, `healthybeats`) are the window of
health behind a commit token. **Logs** (`logrotation`, `logstart`) are the rotating
writer.

`hide` statements in proofs only keep definitions out of the solver's way.

The bytes, sizes, durations and order of samples are kept for every recording that
is accepted (`EndToEnd.SamplesPreserved`). Other properties need a condition, or the
code does less than it promises; the model follows the code, and says exactly when:

- While `readFlatMovie` reads the fragment that introduces a track, each run of the
  track overwrites its first decode time. With several such runs the track keeps its
  times, or its duration, only under the conditions of
  `Presentation.FirstFragmentRules`; `Specimen.SplitStartExists` is an accepted file
  that loses both.
- `readRuns` lets a tfdt box behind a run move the first decode time of the whole
  traf box. `LateClocks.TrafTimes` says when the clock survives that, and
  `Specimen.LateClockExists` is an accepted file whose clock does not.
  `Presentation.TimesPreserved` has the condition for whole files.
- A recording without mvhd box is accepted, and gets a header without a movie
  timescale, in which no reader can count the durations of an edit list
  (`Specimen.ClocklessRecordingExists`). One whose track lacks the path to a sample
  table box is accepted, and gets a track without samples
  (`Specimen.TablelessRecordingExists`).
- `ceilMovieTime` cuts to 64 bits without an error, so times are kept exactly when
  the delay, and samples are kept whole exactly when the span, stays below 2^64
  microseconds (`Timing.PresentationKept`, `Timing.NothingCut`, `SpecimenFar.FarDelayExists`).
- A prft box ahead of the movie header stays in the view where it is, besides its
  moved copy (`ProducerView.ReferencesKept`, `Specimen.EarlyReferenceExists`); and a
  moved reference names the same samples only where one clock serves the track
  (`ProducerView.ReferenceNamesSameSample`).
- The lookup relies on SQLite firing the trigger created last first, which its
  comments do not mention. `LookupRuns.OldestFirstOrder` says exactly what would go
  wrong in the other order.
- A legacy file whose start and end round to the same millisecond has a span without
  length; the instants offered beside a gap are playable exactly when the span there
  has length (`Playback.OfferedInstantsPlayable`, `Playback.BriefSpanNotPlayable`).

A *regular* recording (`Presentation.Regular`) has unique track numbers, tfhd and
tfdt ahead of the runs (section 8.8.12 of ISO/IEC 14496-12), and one run of each
track in the fragment that introduces it.

## Model

| member | source | states |
|---|---|---|
| `EndToEnd.SamplesPreserved` | internal/recordingmedia/normalized.go:15-55 | Of every recording that is presented as a flat movie: an independent reader, which refuses edits at another than normal speed and chunks whose sample description is not declared, can read the virtual file if and only if every played track has a sample table box; then it finds the trak boxes of the source that have samples, in header order, each with its header fields and its sample descriptions, the same samples in the same order, the same durations, sizes and sync numbers and byte-identical sample data, a track duration that is the length of its edit list, and, if and only if the source has an mvhd box, a movie clock of microseconds whose duration is that of the longest track |
| `Presentation.TimesPreserved` | internal/recordingmedia/flat.go:155-253 | Of every such track with a movie clock and the header box the scan went by: each sample is presented within [0, 1 microsecond) of its recorded time minus the common origin, by its own edit list and the timescales read from the file, if and only if its delay fits 64 bits; the recorded times are those of the track's own runs if and only if one clock, from the first counted run on, gives every run its start; and its mdhd duration is the sum of its stts durations if and only if the counted runs span the sum of the durations of all runs; whatever the order of boxes |
| `Presentation.FirstFragmentRules` | internal/recordingmedia/flat.go:155-172 | With clock boxes ahead of their runs, a track of the view keeps the times of its fragments if and only if the runs of the fragment that introduces it all start alike and only the last one lasts, and its mdhd duration is the sum of its stts durations if and only if only the last one lasts; for any number of runs and any later fragments |
| `Presentation.SamplesWhole` | internal/recordingmedia/flat_boxes.go:165-181 | The edit list read from the virtual file cuts no sample of such a track if and only if the counted runs of the source, from earliest start to latest end in 64 bits of movie ticks, cover all its samples counted from the first of those runs; in a regular recording if and only if the span of the track fits 64 bits, whatever the delay |
| `Presentation.SkewBounded` | internal/recordingmedia/flat.go:226-253 | Any two samples of any two tracks of the view keep their distance in time to the microsecond, once one clock serves each track and both delays fit |
| `Origins.OriginIsEarliest` | internal/recordingmedia/flat.go:226-237 | The common origin is the earliest start of the counted runs; it is the earliest presentation of all samples of the source if and only if no run of the file starts before it and one starts at it, and with clock boxes first if and only if no overwritten run of a first fragment starts before it |
| `SampleReads.ReadSample` | internal/recordingmedia/normalized.go:66-102 | Fetching sample i of a track of any readable view at the position its tables give, through `ReadAt`, returns the bytes that sample has in its source fragment |
| `Specimen.RegularRecordingExists` | internal/recordingmedia/normalized.go:15-55 | A recording with an mvhd box is accepted, readable and regular, with delays and spans that fit, so the conditions of the theorems above can be met |
| `Specimen.ClocklessRecordingExists` | internal/recordingmedia/flat_boxes.go:20-29 | A recording without mvhd box is accepted and readable, and its view has no movie clock |
| `Specimen.TablelessRecordingExists` | internal/recordingmedia/flat_boxes.go:103-131 | A recording whose track has no minf box is accepted, and its view cannot be read |
| `Specimen.SplitStartExists` | internal/recordingmedia/flat.go:159-172 | A recording whose first fragment has two consecutive traf boxes of its track is accepted, and its view has other sample times and another media duration than its samples |
| `Specimen.LateClockExists` | internal/recordingmedia/index.go:462-478 | A recording with a second tfdt behind a run is accepted, the two parsers give its traf box different clocks, and its view has other sample times and another media duration than its samples |
| `Specimen.EarlyReferenceExists` | internal/recordingmedia/normalized.go:52-54 | A regular recording with a prft box ahead of its movie header is accepted, and the prft boxes of its view are not just the moved references |
| `SpecimenFar.FarDelayExists` | internal/recordingmedia/flat.go:282-286 | A regular recording of two tracks, the second starting 18446744073710 seconds after the first, is accepted, and the first sample of the second track is presented 0.448384 seconds after the origin |
| `EndToEnd.BytesKept` | internal/recordingmedia/flat_boxes.go:269-294 | Positions decoded from stsc, stsz and co64 name, in the virtual file, exactly the bytes each sample has at moof offset + data offset + preceding sizes in the source |
| `FlatFile.ViewReads` | internal/recordingmedia/normalized.go:34-54 | An independent reader of the virtual file finds its new movie header, reads its movie clock from mvhd, and reads it track by track, if and only if every played track has a sample table |
| `FlatFile.MovieViews` | internal/recordingmedia/flat_boxes.go:20-73 | The rewritten movie header reads as the tracks with samples, in order, if and only if each has a sample table |
| `Demux.NewTrakView` | internal/recordingmedia/flat_boxes.go:74-131 | A rewritten trak box reads as a track with its durations, its edit list at normal speed, its sample descriptions and the samples it was made from, if and only if there was a table box to rewrite |
| `Reread.DurationReads` | internal/recordingmedia/flat_boxes.go:132-164 | The rewritten mvhd, tkhd or mdhd is of version 1 and carries the new duration in 64 bits and, where one was given, the new timescale, with its flags and everything behind the duration unchanged |
| `EndToEnd.TablesPlaceSamples` | internal/recordingmedia/flat_boxes.go:269-294 | Chunk offsets, chunk counts and sizes place the samples run by run where the shifted runs lie |
| `TopLevel.Idempotent` | internal/recordingmedia/normalized.go:15-33 | Normalising the virtual file again passes it through unchanged |
| `TopLevel.NewHeaderNotFragmented` | internal/recordingmedia/flat.go:60-75 | At the new movie header the scan decides that the virtual file is not fragmented |
| `TopLevel.ViewTiles` | internal/recordingmedia/normalized.go:34-54 | The top-level boxes of the view tile it: the source boxes ahead of moov, one moov, the rewritten prft boxes, one 64-bit mdat that ends exactly at the end of the file |
| `Normalized.SizeExact` | internal/recordingmedia/normalized.go:38-54 | The delta measured in the first pass is the growth of the file made in the second: the announced size is the length of the spliced contents, and stays in int64 |
| `MovieBoxes.LayoutFixpoint` | internal/recordingmedia/normalized.go:34-46 | The length of the emitted moov does not depend on the offset delta |
| `Presentable.NormalizedExactly` | internal/recordingmedia/normalized.go:15-55 | Of every file, by its top-level boxes alone: it is presented if and only if it starts with an ftyp box, every box fits those ahead of it, some fragment is there and none left open, every producer reference can be read and moved, spans and layout fit their integers; it is left alone if and only if it is no MP4, a box behind others that fit tells that it is no recording of this program, or it has no fragment; it is refused otherwise |
| `Normalizer.NormalizedMP4` | internal/recordingmedia/normalized.go:15-55 | The program presents exactly the presentable files, with the specified view, leaves exactly the foreign ones alone, and answers with an error otherwise |
| `Presentable.FlatExactly` | internal/recordingmedia/flat.go:47-280 | readFlatMovie makes a movie of a file if and only if the scan accepts it, with at least one fragment and none left open, at least one producer reference, all of them readable, of tracks with samples and movable within 64 bits and 16 MiB, and no span beyond 64 bits; it passes a file if and only if the scan does or no fragment is there |
| `Normalizer.BuildMovie` | internal/recordingmedia/flat.go:47-280 | The program of readFlatMovie makes the specified movie of exactly the finished recordings, and passes exactly the files that are none |
| `NextFragment.NextFragmentAccepted` | internal/recordingmedia/flat.go:76-196 | A recording followed by one more prft, moof and mdat box is accepted if and only if the moof box is at most 16 MiB, all its clocks and runs are of version 0 or 1, both parsers accept it, its sequence number is higher than the last one, it has runs, every run of a track with samples starts where the run before it of that track stopped, and all data lies in the mdat box; refused otherwise; and what the next fragment must go on from is what this one left |
| `NextFragment.NextFragmentPresented` | internal/recordingmedia/normalized.go:15-55 | A presented file is presented with one more fragment as well if and only if the fragment goes on from it and its references, spans and layout still fit; it is refused if the fragment does not go on |
| `NextWritten.WrittenFragmentContinues` | internal/recordingmedia/flat.go:79-196 | The same from what a muxer writes: sequence number, versions, tracks, decode times and durations of the samples written, data offsets and sizes |
| `SpecimenTwo.TwoFragmentsPresented` | internal/recordingmedia/normalized.go:15-55 | A recording of two fragments is presented, with the samples of both |
| `Normalizer.LayOut` | internal/recordingmedia/normalized.go:34-54 | Both passes and the assembled metadata give the specified view, or an error where a pass or the size guard fails |
| `Layout.HeaderWritable` | internal/recordingmedia/flat_boxes.go:20-73 | The new header can be written if and only if every box of the old one can be carried over - duration headers of version 0 or 1 that are long enough, no edit list in a played track, blank sample tables - all offsets and composition times fit their fields, and the result is at most 16 MiB |
| `Layout.TablesWritable` | internal/recordingmedia/flat_boxes.go:182-295 | The sample tables can be written if and only if the old ones hold one sample description and no sample, all composition offsets fit one version of ctts, and every chunk stays at a non-negative int64 offset |
| `Carried.MovieCarries` | internal/recordingmedia/flat_boxes.go:20-67 | The new movie header has all boxes of other kinds unchanged and in order, and no mvex box |
| `Carried.TrackCarries` | internal/recordingmedia/flat_boxes.go:74-102 | A new trak box has all boxes but tkhd, edts and mdia unchanged and in order |
| `Carried.MediaCarries` | internal/recordingmedia/flat_boxes.go:103-131 | In mdia and minf boxes every box keeps its place, and all but mdhd, minf and stbl boxes their contents |
| `Carried.StblCarries` | internal/recordingmedia/flat_boxes.go:182-215 | A new stbl box is the sample descriptions of the old one and the tables |
| `Reread.HeadIsKept` | internal/recordingmedia/flat_boxes.go:132-164 | A rewritten duration header keeps both times, widened to 64 bits, and the fields in front of the duration, but for a new timescale |
| `MovieReaders.ReadAt` | internal/recordingmedia/normalized.go:66-102 | For every offset and buffer: fills exactly the slice of source[..start] + metadata + source[start+removed..], leaves the rest of the buffer alone, reports the end of the file exactly when the slice is short, and terminates |
| `BoxHeaders.BoxMeans` | internal/recordingmedia/index.go:211-246 | A box is found exactly where its size and kind stand, in 32 or 64 bits, and it ends within bounds; bytes are corrupt exactly when the size is impossible, and everything else may become a box as the file grows |
| `BoxHeaders.ChildrenTile` | internal/recordingmedia/index.go:268-280 | A payload has children if and only if boxes tile it, and then exactly those |
| `Boxes.WalkChildren` | internal/recordingmedia/index.go:268-280 | The loop visits exactly the children of a payload, or fails where a box is malformed |
| `Boxes.EmitThenWalk` | internal/recordingmedia/flat_boxes.go:10-16 | Walking emitted boxes visits exactly the boxes that were emitted |
| `Walks.WalkTracks` | internal/recordingmedia/index.go:283-375 | readTracks: the nested walks and the final pass over the map give the specified tracks with their mvex defaults |
| `WrittenHeader.HeaderReads` | internal/recordingmedia/index.go:283-375 | A movie header from a writer, with any fields, versions and other boxes, is read as its tracks: number, timescale, handler and codec of the last trak box of each number, duration, size and flags of its last trex box, zeros without one; refused for a track without number or timescale, and not fragmented without trex boxes |
| `Padding.MoovSkip` | internal/recordingmedia/index.go:283-375 | readTracks passes over every box it does not name |
| `Reread.NewMovieReads` | internal/recordingmedia/flat_boxes.go:20-73 | The parser finds no track defaults in the new movie header and calls it not fragmented |
| `FragmentLoops.ReadRun` | internal/recordingmedia/index.go:479-577 | The word-by-word run loop, with its int64 guards, computes what the ISO 8.8.8 record table defines: clock, extrema and data end, or refusal |
| `FragmentLoops.ReadPiece` | internal/recordingmedia/flat.go:353-422 | The other word-by-word run loop appends the samples of the same record table, or refuses |
| `FragmentWriter.TfhdMeans` | internal/recordingmedia/index.go:417-461 | A tfhd box leaves given defaults over those of the movie header if and only if it was written for them, with any of its optional fields, any values and any other flags: a field that is there is the default, one that is not leaves that of the trex box |
| `FragmentWriter.TrunMeans` | internal/recordingmedia/index.go:479-577 | A trun box is read as a list of samples over given defaults if and only if it was written for it: of any version, with any choice of written fields and a flag word of its own for the first sample, between 1 and 1000000 samples and a data offset, unwritten fields being the defaults |
| `FragmentWriter.TfdtMeans` | internal/recordingmedia/index.go:462-478 | A tfdt box is read as a decode time if and only if it was written for it, in 64 bits by version 1 and in 32 by any other, and it is an int64 number |
| `Walks.WalkRuns` | internal/recordingmedia/index.go:393-590 | The program of readRuns computes the runs and sequence number the next rows describe |
| `WrittenMoof.RunsReadBack` | internal/recordingmedia/index.go:393-590 | readRuns accepts a moof box from a writer if and only if every track is known, data offsets count from the moof box, decode times are int64 numbers, every track fragment has runs, and every sample has data, a duration unless it is of an mp4a track, and times and data that stay non-negative int64 numbers; it then gives each track fragment the track, decode time, clock and byte ranges of the samples written |
| `Walks.WalkSamples` | internal/recordingmedia/flat.go:288-430 | The program of readSamples computes the pieces the next rows describe |
| `WrittenMoof.SamplesReadBack` | internal/recordingmedia/flat.go:288-430 | readSamples accepts a moof box from a writer if and only if every track is known, offsets count from the moof box, only the first sample description is named and composition offsets are of version 0 or 1; the samples read are then the samples written, at the offsets written |
| `Padding.RunsSkip` | internal/recordingmedia/index.go:404-578 | readRuns sees only tfhd, tfdt and trun boxes of a track fragment, but refuses any box shorter than four bytes |
| `Padding.PiecesSkip` | internal/recordingmedia/flat.go:301-428 | readSamples passes over tfdt and free boxes of a track fragment, and refuses every other kind and any box shorter than four bytes |
| `Padding.PiecesMoofSkip` | internal/recordingmedia/flat.go:289-296 | readSamples passes over mfhd and free boxes of a moof box, and refuses everything but track fragments |
| `WrittenHeader.ReferenceMeans` | internal/recordingmedia/flat.go:203-222 | A prft box is taken as a reference if and only if it was written as one of version 1, of a known track, between the years 2000 and 2100, with the media time written |
| `WrittenHeader.ProducerReferenceMeans` | internal/recordingmedia/index.go:376-388 | The index takes the same boxes of whatever track, with their wall clock to the nearest millisecond |
| `Keyframes.KeysAreSync` | internal/recordingmedia/index.go:555-561 | A run counts as a keyframe run if and only if the first sample of the first trun box of its track fragment is a sync sample by its ISO flags: bit 0x10000 clear and depends-on not 1 |
| `NextWritten.WrittenKeyframe` | internal/recordingmedia/index.go:555-561 | Of a written fragment: if and only if its first sample was written as one |
| `Agreement.ParsersAgree` | internal/recordingmedia/index.go:393-590 | Whenever readRuns and readSamples both accept a moof, run k has the byte ranges of the k-th sample list, and with clock boxes first also its decode end and its first, earliest and latest presentation |
| `Agreement.MoofRunsInRange` | internal/recordingmedia/index.go:552-574 | No sum guarded in readRuns leaves the non-negative int64 range, for any moof it accepts |
| `LateClocks.TrafTimes` | internal/recordingmedia/index.go:404-577 | For any traf box both parsers accept, in any box order: counting its samples from the reported decode time, that of its last tfdt, gives each the time of its own run if and only if the first run starts there and every run goes on where the one before stopped; the clocks of the two parsers agree if and only if the first run starts there, the last one stops where the durations lead, and the extrema are those of one clock |
| `LateClocks.ScanOwnTimes` | internal/recordingmedia/index.go:462-478 | With clock boxes ahead of their runs, timing every run by its own decode time and timing every traf by its reported one is the same, over whole files |
| `LateClocks.ScanTally` | internal/recordingmedia/flat.go:155-172 | Whatever the order of boxes, first decode time, decode end, earliest presentation and latest end the scan keeps of a track are those of its counted runs: the last one up to the fragment that brings its first samples, and every later one |
| `SampleTables.TablesRoundTrip` | internal/recordingmedia/flat_boxes.go:213-294 | Decoding stsd, stts, ctts of version 0 or 1, stss, stsz, stsc with its description numbers, and co64 recovers exactly the sample descriptions, durations, shifted composition offsets, sync numbers, sizes, chunk counts and offsets |
| `SampleTables.RunLengthsExpand` | internal/recordingmedia/flat_boxes.go:222-228 | The run-length table expands to the list it was made from, and neighbouring entries differ |
| `SampleTables.GroupsNameEveryChunk` | internal/recordingmedia/flat_boxes.go:274-281 | Looking up any chunk number in stsc gives that chunk's number of samples |
| `SampleTables.SyncNumbersAre` | internal/recordingmedia/flat_boxes.go:239-241 | The sync table lists in ascending order exactly the one-based numbers of the sync samples |
| `TableLoops.EncodeStbl` | internal/recordingmedia/flat_boxes.go:182-295 | sampleTable: the passes over samples and chunks emit the specified table boxes, or fail where one does not fit |
| `BoxLoops.MovieBox` | internal/recordingmedia/flat_boxes.go:20-73 | movieBox: the walk rewrites mvhd and traks, drops mvex and empty tracks, keeps the rest, and limits the size |
| `BoxLoops.TrackBox` | internal/recordingmedia/flat_boxes.go:74-102 | trackBox: tkhd rewritten and followed by the edit list, mdia rewritten, a present edit list refused |
| `Acceptance.ScanAccepts` | internal/recordingmedia/flat.go:54-197 | The scan accepts a file, of any number of fragments, if and only if it is made of whole boxes each of which fits the boxes ahead of it: one movie header that reads as tracks, fragments that go on from the ones before, the first of them with all starts in the year 2000 or later, and each followed by media data that holds its ranges; it leaves a file alone if and only if a box behind others that fit tells that it is of another kind |
| `WrittenClock.ClocksReadBack` | internal/recordingmedia/flat.go:87-104 | The versions of a written fragment are known if and only if all its clocks and runs are of version 0 or 1 |
| `WrittenClock.StartsReadBack` | internal/recordingmedia/flat.go:108-150 | A written fragment is on the recording clock if and only if it has track fragments and each decode time over its timescale is the year 2000 or later |
| `ScanLoops.ScanBoxes` | internal/recordingmedia/flat.go:54-197 | The loop over the top-level boxes, down to its word-by-word run loops, gets to the end of exactly the files that are accepted, and leaves exactly those alone in which a box tells that they are of another kind; at the end all collected data lies behind the movie header and inside the file or is still pending, every track is one of the header, and all clocks are int64 numbers |
| `ScanLemmas.ScanKeeps` | internal/recordingmedia/flat.go:76-196 | In every finished scan the data of every collected sample lies behind the movie header and inside the file |
| `ScanLemmas.ScanKeepsRange` | internal/recordingmedia/flat.go:155-172 | Whatever file is accepted, first and next decode time and extrema of every track stay non-negative int64 numbers |
| `ScanLemmas.ScanKeepsClocks` | internal/recordingmedia/flat.go:155-177 | Over an orderly file every track's first and next decode time, minimum and maximum are those of its samples across all fragments |
| `SourceTruth.ScanCollects` | internal/recordingmedia/flat.go:54-197 | The scan collects for each track exactly the pieces of all fragments, in file order |
| `SourceTruth.ScanTimes` | internal/recordingmedia/flat.go:155-172 | Over an orderly file, counting on from the first decode time gives every sample the time its own fragment gives it |
| `Stretches.SteadyTimes` | internal/recordingmedia/flat.go:155-172 | One clock gives every sample the time of its own run if and only if every run starts where that clock has come by then |
| `FlatMovie.FindOrigin` | internal/recordingmedia/flat.go:226-237 | The origin is the earliest presentation of any track with samples, in whatever order the tracks are visited |
| `FlatMovie.PlanTracks` | internal/recordingmedia/flat.go:238-253 | Every track with samples gets its plan and the movie the longest span, or the sum of delay and duration overflows |
| `FlatMovie.RewriteAll` | internal/recordingmedia/flat.go:254-278 | The rewritten references in order, or refusal when one does not fit or they outgrow the limit |
| `Timing.PresentationKept` | internal/recordingmedia/flat.go:226-253 | Under the emitted edit list sample i is presented at its time minus the origin plus an error common to the track, in [0, 1 microsecond) if and only if the delay fits 64 bits |
| `Timing.NothingCut` | internal/recordingmedia/flat_boxes.go:165-181 | The media edit holds every sample whole if and only if it covers their extrema; where the scan counted those right, if and only if the span from earliest presentation to latest end fits 64 bits |
| `ProducerView.ReferencesKept` | internal/recordingmedia/flat.go:254-278 | The prft boxes of the virtual file are those ahead of the source's movie header, unchanged, and then one moved reference for each prft box of the source, in order, with its wall clock and the media time moved by the track's first decode time and composition shift; they are the moved references alone if and only if none lies ahead of the movie header |
| `ProducerView.ReferenceNamesSameSample` | internal/recordingmedia/flat.go:254-278 | A moved reference of a track read from the virtual file stays as far from the decode plus composition time that the track's tables give each sample as it was from the sample's time in the source, and so goes on naming the same samples whatever its media time, if and only if one clock gives every run of the track its start; one that names a recorded time always names that sample |
| `IndexAcceptance.IndexedExactly` | internal/recordingmedia/index.go:73-209 | The first n bytes of a file are indexed if and only if each whole box is one that may follow those ahead of it and nothing corrupt is behind them: references of this century, fragments behind a reference to a video track with a higher sequence number, and media data that holds the ranges, whose decode times go on, whose video run starts with a sync sample, lasts, and keeps the lead of the producer clock within 2 ms of that of the first fragment; the index has one fragment for each mdat box, with the times of its video run; a file is called not fragmented if and only if the first box that does not fit tells so or its header has no tracks |
| `IndexGrowth.NextFragmentIndexed` | internal/recordingmedia/index.go:107-206 | Behind an index without an open fragment, one more prft, moof and mdat box add exactly one fragment, with the interval of the video run on both clocks, if and only if they join it, and break the index otherwise |
| `IndexGrowth.FragmentsStartOnKeyframes` | internal/recordingmedia/index.go:163-165 | Every fragment of an index is that of an mdat box, and the first sample of its video run is a sync sample by its ISO flags |
| `SpecimenIndex.TwoFragmentsIndexed` | internal/recordingmedia/index.go:73-209 | A recording of two fragments is indexed with two, and with one when only the first is whole |
| `IndexLoops.IndexLoop` | internal/recordingmedia/index.go:73-209 | The loop over a growing file, down to its word-by-word run loops, indexes exactly those files with exactly that index, and calls exactly the others not fragmented that are; the fragments it reports are disjoint, in sequence order, inside the committed bytes and on one producer clock, and the committed bytes are inside the file |
| `RecordingIndex.PrefixMonotone` | internal/recordingmedia/index.go:73-209 | For n <= m, if both lengths index, the fragments of n are a prefix of those of m and the committed offset does not decrease |
| `RecordingIndex.WalkResumes` | internal/recordingmedia/index.go:83-90 | A longer file continues where the shorter one stopped, and repeats its errors |
| `RecordingIndex.ErrorsStay` | internal/recordingmedia/index.go:83-209 | An error met in the first n bytes is met at every longer length |
| `RecordingIndex.CommittedWhole` | internal/recordingmedia/index.go:139-201 | Indexed fragments are disjoint, in sequence order, non-empty in bytes and time, inside the committed bytes, and agree on the producer clock within 2 ms |
| `RecordingIndex.CommittedSuffices` | internal/recordingmedia/index.go:193-195 | The committed bytes alone yield the same fragments |
| `FragmentClocks.FragmentTells` | internal/recordingmedia/index.go:163-201 | Every fragment of an index comes from a prft, a moof and an mdat box of the file; its interval holds all video samples of the moof box on the producer clock, each end within a millisecond of that of a sample, and its media interval is the same samples on the media clock, which for all fragments counts from the earliest decode time of the first |
| `FragmentClocks.OriginStays` | internal/recordingmedia/index.go:166-174 | Once a fragment is indexed the origin of the media clock does not change |
| `LookupMeaning.LookupMeans` | internal/store/playback_lookup_schema.go:10-98 | Whenever the invariant holds: a fragmented file has cached times if and only if it has fragment rows, the earliest start and latest end of them; any other file if and only if it is ready and ends behind its start, to the nearest millisecond; and the range table has exactly the files with cached times that are ready, recording, finalizing or failed, with their coordinates rounded |
| `LookupMeaning.OperationDoes` | internal/store/recordings.go:13-113 | What each operation does to the rows: opening adds the row given, closing sets end and status of a file that is recording, finalizing or failed, status changes set the status, deleting works on ready files, a publication writes the interval of its fragments; nothing else changes |
| `PlaybackDb.UpdateKeeps` | internal/store/playback_lookup_schema.go:54-71 | Any UPDATE that leaves the cached columns to the triggers keeps extrema and range table exact |
| `PlaybackDb.InsertKeeps` | internal/store/playback_lookup_schema.go:52-67 | Opening a file keeps extrema and range table exact |
| `PlaybackDb.InsertMediaKeeps` | internal/store/playback_lookup_schema.go:57-59 | Turning a file into a fragmented one clears its extrema and takes it off the range table |
| `PlaybackDb.InsertFragmentKeeps` | internal/store/playback_lookup_schema.go:60-66 | A new fragment row widens the extrema to those of all rows of the file |
| `LookupRuns.LookupStaysExact` | internal/store/playback_lookup_schema.go:10-98 | After any sequence of opens, reopens, closes, status changes, deletes and publications, cached extrema are the minimum start and maximum end of the fragment rows, legacy files carry the rounded ready interval or nothing, and the range table lists exactly the available files |
| `LookupRuns.RangeRowsOrdered` | internal/store/playback_lookup_schema.go:95-98 | A range row never has its start behind its end, and belongs to an available file |
| `LookupRuns.OldestFirstOrder` | internal/store/playback_lookup_schema.go:54-71 | Were the older trigger to fire first, closing or marking a legacy file would keep the lookup exact if and only if its status stays, or it is not playable afterwards and was not playable or is no longer listed |
| `LookupRuns.Backfill` | internal/store/playback_lookup_schema.go:32-51 | The migration establishes the invariant from any database without the lookup, and changes no column but those of the lookup |
| `PlaybackStore.Store.constructor` | internal/store/playback_lookup_schema.go:15-50 | An empty database satisfies the invariant |
| `PlaybackStore.Store.UpdateSegment` | internal/store/playback_lookup_schema.go:54-71 | In place, with both triggers in the order SQLite fires them, and keeping the invariant |
| `PlaybackStore.Store.InsertSegment` | internal/store/playback_lookup_schema.go:52-67 | In place, with the insert triggers, and keeping the invariant |
| `PlaybackStore.Store.AddFragments` | internal/store/playback_media.go:64-80 | The row-by-row loop inserts what is missing and stops at the first published row that differs |
| `PublishedInterval.PublishedExactly` | internal/store/playback_media.go:21-75 | A publication goes through if and only if the index has fragments, each inside the committed bytes, lasting on both clocks and behind the one before, the file is there and not deleted, its media row is absent or of the same media and not ahead, and no row it has differs; each other outcome has its own exact condition |
| `PublishedInterval.PublishWrites` | internal/store/playback_media.go:60-85 | After a publication the row of the file runs from the start of the first fragment of the index to the end of the last one, with its camera and status as before, and no other row is touched |
| `PlaybackStore.Store.PublishRecordingMedia` | internal/store/playback_media.go:21-86 | In place: the whole publication is there afterwards exactly when it may go through, with the interval of its fragments in the row of the file and no other row touched, or nothing changed, and the invariant is kept |
| `Publication.PublishKeeps` | internal/store/playback_media.go:21-86 | A publication keeps the lookup exact, adds only rows of its index, changes or removes none, and never lowers the committed offset |
| `Publication.ExtensionAccepted` | internal/store/playback_media.go:64-75 | An index that extends the published one of the same media is accepted |
| `Histories.PublicationFollowsFile` | internal/store/playback_media.go:21-86 | Whatever looks are taken at a growing file, whichever of them are refused, and whatever opens, closes, status changes, deletes and publications of other files happen in between, the stored rows are the fragments of the last accepted index, in order, disjoint and inside its committed bytes, and the row of the file starts with the first of them and ends with the last one unless the file was closed since |
| `Histories.PublishedRowsStay` | internal/store/playback_media.go:60-80 | Every such event leaves all published rows as they are and lowers no committed offset |
| `Seeking.ReadsBackIndex` | internal/store/playback_media.go:108-124 | Reading the rows by sequence yields the fragments of the published index |
| `Seeking.CachedStartIsFirst` | internal/store/playback_lookup_schema.go:60-66 | The cached start of a published file is the start of its first fragment |
| `Seeking.SeekWithinClock` | cmd/camstationd/routes_playback.go:148-165 | For any instant inside fragment i of a file published amid such events, the offset handed out is within 2 ms of that fragment's media start plus the offset into it |
| `Listings.DescendingLists` | internal/store/playback.go:171 | A listing names every row once, in strictly descending order |
| `Listings.ListingUnique` | internal/store/playback.go:102 | No other sequence is such a listing |
| `Playback.RangeQueryExact` | internal/store/playback.go:88-93 | With any outward-rounded coordinates the query returns precisely the available spans overlapping the window |
| `Playback.FoundExactly` | internal/store/playback.go:88-93 | A span is returned if and only if it is shown, starts before the end of the window and ends behind its start; when both last, if and only if some instant of the window is held by it |
| `Playback.SegmentsPage` | cmd/camstationd/routes_playback.go:228-247 | The page is the front of the listing, at most the limit, with its last span as cursor exactly when something follows |
| `Playback.CursorContinues` | cmd/camstationd/routes_playback.go:228-247 | After n spans the cursor of the last one selects exactly the rest |
| `Playback.FollowCursors` | cmd/camstationd/routes_playback.go:197-248 | Following nextCursor visits every overlapping span exactly once, in descending (start, id) order |
| `Playback.NeighboursBoundGap` | internal/store/playback.go:151-153 | When no span covers an instant, none covers any instant from the previous end up to the next start |
| `Playback.OfferedInstantsPlayable` | cmd/camstationd/routes_playback.go:166-177 | The instants offered on both sides of the gap are playable if and only if a span of positive length ends, or starts, there |
| `Playback.BriefSpanNotPlayable` | cmd/camstationd/routes_playback.go:166-177 | Opening a file and closing it a tenth of a millisecond later leaves a listed span without length, with the lookup exact, and neither instant offered beside it can be played |
| `Playback.FragmentedHaveLength` | internal/store/playback_lookup_schema.go:60-66 | A fragmented span always has positive length |
| `Playback.SpansAtInstant` | cmd/camstationd/routes_playback.go:132-140 | The last span of the instant's query covers it and starts last of all that do; no span means the instant is not covered |
| `Resolution.AnswersUnique` | cmd/camstationd/routes_playback.go:122-195 | No two answers are right at once: a place in the last span that holds the instant, with a codec avc1, hvc1 or hev1 if the file is fragmented, and an offset from its first fragment; an unsupported codec; a fragmented file without fragments; a gap with the last instant before it and the first one behind; or a recording under way at most five seconds ahead |
| `Playback.ExactlyOneAnswer` | cmd/camstationd/routes_playback.go:122-195 | For every database, instant and clock exactly one of them is right |
| `Playback.Resolve` | cmd/camstationd/routes_playback.go:122-195 | The handler gives the right one |
| `PtzGate.StopIsBarrier` | internal/cameracontrol/controller.go:148-167 | In every interleaving of any number of commands and stops: once a stop's own camera call has begun, no command is in its call, and none that sampled an older generation ever enters one again |
| `PtzGate.NoLateStart` | internal/cameracontrol/controller.go:154-157 | From the moment a stop raises the generation, a command that is not in its call can no longer enter one |
| `PtzGate.StopCancelsOlder` | internal/cameracontrol/controller.go:154-160 | A command from before a stop that is past its check has had its context cancelled once the stop waits for the gate |
| `PtzGate.StopSparesNewer` | internal/cameracontrol/controller.go:154-160 | A stop only ever cancels a command that sampled an older generation |
| `PtzGate.CallsNeverOverlap` | internal/cameracontrol/controller.go:244-274 | Two gated calls are never under way at once |
| `PtzGate.CleanupClears` | internal/cameracontrol/controller.go:261-268 | The deferred cleanup always finds its own call id and empties the cancel slot |
| `PtzGate.RunKeeps` | internal/cameracontrol/controller.go:244-274 | Gate ownership, generations, cancel slot and cancellation targets stay consistent over every run |
| `PtzProgress.AdmittedExactly` | internal/cameracontrol/controller.go:244-260 | A command that gets the gate is admitted to its call if and only if no stop has come since it read the generation |
| `PtzProgress.CancelledHasCause` | internal/cameracontrol/controller.go:154-160 | A context is cancelled only by its own time limit, by its own cleanup, or by a stop that found it in the slot |
| `PtzProgress.NeverStuck` | internal/cameracontrol/controller.go:244-274 | From whatever has happened, all commands and stops under way can come to their end, without timeouts or new ones |
| `PtzGate.CommandState.BeginCall` | internal/cameracontrol/controller.go:251-260 | The section under the meta lock refuses a stale generation and otherwise registers the call, as the protocol step does |
| `PtzGate.CommandState.EndCall` | internal/cameracontrol/controller.go:261-268 | The cleanup section is the protocol step |
| `PtzGate.CommandState.RaiseGeneration` | internal/cameracontrol/controller.go:154-157 | The first section of Stop is the protocol step and yields the context to cancel |
| `CommitToken.TokenMeansHealth` | internal/store/viewer_update_validation.go:32-96 | After any history a viewer holds a commit token if and only if its latest accepted events are an unbroken run of healthy observations of one update, with gaps in [0, maxGap], spanning at least healthyFor |
| `CommitToken.TokenLives` | internal/store/viewer_update_validation.go:53-73 | One more event leaves a token as it is while the run goes on or concerns another viewer, and removes it as soon as the run breaks |
| `CommitToken.EnoughObservations` | internal/store/viewer_update_validation.go:58-73 | Such a run has at least ceil(healthyFor / maxGap) + 1 observations |
| `CommitToken.StreakIsLongest` | internal/store/viewer_update_validation.go:58-66 | The start the row remembers is that of the longest continuous suffix |
| `CommitToken.ValidationStore.ObserveValidation` | internal/store/viewer_update_validation.go:32-96 | Rejects an invalid observation without any change; otherwise writes the next row and returns its token |
| `CommitToken.ValidationStore.ResetValidation` | internal/store/viewer_update_validation.go:98-103 | Removes the row of that viewer and no other |
| `HealthyBeats.AcceptedExactly` | internal/store/viewer_update_validation.go:32-48 | An observation is accepted if and only if viewer, payload, transaction and version are more than white space, command and generation positive, the digest 64 hex digits, the limits positive and the clock set |
| `HealthyBeats.BeatMeans` | cmd/camstationd/routes_viewers.go:286-335 | Field by field: a heartbeat tells nothing when its command is lost or its key conflicts with the one recorded, resets the window when it does not report exactly the wanted update under its key, and is an observation otherwise, healthy if and only if agent, control, viewer and renderer are as they should be, with signals at most 15 s old and 5 s ahead |
| `UpdateGate.TokenForHeartbeat` | cmd/camstationd/routes_viewers.go:286-309 | A heartbeat resets, observes or leaves the window alone as its release, command and identity demand |
| `UpdateGate.TokenNeedsHealthyBeats` | cmd/camstationd/routes_viewers.go:286-335 | While a token is out, the latest accepted reports are at least three, span 30 s without a gap over 15 s, and each comes from a heartbeat that matched the running command exactly with all three signals fresh |
| `LogRotation.LogKeepsLatest` | internal/opslog/rotate.go:35-116 | After any writes and restarts there are at most `retained` files of at most maxBytes, each holding whole records and left only when the next record did not fit, and nothing is dropped before every retained file is in use |
| `LogRotation.LogIsStreamSuffix` | internal/opslog/rotate.go:35-116 | Oldest to newest, the files concatenate to a suffix of the accepted records, cut at a record boundary |
| `LogStart.StartedMeans` | internal/opslog/rotate.go:68-88 | Whatever files are there: a log longer than allowed is rotated away when it is opened, any other is gone on with, a missing one created, and the count is its length |
| `LogStart.RotatedMeans` | internal/opslog/rotate.go:90-116 | A rotation moves every retained file on by one number, drops the last, leaves the log empty and files beyond the range alone |
| `LogStart.WriteMeans` | internal/opslog/rotate.go:35-55 | A record is written if and only if the log is open and the record no longer than a file may be: behind the log when it fits there, into a new log otherwise |
| `LogRotation.RotateKept` | internal/opslog/rotate.go:90-116 | A rotation and the record that caused it keep all that, dropping at most the oldest file |
| `LogRotation.RotatingWriter.constructor` | internal/opslog/rotate.go:20-33 | Opening counts the bytes that are there, and rotates an oversized file away |
| `LogRotation.RotatingWriter.Open` | internal/opslog/rotate.go:68-88 | The same for every open |
| `LogRotation.RotatingWriter.Rotate` | internal/opslog/rotate.go:90-116 | The downward rename loop moves every retained file up by one number, drops the last, leaves other files alone, and opens an empty log |
| `LogRotation.RotatingWriter.Write` | internal/opslog/rotate.go:35-55 | Appends whole records, rotating first when one does not fit; an oversized record or a closed file changes nothing |
| `LogRotation.RotatingWriter.Close` | internal/opslog/rotate.go:57-66 | Closing keeps the files, and later writes are refused |

## Left out

- SampleTables.TablesRoundTrip: is stated for at most 2^32 - 1 samples and chunks, because the source counts both in 32 bits without a check.
- EndToEnd.SamplesPreserved: takes a file below 2^63 bytes, as every file size of the program is.
- What a reader makes of rate, volume, matrix and language in tkhd, mvhd and mdhd: the emitter keeps those bytes, and the model says no more of them.
- FragmentClocks.FragmentTells: ties the interval to samples where `readSamples` accepts the moof box too and its clock boxes come first; that the movie header it was scaled with is the latest one is not stated.
- SampleReads.ReadSample: leaves the reported error open for a sample of no bytes, which the scan refuses.
- Playback.FollowCursors: takes row ids to be positive, as the automatic keys are, because the source reads a cursor with id 0 as no cursor; and a database that does not change between the pages.
- PtzGate.StopIsBarrier: counts generations without the wrap-around of 64 bits.
- CommitToken.TokenMeansHealth: takes drawn tokens to be non-empty; that they are unpredictable is not modelled.
- LogRotation.LogKeepsLatest: starts without files and takes file operations to succeed; what opening does to other files is in LogStart.StartedMeans.
- WrittenMoof.RunsReadBack: takes the boxes of a track fragment in the order header, clock, runs; LateClocks has the clocks of any other order, and Padding the boxes in between.
- PtzProgress.NeverStuck: says that everything under way can finish, not that the scheduler lets it.
- `ReadIndex`: the codec and the time basis it reports. The codec comes from a map iteration whose order is not defined when several tracks are video.
- Error texts. An error is a value that tells apart only what callers tell apart.
- float64 rounding in `ticksMs`, `readReference` and the seconds of JSON answers: exact rounding and exact reals instead.
- Reads of the source that fail or are short inside the file.
- The split of a flat track into parallel sample and chunk lists: the model keeps one list of pieces, and both lists as functions of it.
- Trailing movie headers in a growing file while a fragment is pending are followed as the code does, but what a second header means for playback is not.
- SQL text, query plans and unique constraints: a statement that would violate a constraint is a statement that fails, and failing transactions leave nothing.
- The physical deletion of segment rows: no code path of the repository does it.
- `Controller.Discover` bypasses the gate by design and is outside the barrier. Camera addresses, request bodies and answers of cameras are not modelled.
- White space beyond ASCII and letter case beyond ASCII in viewer reports, and the redaction of recorded operation keys.
- The text form of the paging cursor, query parameters, JSON and HTTP status codes.
- ONVIF and XML parsing, camera scans, ffmpeg, rclone and ffprobe supervision, backups, clean-up, policies, jobs, incidents, alerts, the viewer agent and installers: foreign processes, plumbing, or simple state machines.
