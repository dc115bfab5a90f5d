# minilog, modelled and verified

minilog receives syslog datagrams over UDP, writes them to a text file and a JSONL file per sink,
rotates those files, forwards datagrams to another collector, and serves the JSONL files to a web
page with a live tail. This project models the parts of it where order, state and arithmetic decide
whether a record is kept, and proves what they promise:

- **The rotation chain as one byte stream** (`Lines`, `Chain`, `ForwardRead`, `BackwardRead`,
  `Paging`, `ChainSearch`, `PageContents`). The files of a sink, oldest generation first, are one logical stream of
  lines. The forward and backward page reads, with their chunk seams, carried fragments, byte budget
  and `since` floor, are loops proved against a plain split-into-lines reading; then whole runs of
  page requests are shown to deliver every match once, in order, from both ends. `PageContents` says
  the same of each page in the bytes of the files alone.
- **The writer** (`Rotation`, `LogFile`, `RateLimit`, `TextEscape`, `Utf8`). Rotation is a sequence
  of single renames and deletes, any of which may fail; the sink opens, fails, retries and closes
  around it. A chain is a map from generation number to bytes, which is also what the viewer reads.
- **Writer and viewer together** (`EndToEnd`, `PartialWrites`, `LiveTail`, `TailTop`, `TailDrops`,
  `TailRuns`). What was written is what is read back, less only generations dropped whole; an append
  that fails part-way damages one line at most. A live tail misses and repeats nothing as long as no
  generation is dropped; when one is, it is stated line by line what a poll shows and what it misses,
  and for how long.
- **The receive path** (`Admission`, `UdpServer`, `Forwarder`). Threads and queued completions are
  step machines; the claims hold for every interleaving, and every shutdown runs out of work.
- **Printer and parser** (`SyslogNames`, `SyslogFormat`, `SyslogParser`, `SyslogGrammar`,
  `SyslogRoundTrip`). The two wire formats of RFC 3164 (section 4.1) and RFC 5424 (section 6) undo
  each other, and exactly which texts are taken for which format is told by how they are put together.

The code that works by changing things step by step is modelled as methods and classes; each is tied
by its contract to a function of its input or of the old state, and the lemmas are about that
function. Every lemma turns automatic induction off, so that its body is its whole proof.

Assumptions, throughout: one chain snapshot is atomic, and files match it for the length of one read;
a forward read or a search meets no CR (the JSON serializer writes none). The scanner's habit of
giving up on a file at the first line of `maxLineBytes` or more is modelled, not assumed away. Chunk
size, `maxLineBytes` and the byte budget are parameters, and `Filter.Match` is an arbitrary predicate.
A directory call that fails changes nothing; a failed append leaves some first part of its data.

## Where the code and what is said of it differ

- Backward and forward reading agree on a chain if and only if nothing the scanner gives up on would
  have matched (`Paging.BackwardAgreesWithForward`): the forward read stops a file at a line of
  `maxLineBytes` or more, the backward read only skips lines longer than that. A chain of one line of
  exactly `maxLineBytes` bytes is read by one and not by the other (`Paging.DirectionsCanDisagree`).
- With `max_files` 0, rotation keeps every file if and only if generation 1000 and a non-empty
  generation 1001 are not both there (`Rotation.UnlimitedKeepsAll`); with both non-empty, one rotation
  overwrites the older (`Rotation.UnlimitedOverwrites`).
- The page takes a chain end that went back for a rotation. When bytes were dropped since its last
  answer, the next poll reloads if and only if fewer were appended than dropped. Otherwise a matching
  line is shown by it, or left for a later one, if and only if it starts where the poll does or later:
  those in the stretch the cursor is now too far on are missed (`TailDrops.TailAfterDrops`). Such runs
  exist (`TailDrops.DropsCanBeMadeUp`). No later poll shows a line so missed (`TailRuns.BehindUntilReload`);
  a page loaded anew can (`TailRuns.ReloadMakesUp`).
- The receive budget is a limit if and only if the budget plus the largest request fits in 64 bits
  (`Admission.BudgetIsALimit`): the sum that is compared wraps.
- Cancelling the re-arm timer in `UdpServer::stop` does not always spare a shutdown the back-off:
  afterwards it can be armed again if and only if an error's handler was queued behind the stop
  (`UdpServer.RearmedAfterStop`).
- A leap second is printed by `rfc3164Timestamp` and not accepted by the parser
  (`SyslogRoundTrip.RoundTrip3164`).

## Model

| member | source | states |
|---|---|---|
| Lines.LinesAt | src/web-viewer/reader.go:498-543 | The lines on the two sides of any line start are found independently of each other. |
| Lines.SplitHits | src/web-viewer/reader.go:509-540 | For a read that skips empty lines, splitting on LF with a trailing empty piece and without one is the same. |
| Lines.NewestRunUnique | src/web-viewer/reader.go:406-568 | Count, budget and the exemption of the newest match leave exactly one possible backward page. |
| Lines.OldestRunUnique | src/web-viewer/reader.go:275-369 | The same for a forward page and its first match. |
| Chain.NewFileChain | src/web-viewer/reader.go:148-173 | The chain is the non-empty files from the oldest generation to the active file laid end to end, with nothing else in it. |
| Chain.ChainHolds | src/web-viewer/reader.go:148-173 | Every generation up to max_files that is there and not empty is a file of the chain, with exactly the non-empty generations above it before it, and there is no other file. |
| Chain.FileChain.FileAt | src/web-viewer/reader.go:183-197 | The file and place of a logical offset; past the end, exactly the end of the last file. |
| ForwardRead.Scan | src/web-viewer/reader.go:309-318 | One token: the bytes up to the next LF less a trailing CR, or a refusal at a line of the limit or more and at the end. |
| ForwardRead.ReadForward | src/web-viewer/reader.go:275-369 | A forward page is the greedy oldest run of the matches ahead within count and budget, first match exempt; its cursor is a record start or file end that leaves exactly the undelivered matches ahead, and stays put on an empty page. |
| PageContents.ForwardExactly | src/web-viewer/reader.go:275-369 | Told in the bytes of the files: a matching line at or after the offset, with no line of maxLineBytes or more between where the scan of its file starts and it, is on the page if and only if it starts before the cursor; without that it is missing only from a full page. |
| PageContents.CursorExactly | src/web-viewer/reader.go:275-369 | The cursor is right behind the last line of a page with as many as asked for, and otherwise at the next match or past everything a scan comes to. |
| PageContents.OldestIsLongest | src/web-viewer/reader.go:275-369 | A forward page is within count and budget, and no longer run of the oldest matches is. |
| BackwardRead.Take | src/web-viewer/reader.go:458-496 | One line joined from its head and the carried tail is taken, dropped or stops the walk just as the whole line would be, and the walk never holds more than count lines. |
| BackwardRead.CarryOver | src/web-viewer/reader.go:531-540 | What is carried is the exact head of the open line, never more than the line limit, or a mark that the line is too long. |
| BackwardRead.WalkChunk | src/web-viewer/reader.go:509-540 | One chunk taken right to left leaves the simple reading's lines before the last LF seen to be walked, wherever the chunk seam falls. |
| BackwardRead.WalkFile | src/web-viewer/reader.go:449-543 | A whole file in chunks of any size up to the line limit is walked as its lines, an unterminated last line and an over-long line included, and no more than count lines are ever held. |
| BackwardRead.ReadBackward | src/web-viewer/reader.go:406-568 | For every chain, offset, count, since, budget and chunk size, the page is the greedy newest run of the simple reading: split before the offset, drop over-long, empty, early and non-matching lines; offsets exact. The branch that trims to count is proved never taken. |
| PageContents.BackwardExactly | src/web-viewer/reader.go:406-568 | Told in the bytes of the files: a line that starts before the offset, has at most maxLineBytes bytes, is accepted and not empty once its trailing CRs are off, and starts at since or later, is on the page if and only if it starts at the first offset or later; without that it is missing only from a full page. The page is in file order. |
| PageContents.NewestIsLongest | src/web-viewer/reader.go:406-568 | A backward page is within count and within the budget in bytes, one line exempt, and no longer run of the newest matches is. |
| Paging.ForwardPaging | src/web-viewer/reader.go:275-369 | Over any run of requests, each with its own count and budget, every match ahead is delivered once and in order or still ahead of the cursor. |
| Paging.ForwardComplete | src/web-viewer/reader.go:275-369 | A run that has reached an empty page has delivered every match. |
| Paging.ForwardProgress | src/web-viewer/reader.go:275-369 | Every non-empty page advances the cursor, and there are at most as many as there are matches: paging terminates. |
| Paging.BackwardPaging | src/web-viewer/reader.go:406-568 | Feeding the first offset back, the pages in reverse and what is still behind the cursor are all the matches behind the start. |
| Paging.BackwardComplete | src/web-viewer/reader.go:406-568 | A backward run that has reached an empty page has delivered every match before its start. |
| Paging.BackwardProgress | src/web-viewer/reader.go:406-568 | A backward run has at most as many non-empty pages as there are matches behind its start, so it reaches the empty page. |
| Paging.BackwardAgreesWithForward | src/web-viewer/reader.go:275-568 | Paged to the end, backward from the tail and forward from 0 give the same lines and offsets if and only if nothing behind a scanner's stop is wanted. |
| Paging.DirectionsCanDisagree | src/web-viewer/reader.go:275-568 | For every line limit, a chain of one terminated matching line of exactly that length is found backward and not forward. |
| Paging.ShortLinesHideNothing | src/web-viewer/reader.go:275-369 | With every line shorter than the limit nothing is hidden, so the two always agree. |
| Paging.BothSides | src/web-viewer/reader.go:275-568 | At any record boundary the lines behind and the lines ahead are together the whole chain, unterminated middle files included. |
| Paging.BothSidesPages | src/web-viewer/reader.go:275-568 | So are an unlimited backward page and an unlimited forward page there. |
| ChainSearch.Search | src/web-viewer/reader.go:583-632 | A search counts every match starting at or after since and returns the start offsets of the first of them, up to its limit. |
| PageContents.SearchExactly | src/web-viewer/reader.go:583-632 | The matches counted are exactly the lines a scan from the start comes to that contain the text, pass the filter and start at since or later, one that starts at since included; the offsets are those of the first of them, in order. |
| ChainSearch.FoundIncreasing | src/web-viewer/reader.go:583-632 | The returned offsets are min(limit, total) many, strictly increasing and not before since. |
| ChainSearch.FoundIsRead | src/web-viewer/reader.go:583-632 | Reading one line forward from any returned offset gives that same record, across unterminated generations too. |
| Rotation.StepKeepsOrder | src/server/output/log_file.cpp:562-633 | No single delete or rename of a rotation reorders, duplicates or overwrites a file; only the oldest can go, whole. |
| Rotation.StepStaysWithin | src/server/output/log_file.cpp:562-633 | No step creates or changes a generation above max_files. |
| Rotation.RunKeepsOrder | src/server/output/log_file.cpp:523-645 | Over any number of rotations, aborted anywhere and resumed, gaps or not, what is left is a suffix of the files in their order. |
| Rotation.Directory.FindHighest | src/server/output/log_file.cpp:550-563 | The highest generation of those probed, with gaps in the chain; it gives up only when a probe fails. |
| Rotation.Directory.DeleteFrom | src/server/output/log_file.cpp:566-588 | The generation at max_files goes and nothing else; it stops short only when a call fails. |
| Rotation.Directory.ShiftFiles | src/server/output/log_file.cpp:535-633 | It finishes unless a call fails, and then generation k is at k + 1 for every k, the one at max_files is gone and the active file is moved away; one cut short has made only safe single steps. |
| Rotation.ShiftKeepsAllButOldest | src/server/output/log_file.cpp:523-645 | A finished rotation keeps every file's bytes and order but for the one it was to delete, and frees the active name. |
| Rotation.UnlimitedKeepsAll | src/server/output/log_file.cpp:550-633 | With max_files 0, nothing is lost if and only if the probe cap has not been passed by a file in the way. |
| Rotation.UnlimitedOverwrites | src/server/output/log_file.cpp:550-633 | With max_files 0 and non-empty generations 1000 and 1001, one finished rotation loses the older file. |
| LogFile.Sink.FailSink | src/server/output/log_file.cpp:338-378 | A failure counts one in the outage, closes every stream and arms exactly one retry; at startup it only closes. |
| LogFile.Sink.OpenFiles | src/server/output/log_file.cpp:647-686 | Every configured file is open with its true size, unless exactly one call failed and the sink is out of service. |
| LogFile.Sink.OpenAtStartup | src/server/output/log_file.cpp:282-288 | It reports whether the sink is open; if not, nothing is open and nothing will be retried. |
| LogFile.Sink.AttemptReopen | src/server/output/log_file.cpp:427-443 | One failed call counts once and arms one retry; with none, the outage is over and the files are open. |
| LogFile.Sink.Rotate | src/server/output/log_file.cpp:523-645 | Both chains are shifted and both files are open and empty, unless exactly one call failed and the sink is out of service. |
| LogFile.Sink.DoWrite | src/server/output/log_file.cpp:459-509 | A message taken leaves its line at the end of each active file: behind what was there when no configured active file had reached max_size (or max_size is 0), and otherwise alone in it, with what was there at generation 1 and every other generation one up. It takes the sink out of service if and only if a call fails. |
| LogFile.Sink.OnClose | src/server/output/log_file.cpp:313-336 | Everything is closed, the sink is shut down and the armed retry becomes a cancelled handler. |
| LogFile.Sink.OnRetryTimer | src/server/output/log_file.cpp:391-416 | At shutdown it touches nothing; otherwise it is one attempt, and the sink stays out of service if and only if a call fails. |
| LogFile.EveryRun | src/server/output/log_file.cpp:313-443 | In every run of a started sink, until close() the sink is out of service exactly while an outage is counted and one retry is armed or queued; after close() it stays out of service with no retry armed. |
| LogFile.CallsRunOnce | src/server/output/log_file.cpp:290-416 | Every call of write() and of close() runs its handler once. |
| LogFile.ShutdownEnds | src/server/output/log_file.cpp:290-416 | After close(), queued writes, closes and retry handlers run out in any order, within a measure, and the sink is closed all the way. |
| LogFile.WorkIsOutstanding | src/server/output/log_file.cpp:290-416 | That measure is 0 if and only if no handler is left, and while it is not, one can run. |
| LogFile.RetentionBound | src/server/output/log_file.cpp:459-645 | Through failures and retries, every file stays below max_size plus one line, no generation above max_files appears, and the chain stays below (max_files + 1) times that. |
| TextEscape.EscapeControlChars | src/server/output/log_file.cpp:185-235 | The loop over bytes and C1 pairs writes exactly the escaping defined byte by byte. |
| TextEscape.EscapedTable | README.md:463-491 | How each byte is written: backslash doubled, LF and CR by letter, other controls but TAB and DEL by two hex digits, a C1 pair as \u00HH, anything else as itself. |
| TextEscape.EscapedConcat | src/server/output/log_file.cpp:185-235 | Texts are written one behind the other, unless a C1 pair is split between them; so the table says how every text is written. |
| TextEscape.EscapedIff | src/server/output/log_file.cpp:185-235 | A text is written as it is if and only if it holds no backslash, no control but TAB, no DEL and no C1 pair. |
| TextEscape.EscapeRoundTrip | README.md:463-491 | Reading a written line by the documented table gives back the raw text of the message, for arbitrary bytes. |
| TextEscape.EscapedHarmless | src/server/output/log_file.cpp:170-235 | A written line holds no C0 byte but TAB, no DEL and no C2 80-9F pair, and so is one line. |
| TextEscape.TextFileRoundTrip | src/server/output/log_file.cpp:484-494 | Splitting the text file on LF and decoding each line gives the raw texts written, one each and in order. |
| Utf8.SanitizeUtf8 | src/server/output/log_file.cpp:67-168 | The loop keeps each well-formed character and replaces each byte that starts none. |
| Utf8.CharAt | src/server/output/log_file.cpp:75-155 | The length of the one well-formed character at the start, if there is one, by section 4 of RFC 3629. |
| Utf8.CharIsEncoding | src/server/output/log_file.cpp:75-155 | What is taken for a character is exactly the encoding, by section 3 of RFC 3629, of some Unicode scalar value: no surrogate, nothing beyond 10FFFF and no longer form. |
| Utf8.BadByteReplaced | src/server/output/log_file.cpp:67-168 | Well-formed text is copied up to the first byte that begins no character; that byte becomes EF BF BD and the repair goes on behind it. |
| Utf8.SanitizedWellFormed | src/server/output/log_file.cpp:67-168 | The output is well-formed UTF-8 for arbitrary bytes. |
| Utf8.SanitizedIff | src/server/output/log_file.cpp:67-168 | Text is left alone if and only if it is well-formed, and so sanitizing twice is sanitizing once. |
| Utf8.SanitizedKeepsAscii | src/server/output/log_file.cpp:67-168 | Every ASCII byte is kept, in order, and none is added. |
| Utf8.SanitizedLength | src/server/output/log_file.cpp:67-168 | The output is at most three times as long as the input. |
| RateLimit.ReceiveBackoff.OnError | src/server/receive_backoff.hpp:70-94 | An error lengthens the streak, doubles the delay up to its limit, and is reported, with the errors since the last report, when a report interval has passed since then. |
| RateLimit.ReceiveBackoff.OnSuccess | src/server/receive_backoff.hpp:107-114 | A success ends the streak and resets the delay but not the reporting, and gives the streak's length only if it had been reported. |
| RateLimit.BackoffRuns | src/server/receive_backoff.hpp:70-114 | Over any run, reports are at least 60 s apart even across successes, recoveries never outnumber reports, and every error is the first report, in a summary or still unreported. |
| RateLimit.BackoffDelays | src/server/receive_backoff.hpp:70-114 | The k-th consecutive error asks for min(50 * 2^(k-1), 1000) ms. |
| RateLimit.ReportedWhenDue | src/server/receive_backoff.hpp:70-94 | An error is reported if and only if none has been or the last report is at least 60 s old, and the report leaves no error unreported. |
| RateLimit.RecoveryAnnounced | src/server/receive_backoff.hpp:107-114 | A success announces the length of the streak if and only if an error of that streak was reported, and the next error asks for 50 ms again. |
| RateLimit.SinkRecovery.OnFailure | src/server/output/sink_recovery.hpp:76-105 | The first failure of an outage is reported and dates it; a later one is counted, and reported with those since the last report when a report interval has passed. |
| RateLimit.SinkRecovery.OnRecovered | src/server/output/sink_recovery.hpp:128-141 | A recovery tells how long the outage was and how many failures it took, and clears both counts; without an outage it changes nothing. |
| RateLimit.SinkRuns | src/server/output/sink_recovery.hpp:76-141 | Within one outage reports are at least 60 s apart and every failure is the first, in a summary or unreported; a recovery tells how long it lasted and how many failures it took. |
| RateLimit.SinkReportedWhenDue | src/server/output/sink_recovery.hpp:76-105 | A failure is reported if and only if it opens the outage or the last report of it is at least 60 s old; a later report sums up every unreported failure and tells the whole seconds since the outage began. |
| EndToEnd.MessageHolds | src/server/output/log_file.cpp:459-509 | A message the sink has written adds one record after all the others, and the rotation before it drops at most the oldest file, whole. |
| EndToEnd.RunHolds | src/server/output/log_file.cpp:459-645 | After any run of appends and rotation steps, what was written is the files dropped whole, each once the oldest generation, and then the files there are. |
| EndToEnd.ChainLines | src/web-viewer/reader.go:148-173 | The viewer's lines, through file seams, are the records of the files, in order. |
| EndToEnd.PagesShowASuffix | src/web-viewer/reader.go:148-369 | Paging the chain from 0 with any counts and budgets shows exactly the matches of a suffix of the records written, in write order. |
| EndToEnd.RotationAndOffsets | src/server/output/log_file.cpp:562-633 | A rotation step that drops no bytes leaves the chain as it was; one that drops a file moves every line down by exactly that file's size and takes that much off the total. |
| PartialWrites.AppendIsPiece | src/server/output/log_file.cpp:496-508 | A record's append, whole or failed part-way, leaves the file as it was or with one piece more at its end. |
| PartialWrites.AnyRunKeeps | src/server/output/log_file.cpp:459-645 | After any run of appends that may fail part-way and of rotation steps, everything appended is the files dropped whole, each once the oldest generation, and then the files there are. |
| PartialWrites.ReadIsLines | src/web-viewer/reader.go:498-543 | A file splits into its records, a fragment glued to what was appended next, or a line of its own at the end. |
| PartialWrites.IntactRead | src/server/output/log_file.cpp:459-509 | Every record appended in full at the start of a file or behind another is a line, in order, and each failed append adds at most one matching line to those. |
| PartialWrites.PagesSurviveFailures | src/web-viewer/reader.go:148-369 | Paging from 0 after any such run shows exactly the matching lines of the files left: every matching intact record in order, and at most one line more for each failed append. |
| LiveTail.GetLines | src/web-viewer/handlers.go:100-184 | The answer is the page asked for with the end of the chain; one that reads nothing leaves the caller's cursor alone. |
| LiveTail.ShortCutIsAPage | src/web-viewer/handlers.go:139-165 | The short cut for an empty chain or a since past the end answers what the reads would have. |
| LiveTail.Browser.LoadTail | src/web-viewer/assets/app.js:198-234 | A loaded page shows the answer's lines, waits at the end of the chain and has its first line as its top; a failed fetch leaves the cursors. |
| LiveTail.Browser.PollTailOnce | src/web-viewer/assets/app.js:262-303 | A poll extends the page, moves the cursor past what was returned and notes the chain end, and leaves the top; it reloads if and only if the chain end went back, and changes nothing when the fetch fails. |
| LiveTail.GrownAfter | src/web-viewer/reader.go:275-369 | An append adds exactly its record to what is ahead of any waiting cursor, in the newest file or a new one. |
| LiveTail.WriteFollowed | src/web-viewer/assets/app.js:236-303 | A write adds its record, if it matches, to what the page shows or will show, and keeps the tail's invariant. |
| LiveTail.PollFollowed | src/web-viewer/assets/app.js:262-303 | A poll moves lines from ahead to shown, losing and repeating none; one that shows nothing had nothing ahead. |
| LiveTail.LiveTailDeliversOnce | src/web-viewer/assets/app.js:198-303 | Over every interleaving of appends, non-dropping rotation steps and polls, the page shows the last batch and then every later match once and in order, and no poll reports a rotation, however large a burst. |
| TailTop.LoadedExactly | src/web-viewer/assets/app.js:198-234 | Of all lines of the chain, a load shows those that match, start at the clear mark or later and at the top or later; without the last they are missing only when the page is full. |
| TailTop.LoadedTop | src/web-viewer/assets/app.js:224-226 | The matches above the top of a loaded page, followed by what it shows, are the matches of the chain. |
| TailTop.OlderPages | src/web-viewer/assets/app.js:319-360 | Paging back from the top, the older pages in front of what is shown repeat nothing and skip nothing. |
| TailTop.PageIsWhole | src/web-viewer/assets/app.js:198-303 | Throughout a run of the live tail the top stays put, and the matches above it, those shown and those still ahead are together all there were at the load and all appended since. |
| TailDrops.RunSlides | src/server/output/log_file.cpp:459-645 | Over any stretch of a run with d bytes dropped and g appended, the chain's lines, d bytes further on, are the old ones less some that lay in the first d bytes, followed by those appended; the total changes by g - d. |
| TailDrops.PollExactly | src/web-viewer/assets/app.js:262-303 | From any cursor, one inside a record or before the clear mark included, a matching line is shown by a poll or left ahead of it if and only if it starts where the poll does or later. |
| TailDrops.TailAfterDrops | src/web-viewer/assets/app.js:262-303 | Since the last answer d bytes were dropped and g appended. The next poll reloads if and only if g < d; otherwise a matching line is shown by it or left ahead if and only if it starts where the poll does or later, and the others that start in the last d bytes below the cursor had not been shown before either. |
| TailDrops.DrainedTailSkips | src/web-viewer/assets/app.js:262-303 | When 0 < d <= g, a page that had shown everything misses some line with its next poll, neither shown before, nor by it, nor left ahead; when the chain was at least d long, that is the first record appended after its last answer. |
| TailDrops.DropsCanBeMadeUp | src/web-viewer/assets/app.js:262-303 | A concrete run, with max_files 1, in which as much is appended as dropped. |
| TailRuns.HistorySettled | src/web-viewer/assets/app.js:198-303 | Through every interleaving of appends, rotation steps that drop files, polls and reloads, the lines shown have rising offsets, all below the cursor, and the cursor is within the chain as last seen. |
| TailRuns.BehindUntilReload | src/web-viewer/assets/app.js:262-303 | A line behind the cursor moves down by the bytes dropped while all that polls then show, and all left ahead, starts beyond it: until a reload no line is shown twice and none that was missed is shown. |
| TailRuns.ReloadMakesUp | src/web-viewer/assets/app.js:280-286 | A concrete run in which a reload shows a record that a poll missed. |
| Admission.StepKeepsInv | src/server/admission.hpp:69-131 | One step of any thread, stale loads and failed exchanges included, keeps in-flight equal to live charges plus reservations and the drop counters in balance. |
| Admission.EveryInterleaving | src/server/admission.hpp:69-131 | In every interleaving in-flight is the bytes of live charges plus reservations and never exceeds the budget; drops taken plus the window, and the total plus the half-counted, are each exactly the refusals made. |
| Admission.TakenIsAll | src/server/admission.hpp:86-91 | Taking the drops after any run brings what was ever taken to the number of refusals, and leaves none. |
| Admission.AdmittedIffFits | src/server/admission.hpp:69-91 | A thread that has just looked is admitted if and only if its bytes and all those outstanding fit in the budget, and refused if and only if they do not. |
| Admission.RefusedDidNotFit | src/server/admission.hpp:69-91 | In every interleaving a refused datagram did not fit at the moment its thread last looked. |
| Admission.AloneItFinishes | src/server/admission.hpp:69-91 | A thread left alone is done after at most one more failed exchange. |
| Admission.ReleasedOnce | src/server/admission.hpp:117-131 | Each charge is subtracted exactly once if it is released and never before. |
| Admission.HeldUntilLastCopy | src/server/admission.hpp:117-131 | Over any run, a charge's live copies are those it had plus those made less those dropped; it is held, in full and not subtracted, if and only if one is left. |
| Admission.CanBeReleased | src/server/admission.hpp:117-131 | Every held charge can be given back by dropping its copies. |
| Admission.Drained | src/server/admission.hpp:69-131 | With no thread inside and every charge released, in-flight is 0 and no drop is uncounted. |
| Admission.BudgetIsALimit | src/server/admission.hpp:69-91 | Over 64-bit words, the bytes outstanding never exceed the budget in any run if and only if budget plus the largest request does not wrap. |
| UdpServer.Server.OnReceive | src/server/udp_server.cpp:163-220 | The receive handler's effect on socket, back-off and timer. |
| UdpServer.Server.HandleReceiveError | src/server/udp_server.cpp:133-161 | An error counts in the back-off and arms the timer, not the socket. |
| UdpServer.Server.OnStop | src/server/udp_server.cpp:87-117 | The socket is closed, its receive aborted and the timer cancelled. |
| UdpServer.RunKeepsInv | src/server/udp_server.cpp:87-203 | In every order of events, before a stop exactly one of receive, re-arm timer and queued handler is outstanding; after it the socket stays closed for good. |
| UdpServer.EveryRun | src/server/udp_server.cpp:41-203 | Every run from start(): exactly one live operation until a stop has run, and a closed socket with no receive waiting after it. |
| UdpServer.ErrorsAreCounted | src/server/udp_server.cpp:133-220 | In every run the back-off has counted exactly the errors handled, each datagram ending the streak, and the k-th error of a streak arms the timer for min(50 * 2^(k-1), 1000) ms and no receive. |
| UdpServer.StopsRunOnce | src/server/udp_server.cpp:87-117 | Every call of stop() runs its handler once. |
| UdpServer.ShutdownEnds | src/server/udp_server.cpp:87-203 | After a stop, the number of things that can still happen is bounded by a measure, whatever their order. |
| UdpServer.WorkIsOutstanding | src/server/udp_server.cpp:87-203 | The measure is 0 if and only if nothing is outstanding, and while it is not, something can happen. |
| UdpServer.RearmedAfterStop | src/server/udp_server.cpp:87-117 | Over every run after a stop, the timer can be armed again if and only if the handler of an error was queued behind the stop. |
| UdpServer.RearmedAfterStopHappens | src/server/udp_server.cpp:133-161 | A concrete run in which it is. |
| Forwarder.Handlers.OnResolved | src/server/forwarder/forwarder.cpp:76-111 | A lookup's answer uses the endpoint, schedules a retry, or at shutdown does nothing. |
| Forwarder.Handlers.UseEndpoint | src/server/forwarder/forwarder.cpp:113-161 | The socket is opened once, or a retry is scheduled. |
| Forwarder.Handlers.OnStop | src/server/forwarder/forwarder.cpp:181-190 | The retry is cancelled, the lookup is aborted when it still can be and its failed answer queued, and no more are started. |
| Forwarder.Handlers.DoForward | src/server/forwarder/forwarder.cpp:197-222 | Each matching message is sent when the destination is known and counted as dropped when it is not. |
| Forwarder.RunKeepsInv | src/server/forwarder/forwarder.cpp:76-222 | In every order of events there is at most one lookup or retry, delays stay between 1 s and 60 s, at most one failure is logged, and every unresolved drop is counted. |
| Forwarder.EveryRun | src/server/forwarder/forwarder.cpp:41-222 | Every run from construction, for an IP literal or a name: one lookup or retry until the destination is known, delays between 1 s and 60 s, at most one failure line, and every matching message sent, announced as dropped or counted. |
| Forwarder.RunMeans | src/server/forwarder/forwarder.cpp:41-179 | In every run the destination is known if and only if the literal was taken or a lookup before any stop found an address a socket could be opened for; one failure line is logged if and only if something failed; the delay is 1 s doubled with every failure but that of a first lookup, at most 60 s. |
| Forwarder.RunDelivers | src/server/forwarder/forwarder.cpp:113-222 | In every run the matching messages handled before the destination was known are those announced as dropped, or still to be, and all the others were sent; an armed retry waits the delay. |
| Forwarder.CallsRunOnce | src/server/forwarder/forwarder.cpp:181-195 | Every call of forward() and of stop() runs its handler once. |
| Forwarder.ShutdownEnds | src/server/forwarder/forwarder.cpp:76-190 | After a stop the work left runs out in any order, no destination is adopted, no lookup is started and no retry is armed. |
| Forwarder.WorkIsOutstanding | src/server/forwarder/forwarder.cpp:76-190 | The measure of work left is 0 if and only if nothing is outstanding. |
| SyslogFormat.ValidateFields | src/send/syslog_format.cpp:113-169 | Fields are accepted only if nothing is wrong with them; otherwise the first thing wrong, in the order they are checked, is named. |
| SyslogGrammar.AcceptedIff5424 | src/send/syslog_format.cpp:113-169 | Fields are accepted for RFC 5424 if and only if facility and severity are in range, host, app, pid and msgid are printable words of at most 255, 48, 128 and 32 characters, and there is a message. |
| SyslogGrammar.AcceptedIff3164 | src/send/syslog_format.cpp:113-169 | For RFC 3164 if and only if they are words, app and pid without brackets and colons, the tag at most 32 characters, no msgid and a message. |
| SyslogGrammar.RefusedFor | src/send/syslog_format.cpp:113-169 | A refusal names a field that really is at fault. |
| SyslogNames.FacilityBack | src/server/parser/syslog_names.hpp:34-122 | Every facility name that is written is taken back, in any case, for its own number, among all the aliases. |
| SyslogNames.SeverityBack | src/server/parser/syslog_names.hpp:48-128 | The same for severities. |
| SyslogParser.ParsePri | src/server/parser/syslog_parser.cpp:47-71 | The priority and the text after it, or a refusal. |
| SyslogParser.Parse3164Timestamp | src/server/parser/syslog_parser.cpp:118-182 | The timestamp and the text after it, or a refusal that leaves the text alone. |
| SyslogParser.Parse3164Tag | src/server/parser/syslog_parser.cpp:191-218 | App and pid; a colon only after a space is no tag's and takes nothing. |
| SyslogParser.ParseSyslog | src/server/parser/syslog_parser.cpp:327-349 | Trailing line ends go, then a datagram is RFC 5424 if it can be, RFC 3164 if not, else only its own text. |
| SyslogGrammar.ParsedAs | src/server/parser/syslog_parser.cpp:327-349 | RFC 5424 goes before RFC 3164, the raw text is always the datagram less its line ends, and an unknown datagram has that as its message and no field. |
| SyslogGrammar.StrippedIs | src/server/parser/syslog_parser.cpp:329-333 | Every CR and LF at the end goes, and nothing else. |
| SyslogGrammar.Takes5424 | src/server/parser/syslog_parser.cpp:220-276 | A text put together from a priority, a version that says 1, four words and a tail is taken as RFC 5424 and read as exactly those. |
| SyslogGrammar.OnlyTakes5424 | src/server/parser/syslog_parser.cpp:220-276 | No other text is taken as RFC 5424. |
| SyslogGrammar.Takes3164 | src/server/parser/syslog_parser.cpp:278-323 | A text put together from a priority, a month, a day and a time with any spaces between them, a host and a tail is taken as RFC 3164 and read as those, when it is not RFC 5424. |
| SyslogGrammar.TakesShort3164 | src/server/parser/syslog_parser.cpp:278-323 | The same for one that ends with the host or with the time. |
| SyslogGrammar.OnlyTakes3164 | src/server/parser/syslog_parser.cpp:118-182 | Nothing without such a priority and time is. |
| SyslogGrammar.TakesTag | src/server/parser/syslog_parser.cpp:191-218 | Text up to a colon with no space in it is the app. |
| SyslogGrammar.TakesBracketTag | src/server/parser/syslog_parser.cpp:191-218 | With brackets at its end it is the app before the first bracket and the pid in them. |
| SyslogGrammar.TakesNoTag | src/server/parser/syslog_parser.cpp:191-218 | Where every colon has a space before it there is no tag and the text is left alone. |
| SyslogRoundTrip.PriBack | src/send/syslog_format.cpp:30-33 | A printed priority is parsed as itself with what follows untouched. |
| SyslogRoundTrip.TimestampBack | src/send/syslog_format.cpp:209-214 | A printed RFC 3164 time is parsed as itself, space-padded day included, unless its second is 60. |
| SyslogRoundTrip.TagBack | src/server/parser/syslog_parser.cpp:191-218 | A printed tag is parsed back into the app and pid it was made of. |
| SyslogRoundTrip.StrippedBehind | src/server/parser/syslog_parser.cpp:329-333 | Stripping trailing line ends never reaches past the message text. |
| SyslogRoundTrip.RoundTrip5424 | src/send/syslog_format.cpp:96-101 | Accepted fields printed as RFC 5424 are parsed as RFC 5424 with the same facility and severity, every header field back (absent exactly when absent or "-") and the text behind "- " less its trailing line ends. |
| SyslogRoundTrip.NotTaken5424 | src/server/parser/syslog_parser.cpp:220-247 | No message printed as RFC 3164 is taken for RFC 5424. |
| SyslogRoundTrip.RoundTrip3164 | src/send/syslog_format.cpp:103-111 | Accepted fields printed as RFC 3164 with a calendar time are parsed as RFC 3164 if and only if the second is at most 59, and then every field and the text less its trailing line ends come back. |

## Left out

- `Filter.Match` and `matchStringField`: an arbitrary predicate on the line.
- The JSON serializer and its field order: a record is any non-empty byte string without LF or CR.
- `bufio.Scanner`'s buffering: one token at a time, with its limit.
- Files that cannot be opened or seeked, and files changed during a read; CRLF files on the forward and search paths.
- Counters of 64 bits other than the admission budget's (sizes, offsets, failure and drop counts), which are unbounded here.
- Exceptions such as `bad_alloc`, and the silent fallback of `failSinkFromHandler`.
- What is logged and when the drop notice of `reportDrops` is due: only the counts behind it.
- `pruneTop`, `jumpToMatch`, `clearView` and everything drawn on the page: only the cursors of the live tail, with a `since` that does not change during a run; `loadOlder` is the requests of `TailTop.OlderPages`, not interleaved with polls.
- Overlapping polls: the page lets one run at a time.
- `localNow` and `rfc5424Timestamp`: an RFC 5424 timestamp is any non-empty text without a space.
- `splitLines`, `truncateIfNeeded`, `describe`, configuration, preflight, service control, the command-line viewer and installers: they would add only easy members.
- Memory orderings: the compare-exchange loop is interleaved steps on one memory.
- EndToEnd.PagesShowASuffix: for appends that succeed; those that fail part-way are in `PartialWrites.PagesSurviveFailures`.
- PartialWrites.PagesSurviveFailures: says what the pages show when no line, glued ones included, is as long as `maxLineBytes`, where the scanner gives up on a file.
- LiveTail.LiveTailDeliversOnce: for runs in which rotation drops no generation, since otherwise lines can be missed; exactly which is what `TailDrops` states. In both, and in `TailRuns`, every append succeeds.
