# hls-stats listener and load generator, modelled in Dafny

hls-stats plays an HLS live stream the way a player would. It downloads the
media playlist once and finds the live edge of the playlist's sliding window:
the first index whose successor slot is nil (slot 0 itself is never tested). It steps back a configurable
number of buffer segments and downloads that segment. It then loops, and each
pass does three things:

- refreshes the playlist;
- downloads the segment whose sequence id is under its cursor, and advances the
  cursor;
- sleeps one target duration.

Every download ends in one report to a `Logger`. It is a success, with the bytes
and the elapsed time. Or it is a playback error: no connection, an HTTP status
other than 200, or a stall when the scan of the window meets a nil slot before
the cursor's segment (even if that segment sits further on, after the nil slot).
The loop stops after the first failure.

The load generator (`cmd/load-gen`) is one such `Logger`. It prints every
failure, and every success unless `quiet` is set. It sends every success's byte
count on a stats channel.
The `printStats` consumer folds that channel into windows of about ten seconds
and prints an elapsed time and a byte total per window, formatted by `ByteCountSI`.

The project has six modules:

- `Wrappers`: `Option`.
- `Urls`: the `strings.Split`/`strings.Join` string handling the listener relies on. This includes the file-name part of `splitUrlString`, and the relative segment-URI resolution of `fetchSegment` with its round-trip lemmas.
- `Listener`: the data (segments, the nil-slot window, HTTP exchanges, the two report types) and the outcome classification of `downloadURL`. It also has `fetchPlaylist`, the window scan of `fetchSegment` (a `while` loop proved against `FetchSegmentSpec`) and the live-edge loop of `getLatestSegment` (proved against `LatestSlot`).
- `Session`: `startStreamingPlaylist`, as a method with its loop. It is proved equal to the spec function `StreamSession` (one `Pass` per loop iteration). Lemmas over it cover:
  - the sequence ids it downloads;
  - the number and length of its sleeps;
  - the order of reports and sleeps in each pass;
  - its fatal paths.
- `Arith`: the integer facts the unit loop of `ByteCountSI` needs: powers of 1000, and that dividing twice is dividing by the product.
- `LoadGen`: how the logger feeds the stats channel, the `printStats` fold (a method proved against the function `Fold`, with lemmas on byte conservation and window closing), and the unit loop of `ByteCountSI`.

The environment is an input throughout:

- Each HTTP exchange is an `Exchange`: a random correlation id, the clock readings around the request and at logging time, and the transport outcome.
- Each loop pass consumes one `Round`: the playlist exchange, what the m3u8 decoder makes of it, the segment exchange, and the clock reading of a stall report.
- The host part of `url.Parse` is the function parameter `hostOf`.
- Logger calls and sleeps are returned as a trace of `Action`s.

The model follows the code where the code's behaviour is not the obvious design:

- A window without any nil slot makes `getLatestSegment` index past its end and panic (`FullWindowPanics`), rather than taking the last slot.
- A cursor that has fallen behind the window is reported as an ordinary stall when the window has a nil slot (`ExpiredCursorIsStall`).
- A window with no nil slot and no slot holding the cursor's id reaches `log.Fatal("Segment nil")`, whether the cursor is behind the window or ahead of it (`FullWindowWithoutMatchIsFatal`).
- For a gzip response the reported byte count is the `Content-Length` header, not the decoded body (`GzipBytesFromHeader`).
- A segment URI counts as absolute when it starts with "http", so a relative name like `http_seg3.ts` is used unchanged (`HttpNamedRelativeUriKept`).
- `printStats` adds the bytes of the sample that closes a window before it prints. So the summary includes that sample (`ThreeSampleExample`: 100, 200 and 50 bytes at 0 s, 5 s and 11 s give 350 bytes, not 300).
- The target duration is taken once, from the initial playlist. Every later sleep uses it (`SessionSleepsInitialTarget`).
- The initial segment fetch's failure flag is ignored: the loop starts anyway (`InitialSegmentFailureIgnored`).

## Model

| member | source | states |
|---|---|---|
| Urls.Split | hls-stats.go:256 | `strings.Split` on one separator: one more piece than there are separators, and no piece contains the separator |
| Urls.JoinSplit | hls-stats.go:221-224 | joining the pieces of a split gives back the original string |
| Urls.SplitJoin | hls-stats.go:221-224 | splitting a join of separator-free pieces gives back the pieces |
| Urls.FileNameSplitsUrl | hls-stats.go:256-257 | the file part of `splitUrlString` is the last component: the URL is its directory followed by the file name, which holds no "/" |
| Urls.DecompositionUnique | hls-stats.go:256-257 | any split of a URL into a "/"-terminated (or empty) directory and a "/"-free name is the one `Directory`/`FileName` give |
| Urls.ResolveSegmentUriSpec | hls-stats.go:218-225 | a URI starting with "http" is used as is; any other replaces the last component of the playlist URL (it is appended to the playlist's directory) |
| Urls.ResolveReplacesFileName | hls-stats.go:218-225 | a relative URI without "/" becomes the file name of the segment URL, whose directory is the playlist's |
| Urls.ResolveInDirectory | hls-stats.go:218-225 | a relative URI resolved against a playlist URL made of a directory and a "/"-free file name is that directory followed by the URI |
| Urls.ResolveExample | hls-stats.go:218-225 | "seg3.ts" under "http://host/live/index.m3u8" resolves to "http://host/live/seg3.ts" |
| Urls.HttpNamedRelativeUriKept | hls-stats.go:219 | a relative name that merely starts with "http" is taken as absolute and used unchanged |
| Listener.DownloadUrl | hls-stats.go:57-137 | exactly one logger call, carrying the URL, random correlation id, host and file name. A transport error gives status 0 / no connection; a non-200 status gives that status; a 200 gives a success with the transferred bytes and the request's elapsed time. `didFail` holds exactly for the failures |
| Listener.GzipBytesFromHeader | hls-stats.go:111-123 | for a gzip 200 response the byte count is the `Content-Length` header, whatever the body |
| Listener.DownloadOutcomesExclusive | hls-stats.go:79-135 | a success exactly when a response with status 200 arrived; a status-0 failure exactly for a transport error (or a status-0 response) |
| Listener.FetchPlaylist | hls-stats.go:176-188 | the download's one report; failure exactly when the download failed; a playlist exactly when the download succeeded and the decoder accepted the body, and then it is the decoded one; otherwise the decoder's `log.Fatalf` |
| Listener.ScanWindow | hls-stats.go:192-212 | the scan stops at the first slot that is nil or holds the cursor's sequence id, having passed only populated non-matching slots; it reaches the end only when every slot is such a slot |
| Listener.FetchSegment | hls-stats.go:190-235 | the method (a loop over the window with an early return and a break) computes exactly `FetchSegmentSpec`: stall report at a nil slot, `log.Fatal` with no match, otherwise download of the resolved URI and advance of the cursor on success |
| Listener.FetchSegmentAdvances | hls-stats.go:190-235 | one logger call per fetch; on failure the cursor stays and nothing is downloaded; on success the cursor moves one on and the downloaded segment is the window's segment with the old cursor's sequence id, and the report is the segment exchange's success |
| Listener.StallBeforeMatch | hls-stats.go:193-206 | a nil slot ahead of the cursor's segment yields exactly the stall report (zero correlation id, status 0, playlist URL) and the cursor stays |
| Listener.ExpiredCursorIsStall | hls-stats.go:192-207 | a cursor older than every populated slot, in a window with a nil slot, is reported as a stall, not as a distinct error |
| Listener.FullWindowWithoutMatchIsFatal | hls-stats.go:214-216 | a fully populated window without the cursor's segment reaches `log.Fatal("Segment nil")` |
| Listener.FetchesFirstMatch | hls-stats.go:208-211 | the first matching slot reached is the one downloaded |
| Listener.LiveEdge | hls-stats.go:240-246 | the live edge is the first index whose successor slot is nil, every earlier successor being populated; there is none only when every successor is populated |
| Listener.GetLatestSegment | hls-stats.go:237-248 | the method (the loop with its break, and the out-of-range panic on `Segments[index+1]`) computes exactly `LatestSlot`: the slot `bufferSegments` before the live edge, or a panic |
| Listener.LiveEdgeOfPopulatedPrefix | hls-stats.go:240-246 | with `n` populated slots before a nil one the live edge is slot `n - 1` |
| Listener.LatestSlotInPopulatedPrefix | hls-stats.go:237-248 | with `n` populated slots followed by a nil slot, a buffer `0 <= b < n` returns populated slot `n - 1 - b`, and `b >= n` panics |
| Listener.FullWindowPanics | hls-stats.go:241-247 | a window with no nil slot has no live edge, and `getLatestSegment` panics on the index past its end |
| Session.StartStreamingPlaylist | hls-stats.go:139-174 | the method computes exactly `StreamSession`: initial playlist (fatal if it fails or does not decode), live edge, first segment with its failure ignored, one sleep, then the refresh loop |
| Session.RefreshLoop | hls-stats.go:158-172 | the `for` loop computes exactly `Steady`: passes until the first stop, and `Running` when the rounds run out |
| Session.RefreshOnce | hls-stats.go:159-171 | one loop body computes exactly `Pass`: playlist, then segment, then one sleep (also when it breaks on a failure) |
| Session.PassAdvances | hls-stats.go:158-172 | a completed pass downloaded the cursor's segment and moved the cursor one on; a stopped pass downloaded nothing, kept the cursor and ended the session (fatal or terminated) |
| Session.PassActions | hls-stats.go:158-172 | a completed pass logs the playlist report, then the segment fetch's report (the success of that pass's segment exchange), then sleeps one target duration; a pass that broke on a failure ends with that failure's report and one sleep |
| Session.PassSleeps | hls-stats.go:158-172 | a completed pass sleeps once; a stopped pass sleeps once when it broke on a failure and not at all on a fatal path; every such sleep is one target duration |
| Session.SteadyFetchesConsecutive | hls-stats.go:158-172 | the loop downloads consecutive sequence ids from its starting cursor, and the cursor ends just past the last one |
| Session.StartShape | hls-stats.go:144-156 | the initial phase logs the playlist report, then the report of the segment fetch at the latest segment's sequence id, then one sleep of the playlist's target duration; the loop then starts at the latest segment's sequence id (plus one if it was downloaded); every abort is fatal and fetched nothing |
| Session.SessionFetchesConsecutive | hls-stats.go:151-172 | a session downloads, in order and each once, the segments from the one `bufferSegments` behind the live edge onwards; the final cursor is one past the last |
| Session.InitialFetchFindsLatest | hls-stats.go:151-155 | the initial fetch never hits `log.Fatal("Segment nil")`, because the latest segment is itself in the window |
| Session.SteadySleeps | hls-stats.go:158-172 | one sleep per downloaded segment, plus exactly one more when the loop stopped on a failure; a loop still running completed every round |
| Session.SteadyEndsWithFailureThenSleep | hls-stats.go:160-168 | a loop that stopped on a failure ended with that failure's report followed by one sleep |
| Session.RefreshFailureStops | hls-stats.go:159-163 | a failed playlist refresh (no connection or any non-200 status) ends the session with one report and one sleep, whatever later rounds hold |
| Session.SegmentFailureStops | hls-stats.go:164-168 | after a successful refresh, a failed segment fetch (a stall, or a failed segment download) ends the session `Terminated`, not fatally, with the playlist report, that fetch's one failure report and exactly one sleep, and the cursor unchanged, whatever later rounds hold |
| Session.SteadyRoundShape | hls-stats.go:158-172 | a loop that ran through all its rounds did three actions per round, in order: the report of that round's playlist download, the success report of that round's segment exchange, the sleep |
| Session.SteadySleepsTarget | hls-stats.go:158-172 | every sleep of the loop lasts the target duration it was started with |
| Session.SessionSleepsInitialTarget | hls-stats.go:149-171 | every sleep of a session lasts the initial playlist's target duration |
| Session.InitialPlaylistFailureIsFatal | hls-stats.go:144-147 | a failed first playlist download is fatal right after its one report |
| Session.InitialSegmentFailureIgnored | hls-stats.go:155-158 | a failing first segment fetch is reported, followed by one sleep, and the loop still starts at the same cursor |
| LoadGen.SuccessfullyDownloaded | cmd/load-gen/main.go:85-90 | prints unless quiet; always sends exactly one stat with the clock reading and the success's bytes |
| LoadGen.ErrorWhileDownloading | cmd/load-gen/main.go:92-94 | prints the error and sends nothing |
| LoadGen.StatStreamIgnoresQuiet | cmd/load-gen/main.go:85-90 | `quiet` changes only printing: the stats stream is the same either way |
| LoadGen.StatStreamIsSuccesses | cmd/load-gen/main.go:85-94 | the stats stream holds exactly one stat per success, in order, with that success's bytes; failures add nothing |
| LoadGen.PrintStats | cmd/load-gen/main.go:96-114 | the method computes exactly the fold of `Fold` over the samples after the first, from a window holding the first sample's bytes with a deadline one interval after its arrival; no sample, no summary |
| LoadGen.FoldConservesBytes | cmd/load-gen/main.go:100-110 | no byte is lost or counted twice: the printed totals plus the open window's total are all bytes received |
| LoadGen.NoSummaryBeforeDeadline | cmd/load-gen/main.go:102-105 | while every sample arrives by the deadline nothing is printed and all their bytes accumulate in the open window |
| LoadGen.FirstSummary | cmd/load-gen/main.go:102-112 | the first sample received after the deadline closes the window: elapsed time from the window's first stat to that sample, every byte up to and including it; the next window starts at that sample with total 0 and a deadline one interval after printing |
| LoadGen.SummariesAtMostSamples | cmd/load-gen/main.go:102-113 | at most one summary per sample received |
| LoadGen.ThreeSampleExample | cmd/load-gen/main.go:96-114 | 100, 200 and 50 bytes at 0 s, 5 s and 11 s with a 10 s interval give one summary of 11 s and 350 bytes, and a fresh window from the 11 s sample |
| LoadGen.ByteCountSI | cmd/load-gen/main.go:116-128 | below 1000 the plain count; otherwise the divisor is 1000 to the power `exp + 1`, at most the count, with a quotient from 1 to 999; `exp` is at most 5 and picks the prefix from "kMGTPE" |

## Left out

- HTTP itself (request building, headers, timeouts, the gzip reader, body reading): an exchange is an input, and the model reads only its status, `Content-Encoding`, `Content-Length` and body length.
- Listener.DownloadUrl: a 200 response with `Content-Encoding: gzip` whose body `gzip.NewReader` rejects (empty, or without a valid gzip header) makes the source panic, because the discarded error leaves a nil reader that `io.ReadAll` dereferences (hls-stats.go:113-116); the gzip header check is not modelled, and such a response is reported as a success carrying the `Content-Length` bytes.
- `uuid.NewRandom` and its error path, `http.NewRequest`'s error path, and `url.Parse`'s error path (`log.Fatal`): the id is an input, a request always builds, and the host is the parameter `hostOf`.
- The clock and `time.Sleep`: clock readings are inputs; a sleep is an `Action` with its length in nanoseconds.
- m3u8 decoding: what the decoder makes of a playlist response is the `decoded` input (`None` for an error or a variant playlist).
- The float conversion of the target duration to nanoseconds: `MediaPlaylist.targetDuration` is the converted value.
- Message texts of the reports and of `log.Fatal`, and all printed formatting: a report carries its kind and status; printing is a flag.
- LoadGen.PrintStats: the average rate (a float division, truncated to int64) and the printing of the summary are not modelled; a summary holds the window's elapsed nanoseconds and byte total.
- LoadGen.ByteCountSI: the one-decimal float mantissa is not modelled; the result is the divisor and the prefix.
- The infinite refresh loop: a session is a finite prefix of passes, one per `Round`, ending `Running` when the rounds run out.
- Concurrency: the goroutines per instance, the shared package-level `client` and `logger`, the unbuffered stats channel and the signal handler. Each session and the stats consumer are modelled one at a time.
- Integer widths: the `uint64` cursor's wrap-around and the `int64` total's overflow are not modelled (unbounded integers).
- `printStats` reads the clock once per sample for the deadline check, and once more after printing a summary for the reset: each `Arrival` carries both readings (the second is used only when a summary is printed); how far apart they are is not constrained.
- `StartListener` and `cmd/hls-stats/main.go`, and the flag handling of `cmd/load-gen/main.go`, are not part of this model.
