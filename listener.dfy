/**
 * The per-request logic of hls-stats.go: the data the listener works on, the
 * outcome classification of `downloadURL`, `fetchPlaylist`, the window scan of
 * `fetchSegment` and the live-edge search of `getLatestSegment`.
 *
 * The HTTP exchange, the clock and the random correlation id are inputs
 * (`Exchange`); the host part of `url.Parse` is the parameter `hostOf`; the
 * logger calls a member makes are returned as the list `logged`.
 */
module Listener {
  import opened Wrappers
  import Urls

  /** A correlation id: the zero UUID (`uuid.UUID{}`) or one drawn by `uuid.NewRandom`. */
  datatype CorrelationId = NilId | RandomId(n: nat)

  /** A media segment of the playlist window. */
  datatype Segment = Segment(seqId: nat, uri: string)

  /** `playlist.Segments`: the sliding window, where `None` is a nil (unpopulated) slot. */
  type Window = seq<Option<Segment>>

  /** A decoded media playlist; the target duration is the nanosecond count already converted. */
  datatype MediaPlaylist = MediaPlaylist(targetDuration: int, segments: Window)

  /** What `client.Do` gave: a transport error, or a response with its status, `Content-Encoding`, `ContentLength` and body. */
  datatype HttpOutcome =
    | NetErr
    | Resp(status: int, contentEncoding: string, contentLength: int, body: seq<bv8>)

  /** One HTTP exchange as the environment plays it: the random id, the clock readings before and after the request and at logging time, and the outcome. */
  datatype Exchange = Exchange(id: nat, sentAt: int, receivedAt: int, loggedAt: int, outcome: HttpOutcome)

  /** Why a `PlaybackError` was reported; the message text itself is not modelled. */
  datatype FailureKind = NoConnection | HttpError | Stalled

  /** `SuccessMessage` and `PlaybackError`, the two things handed to the logger. */
  datatype Event =
    | Success(id: CorrelationId, time: int, url: string, host: string, file: string, bytes: int, duration: int)
    | Failure(id: CorrelationId, time: int, url: string, host: string, file: string, status: int, kind: FailureKind)

  /** The result of `downloadURL` together with the logger calls it made. */
  datatype Download = Download(didFail: bool, logged: seq<Event>)

  /** The byte count a successful download reports: the header length for gzip, the body length otherwise. */
  function TransferredBytes(resp: HttpOutcome): int
    requires resp.Resp?
  {
    if resp.contentEncoding == "gzip" then resp.contentLength else |resp.body|
  }

  /** `downloadURL`: one request, classified into transport error, HTTP error or success, with one logger call. */
  function DownloadUrl(url: string, ex: Exchange, hostOf: string -> string): (d: Download)
    ensures |d.logged| == 1
    ensures d.didFail <==> d.logged[0].Failure?
    ensures d.logged[0].url == url && d.logged[0].id == RandomId(ex.id) && d.logged[0].time == ex.loggedAt
    ensures d.logged[0].host == hostOf(url) && d.logged[0].file == Urls.FileName(url)
    ensures ex.outcome.NetErr? ==>
      d.logged[0].Failure? && d.logged[0].status == 0 && d.logged[0].kind == NoConnection
    ensures ex.outcome.Resp? && ex.outcome.status != 200 ==>
      d.logged[0].Failure? && d.logged[0].status == ex.outcome.status && d.logged[0].kind == HttpError
    ensures ex.outcome.Resp? && ex.outcome.status == 200 ==>
      d.logged[0].Success? && d.logged[0].bytes == TransferredBytes(ex.outcome)
      && d.logged[0].duration == ex.receivedAt - ex.sentAt
  {
    var host, file := hostOf(url), Urls.FileName(url);
    match ex.outcome
    case NetErr =>
      Download(true, [Failure(RandomId(ex.id), ex.loggedAt, url, host, file, 0, NoConnection)])
    case Resp(status, _, _, _) =>
      if status != 200 then
        Download(true, [Failure(RandomId(ex.id), ex.loggedAt, url, host, file, status, HttpError)])
      else
        Download(false, [Success(RandomId(ex.id), ex.loggedAt, url, host, file,
                                 TransferredBytes(ex.outcome), ex.receivedAt - ex.sentAt)])
  }

  /** The success byte count of a gzip response does not depend on the body that arrived. */
  lemma GzipBytesFromHeader(url: string, ex1: Exchange, ex2: Exchange, hostOf: string -> string)
    requires ex1.outcome.Resp? && ex2.outcome.Resp?
    requires ex1.outcome.status == 200 && ex2.outcome.status == 200
    requires ex1.outcome.contentEncoding == "gzip" && ex2.outcome.contentEncoding == "gzip"
    requires ex1.outcome.contentLength == ex2.outcome.contentLength
    ensures DownloadUrl(url, ex1, hostOf).logged[0].bytes == DownloadUrl(url, ex2, hostOf).logged[0].bytes
            == ex1.outcome.contentLength
  {
  }

  /** The three outcomes of a download are exclusive and cover every exchange. */
  lemma DownloadOutcomesExclusive(url: string, ex: Exchange, hostOf: string -> string)
    ensures var e := DownloadUrl(url, ex, hostOf).logged[0];
      (e.Success? <==> ex.outcome.Resp? && ex.outcome.status == 200)
      && (e.Failure? && e.status == 0 <==> ex.outcome.NetErr? || ex.outcome.status == 0)
  {
  }

  /** What `fetchPlaylist` ends in. `Undecodable` is the `log.Fatalf` after the decoder rejected the body. */
  datatype PlaylistFetch =
    | Fetched(playlist: MediaPlaylist, logged: seq<Event>)
    | FetchFailed(logged: seq<Event>)
    | Undecodable(logged: seq<Event>)

  /**
   * `fetchPlaylist`: download the playlist, then decode it. The decoder is
   * outside the model: `decoded` is what it makes of this response (`None` for
   * a body it rejects or for a variant playlist, on which the type assertion fails).
   */
  function FetchPlaylist(url: string, ex: Exchange, decoded: Option<MediaPlaylist>, hostOf: string -> string): (p: PlaylistFetch)
    ensures p.logged == DownloadUrl(url, ex, hostOf).logged
    ensures p.FetchFailed? <==> p.logged[0].Failure?
    ensures p.Fetched? <==> p.logged[0].Success? && decoded.Some?
    ensures p.Fetched? ==> p.playlist == decoded.value
  {
    var d := DownloadUrl(url, ex, hostOf);
    if d.didFail then FetchFailed(d.logged)
    else match decoded
      case None => Undecodable(d.logged)
      case Some(playlist) => Fetched(playlist, d.logged)
  }

  /** Slot `j` holds a segment, and not the one with sequence id `cursor`: the scan goes past it. */
  predicate Passes(w: Window, cursor: nat, j: int)
    requires 0 <= j < |w|
  {
    w[j].Some? && w[j].value.seqId != cursor
  }

  /** Where a front-to-back scan for `cursor` stops: at a nil slot, at a match, or at the end of the window. */
  datatype Scan = NilAt(index: nat) | MatchAt(index: nat) | NoMatch

  function ScanFrom(w: Window, cursor: nat, i: nat): (s: Scan)
    requires i <= |w|
    requires forall j :: 0 <= j < i ==> Passes(w, cursor, j)
    ensures s.NilAt? ==> i <= s.index < |w| && w[s.index].None?
    ensures s.MatchAt? ==> i <= s.index < |w| && w[s.index].Some? && w[s.index].value.seqId == cursor
    ensures !s.NoMatch? ==> forall j :: 0 <= j < s.index ==> Passes(w, cursor, j)
    ensures s.NoMatch? ==> forall j :: 0 <= j < |w| ==> Passes(w, cursor, j)
    decreases |w| - i
  {
    if i == |w| then NoMatch
    else if w[i].None? then NilAt(i)
    else if w[i].value.seqId == cursor then MatchAt(i)
    else ScanFrom(w, cursor, i + 1)
  }

  /** The loop of `fetchSegment`: the first slot that is nil or holds the segment with sequence id `cursor`. */
  function ScanWindow(w: Window, cursor: nat): (s: Scan)
    ensures s.NilAt? ==> s.index < |w| && w[s.index].None?
    ensures s.MatchAt? ==> s.index < |w| && w[s.index].Some? && w[s.index].value.seqId == cursor
    ensures !s.NoMatch? ==> forall j :: 0 <= j < s.index ==> Passes(w, cursor, j)
    ensures s.NoMatch? ==> forall j :: 0 <= j < |w| ==> Passes(w, cursor, j)
  {
    ScanFrom(w, cursor, 0)
  }

  /** The scan stops at the first slot it does not pass: a nil slot or the cursor's segment. */
  lemma {:induction false} ScanStopsAt(w: Window, cursor: nat, i: nat, k: nat)
    requires i <= k < |w|
    requires forall j :: 0 <= j < k ==> Passes(w, cursor, j)
    requires !Passes(w, cursor, k)
    ensures ScanFrom(w, cursor, i) == if w[k].None? then NilAt(k) else MatchAt(k)
    decreases k - i
  {
    if i < k {
      assert Passes(w, cursor, i);
      ScanStopsAt(w, cursor, i + 1, k);
    }
  }

  /** What `fetchSegment` ends in: its `didFail` with the new cursor, the logger calls and the segment it downloaded, or the `log.Fatal("Segment nil")`. */
  datatype SegmentFetch =
    | Fetch(didFail: bool, cursor: nat, logged: seq<Event>, downloaded: Option<Segment>)
    | SegmentNil

  /** The stall report: zero correlation id, status 0, the playlist URL. */
  function StallEvent(playlistUrl: string, stallAt: int, hostOf: string -> string): Event
  {
    Failure(NilId, stallAt, playlistUrl, hostOf(playlistUrl), Urls.FileName(playlistUrl), 0, Stalled)
  }

  /** What `fetchSegment` does, stated over the scan of the window; `ex` is the segment download's exchange. */
  function FetchSegmentSpec(playlistUrl: string, w: Window, cursor: nat, ex: Exchange, stallAt: int,
                            hostOf: string -> string): SegmentFetch
  {
    match ScanWindow(w, cursor)
    case NoMatch => SegmentNil
    case NilAt(_) => Fetch(true, cursor, [StallEvent(playlistUrl, stallAt, hostOf)], None)
    case MatchAt(i) =>
      var d := DownloadUrl(Urls.ResolveSegmentUri(playlistUrl, w[i].value.uri), ex, hostOf);
      if d.didFail then Fetch(true, cursor, d.logged, None)
      else Fetch(false, cursor + 1, d.logged, w[i])
  }

  /** `fetchSegment`: scan the window for the cursor, report a stall at a nil slot, else download the match and advance the cursor. */
  method FetchSegment(playlistUrl: string, playlist: MediaPlaylist, cursor: nat, ex: Exchange, stallAt: int,
                      hostOf: string -> string) returns (r: SegmentFetch)
    ensures r == FetchSegmentSpec(playlistUrl, playlist.segments, cursor, ex, stallAt, hostOf)
  {
    var segments := playlist.segments;
    var segment: Option<Segment> := None;
    var i := 0;
    while i < |segments|
      invariant 0 <= i <= |segments|
      invariant forall j :: 0 <= j < i ==> Passes(segments, cursor, j)
      invariant ScanWindow(segments, cursor) == ScanFrom(segments, cursor, i)
      invariant segment.None?
    {
      if segments[i].None? {
        return Fetch(true, cursor, [StallEvent(playlistUrl, stallAt, hostOf)], None);
      }
      if segments[i].value.seqId == cursor {
        segment := segments[i];
        break;
      }
      i := i + 1;
    }
    if segment.None? {
      return SegmentNil;
    }
    var segmentUrl := Urls.ResolveSegmentUri(playlistUrl, segment.value.uri);
    var d := DownloadUrl(segmentUrl, ex, hostOf);
    if d.didFail {
      return Fetch(true, cursor, d.logged, None);
    }
    return Fetch(false, cursor + 1, d.logged, segment);
  }

  /** Outcomes of a segment fetch: one logger call, the cursor unchanged on failure and one further on success, reported by the segment exchange. */
  lemma FetchSegmentAdvances(playlistUrl: string, w: Window, cursor: nat, ex: Exchange, stallAt: int,
                             hostOf: string -> string)
    ensures var r := FetchSegmentSpec(playlistUrl, w, cursor, ex, stallAt, hostOf);
      r.Fetch? ==>
        && |r.logged| == 1
        && (r.didFail <==> r.logged[0].Failure?)
        && (r.didFail ==> r.cursor == cursor && r.downloaded.None?)
        && (!r.didFail ==> r.cursor == cursor + 1 && r.downloaded.Some? && r.downloaded.value.seqId == cursor
                           && r.downloaded in w
                           && r.logged[0].Success? && r.logged[0].id == RandomId(ex.id))
  {
  }

  /** A nil slot met before any match is a stall: one failure event, status 0, zero id, the playlist URL; the cursor stays. */
  lemma StallBeforeMatch(playlistUrl: string, w: Window, cursor: nat, ex: Exchange, stallAt: int,
                         hostOf: string -> string, k: nat)
    requires k < |w| && w[k].None?
    requires forall j :: 0 <= j < k ==> Passes(w, cursor, j)
    ensures FetchSegmentSpec(playlistUrl, w, cursor, ex, stallAt, hostOf)
            == Fetch(true, cursor, [Failure(NilId, stallAt, playlistUrl, hostOf(playlistUrl),
                                            Urls.FileName(playlistUrl), 0, Stalled)], None)
  {
    ScanStopsAt(w, cursor, 0, k);
  }

  /** A cursor behind every populated slot is reported as a stall, like one ahead of them, when the window has a nil slot. */
  lemma ExpiredCursorIsStall(playlistUrl: string, w: Window, cursor: nat, ex: Exchange, stallAt: int,
                             hostOf: string -> string)
    requires None in w
    requires forall j :: 0 <= j < |w| && w[j].Some? ==> w[j].value.seqId > cursor
    ensures FetchSegmentSpec(playlistUrl, w, cursor, ex, stallAt, hostOf)
            == Fetch(true, cursor, [StallEvent(playlistUrl, stallAt, hostOf)], None)
  {
    var k :| 0 <= k < |w| && w[k] == None;
    var first := FirstNil(w, k);
    ScanStopsAt(w, cursor, 0, first);
  }

  /** The first nil slot of a window that has one at `k` or before. */
  function FirstNil(w: Window, k: nat): (f: nat)
    requires k < |w| && w[k].None?
    ensures f <= k && w[f].None? && forall j :: 0 <= j < f ==> w[j].Some?
  {
    if forall j :: 0 <= j < k ==> w[j].Some? then k
    else
      var j :| 0 <= j < k && w[j].None?;
      FirstNil(w, j)
  }

  /** A fully populated window without the cursor's segment reaches the `log.Fatal("Segment nil")`. */
  lemma FullWindowWithoutMatchIsFatal(playlistUrl: string, w: Window, cursor: nat, ex: Exchange, stallAt: int,
                                      hostOf: string -> string)
    requires forall j :: 0 <= j < |w| ==> w[j].Some? && w[j].value.seqId != cursor
    ensures FetchSegmentSpec(playlistUrl, w, cursor, ex, stallAt, hostOf) == SegmentNil
  {
  }

  /** Of several slots with the cursor's sequence id, the first one reached is the one downloaded. */
  lemma FetchesFirstMatch(playlistUrl: string, w: Window, cursor: nat, ex: Exchange, stallAt: int,
                          hostOf: string -> string, i: nat)
    requires i < |w| && w[i].Some? && w[i].value.seqId == cursor
    requires forall j :: 0 <= j < i ==> Passes(w, cursor, j)
    ensures var r := FetchSegmentSpec(playlistUrl, w, cursor, ex, stallAt, hostOf);
      r.Fetch? && r.logged[0].url == Urls.ResolveSegmentUri(playlistUrl, w[i].value.uri)
  {
    ScanStopsAt(w, cursor, 0, i);
  }

  /** The slot after index `j` exists and is populated. */
  predicate NextPopulated(w: Window, j: int)
  {
    0 <= j && j + 1 < |w| && w[j + 1].Some?
  }

  /** `getLatestSegment`'s loop: the first index whose successor slot is nil, if there is one. */
  function LiveEdgeFrom(w: Window, i: nat): (e: Option<nat>)
    requires forall j :: 0 <= j < i && j + 1 < |w| ==> NextPopulated(w, j)
    ensures e.Some? ==> i <= e.value && e.value + 1 < |w| && w[e.value + 1].None?
                        && forall j :: 0 <= j < e.value ==> NextPopulated(w, j)
    ensures e.None? ==> forall j :: 0 <= j < |w| - 1 ==> NextPopulated(w, j)
    decreases |w| - i
  {
    if i + 1 >= |w| then None
    else if w[i + 1].None? then Some(i)
    else LiveEdgeFrom(w, i + 1)
  }

  /** The live edge: the first index whose successor is a nil slot. */
  function LiveEdge(w: Window): (e: Option<nat>)
    ensures e.Some? ==> e.value + 1 < |w| && w[e.value + 1].None?
                        && forall j :: 0 <= j < e.value ==> NextPopulated(w, j)
    ensures e.None? ==> forall j :: 0 <= j < |w| - 1 ==> NextPopulated(w, j)
  {
    LiveEdgeFrom(w, 0)
  }

  /** What `getLatestSegment` gives: the slot at `liveEdge - bufferSegments` (possibly nil), or the index-out-of-range panic. */
  datatype Latest = Slot(slot: Option<Segment>) | IndexPanic

  /** The slot `getLatestSegment` returns for a buffer of `bufferSegments` segments. */
  function LatestSlot(w: Window, bufferSegments: int): Latest
  {
    match LiveEdge(w)
    case None => IndexPanic
    case Some(edge) =>
      if 0 <= edge - bufferSegments < |w| then Slot(w[edge - bufferSegments]) else IndexPanic
  }

  /** `getLatestSegment`: find the live edge, where the next slot is nil, and step back `bufferSegments`. */
  method GetLatestSegment(playlist: MediaPlaylist, bufferSegments: int) returns (r: Latest)
    ensures r == LatestSlot(playlist.segments, bufferSegments)
  {
    var segments := playlist.segments;
    var latestSegmentIndex := 0;
    var index := 0;
    while index < |segments|
      invariant 0 <= index <= |segments|
      invariant forall j :: 0 <= j < index ==> NextPopulated(segments, j)
      invariant LiveEdge(segments) == LiveEdgeFrom(segments, index)
      invariant |segments| > 0 ==> index < |segments|
      invariant latestSegmentIndex == 0
    {
      if index + 1 >= |segments| {
        // segments[index + 1] is out of range: Go panics here
        return IndexPanic;
      }
      if segments[index + 1].None? {
        latestSegmentIndex := index;
        break;
      }
      index := index + 1;
    }
    var k := latestSegmentIndex - bufferSegments;
    if 0 <= k < |segments| {
      r := Slot(segments[k]);
    } else {
      r := IndexPanic;
    }
  }

  /** In a populated prefix of `n` slots followed by a nil slot, the live edge is the last populated slot. */
  lemma LiveEdgeOfPopulatedPrefix(w: Window, n: nat)
    requires 1 <= n < |w|
    requires forall j :: 0 <= j < n ==> w[j].Some?
    requires w[n].None?
    ensures LiveEdge(w) == Some(n - 1)
  {
    LiveEdgeFromStops(w, 0, n - 1);
  }

  /** The live-edge search stops at the first index whose successor is nil. */
  lemma {:induction false} LiveEdgeFromStops(w: Window, i: nat, k: nat)
    requires i <= k && k + 1 < |w| && w[k + 1].None?
    requires forall j :: 0 <= j < k ==> NextPopulated(w, j)
    ensures LiveEdgeFrom(w, i) == Some(k)
    decreases k - i
  {
    if i < k {
      assert NextPopulated(w, i);
      LiveEdgeFromStops(w, i + 1, k);
    }
  }

  /** With `n` populated slots before a nil one, a buffer `0 <= b < n` gives segment `n - 1 - b`; `b >= n` panics. */
  lemma LatestSlotInPopulatedPrefix(w: Window, n: nat, b: int)
    requires 1 <= n < |w|
    requires forall j :: 0 <= j < n ==> w[j].Some?
    requires w[n].None?
    ensures 0 <= b < n ==> LatestSlot(w, b) == Slot(w[n - 1 - b]) && w[n - 1 - b].Some?
    ensures b >= n ==> LatestSlot(w, b) == IndexPanic
  {
    LiveEdgeOfPopulatedPrefix(w, n);
  }

  /** A window without nil slots (fully populated) has no live edge, so `getLatestSegment` panics. */
  lemma FullWindowPanics(w: Window, b: int)
    requires forall j :: 0 <= j < |w| ==> w[j].Some?
    ensures LatestSlot(w, b) == IndexPanic
  {
  }
}
