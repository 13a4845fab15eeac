/**
 * `startStreamingPlaylist` of hls-stats.go: the initial playlist and segment
 * fetch, then the loop that refreshes the playlist, fetches the segment under
 * the cursor and sleeps one target duration, stopping after the first failure.
 *
 * The loop never ends by itself in the source; here each pass consumes one
 * `Round` of the environment and the run ends `Running` when they are used up.
 */
module Session {
  import opened Wrappers
  import opened Listener

  /** What a session does that is visible from outside: logger calls and sleeps. */
  datatype Action = Log(event: Event) | Sleep(nanos: int)

  /** The environment of one loop pass: the playlist exchange, what the decoder makes of it, the segment exchange and the clock reading a stall report would carry. */
  datatype Round = Round(playlist: Exchange, decoded: Option<MediaPlaylist>, segment: Exchange, stallAt: int)

  /** The process-ending paths: `log.Fatal` calls and the Go panics. */
  datatype FatalReason =
    | PlaylistUnavailable   // first playlist download failed
    | UndecodablePlaylist   // the decoder rejected a playlist
    | LatestOutOfRange      // getLatestSegment indexed outside the window
    | LatestNil             // getLatestSegment returned a nil slot, dereferenced for its SeqId
    | SegmentNotInWindow    // fetchSegment's log.Fatal("Segment nil")

  datatype End = Fatal(reason: FatalReason) | Terminated | Running

  /** A session: how it ended, what it did, the final cursor and the sequence ids of the segments it downloaded. */
  datatype Run = Run(end: End, trace: seq<Action>, cursor: nat, fetched: seq<nat>)

  function Logs(events: seq<Event>): (actions: seq<Action>)
    ensures |actions| == |events|
    ensures forall k :: 0 <= k < |events| ==> actions[k] == Log(events[k])
  {
    seq(|events|, k requires 0 <= k < |events| => Log(events[k]))
  }

  /** `actions` and `fetched` happened before `rest`. */
  function Prepend(actions: seq<Action>, fetched: seq<nat>, rest: Run): Run
  {
    Run(rest.end, actions + rest.trace, rest.cursor, fetched + rest.fetched)
  }

  lemma PrependPrepend(a: seq<Action>, f: seq<nat>, b: seq<Action>, g: seq<nat>, rest: Run)
    ensures Prepend(a, f, Prepend(b, g, rest)) == Prepend(a + b, f + g, rest)
  {
    assert a + (b + rest.trace) == (a + b) + rest.trace;
    assert f + (g + rest.fetched) == (f + g) + rest.fetched;
  }

  function SeqIds(s: Option<Segment>): seq<nat>
  {
    if s.Some? then [s.value.seqId] else []
  }

  /** How one loop pass ends: the session stops with `run`, or goes on with the cursor at `next`. */
  datatype PassResult = Continue(actions: seq<Action>, next: nat, ids: seq<nat>) | Stop(run: Run)

  /** One pass of the `for` loop of `startStreamingPlaylist` at cursor `cursor`. */
  function Pass(url: string, target: int, cursor: nat, r: Round, hostOf: string -> string): PassResult
  {
    match FetchPlaylist(url, r.playlist, r.decoded, hostOf)
    case FetchFailed(logged) => Stop(Run(Terminated, Logs(logged) + [Sleep(target)], cursor, []))
    case Undecodable(logged) => Stop(Run(Fatal(UndecodablePlaylist), Logs(logged), cursor, []))
    case Fetched(playlist, logged) =>
      match FetchSegmentSpec(url, playlist.segments, cursor, r.segment, r.stallAt, hostOf)
      case SegmentNil => Stop(Run(Fatal(SegmentNotInWindow), Logs(logged), cursor, []))
      case Fetch(didFail, next, events, got) =>
        if didFail then Stop(Run(Terminated, Logs(logged) + Logs(events) + [Sleep(target)], next, []))
        else Continue(Logs(logged) + Logs(events) + [Sleep(target)], next, SeqIds(got))
  }

  /** The `for` loop of `startStreamingPlaylist`, from cursor `cursor`, sleeping `target` nanoseconds per pass. */
  function Steady(url: string, target: int, cursor: nat, rounds: seq<Round>, hostOf: string -> string): Run
    decreases |rounds|
  {
    if rounds == [] then Run(Running, [], cursor, [])
    else
      match Pass(url, target, cursor, rounds[0], hostOf)
      case Stop(run) => run
      case Continue(actions, next, ids) => Prepend(actions, ids, Steady(url, target, next, rounds[1..], hostOf))
  }

  /** How the initial fetches end: the loop begins with `actions` done, sleeping `target` from cursor `cursor`, or the process stops with `run`. */
  datatype StartResult = Begin(actions: seq<Action>, target: int, cursor: nat, ids: seq<nat>) | Abort(run: Run)

  /** The part of `startStreamingPlaylist` before its loop: `init` is the environment of the initial fetches. */
  function Start(url: string, bufferSegments: int, init: Round, hostOf: string -> string): StartResult
  {
    match FetchPlaylist(url, init.playlist, init.decoded, hostOf)
    case FetchFailed(logged) => Abort(Run(Fatal(PlaylistUnavailable), Logs(logged), 0, []))
    case Undecodable(logged) => Abort(Run(Fatal(UndecodablePlaylist), Logs(logged), 0, []))
    case Fetched(playlist, logged) =>
      match LatestSlot(playlist.segments, bufferSegments)
      case IndexPanic => Abort(Run(Fatal(LatestOutOfRange), Logs(logged), 0, []))
      case Slot(None) => Abort(Run(Fatal(LatestNil), Logs(logged), 0, []))
      case Slot(Some(latest)) =>
        match FetchSegmentSpec(url, playlist.segments, latest.seqId, init.segment, init.stallAt, hostOf)
        case SegmentNil => Abort(Run(Fatal(SegmentNotInWindow), Logs(logged), latest.seqId, []))
        case Fetch(_, next, events, got) =>
          Begin(Logs(logged) + Logs(events) + [Sleep(playlist.targetDuration)], playlist.targetDuration, next, SeqIds(got))
  }

  /** The whole of `startStreamingPlaylist`. */
  function StreamSession(url: string, bufferSegments: int, init: Round, rounds: seq<Round>,
                         hostOf: string -> string): Run
  {
    match Start(url, bufferSegments, init, hostOf)
    case Abort(run) => run
    case Begin(actions, target, cursor, ids) => Prepend(actions, ids, Steady(url, target, cursor, rounds, hostOf))
  }

  /** `startStreamingPlaylist`: initial playlist, live edge, first segment, then the refresh loop until the first failure. */
  method StartStreamingPlaylist(playlistUrl: string, bufferSegments: int, init: Round, rounds: seq<Round>,
                                hostOf: string -> string) returns (run: Run)
    ensures run == StreamSession(playlistUrl, bufferSegments, init, rounds, hostOf)
  {
    var p := FetchPlaylist(playlistUrl, init.playlist, init.decoded, hostOf);
    var trace := Logs(p.logged);
    if p.FetchFailed? {
      return Run(Fatal(PlaylistUnavailable), trace, 0, []);
    } else if p.Undecodable? {
      return Run(Fatal(UndecodablePlaylist), trace, 0, []);
    }
    var playlist := p.playlist;
    var targetDuration := playlist.targetDuration;
    var latestSegment := GetLatestSegment(playlist, bufferSegments);
    if latestSegment.IndexPanic? {
      return Run(Fatal(LatestOutOfRange), trace, 0, []);
    } else if latestSegment.slot.None? {
      return Run(Fatal(LatestNil), trace, 0, []);
    }
    var currentSequenceId := latestSegment.slot.value.seqId;
    var first := FetchSegment(playlistUrl, playlist, currentSequenceId, init.segment, init.stallAt, hostOf);
    if first.SegmentNil? {
      return Run(Fatal(SegmentNotInWindow), trace, currentSequenceId, []);
    }
    // the initial fetch's didFail is ignored
    trace := trace + Logs(first.logged) + [Sleep(targetDuration)];
    assert Start(playlistUrl, bufferSegments, init, hostOf)
           == Begin(trace, targetDuration, first.cursor, SeqIds(first.downloaded));
    var rest := RefreshLoop(playlistUrl, targetDuration, first.cursor, rounds, hostOf);
    run := Prepend(trace, SeqIds(first.downloaded), rest);
  }

  /** The `for` loop of `startStreamingPlaylist`: refresh the playlist, fetch the cursor's segment, sleep; break after a failure. */
  method RefreshLoop(playlistUrl: string, targetDuration: int, cursor: nat, rounds: seq<Round>,
                     hostOf: string -> string) returns (run: Run)
    ensures run == Steady(playlistUrl, targetDuration, cursor, rounds, hostOf)
  {
    var currentSequenceId := cursor;
    var trace: seq<Action> := [];
    var fetched: seq<nat> := [];
    var i := 0;
    while i < |rounds|
      invariant 0 <= i <= |rounds|
      invariant Steady(playlistUrl, targetDuration, cursor, rounds, hostOf)
                == Prepend(trace, fetched, Steady(playlistUrl, targetDuration, currentSequenceId, rounds[i..], hostOf))
    {
      assert rounds[i..][0] == rounds[i] && rounds[i..][1..] == rounds[i + 1..];
      var pass := RefreshOnce(playlistUrl, targetDuration, currentSequenceId, rounds[i], hostOf);
      if pass.Stop? {
        // a failure: the pass has already slept once more; leave the loop
        return Prepend(trace, fetched, pass.run);
      }
      PrependPrepend(trace, fetched, pass.actions, pass.ids,
                     Steady(playlistUrl, targetDuration, pass.next, rounds[i + 1..], hostOf));
      trace, fetched, currentSequenceId := trace + pass.actions, fetched + pass.ids, pass.next;
      i := i + 1;
    }
    return Prepend(trace, fetched, Run(Running, [], currentSequenceId, []));
  }

  /**
   * The body of that loop: playlist first, then the segment under the cursor, then one sleep (also after a failure).
   * It is the statement form of `Pass`, calling the looping `FetchSegment` method; it is kept apart from
   * `RefreshLoop` only so that the loop body's proof is separate from the loop's.
   */
  method RefreshOnce(playlistUrl: string, targetDuration: int, currentSequenceId: nat, round: Round,
                     hostOf: string -> string) returns (pass: PassResult)
    ensures pass == Pass(playlistUrl, targetDuration, currentSequenceId, round, hostOf)
  {
    var q := FetchPlaylist(playlistUrl, round.playlist, round.decoded, hostOf);
    var trace := Logs(q.logged);
    if q.FetchFailed? {
      return Stop(Run(Terminated, trace + [Sleep(targetDuration)], currentSequenceId, []));
    } else if q.Undecodable? {
      return Stop(Run(Fatal(UndecodablePlaylist), trace, currentSequenceId, []));
    }
    var g := FetchSegment(playlistUrl, q.playlist, currentSequenceId, round.segment, round.stallAt, hostOf);
    if g.SegmentNil? {
      return Stop(Run(Fatal(SegmentNotInWindow), trace, currentSequenceId, []));
    }
    trace := trace + Logs(g.logged) + [Sleep(targetDuration)];
    if g.didFail {
      return Stop(Run(Terminated, trace, g.cursor, []));
    }
    return Continue(trace, g.cursor, SeqIds(g.downloaded));
  }

  /** Number of sleeps in a trace. */
  function Sleeps(trace: seq<Action>): nat
  {
    if trace == [] then 0 else (if trace[0].Sleep? then 1 else 0) + Sleeps(trace[1..])
  }

  lemma {:induction false} SleepsAppend(a: seq<Action>, b: seq<Action>)
    ensures Sleeps(a + b) == Sleeps(a) + Sleeps(b)
    decreases |a|
  {
    if a == [] {
      assert a + b == b;
    } else {
      assert (a + b)[0] == a[0] && (a + b)[1..] == a[1..] + b;
      SleepsAppend(a[1..], b);
    }
  }

  lemma {:induction false} NoSleepsInLogs(events: seq<Event>)
    ensures Sleeps(Logs(events)) == 0
    decreases |events|
  {
    if events != [] {
      assert Logs(events)[1..] == Logs(events[1..]);
      NoSleepsInLogs(events[1..]);
    }
  }

  /** A completed pass downloaded the cursor's segment and moved the cursor one on; a stopped pass downloaded nothing and kept the cursor. */
  lemma PassAdvances(url: string, target: int, cursor: nat, r: Round, hostOf: string -> string)
    ensures var p := Pass(url, target, cursor, r, hostOf);
      && (p.Continue? ==> p.next == cursor + 1 && p.ids == [cursor])
      && (p.Stop? ==> p.run.cursor == cursor && p.run.fetched == [] && p.run.end != Running)
  {
    var q := FetchPlaylist(url, r.playlist, r.decoded, hostOf);
    if q.Fetched? {
      FetchSegmentAdvances(url, q.playlist.segments, cursor, r.segment, r.stallAt, hostOf);
    }
  }

  /**
   * Every pass acts in the order of the source: a completed pass logs the playlist
   * report, then the success report of the segment exchange, then sleeps; a pass
   * that stopped on a failure ends with the failure's report and one sleep.
   */
  lemma PassActions(url: string, target: int, cursor: nat, r: Round, hostOf: string -> string)
    ensures var p := Pass(url, target, cursor, r, hostOf);
      && (p.Continue? ==>
            && |p.actions| == 3
            && p.actions[0] == Log(DownloadUrl(url, r.playlist, hostOf).logged[0])
            && p.actions[1] == Log(FetchSegmentSpec(url, FetchPlaylist(url, r.playlist, r.decoded, hostOf).playlist.segments,
                                                    cursor, r.segment, r.stallAt, hostOf).logged[0])
            && p.actions[1].event.Success? && p.actions[1].event.id == RandomId(r.segment.id)
            && p.actions[2] == Sleep(target))
      && (p.Stop? && p.run.end == Terminated ==> EndsWithFailureThenSleep(p.run.trace, target))
  {
    var q := FetchPlaylist(url, r.playlist, r.decoded, hostOf);
    if q.Fetched? {
      FetchSegmentAdvances(url, q.playlist.segments, cursor, r.segment, r.stallAt, hostOf);
    }
  }

  /** A completed pass sleeps once, a stopped one once if it stopped on a failure, and every such sleep lasts `target`. */
  lemma PassSleeps(url: string, target: int, cursor: nat, r: Round, hostOf: string -> string)
    ensures var p := Pass(url, target, cursor, r, hostOf);
      && (p.Continue? ==> Sleeps(p.actions) == 1 && SleepsLast(p.actions, target))
      && (p.Stop? ==> Sleeps(p.run.trace) == (if p.run.end == Terminated then 1 else 0)
                      && SleepsLast(p.run.trace, target))
  {
    var q := FetchPlaylist(url, r.playlist, r.decoded, hostOf);
    NoSleepsInLogs(q.logged);
    if q.FetchFailed? {
      SleepsAppend(Logs(q.logged), [Sleep(target)]);
    } else if q.Fetched? {
      var g := FetchSegmentSpec(url, q.playlist.segments, cursor, r.segment, r.stallAt, hostOf);
      if g.Fetch? {
        NoSleepsInLogs(g.logged);
        SleepsAppend(Logs(q.logged), Logs(g.logged));
        SleepsAppend(Logs(q.logged) + Logs(g.logged), [Sleep(target)]);
      }
    }
  }

  /** Unfolding the loop by one pass. */
  lemma SteadyUnfold(url: string, target: int, cursor: nat, rounds: seq<Round>, hostOf: string -> string)
    requires rounds != []
    ensures var p := Pass(url, target, cursor, rounds[0], hostOf);
      Steady(url, target, cursor, rounds, hostOf)
        == if p.Stop? then p.run else Prepend(p.actions, p.ids, Steady(url, target, p.next, rounds[1..], hostOf))
  {
  }

  /** The downloaded ids of `run` are consecutive from `from`, and its cursor is just past the last. */
  predicate ConsecutiveFrom(run: Run, from: nat)
  {
    && run.cursor == from + |run.fetched|
    && forall k :: 0 <= k < |run.fetched| ==> run.fetched[k] == from + k
  }

  /** Downloading nothing, or the segment at `from`, ahead of a run that is consecutive from there on. */
  lemma ConsecutivePrepend(actions: seq<Action>, from: nat, ids: seq<nat>, rest: Run)
    requires ids == [] || ids == [from]
    requires ConsecutiveFrom(rest, from + |ids|)
    ensures ConsecutiveFrom(Prepend(actions, ids, rest), from)
  {
    var run := Prepend(actions, ids, rest);
    forall k | 0 <= k < |run.fetched|
      ensures run.fetched[k] == from + k
    {
      if k >= |ids| {
        assert run.fetched[k] == rest.fetched[k - |ids|];
      }
    }
  }

  /** In the loop the downloaded sequence ids are consecutive from the starting cursor, which ends just past the last. */
  lemma {:induction false} SteadyFetchesConsecutive(url: string, target: int, cursor: nat, rounds: seq<Round>,
                                                    hostOf: string -> string)
    ensures ConsecutiveFrom(Steady(url, target, cursor, rounds, hostOf), cursor)
    decreases |rounds|
  {
    if rounds != [] {
      var p := Pass(url, target, cursor, rounds[0], hostOf);
      PassAdvances(url, target, cursor, rounds[0], hostOf);
      SteadyUnfold(url, target, cursor, rounds, hostOf);
      if p.Continue? {
        SteadyFetchesConsecutive(url, target, cursor + 1, rounds[1..], hostOf);
        ConsecutivePrepend(p.actions, cursor, [cursor], Steady(url, target, cursor + 1, rounds[1..], hostOf));
      }
    }
  }

  /** What the initial fetches did, in the source's order, and that only `Begin` reaches the loop. */
  lemma StartShape(url: string, bufferSegments: int, init: Round, hostOf: string -> string)
    ensures var s := Start(url, bufferSegments, init, hostOf);
      var q := FetchPlaylist(url, init.playlist, init.decoded, hostOf);
      && (s.Begin? ==>
            && q.Fetched?
            && s.target == q.playlist.targetDuration
            && |s.actions| == 3
            && s.actions[0] == Log(DownloadUrl(url, init.playlist, hostOf).logged[0])
            && s.actions[2] == Sleep(s.target)
            && var latest := LatestSlot(q.playlist.segments, bufferSegments);
               && latest.Slot? && latest.slot.Some?
               && s.actions[1] == Log(FetchSegmentSpec(url, q.playlist.segments, latest.slot.value.seqId, init.segment,
                                                       init.stallAt, hostOf).logged[0])
               && s.cursor == latest.slot.value.seqId + |s.ids|
               && (s.ids == [] || s.ids == [latest.slot.value.seqId]))
      && (s.Abort? ==> s.run.end.Fatal? && s.run.fetched == [] && forall k :: 0 <= k < |s.run.trace| ==> s.run.trace[k].Log?)
  {
    var q := FetchPlaylist(url, init.playlist, init.decoded, hostOf);
    if q.Fetched? {
      var latest := LatestSlot(q.playlist.segments, bufferSegments);
      if latest.Slot? && latest.slot.Some? {
        FetchSegmentAdvances(url, q.playlist.segments, latest.slot.value.seqId, init.segment, init.stallAt, hostOf);
      }
    }
  }

  /** A whole session downloads the segments from the one under the live edge onwards, each sequence id once, in order. */
  lemma SessionFetchesConsecutive(url: string, bufferSegments: int, init: Round, rounds: seq<Round>,
                                  hostOf: string -> string, latest: Segment)
    requires FetchPlaylist(url, init.playlist, init.decoded, hostOf).Fetched?
    requires LatestSlot(FetchPlaylist(url, init.playlist, init.decoded, hostOf).playlist.segments, bufferSegments)
             == Slot(Some(latest))
    ensures ConsecutiveFrom(StreamSession(url, bufferSegments, init, rounds, hostOf), latest.seqId)
  {
    var s := Start(url, bufferSegments, init, hostOf);
    StartShape(url, bufferSegments, init, hostOf);
    if s.Begin? {
      SteadyFetchesConsecutive(url, s.target, s.cursor, rounds, hostOf);
      ConsecutivePrepend(s.actions, latest.seqId, s.ids, Steady(url, s.target, s.cursor, rounds, hostOf));
    }
  }

  /** The initial segment fetch never reaches `log.Fatal("Segment nil")`: the latest segment is itself in the window. */
  lemma InitialFetchFindsLatest(url: string, w: Window, bufferSegments: int, ex: Exchange, stallAt: int,
                                hostOf: string -> string, latest: Segment)
    requires LatestSlot(w, bufferSegments) == Slot(Some(latest))
    ensures FetchSegmentSpec(url, w, latest.seqId, ex, stallAt, hostOf).Fetch?
  {
    var k := LiveEdge(w).value - bufferSegments;
    assert !Passes(w, latest.seqId, k);
  }

  /** One sleep per completed pass, and exactly one more when the loop stops on a failure. */
  lemma {:induction false} SteadySleeps(url: string, target: int, cursor: nat, rounds: seq<Round>,
                                        hostOf: string -> string)
    ensures var run := Steady(url, target, cursor, rounds, hostOf);
      && Sleeps(run.trace) == |run.fetched| + (if run.end == Terminated then 1 else 0)
      && (run.end == Running ==> |run.fetched| == |rounds|)
    decreases |rounds|
  {
    if rounds != [] {
      var p := Pass(url, target, cursor, rounds[0], hostOf);
      PassSleeps(url, target, cursor, rounds[0], hostOf);
      PassAdvances(url, target, cursor, rounds[0], hostOf);
      SteadyUnfold(url, target, cursor, rounds, hostOf);
      var run := Steady(url, target, cursor, rounds, hostOf);
      if p.Stop? {
        assert run == p.run;
      } else {
        var rest := Steady(url, target, p.next, rounds[1..], hostOf);
        assert run == Prepend(p.actions, p.ids, rest);
        SteadySleeps(url, target, p.next, rounds[1..], hostOf);
        SleepsAppend(p.actions, rest.trace);
      }
    }
  }

  /** `trace` ends with a failure report followed by a sleep of `target`. */
  predicate EndsWithFailureThenSleep(trace: seq<Action>, target: int)
  {
    && |trace| >= 2
    && trace[|trace| - 1] == Sleep(target)
    && trace[|trace| - 2].Log? && trace[|trace| - 2].event.Failure?
  }

  lemma EndsWithFailureThenSleepAfter(a: seq<Action>, trace: seq<Action>, target: int)
    requires EndsWithFailureThenSleep(trace, target)
    ensures EndsWithFailureThenSleep(a + trace, target)
  {
    var t := a + trace;
    assert t[|t| - 1] == trace[|trace| - 1];
    assert t[|t| - 2] == trace[|trace| - 2];
  }

  /** A loop that stopped on a failure ended with that failure's report followed by one sleep. */
  lemma {:induction false} SteadyEndsWithFailureThenSleep(url: string, target: int, cursor: nat, rounds: seq<Round>,
                                                          hostOf: string -> string)
    ensures var run := Steady(url, target, cursor, rounds, hostOf);
      run.end == Terminated ==> EndsWithFailureThenSleep(run.trace, target)
    decreases |rounds|
  {
    if rounds != [] {
      var p := Pass(url, target, cursor, rounds[0], hostOf);
      PassActions(url, target, cursor, rounds[0], hostOf);
      SteadyUnfold(url, target, cursor, rounds, hostOf);
      if p.Continue? {
        var rest := Steady(url, target, p.next, rounds[1..], hostOf);
        SteadyEndsWithFailureThenSleep(url, target, p.next, rounds[1..], hostOf);
        if rest.end == Terminated {
          EndsWithFailureThenSleepAfter(p.actions, rest.trace, target);
        }
      }
    }
  }

  /** A failed playlist refresh ends the run with its failure report and one sleep, whatever the later rounds hold. */
  lemma RefreshFailureStops(url: string, target: int, cursor: nat, rounds: seq<Round>, hostOf: string -> string)
    requires rounds != [] && DownloadUrl(url, rounds[0].playlist, hostOf).didFail
    ensures Steady(url, target, cursor, rounds, hostOf)
            == Run(Terminated, [Log(DownloadUrl(url, rounds[0].playlist, hostOf).logged[0]), Sleep(target)], cursor, [])
  {
  }

  /**
   * A refresh that succeeds but whose segment fetch fails (a stall, or a failed segment download) ends the run
   * with the playlist report, that fetch's failure report and one sleep, whatever the later rounds hold.
   */
  lemma SegmentFailureStops(url: string, target: int, cursor: nat, rounds: seq<Round>, hostOf: string -> string)
    requires rounds != []
    requires FetchPlaylist(url, rounds[0].playlist, rounds[0].decoded, hostOf).Fetched?
    requires var f := FetchSegmentSpec(url, FetchPlaylist(url, rounds[0].playlist, rounds[0].decoded, hostOf).playlist.segments,
                                       cursor, rounds[0].segment, rounds[0].stallAt, hostOf);
             f.Fetch? && f.didFail
    ensures var f := FetchSegmentSpec(url, FetchPlaylist(url, rounds[0].playlist, rounds[0].decoded, hostOf).playlist.segments,
                                      cursor, rounds[0].segment, rounds[0].stallAt, hostOf);
            Steady(url, target, cursor, rounds, hostOf)
            == Run(Terminated, [Log(DownloadUrl(url, rounds[0].playlist, hostOf).logged[0]), Log(f.logged[0]), Sleep(target)],
                   cursor, [])
  {
    var q := FetchPlaylist(url, rounds[0].playlist, rounds[0].decoded, hostOf);
    FetchSegmentAdvances(url, q.playlist.segments, cursor, rounds[0].segment, rounds[0].stallAt, hostOf);
  }

  /** The report of each round's playlist download, in order. */
  function PlaylistReports(url: string, rounds: seq<Round>, hostOf: string -> string): (reports: seq<Event>)
    ensures |reports| == |rounds|
    ensures forall k :: 0 <= k < |rounds| ==> reports[k] == DownloadUrl(url, rounds[k].playlist, hostOf).logged[0]
  {
    if rounds == [] then []
    else [DownloadUrl(url, rounds[0].playlist, hostOf).logged[0]] + PlaylistReports(url, rounds[1..], hostOf)
  }

  /** The correlation id of each round's segment exchange, in order. */
  function SegmentIds(rounds: seq<Round>): (ids: seq<nat>)
    ensures |ids| == |rounds|
    ensures forall k :: 0 <= k < |rounds| ==> ids[k] == rounds[k].segment.id
  {
    if rounds == [] then [] else [rounds[0].segment.id] + SegmentIds(rounds[1..])
  }

  /**
   * `trace` is three actions per round: that round's playlist report, a success
   * report carrying that round's segment exchange id, a sleep of `target`.
   */
  predicate ThreePerRound(trace: seq<Action>, reports: seq<Event>, segmentIds: seq<nat>, target: int)
  {
    && |reports| == |segmentIds|
    && |trace| == 3 * |reports|
    && forall k :: 0 <= k < |reports| ==>
         && trace[3 * k] == Log(reports[k])
         && trace[3 * k + 1].Log? && trace[3 * k + 1].event.Success?
         && trace[3 * k + 1].event.id == RandomId(segmentIds[k])
         && trace[3 * k + 2] == Sleep(target)
  }

  lemma ThreePerRoundCons(a: seq<Action>, e: Event, id: nat, trace: seq<Action>, reports: seq<Event>,
                          segmentIds: seq<nat>, target: int)
    requires |a| == 3 && a[0] == Log(e) && a[2] == Sleep(target)
    requires a[1].Log? && a[1].event.Success? && a[1].event.id == RandomId(id)
    requires ThreePerRound(trace, reports, segmentIds, target)
    ensures ThreePerRound(a + trace, [e] + reports, [id] + segmentIds, target)
  {
    var t, r, ids := a + trace, [e] + reports, [id] + segmentIds;
    forall k | 0 <= k < |r|
      ensures && t[3 * k] == Log(r[k])
              && t[3 * k + 1].Log? && t[3 * k + 1].event.Success? && t[3 * k + 1].event.id == RandomId(ids[k])
              && t[3 * k + 2] == Sleep(target)
    {
      if k > 0 {
        assert r[k] == reports[k - 1] && ids[k] == segmentIds[k - 1];
        assert t[3 * k] == trace[3 * (k - 1)];
        assert t[3 * k + 1] == trace[3 * (k - 1) + 1];
        assert t[3 * k + 2] == trace[3 * (k - 1) + 2];
      }
    }
  }

  /**
   * A loop that ran through all its rounds did three things per round: the
   * report of that round's playlist download, the success report of that round's
   * segment download, a sleep.
   */
  lemma {:induction false} SteadyRoundShape(url: string, target: int, cursor: nat, rounds: seq<Round>,
                                            hostOf: string -> string)
    ensures var run := Steady(url, target, cursor, rounds, hostOf);
      run.end == Running ==> ThreePerRound(run.trace, PlaylistReports(url, rounds, hostOf), SegmentIds(rounds), target)
    decreases |rounds|
  {
    if rounds != [] {
      var p := Pass(url, target, cursor, rounds[0], hostOf);
      PassActions(url, target, cursor, rounds[0], hostOf);
      PassAdvances(url, target, cursor, rounds[0], hostOf);
      SteadyUnfold(url, target, cursor, rounds, hostOf);
      if p.Continue? {
        var rest := Steady(url, target, p.next, rounds[1..], hostOf);
        SteadyRoundShape(url, target, p.next, rounds[1..], hostOf);
        if rest.end == Running {
          ThreePerRoundCons(p.actions, DownloadUrl(url, rounds[0].playlist, hostOf).logged[0], rounds[0].segment.id,
                            rest.trace, PlaylistReports(url, rounds[1..], hostOf), SegmentIds(rounds[1..]), target);
        }
      }
    }
  }

  /** Every sleep in `trace` lasts `target` nanoseconds. */
  predicate SleepsLast(trace: seq<Action>, target: int)
  {
    forall k :: 0 <= k < |trace| && trace[k].Sleep? ==> trace[k].nanos == target
  }

  lemma SleepsLastAppend(a: seq<Action>, b: seq<Action>, target: int)
    requires SleepsLast(a, target) && SleepsLast(b, target)
    ensures SleepsLast(a + b, target)
  {
    forall k | 0 <= k < |a + b| && (a + b)[k].Sleep?
      ensures (a + b)[k].nanos == target
    {
      if k >= |a| {
        assert (a + b)[k] == b[k - |a|];
      }
    }
  }

  /** Every sleep of the loop lasts the target duration it was started with. */
  lemma {:induction false} SteadySleepsTarget(url: string, target: int, cursor: nat, rounds: seq<Round>,
                                              hostOf: string -> string)
    ensures SleepsLast(Steady(url, target, cursor, rounds, hostOf).trace, target)
    decreases |rounds|
  {
    if rounds != [] {
      var p := Pass(url, target, cursor, rounds[0], hostOf);
      PassSleeps(url, target, cursor, rounds[0], hostOf);
      SteadyUnfold(url, target, cursor, rounds, hostOf);
      var run := Steady(url, target, cursor, rounds, hostOf);
      if p.Stop? {
        assert run == p.run;
      } else {
        var rest := Steady(url, target, p.next, rounds[1..], hostOf);
        assert run == Prepend(p.actions, p.ids, rest);
        SteadySleepsTarget(url, target, p.next, rounds[1..], hostOf);
        SleepsLastAppend(p.actions, rest.trace, target);
      }
    }
  }

  /** Every sleep of a session lasts the target duration of the first playlist; later playlists' durations are not used. */
  lemma SessionSleepsInitialTarget(url: string, bufferSegments: int, init: Round, rounds: seq<Round>,
                                   hostOf: string -> string)
    requires FetchPlaylist(url, init.playlist, init.decoded, hostOf).Fetched?
    ensures SleepsLast(StreamSession(url, bufferSegments, init, rounds, hostOf).trace,
                       FetchPlaylist(url, init.playlist, init.decoded, hostOf).playlist.targetDuration)
  {
    var s := Start(url, bufferSegments, init, hostOf);
    StartShape(url, bufferSegments, init, hostOf);
    if s.Begin? {
      var rest := Steady(url, s.target, s.cursor, rounds, hostOf);
      SteadySleepsTarget(url, s.target, s.cursor, rounds, hostOf);
      assert SleepsLast(s.actions, s.target);
      SleepsLastAppend(s.actions, rest.trace, s.target);
    }
  }

  /** A failed first playlist download is fatal right after its failure report. */
  lemma InitialPlaylistFailureIsFatal(url: string, bufferSegments: int, init: Round, rounds: seq<Round>,
                                      hostOf: string -> string)
    requires DownloadUrl(url, init.playlist, hostOf).didFail
    ensures StreamSession(url, bufferSegments, init, rounds, hostOf)
            == Run(Fatal(PlaylistUnavailable), [Log(DownloadUrl(url, init.playlist, hostOf).logged[0])], 0, [])
  {
  }

  /** The initial segment fetch failing (a stall or a failed download) does not stop the session: the loop still runs. */
  lemma InitialSegmentFailureIgnored(url: string, bufferSegments: int, init: Round, rounds: seq<Round>,
                                     hostOf: string -> string, latest: Segment)
    requires FetchPlaylist(url, init.playlist, init.decoded, hostOf).Fetched?
    requires var p := FetchPlaylist(url, init.playlist, init.decoded, hostOf).playlist;
      && LatestSlot(p.segments, bufferSegments) == Slot(Some(latest))
      && var f := FetchSegmentSpec(url, p.segments, latest.seqId, init.segment, init.stallAt, hostOf);
         f.Fetch? && f.didFail
    ensures var q := FetchPlaylist(url, init.playlist, init.decoded, hostOf);
      var f := FetchSegmentSpec(url, q.playlist.segments, latest.seqId, init.segment, init.stallAt, hostOf);
      var rest := Steady(url, q.playlist.targetDuration, latest.seqId, rounds, hostOf);
      StreamSession(url, bufferSegments, init, rounds, hostOf)
        == Run(rest.end, Logs(q.logged) + Logs(f.logged) + [Sleep(q.playlist.targetDuration)] + rest.trace,
               rest.cursor, rest.fetched)
  {
    var q := FetchPlaylist(url, init.playlist, init.decoded, hostOf);
    FetchSegmentAdvances(url, q.playlist.segments, latest.seqId, init.segment, init.stallAt, hostOf);
  }
}
