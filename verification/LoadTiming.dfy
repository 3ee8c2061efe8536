/**
 The time from asking for a source to hearing it: each load is reported once, in
 order, with its own figures (desktop/core/src/playback_load_timing.rs). The clock is
 a parameter.
 */
module LoadTiming {
  import opened Outcomes

  datatype LoadTrigger = Play | Queue | Gapless | Repeat | Restore | Reconnect | Recovery

  datatype LoadMark = Accepted(revision: nat) | FileLoaded | Playing | Failed

  datatype LoadOutcome = HasStarted | HasFailed | Replaced

  datatype Load = Load(revision: Option<nat>, sourceType: string, trigger: LoadTrigger, sentAt: int,
      fileLoaded: Option<int>)

  datatype LoadReport = LoadReport(outcome: LoadOutcome, sourceType: string, trigger: LoadTrigger,
      fileLoaded: Option<int>, elapsed: int)

  function ReportOf(load: Load, outcome: LoadOutcome, now: int): LoadReport {
    LoadReport(outcome, load.sourceType, load.trigger, load.fileLoaded, now - load.sentAt)
  }

  class LoadTimer {
    var current: Option<Load>

    constructor ()
      ensures current == None
    {
      current := None;
    }

    /** A load that had not played is reported as replaced by this one. */
    method Start(revision: Option<nat>, sourceType: string, trigger: LoadTrigger, now: int)
            returns (report: Option<LoadReport>)
      modifies this
      ensures current == Some(Load(revision, sourceType, trigger, now, None))
      ensures report == if old(current).None? then None else Some(ReportOf(old(current).value, Replaced, now))
    {
      report := if current.None? then None else Some(ReportOf(current.value, Replaced, now));
      current := Some(Load(revision, sourceType, trigger, now, None));
    }

    /** Events before the load's boundary are about another file. */
    method Observe(mark: LoadMark, now: int) returns (report: Option<LoadReport>)
      modifies this
      ensures report.Some? <==>
                old(current).Some? && old(current).value.revision.None? && (mark.Playing? || mark.Failed?)
      ensures report.Some? ==>
                current == None
                && report.value == ReportOf(old(current).value, if mark.Playing? then HasStarted else HasFailed, now)
      ensures report.None? ==> current == Marked(old(current), mark, now)
    {
      report := None;
      if current.Some? {
        var load := current.value;
        if mark.Accepted? {
          if load.revision == Some(mark.revision) {
            current := Some(load.(revision := None));
          }
        } else if load.revision.None? {
          match mark {
            case FileLoaded =>
              if load.fileLoaded.None? {
                current := Some(load.(fileLoaded := Some(now - load.sentAt)));
              }
            case Playing =>
              report := Some(ReportOf(load, HasStarted, now));
              current := None;
            case Failed =>
              report := Some(ReportOf(load, HasFailed, now));
              current := None;
          }
        }
      }
    }
  }

  /** What a mark that ends nothing leaves. */
  function Marked(current: Option<Load>, mark: LoadMark, now: int): Option<Load> {
    if current.None? then None
    else
      var load := current.value;
      if mark.Accepted? && load.revision == Some(mark.revision) then Some(load.(revision := None))
      else if mark.FileLoaded? && load.revision.None? && load.fileLoaded.None?
          then Some(load.(fileLoaded := Some(now - load.sentAt)))
      else current
  }

  /** One event of a run, and when. */
  datatype Event =
    | Started(revision: Option<nat>, sourceType: string, trigger: LoadTrigger, at: int)
    | Observed(mark: LoadMark, at: int)

  /** Before `i`, mpv had accepted the load started at `start`; one without a revision needs no word. */
  predicate IsAccepted(events: seq<Event>, start: nat, i: nat)
    requires start < i <= |events| && events[start].Started?
  {
    events[start].revision.None? || exists j :: start < j < i && IsWord(events[j], events[start].revision.value)
  }

  predicate IsWord(event: Event, revision: nat) {
    event.Observed? && event.mark == Accepted(revision)
  }

  /** The load's own file was loaded at `file`, and not before. */
  predicate IsOwnFile(events: seq<Event>, start: nat, file: nat)
    requires start < file < |events| && events[start].Started?
  {
    events[file].Observed? && events[file].mark.FileLoaded? && IsAccepted(events, start, file)
  }

  /** The time from the start to the first loading of the load's own file before `i`, if there was one. */
  ghost predicate IsFileTime(events: seq<Event>, start: nat, i: nat, time: Option<int>)
    requires start < i <= |events| && events[start].Started?
  {
    match time
    case None => forall j :: start < j < i ==> !IsOwnFile(events, start, j)
    case Some(elapsed) => exists j ::
        start < j < i && IsFirstOwnFile(events, start, j) && elapsed == events[j].at - events[start].at
  }

  predicate IsFirstOwnFile(events: seq<Event>, start: nat, file: nat)
    requires start < file < |events| && events[start].Started?
  {
    IsOwnFile(events, start, file) && forall k :: start < k < file ==> !IsOwnFile(events, start, k)
  }

  /** The event at `i` ends the load: another start, or its own playing or failing. */
  predicate Ends(events: seq<Event>, start: nat, i: nat)
    requires start < i < |events| && events[start].Started?
  {
    || events[i].Started?
    || ((events[i].mark.Playing? || events[i].mark.Failed?) && IsAccepted(events, start, i))
  }

  function OutcomeOf(event: Event): LoadOutcome {
    if event.Started? then Replaced else if event.mark.Playing? then HasStarted else HasFailed
  }

  /** The report of the load started at `start` is what happened to it, at the first event that ended it. */
  ghost predicate Tells(events: seq<Event>, start: nat, end: nat, report: LoadReport) {
    && start < end < |events| && events[start].Started?
    && Ends(events, start, end) && (forall i :: start < i < end ==> !Ends(events, start, i))
    && report.outcome == OutcomeOf(events[end])
    && report.sourceType == events[start].sourceType && report.trigger == events[start].trigger
    && report.elapsed == events[end].at - events[start].at
    && IsFileTime(events, start, end, report.fileLoaded)
  }

  /** The load under way was started at `start`, and nothing ended it. */
  ghost predicate Tracks(events: seq<Event>, start: nat, i: nat, load: Load) {
    && start < i <= |events| && events[start].Started?
    && (forall j :: start < j < i ==> !Ends(events, start, j))
    && load.sourceType == events[start].sourceType && load.trigger == events[start].trigger
    && load.sentAt == events[start].at
    && load.revision == (if IsAccepted(events, start, i) then None else events[start].revision)
    && IsFileTime(events, start, i, load.fileLoaded)
  }

  lemma AcceptedNext(events: seq<Event>, start: nat, i: nat)
    requires start < i < |events| && events[start].Started?
    ensures IsAccepted(events, start, i + 1) <==>
              || IsAccepted(events, start, i)
              || (events[start].revision.Some? && IsWord(events[i], events[start].revision.value))
    ensures events[start].revision.None? ==> IsAccepted(events, start, i)
  {
    if events[start].revision.Some? && exists j :: start < j < i && IsWord(events[j], events[start].revision.value) {
      var j :| start < j < i && IsWord(events[j], events[start].revision.value);
      assert start < j < i + 1;
    }
  }

  lemma FileTimeNext(events: seq<Event>, start: nat, i: nat, time: Option<int>)
    requires start < i < |events| && events[start].Started? && IsFileTime(events, start, i, time)
    ensures IsFileTime(events, start, i + 1, if time.None? && IsOwnFile(events, start, i)
              then Some(events[i].at - events[start].at) else time)
  {
    hide IsOwnFile;
    if time.None? && IsOwnFile(events, start, i) {
      assert IsFirstOwnFile(events, start, i);
    }
  }

  /** A mark that ends nothing. */
  lemma TracksNext(events: seq<Event>, start: nat, i: nat, load: Load)
    requires i < |events| && Tracks(events, start, i, load) && !Ends(events, start, i)
    ensures Marked(Some(load), events[i].mark, events[i].at).Some?
    ensures Tracks(events, start, i + 1, Marked(Some(load), events[i].mark, events[i].at).value)
  {
    hide IsAccepted, IsFileTime;
    AcceptedNext(events, start, i);
    FileTimeNext(events, start, i, load.fileLoaded);
  }

  lemma TracksStart(events: seq<Event>, i: nat)
    requires i < |events| && events[i].Started?
    ensures Tracks(events, i, i + 1,
              Load(events[i].revision, events[i].sourceType, events[i].trigger, events[i].at, None))
  {
  }

  /** The starts among the first `n` events, in order. */
  function Starts(events: seq<Event>, n: nat): seq<nat>
    requires n <= |events|
  {
    if n == 0 then [] else Starts(events, n - 1) + if events[n - 1].Started? then [n - 1] else []
  }

  /**
   Over any run: the n-th report is of the n-th start and tells what happened to it,
   and every start is reported but the one still under way.
   */
  method Run(events: seq<Event>) returns (reports: seq<LoadReport>, ghost ends: seq<nat>, timer: LoadTimer)
    ensures |reports| == |ends|
    ensures |Starts(events, |events|)| == |reports| + if timer.current.Some? then 1 else 0
    ensures forall n :: 0 <= n < |reports| ==> Tells(events, Starts(events, |events|)[n], ends[n], reports[n])
    ensures timer.current.Some? ==> Tracks(events, Starts(events, |events|)[|reports|], |events|, timer.current.value)
  {
    hide Tells, Tracks, Ends, IsAccepted, IsFileTime;
    timer := new LoadTimer();
    reports, ends := [], [];
    for i := 0 to |events|
      invariant fresh(timer) && |reports| == |ends|
      invariant |Starts(events, i)| == |reports| + if timer.current.Some? then 1 else 0
      invariant forall n :: 0 <= n < |reports| ==> Tells(events, Starts(events, i)[n], ends[n], reports[n])
      invariant timer.current.Some? ==> Tracks(events, Starts(events, i)[|reports|], i, timer.current.value)
    {
      ghost var before := timer.current;
      ghost var start := if before.Some? then Starts(events, i)[|reports|] else 0;
      var report: Option<LoadReport>;
      match events[i] {
        case Started(revision, sourceType, trigger, at) =>
          report := timer.Start(revision, sourceType, trigger, at);
          TracksStart(events, i);
        case Observed(mark, at) =>
          report := timer.Observe(mark, at);
      }
      if before.Some? {
        EndsOrNot(events, start, i, before.value);
        if report.Some? {
          ReportTells(events, start, i, before.value, report.value);
        }
      }
      if report.Some? {
        reports, ends := reports + [report.value], ends + [i];
      }
    }
  }

  /** The load under way ends exactly at the events that report it. */
  lemma EndsOrNot(events: seq<Event>, start: nat, i: nat, load: Load)
    requires i < |events| && Tracks(events, start, i, load)
    ensures Ends(events, start, i)
            <==> events[i].Started? || ((events[i].mark.Playing? || events[i].mark.Failed?) && load.revision.None?)
    ensures !Ends(events, start, i) ==>
              Marked(Some(load), events[i].mark, events[i].at).Some?
              && Tracks(events, start, i + 1, Marked(Some(load), events[i].mark, events[i].at).value)
  {
    if !Ends(events, start, i) {
      TracksNext(events, start, i, load);
    }
  }

  lemma ReportTells(events: seq<Event>, start: nat, end: nat, load: Load, report: LoadReport)
    requires end < |events| && Tracks(events, start, end, load) && Ends(events, start, end)
    requires report == ReportOf(load, OutcomeOf(events[end]), events[end].at)
    ensures Tells(events, start, end, report)
  {
  }

  /** No word from mpv, no file time and no start or failure. */
  lemma SilentUntilAccepted(events: seq<Event>, start: nat, end: nat, report: LoadReport)
    requires Tells(events, start, end, report) && !IsAccepted(events, start, end)
    ensures report.outcome == Replaced && report.fileLoaded == None
  {
    forall j | start < j < end
      ensures !IsOwnFile(events, start, j)
    {
      NotAcceptedBefore(events, start, j, end);
    }
  }

  lemma NotAcceptedBefore(events: seq<Event>, start: nat, i: nat, later: nat)
    requires start < i <= later <= |events| && events[start].Started? && !IsAccepted(events, start, later)
    ensures !IsAccepted(events, start, i)
  {
  }
}
