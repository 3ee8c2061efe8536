/**
 What hand-offs and returns add up to: one there and back, and whole runs with
 kills, restarts, moved outputs and failing calls.
 */
module HandOffRuns {
  import opened Outcomes
  import opened Processing
  import opened HandOff

  /** What is heard after a change is what was heard before it, changed. */
  lemma HeardChanges(one: State, other: State, change: Adjustment)
    requires Heard(one) == Heard(other)
    ensures Heard(Changed(one, change)) == Heard(Changed(other, change))
  {
    assert one.profile == Heard(one).profile == Heard(other).profile == other.profile;
  }

  function Slid(state: State, slider: Option<real>): State {
    if slider.Some? then Changed(state, ToVolume(slider.value)) else state
  }

  /** The listener's volume, times the slider if it was moved while the device carried it. */
  function Scaled(volume: real, slider: Option<real>): real {
    if slider.Some? then Product(slider.value, volume) else volume
  }

  /**
   Going to full volume drops the ReplayGain mode and the equalizer only when they
   are off and flat, so coming back brings back the whole profile.
   */
  lemma ThereAndBack(state: State, slider: Option<real>)
    requires SoundState(state) && Fraction(state.volume)
    requires slider.Some? ==> 0.0 <= slider.value <= 1.0
    ensures Heard(Returned(Slid(FullVolume(state), slider), state.volume))
              == Heard(state.(volume := Scaled(state.volume, slider)))
  {
    FlatEqualizer(state);
    if slider.Some? {
      ScaledIsBelow(state.volume, slider);
    }
  }

  /** At full volume the profile goes to Direct exactly when only the volume was processed. */
  lemma FullVolumeIs(state: State)
    requires SoundState(state) && Fraction(state.volume)
    ensures var full, isVolumeOnly := FullVolume(state), state.replayGain == Off && state.equalizer == FLAT;
            && full.volume == 1.0 && full.replayGain == state.replayGain && full.equalizer == state.equalizer
            && (full.profile == Direct <==> isVolumeOnly)
  {
    FlatEqualizer(state);
  }

  /** Nothing plays louder than the listener chose, before or since. */
  lemma ScaledIsBelow(volume: real, slider: Option<real>)
    requires Fraction(volume) && (slider.Some? ==> 0.0 <= slider.value <= 1.0)
    ensures 0.0 <= Scaled(volume, slider) <= volume && (slider.Some? ==> Scaled(volume, slider) <= slider.value)
  {
    if slider.Some? {
      ProductOfVolumes(slider.value, volume);
    }
  }

  lemma HeardReturns(one: State, other: State, entry: real)
    requires Heard(one) == Heard(other)
    ensures Heard(Returned(one, entry)) == Heard(Returned(other, entry))
  {
    hide Product;
    var volume := Product(one.volume, entry);
    assert other.volume == one.volume by {
      assert one.volume == Heard(one).volume == Heard(other).volume == other.volume;
    }
    calc {
      Heard(Returned(one, entry));
      Heard(Changed(one, ToVolume(volume)));
      { HeardChanges(one, other, ToVolume(volume)); }
      Heard(Changed(other, ToVolume(volume)));
      Heard(Returned(other, entry));
    }
  }

  /** The same through the states mpv reports, which add only what is in effect. */
  lemma ReportedThereAndBack(state: State, slider: Option<real>, away: State, back: State)
    requires SoundState(state) && Fraction(state.volume)
    requires slider.Some? ==> 0.0 <= slider.value <= 1.0
    requires Heard(away) == Heard(Slid(FullVolume(state), slider)) && Heard(back) == Heard(Returned(away, state.volume))
    ensures Heard(back) == Heard(state.(volume := Scaled(state.volume, slider)))
  {
    hide Slid, FullVolume, Returned, SoundState, Scaled, Heard;
    HeardReturns(away, Slid(FullVolume(state), slider), state.volume);
    ThereAndBack(state, slider);
  }

  /** The device carries the volume, and then the listener may move the slider. */
  method HandOffAndSlide(desk: Desk, route: Route, slider: Option<real>) returns (r: Outcome<()>)
    requires desk.Settled() && desk.memory == None && Fraction(desk.processing.state.volume)
    modifies desk, desk.processing, desk.processing.storage, desk.audio
    ensures r.Ok? ==> desk.Settled()
    ensures desk.audio.disturbances >= old(desk.audio.disturbances)
    ensures desk.processing.storage.disturbances >= old(desk.processing.storage.disturbances)
    ensures desk.Calm(old(desk.audio.disturbances), old(desk.processing.storage.disturbances)) ==>
              && r.Ok? && Heard(desk.processing.state) == Heard(Slid(FullVolume(old(desk.processing.state)), slider))
              && CarriedBy(desk.memory, route, desk.RouteTarget(route), old(desk.processing.state.volume))
              && desk.audio.sinks == Shifted(old(desk.audio.sinks), desk.RouteTarget(route), desk.memory.value.applied)
              && desk.audio.defaultSink == old(desk.audio.defaultSink)
  {
    hide Balanced, OwedBy, FactorBy, Product, Shifted, Controller.Persisted, IsNamed, RecordOf;
    ghost var state := desk.processing.state;
    var handed := desk.HandOffVolume(route);
    r := if handed.Ok? then Ok(()) else handed.PropagateFailure();
    ghost var away := desk.processing.state;
    if r.Ok? && slider.Some? {
      var chosen := desk.Choose(ToVolume(slider.value));
      r := if chosen.Killed? then Killed else Ok(());
      if chosen.Ok? && Heard(away) == Heard(FullVolume(state)) {
        HeardChanges(away, FullVolume(state), ToVolume(slider.value));
      }
    }
  }

  ghost predicate CarriedBy(memory: Option<Attenuation>, route: Route, target: Option<string>, volume: real) {
    memory.Some? && memory.value.volume == volume && memory.value.route == route && memory.value.target == target
  }

  /**
   A hand-off and its return, the slider perhaps moved in between, with every call
   answering: the profile comes back as it was, at the slider's share of the
   entry volume, the outputs are where they were, and no record is left. That is
   also what becomes of a record kept for an absent output: it is overwritten, so
   the output is still missing what the kept record said, and nothing knows.
   */
  method HandOffAndBack(desk: Desk, route: Route, slider: Option<real>) returns (r: Outcome<()>)
    requires desk.Settled() && desk.memory == None
    requires SoundState(desk.processing.state) && Fraction(desk.processing.state.volume)
    requires slider.Some? ==> 0.0 <= slider.value <= 1.0
    modifies desk, desk.processing, desk.processing.storage, desk.audio
    ensures desk.Calm(old(desk.audio.disturbances), old(desk.processing.storage.disturbances)) ==>
              && r.Ok? && desk.memory == None && desk.audio.record == None
              && desk.audio.sinks == old(desk.audio.sinks)
              && Heard(desk.processing.state)
                 == Heard(old(desk.processing.state).(volume := Scaled(old(desk.processing.state.volume), slider)))
  {
    hide Slid, FullVolume, Returned, SoundState, Scaled, Heard, Balanced, OwedBy, FactorBy, Shifted;
    ghost var state, sinks := desk.processing.state, desk.audio.sinks;
    ghost var calls, saves := desk.audio.disturbances, desk.processing.storage.disturbances;
    r := HandOffAndSlide(desk, route, slider);
    ghost var away, moved := desk.processing.state, if desk.memory.Some? then desk.memory.value.applied else 0.0;
    if r.Ok? {
      r := desk.ReturnVolume();
    }
    if desk.Calm(calls, saves) {
      ReportedThereAndBack(state, slider, away, desk.processing.state);
      MovedBack(sinks, desk.RouteTarget(route), moved);
    }
  }

  /**
   When the device took the volume but mpv did not go to full volume, the return
   still multiplies: the listener comes back to the square of the level. So the
   level survives exactly when mpv followed.
   */
  method RefusedHandOff(desk: Desk) returns (r: Outcome<()>)
    requires desk.Settled() && desk.memory.Some? && desk.processing.state.volume in {1.0, desk.memory.value.volume}
    modifies desk, desk.processing, desk.processing.storage, desk.audio
    ensures desk.Calm(old(desk.audio.disturbances), old(desk.processing.storage.disturbances)) ==>
              ComesBack(old(desk.memory).value.volume, old(desk.processing.state.volume) == 1.0,
                  desk.processing.state.volume)
  {
    ghost var away, entry := desk.processing.state, desk.memory.value.volume;
    ghost var calls, saves := desk.audio.disturbances, desk.processing.storage.disturbances;
    r := desk.ReturnVolume();
    ProductOfVolumes(away.volume, entry);
    if desk.Calm(calls, saves) {
      assert desk.processing.state.volume == Heard(desk.processing.state).volume == Heard(Returned(away, entry)).volume;
      WhatComesBack(entry, away.volume);
    }
  }

  predicate ComesBack(volume: real, followed: bool, back: real) {
    && back == (if followed then volume else volume * volume)
    && (back == volume <==> followed)
  }

  lemma WhatComesBack(volume: real, away: real)
    requires Fraction(volume) && away in {1.0, volume}
    ensures ComesBack(volume, away == 1.0, away * volume)
  {
    SquareIsLess(volume);
  }

  lemma SquareIsLess(volume: real)
    requires Fraction(volume)
    ensures 0.0 < volume * volume < volume
  {
    assert volume * (1.0 - volume) > 0.0;
  }

  /** One event of a run: what the client is asked, its end and start, and the world's own doing. */
  datatype Event =
    | Carry(route: Route)
    | Bring
    | Chosen(change: Adjustment)
    | Die
    | Start
    | DefaultMoved(sink: string)
    | OutputSet(sink: string, delta: real)

  /** Unless something happened that the decibels, or the level, do not survive, the record says it all. */
  twostate predicate Survived(desk: Desk)
    reads desk, desk.audio
  {
    && desk.Mishaps() >= old(desk.Mishaps()) && desk.LevelMishaps() >= old(desk.LevelMishaps())
    && (desk.Mishaps() == old(desk.Mishaps()) && old(desk.Booked()) ==> desk.Booked())
    && (desk.LevelMishaps() == old(desk.LevelMishaps()) && old(desk.LevelBooked()) ==> desk.LevelBooked())
  }

  twostate predicate NoMishap(desk: Desk)
    reads desk, desk.audio
  {
    && desk.Mishaps() == old(desk.Mishaps()) && desk.LevelMishaps() == old(desk.LevelMishaps())
    && desk.refused == old(desk.refused)
  }

  /** No call failed or answered falsely. */
  twostate predicate Undisturbed(desk: Desk)
    reads desk, desk.audio, desk.processing, desk.processing.storage
  {
    desk.Calm(old(desk.audio.disturbances), old(desk.processing.storage.disturbances))
  }

  /** What matters to the listener's level at one moment of a run. */
  datatype Told = Told(alive: bool, listener: real, factor: real, state: State, isLost: bool, refused: nat, calls: nat)

  ghost function Snapshot(desk: Desk, alive: bool): Told
    reads desk, desk.audio, desk.processing, desk.processing.storage
  {
    Told(alive, desk.listener, desk.factor, desk.processing.state, desk.levelLost, desk.refused,
         desk.audio.disturbances + desk.processing.storage.disturbances)
  }

  /** The level is what the listener chose, or when a call failed perhaps still what they had, behind the device. */
  predicate IsChosen(before: Told, change: Adjustment, after: Told) {
    && after.factor == before.factor && after.refused == before.refused
    && (after.listener == Product(Changed(before.state, change).volume, after.factor)
        || (after.calls > before.calls && after.listener == Product(before.state.volume, after.factor)))
  }

  predicate IsSame(before: Told, after: Told) {
    after.listener == before.listener && after.refused == before.refused
  }

  /** Only a living process that hands off can be refused by mpv, and then the level is squared. */
  predicate IsRefused(before: Told, after: Told) {
    && after.refused == before.refused + 1
    && (after.isLost || after.listener == Product(before.listener, before.listener))
  }

  /** What an event makes of the listener's level. */
  predicate Tells(before: Told, event: Event, after: Told) {
    if before.alive && event.Chosen? then IsChosen(before, event.change, after)
    else IsSame(before, after) || (before.alive && event.Carry? && IsRefused(before, after))
  }

  /** The level is told the same way. */
  predicate AsTold(before: Told, after: Told) {
    && IsSame(before, after) && after.factor == before.factor && after.calls == before.calls
    && (before.isLost ==> after.isLost)
  }

  lemma TellsOn(before: Told, event: Event, between: Told, after: Told)
    requires Tells(before, event, between) && AsTold(between, after)
    ensures Tells(before, event, after)
  {
  }

  /** No record of an earlier process is left, and the settings are saved. */
  ghost predicate InHand(desk: Desk)
    reads desk, desk.audio, desk.processing, desk.processing.storage
  {
    desk.NothingKept() && desk.processing.Persisted()
  }

  twostate predicate Counted(desk: Desk)
    reads desk, desk.audio, desk.processing, desk.processing.storage
  {
    desk.audio.disturbances >= old(desk.audio.disturbances)
    && desk.processing.storage.disturbances >= old(desk.processing.storage.disturbances)
  }

  /** What is counted, and what the record says all of, at one moment of a run. */
  datatype Books = Books(calls: nat, saves: nat, mishaps: nat, levelMishaps: nat, refused: nat,
                         isBooked: bool, isLevelBooked: bool, isInHand: bool)

  ghost function BooksOf(desk: Desk, alive: bool): Books
    reads desk, desk.audio, desk.processing, desk.processing.storage
  {
    Books(desk.audio.disturbances, desk.processing.storage.disturbances, desk.Mishaps(), desk.LevelMishaps(),
        desk.refused,
          desk.Booked(), desk.LevelBooked(), if alive then InHand(desk) else desk.processing.Persisted())
  }

  /** Without a mishap the record goes on saying it all, and without a disturbance there is none. */
  predicate Runs(before: Books, after: Books) {
    && before.calls <= after.calls && before.saves <= after.saves
    && before.mishaps <= after.mishaps && before.levelMishaps <= after.levelMishaps
    && (after.mishaps == before.mishaps && before.isBooked ==> after.isBooked)
    && (after.levelMishaps == before.levelMishaps && before.isLevelBooked ==> after.isLevelBooked)
    && (after.calls == before.calls && after.saves == before.saves && before.isInHand ==>
          && after.isInHand && after.mishaps == before.mishaps && after.levelMishaps == before.levelMishaps
          && after.refused == before.refused)
  }

  lemma RunsOn(before: Books, between: Books, after: Books)
    requires Runs(before, between) && Runs(between, after)
    ensures Runs(before, after)
  {
  }

  /** What the outputs would be at without the client, after an event: only others move it. */
  function BaselineAfter(baseline: map<string, real>, event: Event): map<string, real> {
    match event
    case OutputSet(sink, delta) => if sink in baseline then baseline[sink := baseline[sink] + delta] else baseline
    case _ => baseline
  }

  function BaselineAfterAll(baseline: map<string, real>, events: seq<Event>): map<string, real> {
    if events == [] then baseline
    else BaselineAfter(BaselineAfterAll(baseline, events[..|events| - 1]), events[|events| - 1])
  }

  lemma BaselineNext(baseline: map<string, real>, events: seq<Event>, i: nat)
    requires i < |events|
    ensures BaselineAfterAll(baseline, events[..i + 1])
              == BaselineAfter(BaselineAfterAll(baseline, events[..i]), events[i])
  {
    assert events[..i + 1][..i] == events[..i];
  }

  /** What the outputs and the level are compared with is as it was. */
  twostate predicate SameTargets(desk: Desk)
    reads desk, desk.audio
  {
    desk.audio.baseline == old(desk.audio.baseline) && desk.listener == old(desk.listener)
    && desk.refused == old(desk.refused)
  }

  /** The process ends: memory is lost, and the record and the settings are all that is left. */
  method End(desk: Desk)
    requires desk.Ledger()
    modifies desk`memory, desk`strayed, desk`levelLost, desk`unsaved, desk.processing
    ensures desk.Settled() && desk.memory == None && desk.processing.Persisted()
    ensures Survived(desk) && SameTargets(desk)
    ensures AsTold(old(Snapshot(desk, true)), Snapshot(desk, false))
    ensures desk.Mishaps() == old(desk.Mishaps()) && (old(desk.processing.Persisted()) ==> NoMishap(desk))
  {
    hide OwedBy, FactorBy, Balanced, Product;
    desk.Reboot();
  }

  /** A hand-off when the device carries nothing. */
  method LowerAfresh(desk: Desk, route: Route) returns (r: Outcome<()>)
    requires desk.Settled() && desk.memory == None
    modifies desk, desk.processing, desk.processing.storage, desk.audio
    ensures desk.Ledger() && (r.Ok? ==> desk.Settled())
    ensures Counted(desk) && Survived(desk) && desk.audio.baseline == old(desk.audio.baseline)
    ensures IsSame(old(Snapshot(desk, true)), Snapshot(desk, true))
            || IsRefused(old(Snapshot(desk, true)), Snapshot(desk, true))
    ensures Undisturbed(desk) && old(InHand(desk)) ==> r.Ok? && InHand(desk) && NoMishap(desk)
  {
    hide Balanced, OwedBy, FactorBy, Product, Heard, FullVolume, Shifted, Desk.IsTaken;
    hide IsNamed, RecordOf, Controller.Persisted, Desk.Booked, Desk.LevelBooked;
    var handed := desk.HandOffVolume(route);
    r := if handed.Ok? then Ok(()) else handed.PropagateFailure();
  }

  /** Every hand-off first returns the one before it. */
  method CarryAnew(desk: Desk, route: Route) returns (r: Outcome<()>)
    requires desk.Settled()
    modifies desk, desk.processing, desk.processing.storage, desk.audio
    ensures desk.Ledger() && (r.Ok? ==> desk.Settled())
    ensures Counted(desk) && Survived(desk) && desk.audio.baseline == old(desk.audio.baseline)
    ensures IsSame(old(Snapshot(desk, true)), Snapshot(desk, true))
            || IsRefused(old(Snapshot(desk, true)), Snapshot(desk, true))
    ensures Undisturbed(desk) && old(InHand(desk)) ==> r.Ok? && InHand(desk) && NoMishap(desk)
  {
    hide Balanced, OwedBy, FactorBy, Product, Heard, Returned, Shifted, Desk.IsTaken;
    hide DeviceReturn, SinkOf, Controller.Persisted, Desk.Booked, Desk.LevelBooked;
    r := desk.ReturnVolume();
    if r.Ok? {
      r := LowerAfresh(desk, route);
    }
  }

  /** An event while the process lives. */
  method Live(desk: Desk, event: Event) returns (r: Outcome<()>)
    requires desk.Settled()
    modifies desk, desk.processing, desk.processing.storage, desk.audio
    ensures desk.Ledger() && (r.Ok? ==> desk.Settled())
    ensures Counted(desk) && Survived(desk)
    ensures desk.audio.baseline == old(desk.audio.baseline)
    ensures Tells(old(Snapshot(desk, true)), event, Snapshot(desk, true))
    ensures Undisturbed(desk) && old(InHand(desk)) ==> (r.Ok? || event.Die?) && InHand(desk) && NoMishap(desk)
  {
    hide Balanced, OwedBy, FactorBy, Heard, Returned, Desk.IsTaken;
    r := Ok(());
    match event {
      case Carry(route) =>
        r := CarryAnew(desk, route);
      case Bring =>
        r := desk.ReturnVolume();
      case Chosen(change) =>
        var chosen := desk.Choose(change);
        r := if chosen.Killed? then Killed else Ok(());
      case Die =>
        r := Killed;
      case _ =>
    }
  }

  /** The world's own doing: another default output, or somebody else at an output's level. */
  method Happen(desk: Desk, event: Event)
    requires desk.Settled()
    modifies desk.audio`sinks, desk.audio`baseline, desk.audio`defaultSink
    ensures desk.Settled()
    ensures desk.audio.disturbances == old(desk.audio.disturbances)
    ensures NoMishap(desk) && Survived(desk)
    ensures AsTold(old(Snapshot(desk, true)), Snapshot(desk, true))
    ensures desk.audio.baseline == BaselineAfter(old(desk.audio.baseline), event)
  {
    var audio := desk.audio;
    match event {
      case DefaultMoved(sink) =>
        if sink in audio.sinks {
          audio.defaultSink := sink;
        }
      case OutputSet(sink, delta) =>
        if sink in audio.sinks {
          audio.sinks := audio.sinks[sink := audio.sinks[sink] + delta];
        }
        audio.baseline := BaselineAfter(audio.baseline, event);
      case _ =>
    }
  }

  /** A new process undoes what the record says an earlier one left. */
  method Begin(desk: Desk) returns (r: Outcome<()>)
    requires desk.Settled() && desk.memory == None
    modifies desk, desk.processing, desk.processing.storage, desk.audio
    ensures desk.Ledger() && (r.Ok? ==> desk.Settled())
    ensures Counted(desk) && Survived(desk) && SameTargets(desk)
    ensures Undisturbed(desk) ==> r.Ok? && desk.AllReturned() && NoMishap(desk)
    ensures Undisturbed(desk) && old(desk.processing.Persisted()) ==> desk.processing.Persisted()
  {
    r := desk.Recover();
  }

  method Step(desk: Desk, alive: bool, event: Event) returns (lives: bool)
    requires desk.Settled() && (!alive ==> desk.memory == None)
    modifies desk, desk.processing, desk.processing.storage, desk.audio
    ensures desk.Settled() && (!lives ==> desk.memory == None)
    ensures Runs(old(BooksOf(desk, alive)), BooksOf(desk, lives))
    ensures desk.audio.baseline == BaselineAfter(old(desk.audio.baseline), event)
    ensures Tells(old(Snapshot(desk, alive)), event, Snapshot(desk, lives))
  {
    hide Balanced, OwedBy, FactorBy, Product, Changed, BaselineAfter, IsChosen, IsRefused;
    hide Controller.Persisted, Desk.Booked, Desk.LevelBooked, Desk.Ledger, Desk.Known;
    var r: Outcome<()> := Killed;
    if alive {
      r := Live(desk, event);
    } else if event.Start? {
      r := Begin(desk);
    }
    ghost var before, between := old(Snapshot(desk, alive)), Snapshot(desk, true);
    assert Tells(before, event, between);
    lives := r.Ok?;
    hide Tells;
    if !lives {
      End(desk);
    }
    Happen(desk, event);
    assert AsTold(between, Snapshot(desk, lives));
    TellsOn(before, event, between, Snapshot(desk, lives));
  }

  /** A run, event by event. */
  method Happening(desk: Desk, alive: bool, events: seq<Event>) returns (lives: bool, ghost told: seq<Told>)
    requires desk.Settled() && (!alive ==> desk.memory == None)
    modifies desk, desk.processing, desk.processing.storage, desk.audio
    ensures desk.Settled() && (!lives ==> desk.memory == None)
    ensures Runs(old(BooksOf(desk, alive)), BooksOf(desk, lives))
    ensures desk.audio.baseline == BaselineAfterAll(old(desk.audio.baseline), events)
    ensures |told| == |events| + 1 && told[0] == old(Snapshot(desk, alive)) && told[|events|] == Snapshot(desk, lives)
    ensures forall j :: 0 <= j < |events| ==> Tells(told[j], events[j], told[j + 1])
  {
    assert events[..0] == [] && BaselineAfterAll(desk.audio.baseline, []) == desk.audio.baseline;
    ghost var before := BooksOf(desk, alive);
    assert Runs(before, before);
    hide Runs, BooksOf, BaselineAfter, BaselineAfterAll, Tells, Snapshot, Desk.Settled;
    lives, told := alive, [Snapshot(desk, alive)];
    for i := 0 to |events|
      invariant desk.Settled() && (!lives ==> desk.memory == None)
      invariant Runs(before, BooksOf(desk, lives))
      invariant desk.audio.baseline == BaselineAfterAll(old(desk.audio.baseline), events[..i])
      invariant |told| == i + 1 && told[0] == old(Snapshot(desk, alive)) && told[i] == Snapshot(desk, lives)
      invariant forall j :: 0 <= j < i ==> Tells(told[j], events[j], told[j + 1])
    {
      BaselineNext(old(desk.audio.baseline), events, i);
      ghost var between := BooksOf(desk, lives);
      lives := Step(desk, lives, events[i]);
      RunsOn(before, between, BooksOf(desk, lives));
      told := told + [Snapshot(desk, lives)];
    }
    assert events[..|events|] == events;
  }

  /**
   Over any run, with outputs absent, calls refused and processes that end or are
   killed, what the outputs are missing is what the record says one of them is
   owed, and the listener's level is the volume times what the record says. The
   decibels are lost only to a mishap: a record that could not be written, an
   output moved by other than it answered or that could not be named, a process
   killed with an output moved and the record not yet saying so, or a hand-off
   over a record still kept. The level is lost only to one of these, to a kill
   between a record and the volume it speaks of, to a returned level that could not
   be saved, or to a process that ends with unsaved settings. When no call fails or
   answers falsely there is none. What the outputs are compared with is moved by
   others alone. `told` follows the listener's level from event to event: it moves to
   what they choose, or to its square when mpv refuses a hand-off, and stays otherwise.
   */
  method Run(desk: Desk, alive: bool, events: seq<Event>) returns (lives: bool, ghost told: seq<Told>)
    requires desk.Settled() && (!alive ==> desk.memory == None)
    modifies desk, desk.processing, desk.processing.storage, desk.audio
    ensures desk.Settled() && (!lives ==> desk.memory == None)
    ensures desk.Mishaps() == old(desk.Mishaps()) && old(desk.Booked()) ==>
              desk.Booked() && Balanced(desk.audio.sinks, desk.audio.baseline, OwedBy(None, desk.audio.record))
    ensures desk.audio.record.Some? ==>
              -0.01 <= desk.audio.record.value.applied - desk.stepFor(desk.audio.record.value.volume) <= 0.01
    ensures desk.audio.baseline == BaselineAfterAll(old(desk.audio.baseline), events)
    ensures desk.LevelMishaps() == old(desk.LevelMishaps()) && old(desk.LevelBooked()) ==>
              desk.LevelBooked() && desk.listener == desk.processing.state.volume * FactorBy(None, desk.audio.record)
    ensures |told| == |events| + 1 && told[0] == old(Snapshot(desk, alive)) && told[|events|] == Snapshot(desk, lives)
    ensures forall j :: 0 <= j < |events| ==> Tells(told[j], events[j], told[j + 1])
    ensures Undisturbed(desk) && old(if alive then InHand(desk) else desk.processing.Persisted()) ==> NoMishap(desk)
  {
    hide Balanced, OwedBy, FactorBy, BaselineAfterAll, Tells, Snapshot;
    hide Desk.IsTaken, Desk.Settled, Desk.Booked, Desk.LevelBooked, Controller.Persisted;
    lives, told := Happening(desk, alive, events);
    BooksSay(desk);
  }

  /** What books that are right say of the outputs and of the level. */
  lemma BooksSay(desk: Desk)
    requires desk.Settled()
    ensures desk.Booked() ==> Balanced(desk.audio.sinks, desk.audio.baseline, OwedBy(None, desk.audio.record))
    ensures desk.LevelBooked() ==> desk.listener == desk.processing.state.volume * FactorBy(None, desk.audio.record)
    ensures desk.audio.record.Some? ==>
              -0.01 <= desk.audio.record.value.applied - desk.stepFor(desk.audio.record.value.volume) <= 0.01
  {
    hide Balanced;
  }

  /** While the listener chooses nothing and nothing is handed off, their level stays. */
  lemma {:induction false} LevelStays(events: seq<Event>, told: seq<Told>)
    requires |told| == |events| + 1 && forall j :: 0 <= j < |events| ==> Tells(told[j], events[j], told[j + 1])
    requires forall j :: 0 <= j < |events| ==> !events[j].Chosen? && !events[j].Carry?
    ensures IsSame(told[0], told[|events|])
  {
    hide IsChosen, IsRefused;
    if events != [] {
      LevelStays(events[..|events| - 1], told[..|events|]);
      assert Tells(told[|events| - 1], events[|events| - 1], told[|events|]);
    }
  }

  /**
   The last process ends, wherever it was, and one more starts. When the calls of
   that start answer, everything is given back: every output is where everyone else
   left it, mpv is at the level the listener last chose, and no record is left.
   When they do not, what is missing is still booked for the next start.
   */
  method Restart(desk: Desk) returns (r: Outcome<()>)
    requires desk.Settled()
    modifies desk, desk.processing, desk.processing.storage, desk.audio
    ensures desk.Ledger() && Survived(desk) && SameTargets(desk)
    ensures Undisturbed(desk) ==> r.Ok? && desk.audio.record == None
    ensures Undisturbed(desk) && old(desk.Booked()) ==> desk.audio.sinks == desk.audio.baseline
    ensures Undisturbed(desk) && old(desk.LevelBooked() && desk.processing.Persisted()) ==>
              desk.processing.state.volume == desk.listener
  {
    End(desk);
    r := Begin(desk);
  }
}
