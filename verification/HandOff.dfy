/**
 Bit-perfect Output Modes move the listener's attenuation from mpv onto the
 device, and must give the device back what they took: once, to the output that
 lost it, through failures, absent outputs, kills and restarts
 (desktop/core/src/lib.rs:643-1024).
 */
module HandOff {
  import opened Outcomes
  import opened Processing

  datatype Route = SystemSink | AlsaCard(card: nat)

  /** A hand-off as the process remembers it. */
  datatype Attenuation = Attenuation(route: Route, applied: real, volume: real, target: Option<string>)

  /** A hand-off as the record file keeps it for the next start. */
  datatype Record = Record(isSystemSink: bool, target: Option<string>, applied: real, volume: real, restored: bool)

  function RecordOf(attenuation: Attenuation, restored: bool): Record {
    Record(attenuation.route.SystemSink?, attenuation.target, attenuation.applied, attenuation.volume, restored)
  }

  /** Decibels some named output is missing. */
  datatype Owed = Nothing | Missing(sink: string, applied: real)

  function OwedFor(isSystemSink: bool, target: Option<string>, applied: real): Owed {
    if isSystemSink && target.Some? then Missing(target.value, applied) else Nothing
  }

  /** What the process, or else the record, says is missing. */
  function OwedBy(memory: Option<Attenuation>, record: Option<Record>): Owed {
    if memory.Some? then OwedFor(memory.value.route.SystemSink?, memory.value.target, memory.value.applied)
    else if record.Some? then OwedFor(record.value.isSystemSink, record.value.target, record.value.applied)
    else Nothing
  }

  /** What the process, or else the record, says multiplies the software volume. */
  function FactorBy(memory: Option<Attenuation>, record: Option<Record>): real {
    if memory.Some? then memory.value.volume
    else if record.Some? && !record.value.restored then record.value.volume
    else 1.0
  }

  /** A hand-off to a system output knows which one. */
  predicate IsNamed(memory: Option<Attenuation>) {
    memory.Some? && memory.value.route.SystemSink? ==> memory.value.target.Some?
  }

  /** The level each output would have without the client, less what it is missing. */
  predicate Balanced(sinks: map<string, real>, baseline: map<string, real>, owed: Owed) {
    && sinks.Keys == baseline.Keys
    && forall sink :: sink in sinks ==>
         sinks[sink] == baseline[sink] + if owed.Missing? && owed.sink == sink then owed.applied else 0.0
  }

  /** A record kept for the next start, because its output could not be had back. */
  predicate IsRetry(record: Option<Record>) {
    record.Some? && record.value.restored
  }

  predicate Fraction(volume: real) {
    0.0 < volume < 1.0
  }

  /** The outputs once the target has been moved by `delta`. */
  function Shifted(sinks: map<string, real>, target: Option<string>, delta: real): map<string, real> {
    if target.Some? && target.value in sinks then sinks[target.value := sinks[target.value] + delta] else sinks
  }

  function Abs(x: real): real {
    if x < 0.0 then -x else x
  }

  /**
   The system's outputs, mpv, and the record file. Each method is one call.
   `disturbances` counts calls that fail or answer falsely; `misfires` those among
   them that the protocol does not survive: a record that could not be written or
   removed, an output moved by other than it answered, a name that could not be had,
   and a process killed with an output moved and the record not yet saying so.
   `overwritten` counts records of one hand-off written over another's.
   */
  class Audio {
    var sinks: map<string, real>
    var defaultSink: string
    var record: Option<Record>
    ghost var baseline: map<string, real>
    ghost var disturbances: nat
    ghost var misfires: nat
    ghost var overwritten: nat

    /** Calls are counted, and every misfire is a disturbance too. */
    twostate predicate Counted()
      reads this
    {
      && disturbances >= old(disturbances) && misfires >= old(misfires) && overwritten >= old(overwritten)
      && (disturbances == old(disturbances) ==> misfires == old(misfires))
    }

    method Fate() returns (r: Outcome<()>)
      modifies this`disturbances
      ensures r.Ok? <==> disturbances == old(disturbances)
      ensures disturbances >= old(disturbances)
    {
      var dice: int := *;
      r := if dice == 0 then Err else if dice == 1 then Killed else Ok(());
      disturbances := if r.Ok? then disturbances else disturbances + 1;
    }

    /** Answers the change the route made, which may be smaller than asked. */
    method ChangeRoute(route: Route, delta: real) returns (r: Outcome<real>)
      requires defaultSink in sinks
      modifies this`sinks, this`disturbances, this`misfires
      ensures disturbances >= old(disturbances) && misfires >= old(misfires) && sinks.Keys == old(sinks.Keys)
      ensures disturbances == old(disturbances) ==> r == Ok(delta) && misfires == old(misfires)
      ensures misfires == old(misfires) ==>
                sinks == if route.SystemSink? && r.Ok?
                    then old(sinks)[defaultSink := old(sinks)[defaultSink] + r.value] else old(sinks)
      ensures r.Killed? ==> misfires == old(misfires)
    {
      var fate := Fate();
      var made, moved: real := *, *;
      var limited, honest: bool := *, *;
      if fate.Ok? {
        r := Ok(if limited then made else delta);
        moved := if honest then r.value else moved;
        disturbances := if limited || !honest then disturbances + 1 else disturbances;
      } else {
        r := fate.PropagateFailure();
        moved := if honest || r.Killed? then 0.0 else moved;
      }
      misfires := if honest || r.Killed? then misfires else misfires + 1;
      if route.SystemSink? {
        sinks := sinks[defaultSink := sinks[defaultSink] + moved];
        assert moved == 0.0 ==> sinks == old(sinks);
      }
    }

    /** The name of the output the hand-off has just moved; a raw card has none. */
    method TargetName(route: Route) returns (r: Outcome<Option<string>>)
      modifies this`disturbances, this`misfires
      ensures disturbances >= old(disturbances) && misfires >= old(misfires)
      ensures disturbances == old(disturbances) ==> r.Ok? && misfires == old(misfires)
      ensures misfires == old(misfires) && r.Ok? ==> r.value == if route.SystemSink? then Some(defaultSink) else None
      ensures !r.Ok? ==> misfires > old(misfires)
    {
      if route.AlsaCard? {
        return Ok(None);
      }
      var fate := Fate();
      if !fate.Ok? {
        misfires := misfires + 1;
        return fate.PropagateFailure();
      }
      var name: string := *;
      var moved: bool := *;
      disturbances, misfires := disturbances + (if moved then 1 else 0), misfires + (if moved then 1 else 0);
      r := Ok(Some(if moved then name else defaultSink));
    }

    /** Gives a named output back what it lost; `Ok(false)` while it is absent. */
    method GiveBack(sink: string, applied: real) returns (r: Outcome<bool>)
      modifies this`sinks, this`disturbances, this`misfires
      ensures disturbances >= old(disturbances) && misfires >= old(misfires) && sinks.Keys == old(sinks.Keys)
      ensures disturbances == old(disturbances) ==> r == Ok(true) && misfires == old(misfires)
      ensures r == Ok(true) ==> sink in sinks
      ensures misfires == old(misfires) ==>
                sinks == if r == Ok(true) then old(sinks)[sink := old(sinks)[sink] - applied] else old(sinks)
      ensures r.Killed? ==> misfires == old(misfires)
    {
      if sink !in sinks {
        disturbances := disturbances + 1;
        return Ok(false);
      }
      var fate := Fate();
      var moved: real := *;
      var absent, honest: bool := *, *;
      r := if fate.Ok? then Ok(!absent) else fate.PropagateFailure();
      moved := if r.Killed? || honest then (if r == Ok(true) then -applied else 0.0) else moved;
      disturbances := if r == Ok(true) && honest then disturbances else disturbances + 1;
      misfires := if r.Killed? || honest then misfires else misfires + 1;
      sinks := sinks[sink := sinks[sink] + moved];
      assert moved == 0.0 ==> sinks == old(sinks);
    }

    /** A record is written after its output has moved, except one kept because it did not. */
    method WriteRecord(kept: Option<Record>) returns (r: Outcome<()>)
      modifies this`record, this`disturbances, this`misfires, this`overwritten
      ensures Counted()
      ensures r.Ok? <==> disturbances == old(disturbances)
      ensures misfires == old(misfires) + if r.Err? || (r.Killed? && !IsRetry(kept)) then 1 else 0
      ensures overwritten == old(overwritten) + if r.Ok? && record.Some? && old(record).Some? && !IsRetry(kept) then 1
                else 0
      ensures record == if r.Ok? then kept else old(record)
    {
      r := Fate();
      overwritten := overwritten + if r.Ok? && kept.Some? && record.Some? && !IsRetry(kept) then 1 else 0;
      if r.Ok? {
        record := kept;
      }
      misfires := misfires + if r.Err? || (r.Killed? && !IsRetry(kept)) then 1 else 0;
    }

    method ReadRecord() returns (r: Outcome<Option<Record>>)
      modifies this`disturbances
      ensures disturbances >= old(disturbances)
      ensures r.Ok? <==> disturbances == old(disturbances)
      ensures r.Ok? ==> r.value == record
    {
      var _ :- Fate();
      r := Ok(record);
    }

    /** mpv takes the processing and reports it back with what is in effect. */
    method ApplyProcessing(state: State) returns (r: Outcome<State>)
      modifies this`disturbances
      ensures disturbances >= old(disturbances)
      ensures r.Ok? <==> disturbances == old(disturbances)
      ensures r.Ok? ==> Heard(r.value) == Heard(state)
    {
      var effective: EffectiveReplayGain := *;
      var filters: seq<string> := *;
      var _ :- Fate();
      r := Ok(state.(effective := effective, filters := filters));
    }
  }

  /** The processing without the fields playback reports and the notice. */
  function Heard(state: State): State {
    state.(effective := EffectiveOff, filters := [], notice := None)
  }

  datatype Adjustment = ToDirect | ToVolume(volume: real)

  function Changed(state: State, change: Adjustment): State {
    match change
    case ToDirect => WithProfile(state, Direct)
    case ToVolume(volume) => WithVolume(state, Clamp(Finite(volume), 0.0, 1.0))
  }

  /** A volume on top of another one. */
  function Product(one: real, other: real): real {
    one * other
  }

  /** mpv at its current value times what the device carried. */
  function Returned(state: State, entry: real): State {
    Changed(state, ToVolume(Product(state.volume, entry)))
  }

  lemma NothingRecorded()
    ensures OwedBy(None, None) == Nothing && FactorBy(None, None) == 1.0
  {
  }

  /** The record of a hand-off says what the process knows. */
  lemma RecordTellsAll(attenuation: Attenuation, record: Option<Record>)
    ensures OwedBy(Some(attenuation), record) == OwedBy(Some(attenuation), None)
    ensures OwedBy(None, Some(RecordOf(attenuation, false))) == OwedBy(Some(attenuation), None)
    ensures FactorBy(Some(attenuation), record) == attenuation.volume
    ensures FactorBy(None, Some(RecordOf(attenuation, false))) == attenuation.volume
  {
  }

  /** Once the books owe what the route just took, the outputs are balanced again. */
  lemma OwingTheMoved(sinks: map<string, real>, baseline: map<string, real>, default: string, attenuation: Attenuation)
    requires default in sinks
    requires attenuation.target == if attenuation.route.SystemSink? then Some(default) else None
    requires Balanced(if attenuation.route.SystemSink? then sinks[default := sinks[default] - attenuation.applied]
               else sinks,
                      baseline, Nothing)
    ensures Balanced(sinks, baseline, OwedBy(Some(attenuation), None))
  {
  }

  lemma MovedAndBack(sinks: map<string, real>, sink: string, delta: real)
    requires sink in sinks
    ensures var moved := sinks[sink := sinks[sink] + delta];
            moved[sink := moved[sink] - delta] == sinks
  {
  }

  lemma MovedBack(sinks: map<string, real>, target: Option<string>, delta: real)
    ensures Shifted(Shifted(sinks, target, delta), target, -delta) == sinks
  {
  }

  /** The part of the application that owns a hand-off. */
  class Desk {
    const audio: Audio
    const processing: Controller
    const stepFor: real -> real
    var memory: Option<Attenuation>

    /** What is missing and what multiplies the software volume right now. */
    ghost var owed: Owed
    ghost var factor: real
    /** The level the listener chose, whoever applies it; after a hand-off that mpv refused, its square. */
    ghost var listener: real
    /** The decibels, or the level, no longer follow the books. */
    ghost var strayed: bool
    ghost var levelLost: bool
    /**
     Hand-offs that mpv refused; kills between a record and the volume it speaks of;
     returns and recoveries whose level could not be saved; processes that ended with
     unsaved settings.
     */
    ghost var refused: nat
    ghost var interrupted: nat
    ghost var dropped: nat
    ghost var unsaved: nat

    /** The volume in use and the saved one are volumes. */
    ghost predicate InRange()
      reads processing, processing.storage
    {
      && 0.0 <= processing.state.volume <= 1.0
      && (processing.storage.saved.Some? ==> 0.0 <= processing.storage.saved.value.volume <= 1.0)
    }

    ghost predicate Parts()
      reads this, audio, processing, processing.storage
    {
      && InRange()
      && audio.defaultSink in audio.sinks
      && (memory.Some? ==> Fraction(memory.value.volume) && IsTaken(memory.value.applied, memory.value.volume))
      && (audio.record.Some? ==>
          Fraction(audio.record.value.volume) && IsTaken(audio.record.value.applied, audio.record.value.volume))
    }

    /** A device that takes a volume takes all of it, to a hundredth of a decibel. */
    predicate IsTaken(applied: real, volume: real)
    {
      -0.01 <= applied - stepFor(volume) <= 0.01
    }

    /** No output is missing anything but what is owed. */
    ghost predicate Decibels()
      reads this, audio
    {
      !strayed ==> Balanced(audio.sinks, audio.baseline, owed)
    }

    /** The listener's level is whole. */
    ghost predicate Level()
      reads this, processing
    {
      !levelLost ==> listener == Product(processing.state.volume, factor)
    }

    ghost predicate Ledger()
      reads this, audio, processing, processing.storage
    {
      Parts() && Decibels() && Level()
    }

    /** The process, or else the record, knows what is owed and what to multiply. */
    ghost predicate Known()
      reads this, audio
    {
      && (!strayed ==> owed == OwedBy(memory, audio.record) && IsNamed(memory))
      && (!levelLost ==> factor == FactorBy(memory, audio.record))
    }

    /** Between operations. */
    ghost predicate Settled()
      reads this, audio, processing, processing.storage
    {
      Ledger() && Known()
    }

    /** Nothing is recorded; unless the books are lost, nothing is missing and mpv has the listener's level. */
    ghost predicate AllReturned()
      reads this, audio, processing
    {
      && audio.record == None
      && (!strayed ==> audio.sinks == audio.baseline)
      && (!levelLost ==> processing.state.volume == listener)
    }

    constructor (audio: Audio, processing: Controller, stepFor: real -> real)
      requires audio.defaultSink in audio.sinks && audio.record == None && 0.0 <= processing.state.volume <= 1.0
      requires processing.storage.saved.Some? ==> 0.0 <= processing.storage.saved.value.volume <= 1.0
      requires Balanced(audio.sinks, audio.baseline, Nothing)
      ensures Settled() && this.audio == audio && this.processing == processing && this.stepFor == stepFor
      ensures Booked() && LevelBooked()
    {
      this.audio, this.processing, this.stepFor, memory := audio, processing, stepFor, None;
      owed, factor, listener := Nothing, 1.0, processing.state.volume;
      strayed, levelLost := false, false;
      refused, interrupted, dropped, unsaved := 0, 0, 0, 0;
    }

    /** The record alone says what an output is owed: for the decibels, the process may end. */
    ghost predicate Booked()
      reads this, audio
    {
      !strayed && owed == OwedBy(None, audio.record)
    }

    /** The record alone says what multiplies the volume: for the level, the process may end. */
    ghost predicate LevelBooked()
      reads this, audio
    {
      !levelLost && factor == FactorBy(None, audio.record)
    }

    /** What the decibels do not survive. */
    ghost function Mishaps(): nat
      reads audio
    {
      audio.misfires + audio.overwritten
    }

    /** What the level does not survive. */
    ghost function LevelMishaps(): nat
      reads this, audio
    {
      Mishaps() + interrupted + dropped + unsaved
    }

    /** No earlier process has left a record. */
    ghost predicate NothingKept()
      reads this, audio
    {
      memory == None ==> audio.record == None
    }

    /** No call failed or answered falsely since these counts. */
    ghost predicate Calm(audioBefore: nat, storageBefore: nat)
      reads audio, processing, processing.storage
    {
      audio.disturbances == audioBefore && processing.storage.disturbances == storageBefore
    }

    /** `update_processing_locked`: save, apply, save what mpv reports; undo on failure. */
    method UpdateProcessing(change: Adjustment) returns (r: Outcome<()>, ghost reported: Outcome<State>)
      modifies processing`state, processing`volumes, processing.storage, audio`disturbances
      ensures audio.disturbances >= old(audio.disturbances)
      ensures processing.storage.disturbances >= old(processing.storage.disturbances)
      ensures r.Ok? ==>
                Heard(processing.state) == Heard(Changed(old(processing.state), change)) && processing.Persisted()
      ensures r.Ok? ==> reported == Ok(processing.state)
      ensures r.Err? ==> processing.Snap() == old(processing.Snap())
      ensures old(InRange()) ==> InRange()
      ensures r.Killed? ==> processing.state.volume == old(processing.state.volume)
                            || processing.state.volume == Changed(old(processing.state), change).volume
      ensures r.Killed? && processing.state.volume != old(processing.state.volume) ==> processing.Persisted()
      ensures processing.storage.disturbances == old(processing.storage.disturbances) ==> processing.Persisted()
      ensures Calm(old(audio.disturbances), old(processing.storage.disturbances)) ==> r.Ok?
    {
      reported := Err;
      var previous := processing.Snap();
      match change {
        case ToDirect => r := processing.SetProfile(Direct);
        case ToVolume(volume) => r := processing.SetSoftwareVolume(Finite(volume));
      }
      if !r.Ok? {
        return;
      }
      var applied := audio.ApplyProcessing(processing.state);
      reported := applied;
      if applied.Killed? {
        return Killed, reported;
      }
      if applied.Ok? {
        r := processing.Restore(applied.value);
        if !r.Err? {
          return;
        }
      }
      var restored := processing.RestoreSnapshot(previous);
      if restored.Killed? {
        return Killed, reported;
      }
      var reapplied := audio.ApplyProcessing(previous.state);
      r := if reapplied.Killed? then Killed else Err;
    }

    /** The outputs are balanced but for `moved`, which the route just took. */
    ghost predicate BalancedBut(route: Route, moved: real)
      requires audio.defaultSink in audio.sinks
      reads this, audio
    {
      Balanced(if route.SystemSink? then audio.sinks[audio.defaultSink := audio.sinks[audio.defaultSink] - moved]
          else audio.sinks,
               audio.baseline, owed)
    }

    /** The device could not take all of it: what it took goes back. */
    method UndoPartial(route: Route, applied: real) returns (r: Outcome<bool>)
      requires audio.defaultSink in audio.sinks && (!strayed ==> BalancedBut(route, applied))
      modifies this`strayed, audio`sinks, audio`disturbances, audio`misfires
      ensures audio.defaultSink in audio.sinks && Decibels()
      ensures r.Killed? || r == Ok(false)
      ensures audio.Counted()
      ensures old(strayed) ==> strayed
      ensures audio.misfires == old(audio.misfires) ==>
                strayed == old(strayed) && audio.sinks == Shifted(old(audio.sinks), RouteTarget(route), -applied)
    {
      var undone := audio.ChangeRoute(route, -applied);
      if undone != Ok(-applied) {
        audio.misfires := audio.misfires + 1;
      }
      strayed := strayed || audio.misfires != old(audio.misfires);
      r := if undone.Killed? then Killed else Ok(false);
    }

    /** The device took `applied`: whose it is gets its name, if that can be had. */
    method NameTarget(route: Route, applied: real, volume: real) returns (r: Outcome<Attenuation>, isNamed: bool)
      requires audio.defaultSink in audio.sinks && (!strayed ==> BalancedBut(route, applied))
      modifies this`owed, this`strayed, audio`disturbances, audio`misfires
      ensures !r.Err? && (r.Killed? ==> Decibels())
      ensures old(strayed) ==> strayed
      ensures audio.Counted()
      ensures audio.misfires == old(audio.misfires) ==> r.Ok? && isNamed && strayed == old(strayed)
      ensures r.Ok? ==>
                owed == old(owed) && r.value.volume == volume && r.value.route == route && r.value.applied == applied
      ensures r.Ok? && !strayed && owed == Nothing ==>
                Balanced(audio.sinks, audio.baseline, OwedBy(Some(r.value), None)) && IsNamed(Some(r.value))
      ensures audio.disturbances == old(audio.disturbances) ==>
                r == Ok(Attenuation(route, applied, volume, RouteTarget(route))) && isNamed && strayed == old(strayed)
    {
      var target := audio.TargetName(route);
      isNamed := target.Ok?;
      strayed := strayed || audio.misfires != old(audio.misfires);
      var attenuation := Attenuation(route, applied, volume, if isNamed then target.value else None);
      if target.Killed? {
        // The device has changed and nobody will know.
        strayed := strayed || owed.Missing?;
      }
      ghost var known := if target.Killed? then attenuation.(target := RouteTarget(route)) else attenuation;
      if !strayed && owed == Nothing {
        OwingTheMoved(audio.sinks, audio.baseline, audio.defaultSink, known);
      }
      owed := if target.Killed? then OwedBy(Some(known), None) else owed;
      r := if target.Killed? then Killed else Ok(attenuation);
    }

    /** The device takes the attenuation, whole or not at all; whose it is gets its name. */
    method LowerDevice(route: Route, volume: real)
      returns (r: Outcome<Option<Attenuation>>, isNamed: bool, ghost answer: Outcome<real>)
      requires audio.defaultSink in audio.sinks && Decibels()
      modifies this`owed, this`strayed, audio`sinks, audio`disturbances, audio`misfires
      ensures audio.defaultSink in audio.sinks && !r.Err?
      ensures old(strayed) ==> strayed
      ensures audio.Counted()
      ensures r.Killed? || r == Ok(None) ==> Decibels()
      ensures r.Ok? ==> owed == old(owed)
      ensures r.Ok? && r.value.Some? ==> r.value.value.volume == volume && r.value.value.route == route
      ensures r.Ok? && r.value.Some? && !strayed && owed == Nothing ==>
                Balanced(audio.sinks, audio.baseline, OwedBy(r.value, None)) && IsNamed(r.value)
      ensures audio.misfires == old(audio.misfires) ==>
                strayed == old(strayed) && owed == old(owed) && (r.Ok? && r.value.Some? ==> isNamed)
      ensures r.Ok? && r.value.Some? ==>
                -0.01 <= r.value.value.applied - stepFor(volume) <= 0.01 && answer == Ok(r.value.value.applied)
      ensures r == Ok(None) && answer.Ok? ==> !(-0.01 <= answer.value - stepFor(volume) <= 0.01)
      ensures audio.misfires == old(audio.misfires) && !(r.Ok? && r.value.Some?) ==> audio.sinks == old(audio.sinks)
      ensures audio.disturbances == old(audio.disturbances) ==>
                && r == Ok(Some(Attenuation(route, stepFor(volume), volume, RouteTarget(route))))
                && isNamed && strayed == old(strayed)
                && audio.sinks == Shifted(old(audio.sinks), RouteTarget(route), stepFor(volume))
    {
      hide Balanced;
      isNamed := false;
      var wanted := stepFor(volume);
      ghost var sinks := audio.sinks;
      var change := audio.ChangeRoute(route, wanted);
      answer := change;
      strayed := strayed || audio.misfires != old(audio.misfires);
      if change.Ok? {
        MovedAndBack(sinks, audio.defaultSink, change.value);
      }
      if !change.Ok? {
        return if change.Killed? then Killed else Ok(None), isNamed, answer;
      }
      assert change.value - wanted <= Abs(change.value - wanted) && wanted - change.value <= Abs(change.value - wanted);
      if Abs(change.value - wanted) > 0.01 {
        MovedBack(sinks, RouteTarget(route), change.value);
        var undone := UndoPartial(route, change.value);
        return if undone.Killed? then Killed else Ok(None), isNamed, answer;
      }
      var named;
      named, isNamed := NameTarget(route, change.value, volume);
      r := if named.Ok? then Ok(Some(named.value)) else Killed;
    }

    /** The output a hand-off on this route would land on. */
    ghost function RouteTarget(route: Route): Option<string>
      reads audio
    {
      if route.SystemSink? then Some(audio.defaultSink) else None
    }

    /** The process and then the record know of the hand-off. */
    method Remember(attenuation: Attenuation, isNamed: bool) returns (r: Outcome<()>)
      requires !strayed && owed == Nothing ==> Balanced(audio.sinks, audio.baseline, OwedBy(Some(attenuation), None))
      modifies this`memory, this`owed, this`strayed, this`levelLost
      modifies audio`record, audio`disturbances, audio`misfires, audio`overwritten
      ensures !r.Err? && Decibels() && memory == Some(attenuation) && owed == OwedBy(memory, None)
      ensures audio.record == old(audio.record) || audio.record == Some(RecordOf(attenuation, false))
      ensures audio.Counted()
      ensures strayed == (old(strayed) || old(owed).Missing?)
      ensures levelLost == (old(levelLost) || factor != 1.0)
      ensures audio.disturbances == old(audio.disturbances) ==> r.Ok?
      ensures old(audio.record) == None ==> audio.overwritten == old(audio.overwritten)
      ensures isNamed && audio.misfires == old(audio.misfires) ==>
                && r.Ok? && audio.record == Some(RecordOf(attenuation, false))
                && audio.overwritten == old(audio.overwritten) + if old(audio.record).Some? then 1 else 0
    {
      // A record still kept for another output is overwritten.
      strayed := strayed || owed.Missing?;
      levelLost := levelLost || factor != 1.0;
      memory := Some(attenuation);
      owed := OwedBy(memory, None);
      r := Ok(());
      if isNamed {
        var written := audio.WriteRecord(Some(RecordOf(attenuation, false)));
        r := if written.Killed? then Killed else Ok(());
      }
    }

    /** mpv goes to full volume, through Direct when only the volume was processed. */
    method Follow(volume: real) returns (r: Outcome<bool>)
      requires processing.state.volume == volume && Fraction(volume)
      requires !levelLost ==> listener == volume && factor == 1.0
      modifies this`factor, this`listener, this`refused, this`interrupted
      modifies processing`state, processing`volumes, processing.storage, audio`disturbances
      ensures Level() && !r.Err? && (r.Ok? ==> r.value && factor == volume)
      ensures processing.state.volume == 1.0 || processing.state.volume == volume
      ensures processing.state.volume == 1.0 ==> factor == volume
      ensures Followed(volume, r.Killed?)
      ensures old(InRange()) ==> InRange()
      ensures audio.disturbances >= old(audio.disturbances)
      ensures processing.storage.disturbances >= old(processing.storage.disturbances)
      ensures processing.storage.disturbances == old(processing.storage.disturbances) ==> processing.Persisted()
      ensures Calm(old(audio.disturbances), old(processing.storage.disturbances)) ==>
                && r.Ok? && refused == old(refused)
                && Heard(processing.state) == Heard(FullVolume(old(processing.state)))
    {
      var isVolumeOnly := !processing.state.equalizer.isEnabled && processing.state.replayGain == Off;
      var followed, reported := UpdateProcessing(if isVolumeOnly then ToDirect else ToVolume(1.0));
      r := if followed.Killed? then Killed else Ok(true);
      ProductWithOne(volume);
      if processing.state.volume == 1.0 {
        factor := volume;
      } else if r.Killed? {
        interrupted := interrupted + 1;
      } else {
        // The device attenuates and mpv still does: the listener hears the square.
        factor, listener, refused := volume, Product(volume, volume), refused + 1;
      }
    }

    /** What mpv's part in a hand-off at this volume counts for: nothing where it followed. */
    twostate predicate Followed(volume: real, wasKilled: bool)
      reads this, processing
    {
      && refused == old(refused) + (if !wasKilled && processing.state.volume != 1.0 then 1 else 0)
      && interrupted == old(interrupted) + (if wasKilled && processing.state.volume != 1.0 then 1 else 0)
      && listener == if !wasKilled && processing.state.volume != 1.0 then Product(volume, volume) else old(listener)
    }

    /** The device has the attenuation: the books follow, then mpv. */
    method MoveOver(attenuation: Attenuation, isNamed: bool) returns (r: Outcome<bool>)
      requires IsTaken(attenuation.applied, attenuation.volume)
      requires Parts() && Level() && processing.state.volume == attenuation.volume && Fraction(attenuation.volume)
      requires !strayed && owed == Nothing ==>
                 Balanced(audio.sinks, audio.baseline, OwedBy(Some(attenuation), None)) && IsNamed(Some(attenuation))
      modifies this`memory, this`owed, this`factor, this`listener, this`strayed, this`levelLost
      modifies this`refused, this`interrupted
      modifies processing`state, processing`volumes, processing.storage
      modifies audio`record, audio`disturbances, audio`misfires, audio`overwritten
      ensures Ledger() && (r.Ok? ==> Known())
      ensures !r.Err? && (r.Ok? ==> r.value) && memory == Some(attenuation)
      ensures audio.Counted()
      ensures processing.storage.disturbances >= old(processing.storage.disturbances)
      ensures processing.storage.disturbances == old(processing.storage.disturbances) && old(processing.Persisted()) ==>
                processing.Persisted()
      ensures strayed == (old(strayed) || old(owed).Missing?)
      ensures levelLost == (old(levelLost) || old(factor) != 1.0)
      ensures processing.state.volume == 1.0 || processing.state.volume == attenuation.volume
      ensures owed == OwedBy(memory, None) && Followed(attenuation.volume, r.Killed?)
      ensures r.Ok? || processing.state.volume == 1.0 ==> factor == attenuation.volume
      ensures old(audio.record) == None ==> audio.overwritten == old(audio.overwritten)
      ensures audio.misfires == old(audio.misfires) && isNamed ==>
                && audio.record == Some(RecordOf(attenuation, false))
                && audio.overwritten == old(audio.overwritten) + if old(audio.record).Some? then 1 else 0
      ensures Calm(old(audio.disturbances), old(processing.storage.disturbances)) ==>
                && r.Ok? && Heard(processing.state) == Heard(FullVolume(old(processing.state)))
                && refused == old(refused)
    {
      hide Balanced, IsNamed, OwedBy, FactorBy, Heard, FullVolume, Controller.Persisted;
      var remembered := Remember(attenuation, isNamed);
      RecordTellsAll(attenuation, audio.record);
      ProductWithOne(attenuation.volume);
      r := Killed;
      if remembered.Ok? {
        assert !levelLost ==> listener == attenuation.volume;
        r := Follow(attenuation.volume);
      } else {
        interrupted := interrupted + 1;
      }
    }

    /**
     `hand_off_volume_to_device`. The device takes the attenuation, then the
     process and the record know of it, then mpv goes to full volume. Unless a call
     misfires or an earlier hand-off is still recorded, the books follow.
     */
    method HandOffVolume(route: Route) returns (r: Outcome<bool>)
      requires Settled() && memory == None
      modifies this`memory, this`owed, this`factor, this`listener, this`strayed, this`levelLost
      modifies this`refused, this`interrupted
      modifies processing`state, processing`volumes, processing.storage
      modifies audio`sinks, audio`record, audio`disturbances, audio`misfires, audio`overwritten
      ensures Ledger() && (r.Ok? ==> Settled())
      ensures audio.Counted()
      ensures if memory.Some? then Followed(old(processing.state.volume), r.Killed?)
              else refused == old(refused) && interrupted == old(interrupted) && listener == old(listener)
      ensures refused != old(refused) && !levelLost ==> listener == Product(old(listener), old(listener))
      ensures Mishaps() == old(Mishaps()) && old(Booked()) ==> Booked()
      ensures Mishaps() == old(Mishaps()) && interrupted == old(interrupted) && old(LevelBooked()) ==> LevelBooked()
      ensures processing.storage.disturbances == old(processing.storage.disturbances) && old(processing.Persisted()) ==>
                processing.Persisted()
      ensures memory == None ==> audio.record == old(audio.record)
      ensures old(audio.record) == None ==> audio.overwritten == old(audio.overwritten)
      ensures processing.storage.disturbances >= old(processing.storage.disturbances)
      ensures audio.misfires == old(audio.misfires) && old(owed) == Nothing ==> strayed == old(strayed)
      ensures r == Ok(true) ==>
                && Fraction(old(processing.state.volume)) && memory.Some?
                && memory.value.volume == old(processing.state.volume)
                && processing.state.volume in {1.0, memory.value.volume}
                && levelLost == (old(levelLost) || old(factor) != 1.0)
      ensures memory.Some? ==> -0.01 <= memory.value.applied - stepFor(old(processing.state.volume)) <= 0.01
      ensures memory == None && audio.misfires == old(audio.misfires) ==> audio.sinks == old(audio.sinks)
      ensures r == Ok(true) && audio.misfires == old(audio.misfires) ==>
                audio.record == Some(RecordOf(memory.value, false))
      ensures r == Ok(false) ==>
                memory == None && processing.state == old(processing.state) && levelLost == old(levelLost)
      ensures Calm(old(audio.disturbances), old(processing.storage.disturbances)) ==>
                r == Ok(Fraction(old(processing.state.volume))) && refused == old(refused)
      ensures Calm(old(audio.disturbances), old(processing.storage.disturbances)) && r == Ok(true) ==>
                && Heard(processing.state) == Heard(FullVolume(old(processing.state)))
                && memory.value
                    == Attenuation(route, stepFor(memory.value.volume), memory.value.volume, RouteTarget(route))
                && audio.record == Some(RecordOf(memory.value, false))
                && audio.sinks == Shifted(old(audio.sinks), RouteTarget(route), memory.value.applied)
                && strayed == (old(strayed) || old(owed).Missing?)
    {
      NothingRecorded();
      hide Balanced, IsNamed, FullVolume, Shifted, OwedBy, FactorBy, RecordOf, Heard, Product;
      var volume := processing.state.volume;
      ProductWithOne(volume);
      r := Ok(false);
      if 0.0 < volume < 1.0 {
        var lowered, isNamed, answer := LowerDevice(route, volume);
        if lowered.Ok? && lowered.value.Some? {
          r := MoveOver(lowered.value.value, isNamed);
          RecordTellsAll(lowered.value.value, audio.record);
        } else if lowered.Killed? {
          r := Killed;
        }
      }
    }

    /** mpv gets this volume, at worst only in the settings. */
    method SetLevel(volume: real) returns (r: Outcome<()>)
      requires InRange() && 0.0 <= volume <= 1.0
      modifies processing`state, processing`volumes, processing.storage, audio`disturbances
      ensures InRange()
      ensures processing.state.volume in {volume, old(processing.state.volume)}
      ensures r.Ok? ==> processing.state.volume == volume
      ensures r.Err? ==> processing.state.volume == old(processing.state.volume)
      ensures audio.disturbances >= old(audio.disturbances)
      ensures processing.storage.disturbances >= old(processing.storage.disturbances)
      ensures r.Err? ==> processing.storage.disturbances > old(processing.storage.disturbances)
      ensures processing.storage.disturbances == old(processing.storage.disturbances) ==> processing.Persisted()
      ensures Calm(old(audio.disturbances), old(processing.storage.disturbances)) ==>
                r.Ok? && Heard(processing.state) == Heard(Changed(old(processing.state), ToVolume(volume)))
    {
      ghost var reported;
      r, reported := UpdateProcessing(ToVolume(volume));
      if r.Ok? {
        assert processing.state.volume == Heard(processing.state).volume;
      }
      if r.Err? {
        r := processing.SetSoftwareVolume(Finite(volume));
      }
    }

    /** mpv gets the listener's level back, at worst only in the settings. */
    method ReturnLevel(entry: real) returns (r: Outcome<()>)
      requires Fraction(entry) && InRange() && Level() && (!levelLost ==> factor == entry)
      modifies this`factor, this`levelLost, this`dropped
      modifies processing`state, processing`volumes, processing.storage, audio`disturbances
      ensures InRange() && Level() && !r.Err? && (r.Ok? ==> levelLost || factor == 1.0)
      ensures r.Killed? ==> levelLost == old(levelLost) && dropped == old(dropped)
      ensures if processing.state.volume == Product(old(processing.state.volume), entry) then factor == 1.0
                else factor == old(factor)
      ensures r.Ok? && dropped == old(dropped) ==>
                processing.state.volume == Product(old(processing.state.volume), entry)
      ensures old(levelLost) ==> levelLost
      ensures dropped >= old(dropped) && (dropped == old(dropped) ==> levelLost == old(levelLost))
      ensures audio.disturbances >= old(audio.disturbances)
      ensures processing.storage.disturbances >= old(processing.storage.disturbances)
      ensures processing.storage.disturbances == old(processing.storage.disturbances) ==>
                dropped == old(dropped) && processing.Persisted()
      ensures Calm(old(audio.disturbances), old(processing.storage.disturbances)) ==>
                r.Ok? && Heard(processing.state) == Heard(Returned(old(processing.state), entry))
    {
      hide Product;
      var volume := ReturnedVolume(processing.state.volume, entry);
      r := SetLevel(volume);
      if processing.state.volume == volume {
        factor := 1.0;
      }
      ProductWithOne(volume);
      levelLost := levelLost || r.Err?;
      dropped := dropped + if r.Err? then 1 else 0;
      r := if r.Killed? then Killed else Ok(());
    }

    /** The output that lost the decibels gets them back, even if another is the default now. */
    method ReturnDecibels(attenuation: Attenuation) returns (r: Outcome<bool>)
      requires audio.defaultSink in audio.sinks && Decibels()
      requires !strayed ==> owed == OwedBy(Some(attenuation), None) && IsNamed(Some(attenuation))
      modifies this`owed, this`strayed, audio`sinks, audio`disturbances, audio`misfires
      ensures audio.defaultSink in audio.sinks && Decibels()
      ensures old(strayed) ==> strayed
      ensures owed == if r == Ok(true) then Nothing else old(owed)
      ensures audio.Counted()
      ensures audio.misfires == old(audio.misfires) ==> strayed == old(strayed)
      ensures audio.disturbances == old(audio.disturbances) ==>
                && r == Ok(true) && strayed == old(strayed)
                && (DeviceReturn(attenuation) != CurrentDefault ==>
                    audio.sinks == Shifted(old(audio.sinks), SinkOf(attenuation), -attenuation.applied))
    {
      match DeviceReturn(attenuation) {
        case ReturnNothing =>
          r := Ok(true);
        case Named(target) =>
          r := audio.GiveBack(target, attenuation.applied);
        case CurrentDefault =>
          // Only a hand-off whose output could not be named comes here.
          var changed := audio.ChangeRoute(SystemSink, -attenuation.applied);
          r := if changed.Ok? then Ok(true) else changed.PropagateFailure();
      }
      strayed := strayed || audio.misfires != old(audio.misfires);
      owed := if r == Ok(true) then Nothing else owed;
    }

    /** What a return leaves on disk: nothing, or what another process has to try again. */
    method CloseRecord(kept: Option<Record>) returns (r: Outcome<()>)
      requires memory == None
      requires kept.Some? ==> Fraction(kept.value.volume)
      requires !strayed ==> owed == OwedBy(None, kept)
      requires !levelLost ==> factor == FactorBy(None, kept)
      requires kept == None || IsRetry(kept)
      modifies this`strayed, this`levelLost, audio`record, audio`disturbances, audio`misfires, audio`overwritten
      ensures r.Ok? ==> Known()
      ensures audio.overwritten == old(audio.overwritten)
      ensures r.Killed? && audio.misfires == old(audio.misfires) ==> kept.Some? && audio.record == old(audio.record)
      ensures old(strayed) ==> strayed
      ensures old(levelLost) ==> levelLost
      ensures !r.Err? && (audio.record == old(audio.record) || audio.record == kept)
      ensures audio.Counted()
      ensures audio.misfires == old(audio.misfires) ==> strayed == old(strayed) && levelLost == old(levelLost)
      ensures audio.disturbances == old(audio.disturbances) ==>
                r.Ok? && audio.record == kept && strayed == old(strayed) && levelLost == old(levelLost)
    {
      var written := audio.WriteRecord(kept);
      if written.Err? {
        // The record still says what it said before.
        strayed := strayed || owed != OwedBy(None, audio.record);
        levelLost := levelLost || factor != FactorBy(None, audio.record);
      }
      r := if written.Killed? then Killed else Ok(());
    }

    /** The device half of a return: the decibels, then the record. */
    method ReturnToDevice(attenuation: Attenuation) returns (r: Outcome<()>)
      requires audio.defaultSink in audio.sinks && Decibels() && memory == None && Fraction(attenuation.volume)
      requires !strayed ==> owed == OwedBy(Some(attenuation), None) && IsNamed(Some(attenuation))
      requires !levelLost ==> factor == 1.0
      modifies this`owed, this`strayed, this`levelLost
      modifies audio`sinks, audio`record, audio`disturbances, audio`misfires, audio`overwritten
      ensures audio.defaultSink in audio.sinks && Decibels() && !r.Err? && (r.Ok? ==> Known())
      ensures audio.overwritten == old(audio.overwritten)
      ensures r.Killed? && audio.misfires == old(audio.misfires) ==>
                owed == old(owed) && audio.record == old(audio.record)
      ensures old(levelLost) ==> levelLost
      ensures audio.record == old(audio.record) || audio.record == None
                || audio.record == Some(RecordOf(attenuation, true))
      ensures audio.Counted()
      ensures audio.misfires == old(audio.misfires) ==> strayed == old(strayed) && levelLost == old(levelLost)
      ensures audio.disturbances == old(audio.disturbances) ==>
                && r.Ok? && owed == Nothing && audio.record == None && strayed == old(strayed)
                && levelLost == old(levelLost)
                && (DeviceReturn(attenuation) != CurrentDefault ==>
                    audio.sinks == Shifted(old(audio.sinks), SinkOf(attenuation), -attenuation.applied))
    {
      r := Killed;
      var returned := ReturnDecibels(attenuation);
      if !returned.Killed? {
        r := CloseRecord(if returned == Ok(true) then None else Some(RecordOf(attenuation, true)));
      }
    }

    /** The level goes back to mpv before the decibels go back to the output. */
    method TakeBack(attenuation: Attenuation) returns (r: Outcome<()>)
      requires memory == None && Ledger() && Fraction(attenuation.volume)
      requires IsTaken(attenuation.applied, attenuation.volume)
      requires !strayed ==> owed == OwedBy(Some(attenuation), None) && IsNamed(Some(attenuation))
      requires !levelLost ==> factor == attenuation.volume
      modifies this`owed, this`factor, this`strayed, this`levelLost, this`interrupted, this`dropped
      modifies processing`state, processing`volumes, processing.storage
      modifies audio`sinks, audio`record, audio`disturbances, audio`misfires, audio`overwritten
      ensures Ledger() && !r.Err? && (r.Ok? ==> Known())
      ensures Interrupted(attenuation.volume, r.Killed?)
      ensures audio.Counted() && audio.overwritten == old(audio.overwritten)
      ensures processing.storage.disturbances >= old(processing.storage.disturbances)
      ensures audio.misfires == old(audio.misfires) ==> strayed == old(strayed)
      ensures audio.misfires == old(audio.misfires) && r.Killed? ==>
                owed == old(owed) && audio.record == old(audio.record)
      ensures audio.misfires == old(audio.misfires) && dropped == old(dropped) ==>
                levelLost == old(levelLost) && (r.Killed? && interrupted == old(interrupted) ==> factor == old(factor))
      ensures dropped >= old(dropped)
      ensures processing.storage.disturbances == old(processing.storage.disturbances) ==>
                dropped == old(dropped) && processing.Persisted()
      ensures Calm(old(audio.disturbances), old(processing.storage.disturbances)) ==>
                && r.Ok? && owed == Nothing && audio.record == None && strayed == old(strayed)
                && levelLost == old(levelLost)
                && Heard(processing.state) == Heard(Returned(old(processing.state), attenuation.volume))
                && (DeviceReturn(attenuation) != CurrentDefault ==>
                    audio.sinks == Shifted(old(audio.sinks), SinkOf(attenuation), -attenuation.applied))
    {
      hide OwedBy, FactorBy, Balanced, Product, Shifted, Heard, Returned, Controller.Persisted;
      hide IsNamed, DeviceReturn, SinkOf;
      ghost var returned := Product(processing.state.volume, attenuation.volume);
      r := Killed;
      var leveled := ReturnLevel(attenuation.volume);
      if leveled.Ok? {
        r := ReturnToDevice(attenuation);
      }
      interrupted := interrupted + if r.Killed? && processing.state.volume == returned then 1 else 0;
    }

    /** A process killed once mpv had the level back counts, as its record may still hold that level. */
    twostate predicate Interrupted(entry: real, wasKilled: bool)
      reads this, processing
    {
      interrupted == old(interrupted)
        + if wasKilled && processing.state.volume == Product(old(processing.state.volume), entry) then 1 else 0
    }

    /**
     `return_device_volume`: the level, then the decibels, then the record. Without a
     misfire, and with the listener's level saved, the books are right afterwards:
     given back, or kept in the record for the next start.
     */
    method ReturnVolume() returns (r: Outcome<()>)
      requires Settled()
      modifies this`memory, this`owed, this`factor, this`strayed, this`levelLost, this`interrupted, this`dropped
      modifies processing`state, processing`volumes, processing.storage
      modifies audio`sinks, audio`record, audio`disturbances, audio`misfires, audio`overwritten
      ensures Ledger() && !r.Err? && (r.Ok? ==> Known() && memory == None)
      ensures if old(memory).Some? then Interrupted(old(memory).value.volume, r.Killed?)
                else interrupted == old(interrupted)
      ensures audio.Counted() && audio.overwritten == old(audio.overwritten)
      ensures processing.storage.disturbances >= old(processing.storage.disturbances)
      ensures audio.misfires == old(audio.misfires) ==> strayed == old(strayed)
      ensures audio.misfires == old(audio.misfires) && old(Booked()) ==> Booked()
      ensures audio.misfires == old(audio.misfires) && dropped == old(dropped) ==> levelLost == old(levelLost)
      ensures audio.misfires == old(audio.misfires) && dropped == old(dropped) && interrupted == old(interrupted) ==>
                (old(LevelBooked()) ==> LevelBooked())
      ensures dropped >= old(dropped)
      ensures processing.storage.disturbances == old(processing.storage.disturbances) ==>
                dropped == old(dropped) && (old(processing.Persisted()) ==> processing.Persisted())
      ensures Calm(old(audio.disturbances), old(processing.storage.disturbances)) && old(memory).Some? ==>
                && r.Ok? && owed == Nothing && audio.record == None && strayed == old(strayed)
                && levelLost == old(levelLost)
                && Heard(processing.state) == Heard(Returned(old(processing.state), old(memory).value.volume))
                && (DeviceReturn(old(memory).value) != CurrentDefault ==>
                    audio.sinks == Shifted(old(audio.sinks), SinkOf(old(memory).value), -old(memory).value.applied))
      ensures Calm(old(audio.disturbances), old(processing.storage.disturbances)) && old(NothingKept()) ==>
                r.Ok? && audio.record == None
    {
      assert memory.Some? ==>
          OwedBy(memory, audio.record) == OwedBy(memory, None) && FactorBy(memory, audio.record) == memory.value.volume;
      hide OwedBy, FactorBy, Balanced, Product, Shifted, Heard, Returned, Controller.Persisted;
      hide IsNamed, DeviceReturn, SinkOf;
      r := Ok(());
      if memory.Some? {
        var attenuation := memory.value;
        memory := None;
        r := TakeBack(attenuation);
      }
    }

    /** The process ends here, by itself or killed, and another one starts. */
    method Reboot()
      requires Ledger()
      modifies this`memory, this`strayed, this`levelLost, this`unsaved, processing
      ensures unsaved == old(unsaved) + if old(processing.Persisted()) then 0 else 1
      ensures Settled() && memory == None && processing.Persisted()
      ensures strayed == (old(strayed) || owed != OwedBy(None, audio.record))
      ensures levelLost == (old(levelLost) || factor != FactorBy(None, audio.record) || !old(processing.Persisted()))
    {
      hide Balanced, OwedBy, FactorBy, Product, Controller.Persisted, Controller.Settings, Loaded;
      strayed := strayed || owed != OwedBy(None, audio.record);
      levelLost := levelLost || factor != FactorBy(None, audio.record) || !processing.Persisted();
      unsaved := unsaved + if processing.Persisted() then 0 else 1;
      memory := None;
      processing.Reopen();
    }

    /** The device half of a recovery: a retry that fails leaves mpv alone next time. */
    method RetryDevice(record: Record) returns (r: Outcome<()>)
      requires audio.defaultSink in audio.sinks && Decibels() && memory == None && audio.record == Some(record)
                 && Fraction(record.volume)
      requires !strayed ==> owed == OwedBy(None, Some(record))
      requires !levelLost ==> factor == 1.0
      modifies this`owed, this`strayed, this`levelLost
      modifies audio`sinks, audio`record, audio`disturbances, audio`misfires, audio`overwritten
      ensures audio.defaultSink in audio.sinks && Decibels() && !r.Err? && (r.Ok? ==> Known())
      ensures audio.overwritten == old(audio.overwritten)
      ensures r.Killed? && audio.misfires == old(audio.misfires) ==>
                owed == old(owed) && audio.record == old(audio.record)
      ensures old(levelLost) ==> levelLost
      ensures audio.record == None || audio.record == Some(record) || audio.record == Some(record.(restored := true))
      ensures audio.Counted()
      ensures audio.misfires == old(audio.misfires) ==> strayed == old(strayed) && levelLost == old(levelLost)
      ensures audio.disturbances == old(audio.disturbances) ==>
                r.Ok? && owed == Nothing && audio.record == None && strayed == old(strayed)
                && levelLost == old(levelLost)
    {
      var undone := RecoverDecibels(record);
      if undone == Ok(true) {
        r := CloseRecord(None);
      } else if !undone.Killed? && !record.restored {
        r := CloseRecord(Some(record.(restored := true)));
      } else {
        r := if undone.Killed? then Killed else Ok(());
      }
    }

    /** `recover_left_device_attenuation`, at the start of a process. */
    method Recover() returns (r: Outcome<()>)
      requires Settled() && memory == None
      modifies this`owed, this`factor, this`strayed, this`levelLost, this`interrupted, this`dropped
      modifies processing`state, processing`volumes, processing.storage
      modifies audio`sinks, audio`record, audio`disturbances, audio`misfires, audio`overwritten
      ensures Ledger() && !r.Err? && (r.Ok? ==> Known())
      ensures old(audio.record).Some? && !old(audio.record).value.restored ==>
                interrupted == old(interrupted) || Interrupted(old(audio.record).value.volume, r.Killed?)
      ensures old(audio.record) == None || old(audio.record).value.restored || r.Ok? ==> interrupted == old(interrupted)
      ensures interrupted >= old(interrupted)
      ensures audio.Counted() && audio.overwritten == old(audio.overwritten)
      ensures processing.storage.disturbances >= old(processing.storage.disturbances)
      ensures audio.misfires == old(audio.misfires) ==> strayed == old(strayed)
      ensures audio.misfires == old(audio.misfires) && old(Booked()) ==> Booked()
      ensures audio.misfires == old(audio.misfires) && dropped == old(dropped) ==> levelLost == old(levelLost)
      ensures audio.misfires == old(audio.misfires) && dropped == old(dropped) && interrupted == old(interrupted) ==>
                (old(LevelBooked()) ==> LevelBooked())
      ensures dropped >= old(dropped)
      ensures processing.storage.disturbances == old(processing.storage.disturbances) ==>
                dropped == old(dropped) && (old(processing.Persisted()) ==> processing.Persisted())
      ensures Calm(old(audio.disturbances), old(processing.storage.disturbances)) ==>
                r.Ok? && audio.record == None && (!strayed ==> owed == Nothing)
    {
      NothingRecorded();
      hide OwedBy, FactorBy, Balanced, Product, Heard, Controller.Persisted;
      r := Ok(());
      var read := audio.ReadRecord();
      if read.Killed? {
        r := Killed;
      } else if read.Ok? && read.value.Some? {
        r := Undo(read.value.value);
      }
    }

    /** The level the record holds goes back to mpv, then the decibels to the output. */
    method Undo(record: Record) returns (r: Outcome<()>)
      requires Ledger() && Known() && memory == None && audio.record == Some(record)
      modifies this`owed, this`factor, this`strayed, this`levelLost, this`interrupted, this`dropped
      modifies processing`state, processing`volumes, processing.storage
      modifies audio`sinks, audio`record, audio`disturbances, audio`misfires, audio`overwritten
      ensures Ledger() && !r.Err? && (r.Ok? ==> Known())
      ensures if record.restored then interrupted == old(interrupted) else Interrupted(record.volume, r.Killed?)
      ensures audio.Counted() && audio.overwritten == old(audio.overwritten)
      ensures processing.storage.disturbances >= old(processing.storage.disturbances)
      ensures audio.misfires == old(audio.misfires) ==> strayed == old(strayed)
      ensures audio.misfires == old(audio.misfires) && r.Killed? ==>
                owed == old(owed) && audio.record == old(audio.record)
      ensures audio.misfires == old(audio.misfires) && dropped == old(dropped) ==>
                levelLost == old(levelLost)
                && (!levelLost && r.Killed? && interrupted == old(interrupted) ==> factor == old(factor))
      ensures dropped >= old(dropped)
      ensures processing.storage.disturbances == old(processing.storage.disturbances) ==>
                dropped == old(dropped) && (old(processing.Persisted()) ==> processing.Persisted())
      ensures Calm(old(audio.disturbances), old(processing.storage.disturbances)) ==>
                r.Ok? && audio.record == None && (!strayed ==> owed == Nothing)
    {
      assert record.restored ==> FactorBy(None, Some(record)) == 1.0;
      hide OwedBy, FactorBy, Balanced, Product, Heard, Controller.Persisted;
      ghost var returned := Product(processing.state.volume, record.volume);
      r := Killed;
      var leveled := RecoverLevel(record);
      if leveled.Ok? {
        r := RetryDevice(record);
      }
      interrupted := interrupted
        + if r.Killed? && !record.restored && processing.state.volume == returned then 1 else 0;
    }

    method RecoverLevel(record: Record) returns (r: Outcome<()>)
      requires Fraction(record.volume) && InRange() && Level()
                 && (!levelLost ==> factor == FactorBy(None, Some(record)))
      modifies this`factor, this`levelLost, this`dropped, processing`state, processing`volumes, processing.storage
      ensures InRange() && Level() && !r.Err? && (r.Ok? ==> levelLost || factor == 1.0)
      ensures old(levelLost) ==> levelLost
      ensures dropped >= old(dropped) && (dropped == old(dropped) ==> levelLost == old(levelLost))
      ensures r.Killed? ==> factor == old(factor) && dropped == old(dropped)
      ensures r.Ok? && dropped == old(dropped) && !record.restored ==>
                processing.state.volume == Product(old(processing.state.volume), record.volume)
      ensures processing.storage.disturbances >= old(processing.storage.disturbances)
      ensures processing.storage.disturbances == old(processing.storage.disturbances) ==>
                r.Ok? && dropped == old(dropped) && (old(processing.Persisted()) ==> processing.Persisted())
    {
      r := Ok(());
      if !record.restored {
        var volume := ReturnedVolume(processing.state.volume, record.volume);
        assert !levelLost ==> listener == volume;
        r := processing.SetSoftwareVolume(Finite(volume));
        factor := if r.Ok? then 1.0 else factor;
        levelLost := levelLost || r.Err?;
        dropped := dropped + if r.Err? then 1 else 0;
        r := if r.Killed? then Killed else Ok(());
      }
    }

    method RecoverDecibels(record: Record) returns (r: Outcome<bool>)
      requires audio.defaultSink in audio.sinks && Decibels() && (!strayed ==> owed == OwedBy(None, Some(record)))
      modifies this`owed, this`strayed, audio`sinks, audio`disturbances, audio`misfires
      ensures audio.defaultSink in audio.sinks && Decibels()
      ensures old(strayed) ==> strayed
      ensures owed == if r == Ok(true) then Nothing else old(owed)
      ensures audio.Counted()
      ensures audio.misfires == old(audio.misfires) ==> strayed == old(strayed)
      ensures audio.disturbances == old(audio.disturbances) ==> r == Ok(true) && strayed == old(strayed)
    {
      r := Ok(true);
      if record.target.Some? && record.isSystemSink {
        r := audio.GiveBack(record.target.value, record.applied);
      }
      strayed := strayed || audio.misfires != old(audio.misfires);
      owed := if r == Ok(true) then Nothing else owed;
    }

    /** The listener moves the slider or turns the profile off: that is the level from now on. */
    method Choose(change: Adjustment) returns (r: Outcome<()>)
      requires Settled()
      modifies this`listener, processing`state, processing`volumes, processing.storage, audio`disturbances
      ensures Settled() && listener == Product(processing.state.volume, factor)
      ensures processing.state.volume in {old(processing.state.volume), Changed(old(processing.state), change).volume}
      ensures audio.disturbances >= old(audio.disturbances)
      ensures processing.storage.disturbances >= old(processing.storage.disturbances)
      ensures r.Err? ==> processing.state == old(processing.state)
      ensures r.Ok? ==> Heard(processing.state) == Heard(Changed(old(processing.state), change))
      ensures Calm(old(audio.disturbances), old(processing.storage.disturbances)) ==>
                r.Ok? && processing.state.volume == Changed(old(processing.state), change).volume
      ensures processing.storage.disturbances == old(processing.storage.disturbances) ==> processing.Persisted()
    {
      ghost var wanted := Changed(processing.state, change);
      ghost var reported;
      r, reported := UpdateProcessing(change);
      assert r.Ok? ==> processing.state.volume == Heard(processing.state).volume == Heard(wanted).volume;
      listener := Product(processing.state.volume, factor);
    }
  }

  datatype Return = ReturnNothing | Named(target: string) | CurrentDefault

  /** Which output a return is for. */
  function DeviceReturn(attenuation: Attenuation): Return {
    if attenuation.route.AlsaCard? then ReturnNothing
    else if attenuation.target.Some? then Named(attenuation.target.value)
    else CurrentDefault
  }

  function SinkOf(attenuation: Attenuation): Option<string> {
    if attenuation.route.SystemSink? then attenuation.target else None
  }

  /** The volume that makes up for a device no longer attenuating. */
  function ReturnedVolume(current: real, entry: real): (volume: real)
    requires 0.0 <= current <= 1.0 && 0.0 < entry < 1.0
    ensures 0.0 <= volume <= current && volume <= entry
  {
    var volume := Product(current, entry);
    ProductOfVolumes(current, entry);
    volume
  }

  lemma ProductWithOne(volume: real)
    ensures Product(volume, 1.0) == volume
  {
  }

  lemma ProductOfVolumes(current: real, entry: real)
    requires 0.0 <= current <= 1.0 && 0.0 < entry < 1.0
    ensures 0.0 <= Product(current, entry) <= current && Product(current, entry) <= entry
  {
    assert current * (1.0 - entry) >= 0.0;
    assert (1.0 - current) * entry >= 0.0;
  }

  /** What a hand-off leaves to mpv: Direct when only the volume was processed. */
  function FullVolume(state: State): State {
    Changed(state, if !state.equalizer.isEnabled && state.replayGain == Off then ToDirect else ToVolume(1.0))
  }
}
