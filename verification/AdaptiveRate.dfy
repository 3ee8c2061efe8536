/**
 The controller that forces the system's sample rate while Adaptive System Rate
 is on, and the marker file that makes the next start undo what a killed client
 left behind (desktop/core/src/adaptive_system_rate.rs).
 */
module AdaptiveRate {
  import opened Outcomes

  /**
   The rate the client has forced on the system, and the cleanup marker. Each
   method is one call that may fail, or at which the process may be killed.
   */
  class RateSystem {
    var forced: Option<nat>
    var marked: bool
    ghost var disturbances: nat

    constructor ()
      ensures Safe() && forced == None && !marked
    {
      forced, marked, disturbances := None, false, 0;
    }

    /** A rate left forced is one the next start knows to undo. */
    ghost predicate Safe()
      reads this
    {
      forced.Some? ==> marked
    }

    method Fate() returns (r: Outcome<()>)
      modifies this`disturbances
      ensures r.Ok? <==> disturbances == old(disturbances)
      ensures !r.Ok? ==> disturbances == old(disturbances) + 1
    {
      var dice: int := *;
      r := if dice == 0 then Err else if dice == 1 then Killed else Ok(());
      disturbances := if r.Ok? then disturbances else disturbances + 1;
    }

    /** A call that fails may still have taken effect. */
    method SetForcedRate(rate: Option<nat>) returns (r: Outcome<()>)
      modifies this`forced, this`disturbances
      ensures r.Ok? <==> disturbances == old(disturbances)
      ensures disturbances >= old(disturbances)
      ensures forced == rate || forced == old(forced)
      ensures r.Ok? ==> forced == rate
    {
      r := Fate();
      var tookEffect: bool := *;
      forced := if r.Ok? || tookEffect then rate else forced;
    }

    method IsRequired() returns (r: Outcome<bool>)
      modifies this`disturbances
      ensures r.Ok? <==> disturbances == old(disturbances)
      ensures disturbances >= old(disturbances)
      ensures r.Ok? ==> r.value == marked
    {
      var _ :- Fate();
      r := Ok(marked);
    }

    /** A write that fails may still have created the file. */
    method MarkRequired() returns (r: Outcome<()>)
      modifies this`marked, this`disturbances
      ensures r.Ok? <==> disturbances == old(disturbances)
      ensures disturbances >= old(disturbances)
      ensures old(marked) || r.Ok? ==> marked
    {
      r := Fate();
      var created: bool := *;
      marked := marked || r.Ok? || created;
    }

    method ClearMarker() returns (r: Outcome<()>)
      modifies this`marked, this`disturbances
      ensures r.Ok? <==> disturbances == old(disturbances)
      ensures disturbances >= old(disturbances)
      ensures !old(marked) || r.Ok? ==> !marked
      ensures r.Err? ==> marked == old(marked)
    {
      r := Fate();
      var removed: bool := *;
      marked := marked && !r.Ok? && (r.Err? || !removed);
    }
  }

  class Controller {
    const system: RateSystem
    var isEnabled: bool
    var forcedRate: Option<nat>

    /**
     While the controller lives, only an enabled one can have forced a rate, and
     it has the marker.
     */
    ghost predicate Valid()
      reads this, system
    {
      && (isEnabled ==> system.marked)
      && (forcedRate.Some? ==> isEnabled)
      && (system.forced.Some? ==> isEnabled)
    }

    constructor (system: RateSystem)
      requires system.forced == None
      ensures Valid() && this.system == system && !isEnabled && forcedRate == None
    {
      this.system := system;
      isEnabled, forcedRate := false, None;
    }

    method Enable() returns (r: Outcome<()>)
      requires Valid()
      modifies this, system
      ensures Valid() && system.Safe()
      ensures isEnabled == (old(isEnabled) || r.Ok?) && forcedRate == old(forcedRate)
                && system.forced == old(system.forced)
      ensures system.disturbances >= old(system.disturbances)
      ensures system.disturbances == old(system.disturbances) ==> r.Ok?
    {
      var _ :- system.MarkRequired();
      isEnabled := true;
      r := Ok(());
    }

    /** Follows a Track's rate; a rate of 0 is no rate. */
    method ApplySourceSampleRate(rate: Option<nat>) returns (r: Outcome<()>)
      requires Valid()
      modifies this, system
      ensures Valid() && system.Safe()
      ensures isEnabled == old(isEnabled) && system.marked == old(system.marked)
      ensures !isEnabled ==> r.Ok? && system.forced == None && forcedRate == None
      ensures isEnabled && r.Ok? && rate.Some? && rate.value > 0 ==> system.forced == forcedRate == rate
      ensures isEnabled && r.Ok? && (rate == None || rate == Some(0)) ==> system.forced == forcedRate == None
      ensures !r.Ok? ==>
                forcedRate == old(forcedRate)
                && (system.forced == old(system.forced)
                    || system.forced == if rate.Some? && rate.value > 0 then rate else None)
      ensures system.disturbances >= old(system.disturbances)
      ensures system.disturbances == old(system.disturbances) ==> r.Ok?
    {
      if !isEnabled {
        return Ok(());
      }
      var _ :- system.SetForcedRate(Positive(rate));
      forcedRate := Positive(rate);
      r := Ok(());
    }

    /**
     Success means the rate is gone. So is the marker, unless the controller was
     not enabled and an earlier enable failed with the marker already written.
     */
    method Disable() returns (r: Outcome<()>)
      requires Valid()
      modifies this, system
      ensures system.Safe() && (Valid() || r.Killed?)
      ensures r.Ok? ==> system.forced == None && forcedRate == None && !isEnabled
      ensures r.Ok? ==> (!system.marked <==> old(isEnabled || !system.marked))
      ensures !r.Ok? ==> isEnabled == old(isEnabled)
      ensures system.disturbances >= old(system.disturbances)
      ensures system.disturbances == old(system.disturbances) ==> r.Ok?
    {
      if !isEnabled && forcedRate == None {
        return Ok(());
      }
      var _ :- ResetForceRate();
      var _ :- system.ClearMarker();
      isEnabled, forcedRate := false, None;
      r := Ok(());
    }

    method ResetForRecovery() returns (r: Outcome<()>)
      requires Valid()
      modifies this, system
      ensures Valid() && system.Safe() && isEnabled == old(isEnabled)
      ensures r.Ok? ==> system.forced == None && forcedRate == None
      ensures system.disturbances >= old(system.disturbances)
      ensures system.disturbances == old(system.disturbances) ==> r.Ok?
    {
      if !isEnabled && forcedRate == None {
        return Ok(());
      }
      r := ResetForceRate();
    }

    method ResetForceRate() returns (r: Outcome<()>)
      requires Valid() && isEnabled
      modifies this, system
      ensures Valid() && system.Safe() && isEnabled && system.marked == old(system.marked)
      ensures r.Ok? ==> system.forced == None && forcedRate == None
      ensures system.disturbances >= old(system.disturbances)
      ensures r.Ok? <==> system.disturbances == old(system.disturbances)
    {
      var _ :- system.SetForcedRate(None);
      forcedRate := None;
      r := Ok(());
    }

    /** Teardown: what it cannot undo, the marker leaves to the next start. */
    method Drop() returns (r: Outcome<()>)
      requires Valid()
      modifies system
      ensures system.Safe() && system.disturbances >= old(system.disturbances)
      ensures system.disturbances == old(system.disturbances) ==>
                system.forced == None && (old(isEnabled || !system.marked) ==> !system.marked)
    {
      if isEnabled || forcedRate.Some? {
        var _ :- system.SetForcedRate(None);
        var _ :- system.ClearMarker();
      }
      r := Ok(());
    }
  }

  function Positive(rate: Option<nat>): Option<nat> {
    if rate == Some(0) then None else rate
  }

  /** Startup: undoes a rate a killed client left, or does not start at all. */
  method RecoverStartup(system: RateSystem) returns (r: Outcome<Controller>)
    requires system.Safe()
    modifies system
    ensures system.Safe() && system.disturbances >= old(system.disturbances)
    ensures r.Ok? ==> fresh(r.value) && r.value.system == system && r.value.Valid() && !r.value.isEnabled
    ensures r.Ok? ==> system.forced == None && !system.marked
    ensures system.disturbances == old(system.disturbances) ==> r.Ok?
  {
    var required :- system.IsRequired();
    if required {
      var _ :- system.SetForcedRate(None);
      var _ :- system.ClearMarker();
    }
    var controller := new Controller(system);
    r := Ok(controller);
  }

  datatype Event = Start | Enable | Follow(rate: Option<nat>) | Disable | Reset | Teardown

  /**
   At every point of every run a rate left on the system has its marker: whatever
   the client is asked, whatever fails and wherever it is killed, the process that
   starts next leaves neither a forced rate nor a marker, or does not start. An
   operation the process is killed in leaves no controller.
   */
  method Run(system: RateSystem, events: seq<Event>) returns (next: Outcome<Controller>)
    requires system.Safe()
    modifies system
    ensures system.Safe()
    ensures next.Ok? ==> system.forced == None && !system.marked
    ensures system.disturbances == old(system.disturbances) ==> next.Ok?
  {
    var controller: Option<Controller> := None;
    for i := 0 to |events|
      invariant system.Safe() && system.disturbances >= old(system.disturbances)
      invariant controller.Some? ==>
                  fresh(controller.value) && controller.value.system == system && controller.value.Valid()
    {
      var r: Outcome<()> := Ok(());
      match (events[i], controller) {
        case (Start, None) =>
          var started := RecoverStartup(system);
          controller := if started.Ok? then Some(started.value) else None;
        case (Enable, Some(running)) => r := running.Enable();
        case (Follow(rate), Some(running)) => r := running.ApplySourceSampleRate(rate);
        case (Disable, Some(running)) => r := running.Disable();
        case (Reset, Some(running)) => r := running.ResetForRecovery();
        case (Teardown, Some(running)) =>
          r := running.Drop();
          controller := None;
        case _ =>
      }
      if r.Killed? {
        controller := None;
      }
    }
    next := RecoverStartup(system);
  }
}
