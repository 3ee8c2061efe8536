/**
 The Processing Profile: software volume, ReplayGain and equalizer, and their
 settings file (desktop/core/src/processing.rs). Volumes and gains are reals; the
 values a caller passes may also be a float that is not finite.
 */
module Processing {
  import opened Outcomes

  datatype Profile = Direct | Processed
  datatype OutputMode = System | DirectAlsa | AdaptiveSystemRate
  datatype ReplayGain = Off | Track | Album
  datatype EffectiveReplayGain = EffectiveOff | EffectiveTrack | EffectiveAlbum | TrackFallback | Unavailable | Unknown
  datatype Preset = Flat | BassBoost | Vocal | TrebleBoost | Custom
  /** Why the profile left Direct: which setting requires the Processed Profile. */
  datatype Notice = VolumeNotice | ReplayGainNotice | EqualizerNotice

  /** The route a remembered volume belongs to. */
  datatype RouteKey = SystemRoute | AlsaRoute(device: string)

  datatype Float = Finite(value: real) | NotFinite

  const BANDS := 10

  datatype Equalizer = Equalizer(isEnabled: bool, preset: Preset, gains: seq<real>)

  datatype State = State(
    profile: Profile,
    volume: real,
    replayGain: ReplayGain,
    effective: EffectiveReplayGain,
    preference: Option<ReplayGain>,
    equalizer: Equalizer,
    filters: seq<string>,
    notice: Option<Notice>)

  datatype Settings = Settings(
    outputMode: OutputMode,
    device: Option<string>,
    volumes: map<RouteKey, real>,
    profile: Profile,
    volume: real,
    replayGain: ReplayGain,
    preference: Option<ReplayGain>,
    equalizer: Equalizer)

  const ZEROS: seq<real> := [0.0, 0.0, 0.0, 0.0, 0.0, 0.0, 0.0, 0.0, 0.0, 0.0]
  const FLAT := Equalizer(false, Flat, ZEROS)
  const DEFAULT := State(Direct, 1.0, Off, EffectiveOff, None, FLAT, [], None)

  function Clamp(value: Float, low: real, high: real): (clamped: real)
    requires low <= 0.0 <= high
    ensures low <= clamped <= high
    ensures value.Finite? && low <= value.value <= high ==> clamped == value.value
    ensures value.Finite? && value.value >= high ==> clamped == high
    ensures value.Finite? && value.value <= low ==> clamped == low
    ensures value.NotFinite? ==> clamped == 0.0
  {
    match value
    case NotFinite => 0.0
    case Finite(v) => if v < low then low else if v > high then high else v
  }

  function PresetGains(preset: Preset): (gains: seq<real>)
    ensures |gains| == BANDS && forall i :: 0 <= i < BANDS ==> -12.0 <= gains[i] <= 12.0
    ensures preset == Flat ==> gains == ZEROS
    ensures preset == BassBoost ==> forall i, j :: 0 <= i <= j < BANDS ==> gains[i] >= gains[j] >= 0.0
    ensures preset == TrebleBoost ==> forall i, j :: 0 <= i <= j < BANDS ==> gains[j] >= gains[i] >= 0.0
  {
    match preset
    case Flat | Custom => ZEROS
    case BassBoost => [5.0, 4.0, 3.0, 1.5, 0.0, 0.0, 0.0, 0.0, 0.0, 0.0]
    case Vocal => [-2.0, -1.0, 0.0, 1.5, 3.0, 3.0, 2.0, 1.0, 0.0, -1.0]
    case TrebleBoost => [0.0, 0.0, 0.0, 0.0, 0.0, 0.5, 1.5, 3.0, 4.0, 5.0]
  }

  function Transition(state: State, isTransition: bool, notice: Notice): State {
    if isTransition then state.(profile := Processed, notice := Some(notice)) else state.(notice := None)
  }

  function WithProfile(state: State, profile: Profile): State {
    var changed := state.(profile := profile, notice := None);
    if profile == Direct
    then changed.(volume := 1.0, replayGain := Off, effective := EffectiveOff, equalizer := FLAT)
    else changed
  }

  function WithVolume(state: State, volume: real): State {
    Transition(state.(volume := volume), state.profile == Direct && volume != 1.0,
               VolumeNotice)
  }

  function WithReplayGain(state: State, mode: ReplayGain): State {
    if mode == Off then state.(replayGain := Off, effective := EffectiveOff, notice := None) else
    Transition(state.(replayGain := mode, effective := Unknown, preference := Some(mode)), state.profile == Direct,
               ReplayGainNotice)
  }

  function WithPreset(state: State, preset: Preset): State {
    Transition(state.(equalizer := Equalizer(preset != Flat, preset, PresetGains(preset))),
               state.profile == Direct && preset != Flat, EqualizerNotice)
  }

  function WithGain(state: State, band: nat, gain: real): State
    requires band < |state.equalizer.gains|
  {
    Transition(state.(equalizer := Equalizer(true, Custom, state.equalizer.gains[band := gain])),
               state.profile == Direct, EqualizerNotice)
  }

  /** Direct touches nothing, and a disabled equalizer is the flat one. */
  predicate Sound(profile: Profile, volume: real, replayGain: ReplayGain, equalizer: Equalizer) {
    && 0.0 <= volume <= 1.0
    && (profile == Direct ==> volume == 1.0 && replayGain == Off && !equalizer.isEnabled)
    && |equalizer.gains| == BANDS
    && (equalizer.isEnabled <==> equalizer.preset != Flat)
    && (forall i :: 0 <= i < BANDS ==> InRange(equalizer.gains[i], if equalizer.isEnabled then 12.0 else 0.0))
  }

  predicate InRange(gain: real, limit: real) {
    -limit <= gain <= limit
  }

  /** The equalizer is off exactly when it is flat, and then it changes nothing. */
  lemma FlatEqualizer(state: State)
    requires SoundState(state)
    ensures !state.equalizer.isEnabled <==> state.equalizer == FLAT
    ensures forall i :: 0 <= i < BANDS ==> -12.0 <= state.equalizer.gains[i] <= 12.0
  {
    assert forall i :: 0 <= i < BANDS ==>
        InRange(state.equalizer.gains[i], if state.equalizer.isEnabled then 12.0 else 0.0);
    if !state.equalizer.isEnabled {
      assert state.equalizer.gains == ZEROS;
    }
  }

  predicate SoundState(state: State) {
    Sound(state.profile, state.volume, state.replayGain, state.equalizer)
  }

  predicate SoundSettings(settings: Settings) {
    && Sound(settings.profile, settings.volume, settings.replayGain, settings.equalizer)
    && (forall key :: key in settings.volumes ==> 0.0 <= settings.volumes[key] <= 1.0)
  }

  /** A single changed band keeps every gain in range, and leaves Direct if it was on. */
  lemma GainKeepsSound(state: State, band: nat, gain: real)
    requires SoundState(state) && band < BANDS && -12.0 <= gain <= 12.0
    ensures SoundState(WithGain(state, band, gain))
  {
  }

  function Loaded(settings: Settings): State {
    State(settings.profile, settings.volume, settings.replayGain,
          if settings.replayGain == Off then EffectiveOff else Unknown,
          settings.preference, settings.equalizer, [], None)
  }

  function SettingsOf(state: State, outputMode: OutputMode, device: Option<string>,
          volumes: map<RouteKey, real>): Settings {
    Settings(outputMode, device, volumes, state.profile, state.volume, state.replayGain, state.preference,
        state.equalizer)
  }

  const DEFAULT_SETTINGS := SettingsOf(DEFAULT, System, None, map[])

  function VolumeKey(outputMode: OutputMode, device: Option<string>): RouteKey {
    if outputMode == DirectAlsa && device.Some? then AlsaRoute(device.value) else SystemRoute
  }

  /** The settings file. Saving writes a temporary file and renames it over this one. */
  class Storage {
    var saved: Option<Settings>
    ghost var disturbances: nat

    constructor ()
      ensures saved == None
    {
      saved := None;
    }

    method Save(settings: Settings) returns (r: Outcome<()>)
      modifies this
      ensures saved == if r.Ok? then Some(settings) else old(saved)
      ensures disturbances == old(disturbances) + if r.Ok? then 0 else 1
    {
      var dice: int := *;
      r := if dice == 0 then Err else if dice == 1 then Killed else Ok(());
      if r.Ok? {
        saved := Some(settings);
      } else {
        disturbances := disturbances + 1;
      }
    }
  }

  datatype Snapshot = Snapshot(state: State, volumes: map<RouteKey, real>)

  class Controller {
    const storage: Storage
    var outputMode: OutputMode
    var device: Option<string>
    var volumes: map<RouteKey, real>
    var state: State

    function Settings(): Settings
      reads this
    {
      SettingsOf(state, outputMode, device, volumes)
    }

    /** What a restart would open is what is in memory. */
    ghost predicate Persisted()
      reads this, storage
    {
      Settings() == match storage.saved case Some(settings) => settings case None => DEFAULT_SETTINGS
    }

    ghost predicate Valid()
      reads this, storage
    {
      && SoundSettings(Settings())
      && (storage.saved.Some? ==> SoundSettings(storage.saved.value))
    }

    constructor Open(storage: Storage)
      ensures Persisted() && this.storage == storage
      ensures state == match storage.saved case Some(settings) => Loaded(settings) case None => DEFAULT
    {
      var settings := match storage.saved case Some(settings) => settings case None => DEFAULT_SETTINGS;
      this.storage := storage;
      outputMode, device, volumes := settings.outputMode, settings.device, settings.volumes;
      state := Loaded(settings);
    }

    /** What a new process finds: only what was saved. */
    method Reopen()
      modifies this
      ensures Persisted() && state == Loaded(Settings())
      ensures old(Persisted()) ==> Settings() == old(Settings()) && state.volume == old(state.volume)
      ensures state.volume == if storage.saved.Some? then storage.saved.value.volume else 1.0
    {
      var settings := match storage.saved case Some(settings) => settings case None => DEFAULT_SETTINGS;
      outputMode, device, volumes := settings.outputMode, settings.device, settings.volumes;
      state := Loaded(settings);
    }

    method Commit(candidate: State) returns (r: Outcome<()>)
      modifies this`state, storage
      ensures state == if r.Ok? then candidate else old(state)
      ensures storage.saved == if r.Ok? then Some(Settings()) else old(storage.saved)
      ensures storage.disturbances == old(storage.disturbances) + if r.Ok? then 0 else 1
    {
      var _ :- storage.Save(SettingsOf(candidate, outputMode, device, volumes));
      state := candidate;
      r := Ok(());
    }

    /** The volume last used on the active route. */
    function Remembered(): Option<real>
      reads this
    {
      var key := VolumeKey(outputMode, device);
      if key in volumes then Some(volumes[key]) else None
    }

    method SetOutputMode(mode: OutputMode) returns (r: Outcome<()>)
      modifies this`outputMode, storage
      ensures storage.saved == if r.Ok? then Some(Settings()) else old(storage.saved)
      ensures storage.disturbances == old(storage.disturbances) + if r.Ok? then 0 else 1
      ensures outputMode == if r.Ok? then mode else old(outputMode)
    {
      var _ :- storage.Save(SettingsOf(state, mode, device, volumes));
      outputMode := mode;
      r := Ok(());
    }

    method SelectOutputDevice(id: string) returns (r: Outcome<()>)
      modifies this`device, storage
      ensures storage.saved == if r.Ok? then Some(Settings()) else old(storage.saved)
      ensures storage.disturbances == old(storage.disturbances) + if r.Ok? then 0 else 1
      ensures device == if r.Ok? then Some(id) else old(device)
    {
      var _ :- storage.Save(SettingsOf(state, outputMode, Some(id), volumes));
      device := Some(id);
      r := Ok(());
    }

    method SelectDirectAlsaOutput(id: string) returns (r: Outcome<()>)
      modifies this`outputMode, this`device, storage
      ensures storage.saved == if r.Ok? then Some(Settings()) else old(storage.saved)
      ensures storage.disturbances == old(storage.disturbances) + if r.Ok? then 0 else 1
      ensures (outputMode, device) == if r.Ok? then (DirectAlsa, Some(id)) else (old(outputMode), old(device))
    {
      var _ :- storage.Save(SettingsOf(state, DirectAlsa, Some(id), volumes));
      outputMode, device := DirectAlsa, Some(id);
      r := Ok(());
    }

    method SetProfile(profile: Profile) returns (r: Outcome<()>)
      modifies this`state, storage
      ensures storage.saved == if r.Ok? then Some(Settings()) else old(storage.saved)
      ensures storage.disturbances == old(storage.disturbances) + if r.Ok? then 0 else 1
      ensures state == if r.Ok? then WithProfile(old(state), profile) else old(state)
    {
      r := Commit(WithProfile(state, profile));
    }

    /** The route's remembered volume changes with it, and only if it is saved. */
    method SetSoftwareVolume(value: Float) returns (r: Outcome<()>)
      modifies this`state, this`volumes, storage
      ensures storage.saved == if r.Ok? then Some(Settings()) else old(storage.saved)
      ensures storage.disturbances == old(storage.disturbances) + if r.Ok? then 0 else 1
      ensures r.Ok? ==> state == WithVolume(old(state), Clamp(value, 0.0, 1.0))
                        && volumes == old(volumes)[VolumeKey(outputMode, device) := Clamp(value, 0.0, 1.0)]
      ensures !r.Ok? ==> state == old(state) && volumes == old(volumes)
    {
      var volume := Clamp(value, 0.0, 1.0);
      var key := VolumeKey(outputMode, device);
      var previous := if key in volumes then Some(volumes[key]) else None;
      volumes := volumes[key := volume];
      r := Commit(WithVolume(state, volume));
      if !r.Ok? {
        match previous
        case Some(before) => volumes := volumes[key := before];
        case None => volumes := volumes - {key};
        assert volumes == old(volumes);
      }
    }

    method EnableReplayGain(mode: ReplayGain) returns (r: Outcome<()>)
      modifies this`state, storage
      ensures storage.saved == if r.Ok? then Some(Settings()) else old(storage.saved)
      ensures storage.disturbances == old(storage.disturbances) + if r.Ok? then 0 else 1
      ensures state == if r.Ok? then WithReplayGain(old(state), mode) else old(state)
    {
      r := Commit(WithReplayGain(state, mode));
    }

    method ApplyEqualizerPreset(preset: Preset) returns (r: Outcome<()>)
      modifies this`state, storage
      ensures storage.saved == if r.Ok? then Some(Settings()) else old(storage.saved)
      ensures storage.disturbances == old(storage.disturbances) + if r.Ok? then 0 else 1
      ensures state == if r.Ok? then WithPreset(old(state), preset) else old(state)
    {
      r := Commit(WithPreset(state, preset));
    }

    method SetEqualizerGain(band: nat, value: Float) returns (r: Outcome<()>)
      modifies this`state, storage
      ensures storage.saved == if r.Ok? then Some(Settings()) else old(storage.saved)
      ensures r.Ok? ==>
                band < |old(state).equalizer.gains| && state == WithGain(old(state), band, Clamp(value, -12.0, 12.0))
      ensures !r.Ok? ==> state == old(state)
    {
      if band >= |state.equalizer.gains| {
        return Err;
      }
      r := Commit(WithGain(state, band, Clamp(value, -12.0, 12.0)));
    }

    /** Takes the state playback reports back. */
    method Restore(reported: State) returns (r: Outcome<()>)
      modifies this`state, storage
      ensures storage.saved == if r.Ok? then Some(Settings()) else old(storage.saved)
      ensures storage.disturbances == old(storage.disturbances) + if r.Ok? then 0 else 1
      ensures state == if r.Ok? then reported else old(state)
    {
      r := Commit(reported);
    }

    function Snap(): Snapshot
      reads this
    {
      Snapshot(state, volumes)
    }

    /** The one operation that assigns before it saves: a failed save leaves memory ahead. */
    method RestoreSnapshot(snapshot: Snapshot) returns (r: Outcome<()>)
      modifies this`state, this`volumes, storage
      ensures Snap() == snapshot
      ensures storage.saved == if r.Ok? then Some(Settings()) else old(storage.saved)
      ensures storage.disturbances == old(storage.disturbances) + if r.Ok? then 0 else 1
    {
      state, volumes := snapshot.state, snapshot.volumes;
      r := storage.Save(Settings());
    }
  }

  datatype Change =
    | Profiled(profile: Profile)
    | Volumed(value: Float)
    | Gained(mode: ReplayGain)
    | Preset(preset: Preset)
    | Banded(band: nat, value: Float)
    | Reported(state: State)
    | Moded(outputMode: OutputMode)
    | Device(id: string)
    | Alsa(id: string)
    | Reopened

  function Made(state: State, change: Change): State {
    match change
    case Profiled(profile) => WithProfile(state, profile)
    case Volumed(value) => WithVolume(state, Clamp(value, 0.0, 1.0))
    case Gained(mode) => WithReplayGain(state, mode)
    case Preset(preset) => WithPreset(state, preset)
    case Banded(band, value) => if band < |state.equalizer.gains| then WithGain(state, band, Clamp(value, -12.0, 12.0))
        else state
    case Reported(reported) => reported
    case _ => state
  }

  lemma PresetKeepsSound(state: State, preset: Preset)
    requires SoundState(state)
    ensures SoundState(WithPreset(state, preset))
  {
  }

  lemma OthersKeepSound(state: State, profile: Profile, mode: ReplayGain, volume: real)
    requires SoundState(state) && 0.0 <= volume <= 1.0
    ensures SoundState(WithProfile(state, profile))
    ensures SoundState(WithReplayGain(state, mode))
    ensures SoundState(WithVolume(state, volume))
  {
  }

  lemma ChangesKeepSound(state: State, change: Change)
    requires SoundState(state) && (change.Reported? ==> SoundState(change.state))
    ensures SoundState(Made(state, change))
  {
    match change
    case Banded(band, value) =>
      if band < BANDS {
        GainKeepsSound(state, band, Clamp(value, -12.0, 12.0));
      }
    case Preset(preset) => PresetKeepsSound(state, preset);
    case Gained(mode) => OthersKeepSound(state, Direct, mode, 1.0);
    case Profiled(profile) => OthersKeepSound(state, profile, Off, 1.0);
    case Volumed(value) => OthersKeepSound(state, Direct, Off, Clamp(value, 0.0, 1.0));
    case _ =>
  }

  /**
   A change of volume, ReplayGain or equalizer leaves Direct exactly when something
   is processed from then on, never returns to it, and says so only then.
   */
  lemma LeavingDirectIsNoticed(state: State, change: Change)
    requires SoundState(state)
               && (change.Volumed? || change.Gained? || change.Preset? || (change.Banded? && change.band < BANDS))
    ensures var next := Made(state, change);
            && (next.profile == Direct <==>
                  && state.profile == Direct
                  && next.volume == 1.0 && next.replayGain == Off && !next.equalizer.isEnabled)
            && (next.notice.Some? <==> next.profile != state.profile)
  {
    hide PresetGains, InRange;
  }

  /** A change of volume or of one band sets what was asked for, and nothing else. */
  lemma OneValueChanges(state: State, value: Float, band: nat)
    requires band < |state.equalizer.gains|
    ensures var next := Made(state, Volumed(value));
            && next.volume == Clamp(value, 0.0, 1.0) && next.equalizer == state.equalizer
            && next.replayGain == state.replayGain && next.preference == state.preference
            && next.notice in {None, Some(VolumeNotice)}
    ensures var next := Made(state, Banded(band, value));
            && next.volume == state.volume && next.replayGain == state.replayGain
            && next.preference == state.preference && next.notice in {None, Some(EqualizerNotice)}
            && next.equalizer.isEnabled && next.equalizer.preset == Custom
            && |next.equalizer.gains| == |state.equalizer.gains|
            && next.equalizer.gains[band] == Clamp(value, -12.0, 12.0)
            && forall i :: 0 <= i < |state.equalizer.gains| && i != band ==>
                 next.equalizer.gains[i] == state.equalizer.gains[i]
  {
  }

  /** So does a ReplayGain mode, which is preferred from then on unless it is Off, a preset and a profile. */
  lemma OneChoiceChanges(state: State, mode: ReplayGain, preset: Preset)
    ensures var next := Made(state, Gained(mode));
            && next.replayGain == mode && next.volume == state.volume && next.equalizer == state.equalizer
            && next.preference == (if mode == Off then state.preference else Some(mode))
            && next.notice in {None, Some(ReplayGainNotice)}
            && (mode == Off ==> next.effective == EffectiveOff)
    ensures var next := Made(state, Preset(preset));
            && next.equalizer.preset == preset && next.equalizer.gains == PresetGains(preset)
            && (next.equalizer.isEnabled <==> preset != Flat)
            && next.volume == state.volume && next.replayGain == state.replayGain
            && next.preference == state.preference && next.notice in {None, Some(EqualizerNotice)}
    ensures Made(state, Profiled(Processed)) == state.(profile := Processed, notice := None)
    ensures var next := Made(state, Profiled(Direct));
            && next.profile == Direct && next.volume == 1.0 && next.replayGain == Off
            && next.effective == EffectiveOff && next.equalizer == FLAT
            && next.preference == state.preference && next.notice == None
  {
  }

  /** Every ALSA device has a remembered volume of its own, and all other routes share one. */
  lemma VolumeOfRoute(mode: OutputMode, device: Option<string>, other: OutputMode, otherDevice: Option<string>)
    ensures var isAlsa, isOtherAlsa := mode == DirectAlsa && device.Some?, other == DirectAlsa && otherDevice.Some?;
            VolumeKey(mode, device) == VolumeKey(other, otherDevice)
            <==> isAlsa == isOtherAlsa && (isAlsa ==> device == otherDevice)
  {
  }

  /** A volume set on one ALSA device is still remembered after another was set on a second one. */
  method TwoDevices(controller: Controller, one: string, other: string, value: Float, otherValue: Float)
    returns (r: Outcome<()>)
    requires one != other
    modifies controller, controller.storage
    ensures r.Ok? ==>
              controller.Remembered() == Some(Clamp(value, 0.0, 1.0))
              && controller.state.volume == Clamp(otherValue, 0.0, 1.0)
  {
    var _ :- controller.SelectDirectAlsaOutput(one);
    var _ :- controller.SetSoftwareVolume(value);
    var _ :- controller.SelectDirectAlsaOutput(other);
    var _ :- controller.SetSoftwareVolume(otherValue);
    r := controller.SelectDirectAlsaOutput(one);
  }

  /** One change: it is made and saved, or nothing has changed anywhere. */
  method Make(controller: Controller, change: Change) returns (r: Outcome<()>)
    modifies controller, controller.storage
    ensures controller.state == if r.Ok? then Made(old(controller.state), change) else old(controller.state)
    ensures r.Ok? && !change.Reopened? ==> controller.storage.saved == Some(controller.Settings())
    ensures !r.Ok? || change.Reopened? ==>
              controller.Settings() == old(controller.Settings())
              && controller.storage.saved == old(controller.storage.saved)
    ensures forall key :: key in controller.volumes ==>
              0.0 <= controller.volumes[key] <= 1.0
              || (key in old(controller.volumes) && controller.volumes[key] == old(controller.volumes)[key])
  {
    r := Ok(());
    match change
    case Profiled(profile) => r := controller.SetProfile(profile);
    case Volumed(value) => r := controller.SetSoftwareVolume(value);
    case Gained(mode) => r := controller.EnableReplayGain(mode);
    case Preset(preset) => r := controller.ApplyEqualizerPreset(preset);
    case Banded(band, value) => r := controller.SetEqualizerGain(band, value);
    case Reported(reported) => r := controller.Restore(reported);
    case Moded(outputMode) => r := controller.SetOutputMode(outputMode);
    case Device(id) => r := controller.SelectOutputDevice(id);
    case Alsa(id) => r := controller.SelectDirectAlsaOutput(id);
    case Reopened =>
  }

  /**
   From the defaults, any sequence of changes and restarts, with any save failing
   and the process killed at any save, leaves the profile sound and the file
   holding exactly what is in memory, as long as what playback reports is sound.
   */
  method Run(changes: seq<Change>) returns (controller: Controller)
    requires forall i :: 0 <= i < |changes| && changes[i].Reported? ==> SoundState(changes[i].state)
    ensures controller.Valid() && controller.Persisted()
  {
    var storage := new Storage();
    controller := new Controller.Open(storage);
    for i := 0 to |changes|
      invariant fresh(controller) && fresh(controller.storage) && controller.storage == storage
      invariant controller.Valid() && controller.Persisted()
    {
      ChangesKeepSound(controller.state, changes[i]);
      var r := Make(controller, changes[i]);
      if r.Killed? || changes[i].Reopened? {
        controller := new Controller.Open(storage);
      }
    }
  }
}
