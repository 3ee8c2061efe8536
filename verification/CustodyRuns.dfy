/**
 What the custody of endpoint formats promises over whole runs of the client,
 with kills, restarts, absent endpoints and failing calls.
 */
module CustodyRuns {
  import opened Outcomes
  import opened WaveFormats
  import opened SavedFormats
  import opened Custody

  lemma {:induction false} AbsentAreNotPresent(entries: seq<Original>, present: set<Id>, n: nat)
    requires n <= |entries|
    ensures forall entry :: entry in Marked(entries, Away(entries, present), n) ==> entry.id !in present
  {
    if n > 0 {
      AbsentAreNotPresent(entries, present, n - 1);
    }
  }

  lemma WaitingEntriesAreAtRest(machine: Machine, start: seq<Original>, last: Original)
    requires machine.Now() == Absent(Others(start, last.id), machine.present) + [last]
    ensures machine.AtRestExcept(last.id)
  {
    var waiting := Absent(Others(start, last.id), machine.present);
    AbsentAreNotPresent(Others(start, last.id), machine.present, |Others(start, last.id)|);
    OthersAndOwn(machine.Now(), last.id);
    var others := Others(machine.Now(), last.id);
    forall i | 0 <= i < |others|
      ensures others[i].id !in machine.present
    {
      assert others[i] in others;
      assert others[i] in waiting;
    }
  }

  /**
   Forcing is idempotent: an undisturbed force leaves a state from which the same
   force writes no format, and is in that state again afterwards.
   */
  method ForceAgain(adapter: RateAdapter, change: Formats -> Formats) returns (r: Outcome<()>)
    requires adapter.machine.Kept() && adapter.machine.defaultOutput in adapter.machine.original
    modifies adapter.machine`live, adapter.machine`file
    modifies adapter.machine`disturbances, adapter.machine`writes, adapter.machine`unreadable
    ensures adapter.machine.Kept()
    ensures adapter.machine.disturbances == old(adapter.machine.disturbances) ==>
              r.Ok? && adapter.machine.Forced(change)
    ensures adapter.machine.disturbances == old(adapter.machine.disturbances) && old(adapter.machine.Forced(change)) ==>
              adapter.machine.writes == old(adapter.machine.writes)
  {
    hide Guarded, Absent, Others;
    ghost var start, undisturbed := adapter.machine.Now(), adapter.machine.disturbances;
    ghost var forced;
    r, forced := adapter.Force(change);
    if adapter.machine.disturbances == undisturbed {
      WaitingEntriesAreAtRest(adapter.machine, start, Original(forced, adapter.machine.original[forced]));
    }
  }

  /**
   A restore whose calls all answer gives everything back: with every saved
   endpoint present, no endpoint is left away from its original formats and no
   entry is left in the file.
   */
  method RestoreEverything(adapter: RateAdapter) returns (r: Outcome<()>)
    requires adapter.machine.Kept() && Ids(adapter.machine.Now()) <= adapter.machine.present
    modifies adapter.machine`live, adapter.machine`file
    modifies adapter.machine`disturbances, adapter.machine`writes, adapter.machine`unreadable
    ensures adapter.machine.disturbances == old(adapter.machine.disturbances) ==>
              r.Ok? && adapter.machine.live == adapter.machine.original && adapter.machine.file == None
  {
    ghost var start, undisturbed := adapter.machine.Now(), adapter.machine.disturbances;
    var aside;
    r, aside := adapter.RestoreSaved();
    if adapter.machine.disturbances == undisturbed {
      NothingLeft(start, adapter.machine.present);
      GivingUpTheFile(adapter.machine.original, adapter.machine.live, []);
    }
  }

  lemma NothingLeft(entries: seq<Original>, present: set<Id>)
    requires Ids(entries) <= present
    ensures Absent(entries, present) == []
  {
    var absent := Absent(entries, present);
    assert absent != [] ==> absent[0] in absent;
    AbsentAreNotPresent(entries, present, |entries|);
    assert forall entry :: entry in entries ==> entry.id in Ids(entries);
  }

  /** One event of a run: a call of the client, a restart, or the world's own doing. */
  datatype Event =
    | SetRate(rate: nat)
    | ClearRate
    | Start
    | Plugged(present: set<Id>)
    | DefaultMoved(id: Id)
    | FormatsSet(id: Id, formats: Formats)

  /**
   What each endpoint had, has now, and what the file holds, at one moment of a run;
   which endpoints there are, and how many calls have failed or answered falsely.
   */
  datatype Moment = Moment(original: map<Id, Formats>, live: map<Id, Formats>, entries: seq<Original>, present: set<Id>,
                           defaultOutput: Id, calls: nat)

  ghost function MomentOf(machine: Machine): Moment
    reads machine
  {
    Moment(machine.original, machine.live, machine.Now(), machine.present, machine.defaultOutput, machine.disturbances)
  }

  ghost predicate InCustody(moment: Moment) {
    Guarded(moment.original, moment.live, moment.entries)
  }

  lemma InCustodyWhenKept(machine: Machine)
    requires machine.Kept()
    ensures InCustody(MomentOf(machine))
  {
  }

  /**
   Only the user changes what an endpoint's original is, and only of one without an
   entry. The world's own events leave the file alone. When every call answers, a
   forced rate is what the default endpoint plays, if it can; clearing it, or a start,
   puts every endpoint back that is there, and keeps the entries of the others.
   */
  ghost predicate Follows(supported: iset<(Id, WaveFormat)>, before: Moment, event: Event, after: Moment) {
    match event
    case SetRate(rate) =>
      && SameEndpoints(before, after)
      && (rate < UINT32 && after.calls == before.calls ==> IsForced(supported, after, rate))
    case FormatsSet(id, formats) =>
      after == if id in before.live && !Holds(before.entries, id)
      then before.(original := before.original[id := formats], live := before.live[id := formats]) else before
    case Plugged(present) => after == before.(present := present)
    case DefaultMoved(id) => after == if id in before.live then before.(defaultOutput := id) else before
    case _ =>
      && SameEndpoints(before, after)
      && (after.calls == before.calls ==>
            after.entries == Absent(before.entries, after.present)
            && PutBack(before.entries, after.present, before.live, after.live))
  }

  predicate SameEndpoints(before: Moment, after: Moment) {
    && after.original == before.original && after.live.Keys == before.live.Keys
    && after.present == before.present && after.defaultOutput == before.defaultOutput && after.calls >= before.calls
  }

  /** The default endpoint plays both its original formats at the rate if it can, and has its originals if not. */
  ghost predicate IsForced(supported: iset<(Id, WaveFormat)>, moment: Moment, rate: nat)
    requires rate < UINT32
  {
    var id := moment.defaultOutput;
    && id in moment.live && id in moment.original && moment.original[id].Whole()
    && var original, now := moment.original[id], moment.live[id];
       if (id, original.device.WithSampleRate(rate)) in supported
       then PlaysAt(now.device, original.device, rate) && PlaysAt(now.mix, original.mix, rate)
       else now == original
  }

  lemma SettingKeepsGuard(original: map<Id, Formats>, live: map<Id, Formats>, entries: seq<Original>, id: Id,
          formats: Formats)
    requires Guarded(original, live, entries) && id in live && !Holds(entries, id)
    ensures Guarded(original[id := formats], live[id := formats], entries)
  {
  }

  /** What a forced rate makes of a format: the rate, the byte rate, and the rest as it was. */
  predicate PlaysAt(now: WaveFormat, original: WaveFormat, rate: nat) {
    && now.Whole() && original.Whole() && now.SampleRate() == rate
    && now.ByteRate() == rate * original.BlockAlign() % UINT32 && OnlyRateDiffers(now, original)
  }

  /**
   Forcing a rate undisturbed: the default endpoint plays both its formats at the
   rate, each from its own original, where the hardware can play the first, and has
   its originals otherwise.
   */
  method ForceRate(adapter: RateAdapter, rate: nat) returns (r: Outcome<()>, ghost forced: Id)
    requires adapter.machine.Kept() && rate < UINT32
    modifies adapter.machine`live, adapter.machine`file
    modifies adapter.machine`disturbances, adapter.machine`writes, adapter.machine`unreadable
    ensures adapter.machine.Kept() && adapter.machine.disturbances >= old(adapter.machine.disturbances)
    ensures adapter.machine.unreadable >= old(adapter.machine.unreadable)
    ensures forced == adapter.machine.defaultOutput && forced in adapter.machine.live
              && forced in adapter.machine.original
    ensures adapter.machine.disturbances == old(adapter.machine.disturbances) ==>
              var original, now := adapter.machine.original[forced], adapter.machine.live[forced];
              && r.Ok? && original.Whole()
              && if (forced, original.device.WithSampleRate(rate)) in adapter.machine.supported
                 then PlaysAt(now.device, original.device, rate) && PlaysAt(now.mix, original.mix, rate)
                 else now == original
  {
    hide Guarded, Absent, Others;
    r, forced := adapter.Force(AtRate(rate));
    if adapter.machine.disturbances == old(adapter.machine.disturbances) {
      ForcedRateKeepsRest(adapter.machine.original[forced], rate);
    }
  }

  /** One event: custody is kept, or was given up with a file that could not be read. */
  method Step(adapter: RateAdapter, event: Event) returns (gaveUp: bool)
    requires adapter.machine.Kept()
    modifies adapter.machine
    ensures adapter.machine.disturbances >= old(adapter.machine.disturbances)
    ensures adapter.machine.unreadable >= old(adapter.machine.unreadable)
    ensures adapter.machine.disturbances == old(adapter.machine.disturbances) ==> !gaveUp
    ensures adapter.machine.unreadable == old(adapter.machine.unreadable) ==> !gaveUp
    ensures adapter.machine.Kept() <==> !gaveUp
    ensures gaveUp ==> adapter.machine.Now() == [] && adapter.machine.live != adapter.machine.original
    ensures Follows(adapter.machine.supported, old(MomentOf(adapter.machine)), event, MomentOf(adapter.machine))
  {
    hide Guarded, Holds, Absent, PutBack, Others;
    var machine := adapter.machine;
    gaveUp := false;
    SoundEntries(machine.original, machine.live, machine.Now());
    match event
    case SetRate(rate) =>
      if rate < UINT32 {
        var r, forced := ForceRate(adapter, rate);
        SoundEntries(machine.original, machine.live, machine.Now());
      }
    case Plugged(present) =>
      machine.present := present;
    case DefaultMoved(id) =>
      if id in machine.live {
        machine.defaultOutput := id;
      }
    case FormatsSet(id, formats) =>
      if id in machine.live && !Holds(Entries(machine.file), id) {
        SettingKeepsGuard(machine.original, machine.live, machine.Now(), id, formats);
        machine.live := machine.live[id := formats];
        machine.original := machine.original[id := formats];
      }
    case _ =>
      // Clearing the rate and starting the client both restore what is saved.
      var r, aside := adapter.RestoreSaved();
      gaveUp := aside && machine.live != machine.original;
      if !gaveUp {
        SoundEntries(machine.original, machine.live, machine.Now());
      }
  }

  /**
   Every run keeps custody at each moment, which `told` lists: whatever the client is
   asked, whatever fails, wherever it is killed (the next event then finds the machine
   as the kill left it), and whatever endpoints come, go or become the default. The
   user may change an endpoint the client holds no entry for, which makes that its
   original; nothing else changes what an endpoint's original is. The one way out,
   where the run stops, is a saved file that could not be read while an endpoint was
   away from its original.
   */
  method Run(adapter: RateAdapter, events: seq<Event>) returns (gaveUp: bool, ghost told: seq<Moment>)
    requires adapter.machine.Kept()
    modifies adapter.machine
    ensures adapter.machine.unreadable == old(adapter.machine.unreadable) ==> adapter.machine.Kept()
    ensures adapter.machine.disturbances == old(adapter.machine.disturbances) ==> !gaveUp
    ensures adapter.machine.Kept() <==> !gaveUp
    ensures gaveUp ==> adapter.machine.Now() == [] && adapter.machine.live != adapter.machine.original
    ensures 0 < |told| <= |events| + 1 && (!gaveUp ==> |told| == |events| + 1)
    ensures told[0] == old(MomentOf(adapter.machine)) && told[|told| - 1] == MomentOf(adapter.machine)
    ensures forall i :: 0 <= i < |told| - 1 ==>
              InCustody(told[i]) && Follows(adapter.machine.supported, told[i], events[i], told[i + 1])
  {
    hide Guarded, Follows, MomentOf, InCustody, Machine.Now;
    var machine := adapter.machine;
    gaveUp, told := false, [MomentOf(machine)];
    for i := 0 to |events|
      invariant machine.Kept() && !gaveUp
      invariant machine.disturbances >= old(machine.disturbances) && machine.unreadable >= old(machine.unreadable)
      invariant |told| == i + 1 && told[0] == old(MomentOf(machine)) && told[i] == MomentOf(machine)
      invariant forall j :: 0 <= j < i ==>
                  InCustody(told[j]) && Follows(machine.supported, told[j], events[j], told[j + 1])
    {
      InCustodyWhenKept(machine);
      gaveUp := Step(adapter, events[i]);
      told := told + [MomentOf(machine)];
      if gaveUp {
        return;
      }
    }
  }
}
