/**
 Adaptive System Rate on Windows: the client changes the formats of endpoints it
 does not own and keeps what they were in a file
 (desktop/core/src/policy_config.rs).
 */
module Custody {
  import opened Outcomes
  import opened WaveFormats
  import opened SavedFormats

  predicate Distinct(entries: seq<Original>) {
    forall i, j :: 0 <= i < j < |entries| ==> entries[i].id != entries[j].id
  }

  ghost function Ids(entries: seq<Original>): set<Id> {
    set entry | entry in entries :: entry.id
  }

  predicate Holds(entries: seq<Original>, id: Id) {
    exists entry :: entry in entries && entry.id == id
  }

  /**
   Nothing the client took can be lost: the entries name each endpoint at most
   once and hold what that endpoint had, and every endpoint that does not have
   its original formats is named there.
   */
  predicate Guarded(original: map<Id, Formats>, live: map<Id, Formats>, entries: seq<Original>) {
    && original.Keys == live.Keys
    && Distinct(entries)
    && (forall entry :: entry in entries ==>
          entry.id in original && entry.formats == original[entry.id] && entry.formats.Whole())
    && (forall id :: id in live ==> live[id] == original[id] || Holds(entries, id))
  }

  lemma SoundEntries(original: map<Id, Formats>, live: map<Id, Formats>, entries: seq<Original>)
    requires Guarded(original, live, entries)
    ensures original.Keys == live.Keys && Distinct(entries)
  {
  }

  /** The originals the file holds; no file holds none. */
  function Entries(file: Option<seq<Original>>): seq<Original> {
    match file
    case None => []
    case Some(entries) => entries
  }

  /**
   Giving up the file, as the client does with one it cannot read, keeps custody
   exactly when no endpoint was away from its original formats.
   */
  lemma GivingUpTheFile(original: map<Id, Formats>, live: map<Id, Formats>, entries: seq<Original>)
    requires Guarded(original, live, entries)
    ensures Guarded(original, live, []) <==> live == original
  {
    if Guarded(original, live, []) {
      forall id | id in live
        ensures live[id] == original[id]
      {
        assert !Holds([], id);
      }
    }
  }

  /** The first `n` entries that are marked, in order. */
  function Marked(entries: seq<Original>, marks: seq<bool>, n: nat): (marked: seq<Original>)
    requires n <= |entries| && n <= |marks|
    ensures Among(marked, entries)
  {
    if n == 0 then [] else Marked(entries, marks, n - 1) + if marks[n - 1] then [entries[n - 1]] else []
  }

  lemma {:induction false} MarkedEntries(entries: seq<Original>, marks: seq<bool>, n: nat)
    requires n <= |entries| && n <= |marks| && Distinct(entries)
    ensures forall j :: 0 <= j < n && marks[j] ==> entries[j] in Marked(entries, marks, n)
    ensures forall entry :: entry in Marked(entries, marks, n) ==> exists j :: 0 <= j < n && entries[j] == entry
    ensures Distinct(Marked(entries, marks, n))
  {
    if n > 0 {
      MarkedEntries(entries, marks, n - 1);
      var front := Marked(entries, marks, n - 1);
      forall k | 0 <= k < |front|
        ensures front[k].id != entries[n - 1].id
      {
        assert front[k] in front;
      }
    }
  }

  lemma {:induction false} MarkedPrefix(entries: seq<Original>, marks: seq<bool>, more: seq<bool>, n: nat)
    requires n <= |entries| && n <= |marks| && marks <= more
    ensures Marked(entries, more, n) == Marked(entries, marks, n)
  {
    if n > 0 {
      MarkedPrefix(entries, marks, more, n - 1);
    }
  }

  function Away(entries: seq<Original>, present: set<Id>): (marks: seq<bool>)
    ensures |marks| == |entries|
  {
    seq(|entries|, i requires 0 <= i < |entries| => entries[i].id !in present)
  }

  /** The entries whose endpoints are not in `present`, in order. */
  function Absent(entries: seq<Original>, present: set<Id>): seq<Original> {
    Marked(entries, Away(entries, present), |entries|)
  }

  function Others(entries: seq<Original>, id: Id): seq<Original> {
    if entries == [] then [] else
    Others(entries[..|entries| - 1], id) + if entries[|entries| - 1].id == id then [] else [entries[|entries| - 1]]
  }

  function Own(entries: seq<Original>, id: Id): seq<Original> {
    if entries == [] then [] else
    Own(entries[..|entries| - 1], id) + if entries[|entries| - 1].id == id then [entries[|entries| - 1]] else []
  }

  lemma {:induction false} OthersAndOwn(entries: seq<Original>, id: Id)
    ensures forall entry :: entry in Others(entries, id) <==> entry in entries && entry.id != id
    ensures forall entry :: entry in Own(entries, id) <==> entry in entries && entry.id == id
    ensures Distinct(entries) ==> Distinct(Others(entries, id)) && |Own(entries, id)| <= 1
  {
    if entries != [] {
      var front, last := entries[..|entries| - 1], entries[|entries| - 1];
      assert entries == front + [last];
      OthersAndOwn(front, id);
      assert Own(front, id) != [] ==> Own(front, id)[0] in front;
    }
  }

  /** Restoring these entries has nothing to write. */
  ghost predicate Settled(entries: seq<Original>, present: set<Id>, live: map<Id, Formats>) {
    forall i :: 0 <= i < |entries| && entries[i].id in live && entries[i].id in present ==>
      live[entries[i].id] == entries[i].formats
  }

  /**
   The machine the client runs on. Each method is one call that may fail, or at
   which the process may be killed; `disturbances` counts those, so a promise
   about an undisturbed operation speaks of one whose every call answered as the
   machine stands.
   */
  class Machine {
    var live: map<Id, Formats>
    var file: Option<seq<Original>>
    var defaultOutput: Id
    var present: set<Id>
    var original: map<Id, Formats>
    ghost var disturbances: nat
    ghost var writes: nat
    /** How often the file could not be read. */
    ghost var unreadable: nat
    ghost const supported: iset<(Id, WaveFormat)>

    ghost predicate Kept()
      reads this
    {
      && Guarded(original, live, Now())
      && file != Some([])
      && defaultOutput in live
    }

    ghost function Now(): seq<Original>
      reads this
    {
      Entries(file)
    }

    /** What plays on the endpoint: its original where the hardware cannot play the change. */
    ghost function Playable(id: Id, change: Formats -> Formats): Formats
      requires id in original
      reads this
    {
      if (id, change(original[id]).device) in supported then change(original[id]) else original[id]
    }

    /** Every endpoint but `id` that a restore would reach is already as saved. */
    ghost predicate AtRestExcept(id: Id)
      reads this
    {
      Settled(Others(Now(), id), present, live)
    }

    /** The default endpoint plays `change`, and every other one is already as saved. */
    ghost predicate Forced(change: Formats -> Formats)
      requires defaultOutput in original
      reads this
    {
      && defaultOutput in live && live[defaultOutput] == Playable(defaultOutput, change)
      && AtRestExcept(defaultOutput)
    }

    constructor (endpoints: map<Id, Formats>, defaultOutput: Id)
      requires defaultOutput in endpoints
      ensures Kept() && live == original == endpoints && file == None && this.defaultOutput == defaultOutput
    {
      live, file, this.defaultOutput, present := endpoints, None, defaultOutput, {};
      original := endpoints;
    }

    /** Whether this step goes through. */
    method Fate() returns (r: Outcome<()>)
      modifies this`disturbances
      ensures r.Ok? <==> disturbances == old(disturbances)
      ensures !r.Ok? ==> disturbances == old(disturbances) + 1
    {
      var dice: int := *;
      r := if dice == 0 then Err else if dice == 1 then Killed else Ok(());
      disturbances := if r.Ok? then disturbances else disturbances + 1;
    }

    method DefaultEndpoint() returns (r: Outcome<Id>)
      requires defaultOutput in live
      modifies this`disturbances
      ensures r.Ok? <==> disturbances == old(disturbances)
      ensures disturbances >= old(disturbances)
      ensures r.Ok? ==> r.value == defaultOutput
    {
      var _ :- Fate();
      r := Ok(defaultOutput);
    }

    /** `false` also when the state cannot be read. */
    method IsActive(id: Id) returns (r: Outcome<bool>)
      modifies this`disturbances
      ensures !r.Err? && disturbances >= old(disturbances) && (r == Ok(true) ==> id in present)
      ensures disturbances == old(disturbances) ==> r == Ok(id in present)
    {
      var fate := Fate();
      r := match fate case Ok(_) => Ok(id in present) case Err => Ok(false) case Killed => Killed;
    }

    /** A format is read as its header and the extension the header announces. */
    method ReadFormats(id: Id) returns (r: Outcome<Formats>)
      requires id in live
      modifies this`disturbances
      ensures r.Ok? <==> disturbances == old(disturbances)
      ensures disturbances >= old(disturbances)
      ensures r.Ok? ==> r.value == live[id] && r.value.Whole()
    {
      var _ :- Fate();
      if live[id].Whole() {
        r := Ok(live[id]);
      } else {
        disturbances := disturbances + 1;
        r := Err;
      }
    }

    /** Windows may refuse, or accept and still keep or pick another format. */
    method WriteFormats(id: Id, formats: Formats) returns (r: Outcome<()>)
      requires id in live
      modifies this`live, this`disturbances, this`writes
      ensures id in live && live == old(live)[id := live[id]]
      ensures disturbances >= old(disturbances) && writes == old(writes) + 1
      ensures disturbances == old(disturbances) ==> r.Ok? && live[id] == formats
    {
      r := Fate();
      var obeyed: bool := *;
      var other: Formats := *;
      live := live[id := if obeyed then formats else other];
      disturbances := if obeyed then disturbances else disturbances + 1;
      writes := writes + 1;
    }

    method Supports(id: Id, format: WaveFormat) returns (r: Outcome<bool>)
      modifies this`disturbances
      ensures disturbances >= old(disturbances)
      ensures disturbances == old(disturbances) ==> r == Ok((id, format) in supported)
    {
      var _ :- Fate();
      var answer: bool := *;
      disturbances := if answer == ((id, format) in supported) then disturbances else disturbances + 1;
      r := Ok(answer);
    }

    /** Opening COM or mpv's audio: only its outcome matters here. */
    method Attempt() returns (r: Outcome<()>)
      modifies this`disturbances
      ensures r.Ok? <==> disturbances == old(disturbances)
      ensures disturbances >= old(disturbances)
    {
      r := Fate();
    }

    method Read() returns (r: Outcome<Option<seq<Original>>>)
      modifies this`disturbances, this`unreadable
      ensures r.Ok? <==> disturbances == old(disturbances)
      ensures disturbances >= old(disturbances)
      ensures unreadable == old(unreadable) + if r.Err? then 1 else 0
      ensures r.Ok? ==> r.value == file
    {
      var fate := Fate();
      unreadable := unreadable + if fate.Err? then 1 else 0;
      r := if fate.Ok? then Ok(file) else fate.PropagateFailure();
    }

    method Write(text: Option<seq<Original>>) returns (r: Outcome<()>)
      modifies this`file, this`disturbances
      ensures r.Ok? <==> disturbances == old(disturbances)
      ensures disturbances >= old(disturbances)
      ensures file == if r.Ok? then text else old(file)
    {
      var _ :- Fate();
      file := text;
      r := Ok(());
    }
  }

  /** Brings the endpoint to these formats. One that is there needs no write, and one written is read again. */
  method SetFormatsIfChanged(machine: Machine, id: Id, formats: Formats) returns (r: Outcome<()>)
    requires id in machine.live
    modifies machine`live, machine`disturbances, machine`writes
    ensures id in machine.live && machine.live == old(machine.live)[id := machine.live[id]]
    ensures machine.disturbances >= old(machine.disturbances)
    ensures old(machine.live[id]) == formats ==>
              machine.live == old(machine.live) && machine.writes == old(machine.writes)
    ensures r.Ok? ==> machine.live[id] == formats
    ensures machine.disturbances == old(machine.disturbances) ==> r.Ok?
  {
    var current :- machine.ReadFormats(id);
    if current == formats {
      return Ok(());
    }
    var closed := machine.Attempt();
    if closed.Killed? { return Killed; }
    r := machine.WriteFormats(id, formats);
    if r.Killed? { return Killed; }
    if r.Ok? {
      // Success alone does not say which format the endpoint has now.
      var kept := machine.ReadFormats(id);
      if kept.Killed? { return Killed; }
      r := if kept.Ok? && kept.value == formats then Ok(()) else Err;
    }
    if closed.Ok? {
      var reopened := machine.Attempt();
      if reopened.Killed? { return Killed; }
    }
  }

  predicate Among(some: seq<Original>, all: seq<Original>) {
    forall entry :: entry in some ==> entry in all
  }

  /** `these` and `those` are the entries, each one once. */
  predicate Splits(entries: seq<Original>, these: seq<Original>, those: seq<Original>) {
    && Distinct(these) && Distinct(those)
    && (forall one, that :: one in these && that in those ==> one.id != that.id)
    && Among(these, entries) && Among(those, entries)
    && (forall entry :: entry in entries ==> entry in these || entry in those)
  }

  lemma SplitParts(entries: seq<Original>, these: seq<Original>, those: seq<Original>)
    requires Splits(entries, these, those)
    ensures Distinct(these) && Among(these, entries) && Among(those, entries)
  {
  }

  lemma EntriesAreLive(original: map<Id, Formats>, live: map<Id, Formats>, entries: seq<Original>, some: seq<Original>)
    requires Guarded(original, live, entries) && Among(some, entries)
    ensures Ids(some) <= live.Keys
  {
  }

  /** Whatever a restore did to an endpoint, its entry is still there. */
  lemma TouchingSavedKeepsGuard(original: map<Id, Formats>, before: map<Id, Formats>, after: map<Id, Formats>,
                                entries: seq<Original>, some: seq<Original>, touched: set<Id>)
    requires Guarded(original, before, entries) && Among(some, entries)
    requires OnlyTouched(some, touched, before, after)
    ensures Guarded(original, after, entries)
  {
    forall id | id in after && after[id] != original[id]
      ensures Holds(entries, id)
    {
      if id in touched {
        var entry :| entry in some && entry.id == id;
        assert entry in entries;
      }
    }
  }

  /** Entries whose endpoints are back at their originals may leave the file. */
  lemma ReleasingKeepsGuard(original: map<Id, Formats>, live: map<Id, Formats>, entries: seq<Original>,
                            these: seq<Original>, those: seq<Original>, pending: seq<Original>)
    requires Guarded(original, live, entries) && Splits(entries, these, those)
    requires Distinct(pending) && Among(pending, these)
    requires forall entry :: entry in these && entry.id in live ==> entry in pending || live[entry.id] == entry.formats
    ensures Guarded(original, live, pending + those) && Among(pending + those, entries)
  {
    var kept := pending + those;
    forall i, j | 0 <= i < j < |kept|
      ensures kept[i].id != kept[j].id
    {
      assert i < |pending| ==> kept[i] in pending && kept[i] in these;
      assert j >= |pending| ==> kept[j] in those;
    }
    forall id | id in live && live[id] != original[id]
      ensures Holds(kept, id)
    {
      var entry :| entry in entries && entry.id == id;
      assert entry in kept;
    }
  }

  lemma OthersAndOwnSplit(entries: seq<Original>, id: Id)
    requires Distinct(entries)
    ensures Splits(entries, Others(entries, id), Own(entries, id))
    ensures !Holds(Others(entries, id), id)
    ensures |Own(entries, id)| <= 1 && forall entry :: entry in Own(entries, id) ==> entry.id == id
  {
    OthersAndOwn(entries, id);
    assert |Own(entries, id)| <= 1;
  }

  /** An endpoint about to change keeps its one entry, or gets the one it lacked. */
  lemma TakingKeepsGuard(original: map<Id, Formats>, live: map<Id, Formats>, waiting: seq<Original>, own: seq<Original>,
                         taken: Original)
    requires Guarded(original, live, waiting + own) && |own| <= 1 && taken.id in live && taken.formats.Whole()
    requires own != [] ==> taken == own[0]
    requires own == [] ==> taken.formats == live[taken.id] && !Holds(waiting, taken.id)
    ensures Guarded(original, live, waiting + [taken])
    ensures taken.formats == original[taken.id]
  {
    if own != [] {
      assert own == [taken];
      assert taken in waiting + own;
    } else {
      assert waiting + own == waiting;
      forall id | id in live && live[id] != original[id]
        ensures Holds(waiting + [taken], id)
      {
        var entry :| entry in waiting && entry.id == id;
        assert entry in waiting + [taken];
      }
      forall i | 0 <= i < |waiting|
        ensures waiting[i].id != taken.id
      {
        assert waiting[i] in waiting;
      }
    }
  }

  /** An endpoint with an entry may take any formats. */
  lemma ChangingGuardedEndpoint(original: map<Id, Formats>, before: map<Id, Formats>, after: map<Id, Formats>,
                                entries: seq<Original>, id: Id)
    requires Guarded(original, before, entries) && id in before && id in after && after == before[id := after[id]]
    requires Holds(entries, id)
    ensures Guarded(original, after, entries)
  {
  }

  /** Every endpoint outside `touched`, itself among the entries', is as it was. */
  ghost predicate OnlyTouched(entries: seq<Original>, touched: set<Id>, before: map<Id, Formats>,
          live: map<Id, Formats>) {
    && live.Keys == before.Keys && touched <= Ids(entries)
    && (forall id :: id in live && id !in touched ==> live[id] == before[id])
  }

  /** The first `n` entries are at their originals, or marked and pending. */
  ghost predicate Swept(entries: seq<Original>, n: nat, live: map<Id, Formats>, pending: seq<Original>,
          marks: seq<bool>) {
    && |marks| == n <= |entries| && pending == Marked(entries, marks, n)
    && (forall j :: 0 <= j < n && !marks[j] ==> entries[j].id in live && live[entries[j].id] == entries[j].formats)
  }

  /** After the sweep the entries that are not pending are at their originals. */
  lemma SweptReleases(entries: seq<Original>, live: map<Id, Formats>, pending: seq<Original>, marks: seq<bool>)
    requires Swept(entries, |entries|, live, pending, marks) && Distinct(entries)
    ensures Distinct(pending) && Among(pending, entries)
    ensures forall entry :: entry in entries && entry.id in live ==> entry in pending || live[entry.id] == entry.formats
  {
    MarkedEntries(entries, marks, |entries|);
  }

  /** The endpoints in `present`, and only those, were dealt with. */
  ghost predicate AsPresent(entries: seq<Original>, present: set<Id>, touched: set<Id>, marks: seq<bool>) {
    && touched <= present && |marks| <= |entries|
    && (forall j :: 0 <= j < |marks| ==> marks[j] == (entries[j].id !in present))
  }

  lemma SweepStart(entries: seq<Original>, live: map<Id, Formats>, present: set<Id>)
    ensures OnlyTouched(entries, {}, live, live) && Swept(entries, 0, live, [], [])
              && AsPresent(entries, present, {}, [])
  {
  }

  lemma HasId(entries: seq<Original>, i: nat)
    requires i < |entries|
    ensures entries[i].id in Ids(entries)
  {
    assert entries[i] in entries;
  }

  lemma SweepOne(entries: seq<Original>, n: nat, start: map<Id, Formats>, before: map<Id, Formats>,
          after: map<Id, Formats>, pending: seq<Original>, marks: seq<bool>, touched: set<Id>,
          restored: Outcome<bool>, present: set<Id>)
    requires n < |entries| && Distinct(entries)
    requires OnlyTouched(entries, touched, start, before) && Swept(entries, n, before, pending, marks)
    requires entries[n].id in before && entries[n].id in after && after == before[entries[n].id := after[entries[n].id]]
    requires restored == Ok(true) ==> after[entries[n].id] == entries[n].formats
    requires restored == Ok(false) ==> after == before
    ensures OnlyTouched(entries, touched + TouchedBy(entries[n], restored), start, after)
    ensures AsPresent(entries, present, touched, marks) && restored == Ok(entries[n].id in present) ==>
              AsPresent(entries, present, touched + TouchedBy(entries[n], restored), marks + [restored != Ok(true)])
    ensures Swept(entries, n + 1, after, pending + StillWaiting(entries[n], restored), marks + [restored != Ok(true)])
  {
    MarkedPrefix(entries, marks, marks + [restored != Ok(true)], n);
    assert entries[n] in entries;
  }

  ghost function TouchedBy(one: Original, restored: Outcome<bool>): set<Id> {
    if restored == Ok(false) then {} else {one.id}
  }

  function StillWaiting(one: Original, restored: Outcome<bool>): seq<Original> {
    if restored == Ok(true) then [] else [one]
  }

  /** Each of the first `n` entries is at its formats, or its endpoint is as it was. */
  ghost predicate BackOrAlone(entries: seq<Original>, n: nat, before: map<Id, Formats>, live: map<Id, Formats>)
    requires n <= |entries|
  {
    forall j :: 0 <= j < n ==>
      && entries[j].id in live && entries[j].id in before
      && (live[entries[j].id] == entries[j].formats || live[entries[j].id] == before[entries[j].id])
  }

  lemma BackOrAloneNext(entries: seq<Original>, n: nat, start: map<Id, Formats>, before: map<Id, Formats>,
                        after: map<Id, Formats>, touched: set<Id>, restored: Outcome<bool>)
    requires n < |entries| && Distinct(entries) && BackOrAlone(entries, n, start, before)
    requires entries[n].id in before && entries[n].id in after && after == before[entries[n].id := after[entries[n].id]]
    requires restored.Ok? ==> if restored.value then after[entries[n].id] == entries[n].formats else after == before
    requires entries[n].id in start && before[entries[n].id] == start[entries[n].id]
    ensures restored.Ok? ==> BackOrAlone(entries, n + 1, start, after)
  {
    assert forall j :: 0 <= j < n ==> entries[j].id != entries[n].id;
  }

  lemma UntouchedYet(entries: seq<Original>, n: nat, start: map<Id, Formats>, live: map<Id, Formats>, touched: set<Id>)
    requires n < |entries| && Distinct(entries) && OnlyTouched(entries, touched, start, live) && entries[n].id in live
    requires forall id :: id in touched ==> exists j :: 0 <= j < n && entries[j].id == id
    ensures entries[n].id in start && live[entries[n].id] == start[entries[n].id]
  {
    var id := entries[n].id;
    assert forall j :: 0 <= j < n ==> entries[j].id != id;
    assert id !in touched && id in start.Keys;
  }

  /** Each entry's endpoint is at its original if present, and untouched if not. */
  ghost predicate PutBack(entries: seq<Original>, present: set<Id>, before: map<Id, Formats>, live: map<Id, Formats>) {
    forall i :: 0 <= i < |entries| ==>
      && entries[i].id in live && entries[i].id in before
      && live[entries[i].id] == if entries[i].id in present then entries[i].formats else before[entries[i].id]
  }

  lemma SweptIsPutBack(entries: seq<Original>, present: set<Id>, before: map<Id, Formats>, live: map<Id, Formats>,
                       pending: seq<Original>, marks: seq<bool>, touched: set<Id>)
    requires OnlyTouched(entries, touched, before, live) && Swept(entries, |entries|, live, pending, marks)
    requires AsPresent(entries, present, touched, marks) && Ids(entries) <= live.Keys
    ensures PutBack(entries, present, before, live) && pending == Absent(entries, present)
  {
    assert marks == Away(entries, present);
    forall i | 0 <= i < |entries|
      ensures entries[i].id in live
    {
      assert entries[i] in entries && entries[i].id in Ids(entries);
    }
  }

  class RateAdapter {
    const machine: Machine

    constructor (machine: Machine)
      ensures this.machine == machine
    {
      this.machine := machine;
    }

    method Load() returns (r: Outcome<seq<Original>>)
      modifies machine`disturbances, machine`unreadable
      ensures r.Ok? <==> machine.disturbances == old(machine.disturbances)
      ensures machine.disturbances >= old(machine.disturbances)
      ensures machine.unreadable == old(machine.unreadable) + if r.Err? then 1 else 0
      ensures r.Ok? ==> r.value == machine.Now()
    {
      var text :- machine.Read();
      r := Ok(Entries(text));
    }

    method Store(originals: seq<Original>) returns (r: Outcome<()>)
      modifies machine`file, machine`disturbances
      ensures r.Ok? <==> machine.disturbances == old(machine.disturbances)
      ensures machine.disturbances >= old(machine.disturbances)
      ensures r.Ok? ==> machine.Now() == originals && (machine.file == None <==> originals == [])
      ensures !r.Ok? ==> machine.file == old(machine.file)
    {
      r := machine.Write(if originals == [] then None else Some(originals));
    }

    /** Answers whether there was an endpoint to restore. */
    method RestoreOne(saved: Original) returns (r: Outcome<bool>)
      requires saved.id in machine.live
      modifies machine`live, machine`disturbances, machine`writes
      ensures machine.disturbances >= old(machine.disturbances)
      ensures saved.id in machine.live && machine.live == old(machine.live)[saved.id := machine.live[saved.id]]
      ensures r == Ok(true) ==> machine.live[saved.id] == saved.formats
      ensures r == Ok(false) ==> machine.live == old(machine.live)
      ensures machine.disturbances == old(machine.disturbances) ==> r == Ok(saved.id in machine.present)
      ensures machine.disturbances == old(machine.disturbances) && old(machine.live[saved.id]) == saved.formats ==>
                machine.live == old(machine.live) && machine.writes == old(machine.writes)
      ensures r == Ok(false) ==> machine.writes == old(machine.writes)
    {
      var active :- machine.IsActive(saved.id);
      if active {
        var _ :- SetFormatsIfChanged(machine, saved.id, saved.formats);
      }
      r := Ok(active);
    }

    /**
     The loop of `restore_present`: puts back each endpoint that is present and
     collects the entries still waiting; `Ok(true)` when a restore failed.
     */
    method PutBackEach(originals: seq<Original>)
      returns (r: Outcome<bool>, pending: seq<Original>, ghost marks: seq<bool>, ghost touched: set<Id>)
      requires Distinct(originals) && Ids(originals) <= machine.live.Keys
      modifies machine`live, machine`disturbances, machine`writes
      ensures OnlyTouched(originals, touched, old(machine.live), machine.live)
      ensures r.Ok? ==> Swept(originals, |originals|, machine.live, pending, marks)
      ensures !r.Err? && machine.disturbances >= old(machine.disturbances)
      ensures r == Ok(false) ==> BackOrAlone(originals, |originals|, old(machine.live), machine.live)
      ensures machine.disturbances == old(machine.disturbances) ==>
                r == Ok(false) && AsPresent(originals, machine.present, touched, marks)
      ensures machine.disturbances == old(machine.disturbances)
                && old(Settled(originals, machine.present, machine.live)) ==>
                machine.writes == old(machine.writes)
    {
      hide OnlyTouched, Swept, AsPresent, Distinct, Ids;
      SweepStart(originals, machine.live, machine.present);
      pending, marks, touched := [], [], {};
      ghost var clean, writes := Settled(originals, machine.present, machine.live), machine.writes;
      var failed := false;
      var i := 0;
      while i < |originals|
        invariant 0 <= i <= |originals|
        invariant OnlyTouched(originals, touched, old(machine.live), machine.live)
                    && machine.live.Keys == old(machine.live.Keys)
        invariant Swept(originals, i, machine.live, pending, marks)
        invariant machine.disturbances >= old(machine.disturbances)
        invariant !failed ==> BackOrAlone(originals, i, old(machine.live), machine.live)
        invariant forall id :: id in touched ==> exists j :: 0 <= j < i && originals[j].id == id
        invariant machine.disturbances == old(machine.disturbances) ==>
                    !failed && AsPresent(originals, machine.present, touched, marks)
        invariant machine.disturbances == old(machine.disturbances) && clean ==>
                    machine.writes == writes && machine.live == old(machine.live)
      {
        HasId(originals, i);
        UntouchedYet(originals, i, old(machine.live), machine.live, touched);
        ghost var live := machine.live;
        var restored := RestoreOne(originals[i]);
        SweepOne(originals, i, old(machine.live), live, machine.live, pending, marks, touched, restored,
            machine.present);
        if !failed {
          BackOrAloneNext(originals, i, old(machine.live), live, machine.live, touched, restored);
        }
        touched := touched + TouchedBy(originals[i], restored);
        if restored.Killed? {
          return Killed, pending, marks, touched;
        }
        failed := failed || restored.Err?;
        pending := pending + StillWaiting(originals[i], restored);
        marks := marks + [restored != Ok(true)];
        i := i + 1;
      }
      r := Ok(failed);
    }

    /**
     Restores every endpoint of `originals` that is present and leaves the rest
     in the file, with `keep` untouched.
     */
    method RestorePresent(originals: seq<Original>, keep: seq<Original>) returns (r: Outcome<seq<Original>>)
      requires machine.Kept() && Splits(machine.Now(), originals, keep)
      modifies machine`live, machine`file, machine`disturbances, machine`writes
      ensures machine.Kept() && machine.disturbances >= old(machine.disturbances)
      ensures Among(keep, machine.Now()) && Among(machine.Now(), old(machine.Now()))
      ensures forall id :: id in machine.live && id !in Ids(originals) ==> machine.live[id] == old(machine.live[id])
      ensures r.Ok? ==> machine.Now() == r.value + keep && Among(r.value, originals)
      ensures r.Ok? ==> BackOrAlone(originals, |originals|, old(machine.live), machine.live)
      ensures machine.disturbances == old(machine.disturbances) ==>
                r == Ok(Absent(originals, machine.present))
                && PutBack(originals, machine.present, old(machine.live), machine.live)
      ensures machine.disturbances == old(machine.disturbances)
                && old(Settled(originals, machine.present, machine.live)) ==>
                machine.writes == old(machine.writes)
    {
      hide Guarded, Splits, Swept, AsPresent, Distinct, PutBack, Absent, Settled;
      SplitParts(machine.Now(), originals, keep);
      EntriesAreLive(machine.original, machine.live, machine.Now(), originals);
      var failed, pending, marks, touched := PutBackEach(originals);
      TouchingSavedKeepsGuard(machine.original, old(machine.live), machine.live, machine.Now(), originals, touched);
      if failed.Killed? {
        return Killed;
      }
      SweptReleases(originals, machine.live, pending, marks);
      if machine.disturbances == old(machine.disturbances) {
        SweptIsPutBack(originals, machine.present, old(machine.live), machine.live, pending, marks, touched);
      }
      ReleasingKeepsGuard(machine.original, machine.live, machine.Now(), originals, keep, pending);
      var stored := Store(pending + keep);
      assert machine.Now() == if stored.Ok? then pending + keep else old(machine.Now());
      assert machine.Kept();
      if !stored.Ok? {
        return stored.PropagateFailure();
      }
      r := if failed.value then Err else Ok(pending);
    }

    /**
     Every entry whose endpoint is plugged in is given back and leaves the file.
     `aside` says that the file was unreadable, and its entries were given up.
     */
    method RestoreSaved() returns (r: Outcome<()>, aside: bool)
      requires machine.Kept()
      modifies machine`live, machine`file, machine`disturbances, machine`writes, machine`unreadable
      ensures machine.disturbances >= old(machine.disturbances) && machine.unreadable >= old(machine.unreadable)
      ensures aside ==> machine.unreadable > old(machine.unreadable)
      ensures aside ==> machine.Now() == [] && machine.live == old(machine.live)
      ensures machine.Kept() <==> (aside ==> machine.live == machine.original)
      ensures r.Ok? && machine.unreadable == old(machine.unreadable) ==>
                BackOrAlone(old(machine.Now()), |old(machine.Now())|, old(machine.live), machine.live)
      ensures machine.disturbances == old(machine.disturbances) ==>
                && r.Ok? && !aside && machine.Now() == Absent(old(machine.Now()), machine.present)
                && PutBack(old(machine.Now()), machine.present, old(machine.live), machine.live)
    {
      aside := false;
      var loaded := Load();
      if loaded.Killed? {
        return Killed, aside;
      }
      if loaded.Err? {
        var renamed := machine.Write(None);
        if renamed.Killed? {
          return Killed, aside;
        }
        aside := renamed.Ok?;
        GivingUpTheFile(machine.original, machine.live, old(machine.Now()));
        return Ok(()), aside;
      }
      if loaded.value == [] {
        return Ok(()), aside;
      }
      var com := machine.Attempt();
      if !com.Ok? {
        return com.PropagateFailure(), aside;
      }
      var pending := RestorePresent(loaded.value, []);
      r := if pending.Ok? then Ok(()) else pending.PropagateFailure();
    }

    /** The entry that keeps `id`'s formats: the saved one, else what it has now. */
    method Take(id: Id, own: seq<Original>) returns (r: Outcome<Original>)
      requires id in machine.live && |own| <= 1
      modifies machine`disturbances
      ensures r.Ok? <==> machine.disturbances == old(machine.disturbances)
      ensures machine.disturbances >= old(machine.disturbances)
      ensures r.Ok? && own != [] ==> r.value == own[0]
      ensures r.Ok? && own == [] ==> r.value == Original(id, machine.live[id]) && r.value.formats.Whole()
    {
      if own != [] {
        return Ok(own[0]);
      }
      var formats :- machine.ReadFormats(id);
      r := Ok(Original(id, formats));
    }

    /** Changes the endpoint from its original, or puts that back where the change cannot play. */
    method Play(saved: Original, change: Formats -> Formats) returns (r: Outcome<()>)
      requires saved.id in machine.live
      modifies machine`live, machine`disturbances, machine`writes
      ensures machine.disturbances >= old(machine.disturbances)
      ensures saved.id in machine.live && machine.live == old(machine.live)[saved.id := machine.live[saved.id]]
      ensures r.Ok? ==> machine.live[saved.id] == change(saved.formats) || machine.live[saved.id] == saved.formats
      ensures r.Ok? && old(machine.live[saved.id]) == machine.live[saved.id] ==> machine.writes == old(machine.writes)
      ensures machine.disturbances == old(machine.disturbances) ==>
                && r.Ok?
                && machine.live[saved.id]
                   == if (saved.id, change(saved.formats).device) in machine.supported then change(saved.formats)
                       else saved.formats
    {
      var supported :- machine.Supports(saved.id, change(saved.formats).device);
      r := SetFormatsIfChanged(machine, saved.id, if supported then change(saved.formats) else saved.formats);
    }

    /** From here on the file holds `id`'s original, whatever becomes of the process. */
    method Record(id: Id, waiting: seq<Original>, own: seq<Original>) returns (r: Outcome<Original>)
      requires machine.Kept() && id in machine.live && machine.Now() == waiting + own
      requires |own| <= 1 && (forall entry :: entry in own ==> entry.id == id) && !Holds(waiting, id)
      modifies machine`file, machine`disturbances
      ensures machine.Kept() && machine.disturbances >= old(machine.disturbances)
      ensures r.Ok? ==> r.value == Original(id, machine.original[id]) && machine.Now() == waiting + [r.value]
      ensures !r.Ok? ==> machine.Now() == old(machine.Now())
      ensures machine.disturbances == old(machine.disturbances) ==> r.Ok?
    {
      var taken :- Take(id, own);
      assert own != [] ==> own[0] in own && own[0] in waiting + own;
      TakingKeepsGuard(machine.original, machine.live, waiting, own, taken);
      var _ :- Store(waiting + [taken]);
      r := Ok(taken);
    }

    /**
     Everything `force` does before it changes `id`: the other saved endpoints get
     their formats back, and this one's are in the file, saved from an earlier
     change or read now.
     */
    method Secure(id: Id) returns (r: Outcome<Original>)
      requires machine.Kept() && id in machine.live
      modifies machine`live, machine`file, machine`disturbances, machine`writes, machine`unreadable
      ensures machine.Kept() && machine.disturbances >= old(machine.disturbances)
      ensures machine.unreadable >= old(machine.unreadable)
      ensures id in machine.live && machine.live[id] == old(machine.live)[id]
      ensures r.Ok? ==> r.value == Original(id, machine.original[id]) && r.value in machine.Now()
      ensures machine.disturbances == old(machine.disturbances) ==>
                && r.Ok?
                && machine.Now() == Absent(Others(old(machine.Now()), id), machine.present) + [r.value]
                && PutBack(Others(old(machine.Now()), id), machine.present, old(machine.live), machine.live)
      ensures machine.disturbances == old(machine.disturbances) && old(machine.AtRestExcept(id)) ==>
                machine.writes == old(machine.writes)
    {
      hide Guarded, Splits, PutBack, Absent, Others, Own, Settled, Distinct;
      var entries :- Load();
      SoundEntries(machine.original, machine.live, entries);
      // Only `id` is about to change, so every other endpoint is given back first;
      // an entry `id` may have already holds its original and is not touched.
      var others, own := Others(entries, id), Own(entries, id);
      OthersAndOwnSplit(entries, id);
      var waiting := RestorePresent(others, own);
      SoundEntries(machine.original, machine.live, machine.Now());
      if waiting.Ok? {
        r := Record(id, waiting.value, own);
        assert r.Ok? ==> machine.Now()[|waiting.value|] == r.value;
      } else {
        r := waiting.PropagateFailure();
      }
    }

    /** Changes the default endpoint, `forced`, from its original formats. */
    method Force(change: Formats -> Formats) returns (r: Outcome<()>, ghost forced: Id)
      requires machine.Kept()
      modifies machine`live, machine`file, machine`disturbances, machine`writes, machine`unreadable
      ensures machine.Kept() && machine.disturbances >= old(machine.disturbances)
      ensures machine.unreadable >= old(machine.unreadable)
      ensures forced == machine.defaultOutput && forced in machine.live && forced in machine.original
      ensures r.Ok? ==> Original(forced, machine.original[forced]) in machine.Now() && machine.original[forced].Whole()
      ensures r.Ok? ==>
                machine.live[forced] == change(machine.original[forced])
                || machine.live[forced] == machine.original[forced]
      ensures machine.disturbances == old(machine.disturbances) ==>
                && r.Ok?
                && machine.Now()
                    == Absent(Others(old(machine.Now()), forced), machine.present)
                        + [Original(forced, machine.original[forced])]
                && machine.live[forced] == machine.Playable(forced, change)
      ensures machine.disturbances == old(machine.disturbances) && old(machine.AtRestExcept(machine.defaultOutput)) ==>
                (machine.live[forced] == old(machine.live)[forced] ==> machine.writes == old(machine.writes))
    {
      forced := machine.defaultOutput;
      var id := machine.DefaultEndpoint();
      if id.Ok? {
        var saved := Secure(id.value);
        if saved.Ok? {
          ghost var before := machine.live;
          r := Play(saved.value, change);
          ChangingGuardedEndpoint(machine.original, before, machine.live, machine.Now(), forced);
        } else {
          r := saved.PropagateFailure();
        }
      } else {
        r := id.PropagateFailure();
      }
    }
  }
}
