/**
 The order the desktop client plays its queue in, and moving along it
 (desktop/core/src/playback_navigation.rs). A queue entry is its JSON text.
 */
module QueueOrder {
  import opened Outcomes

  type Value = string

  /** What identifies an entry of each kind. */
  datatype PlaybackSource =
    | Track(trackId: string, queueItemId: Option<string>)
    | RadioStation(stationId: string)
    | CatalogPreview(stationUuid: string)
    | ExternalTrack(externalTrackId: string)
  {
    function Identity(): string {
      match this
      case Track(id, queueItemId) => if queueItemId.Some? then queueItemId.value else id
      case RadioStation(id) => id
      case CatalogPreview(id) => id
      case ExternalTrack(id) => id
    }
  }

  /**
   A Track queued twice is two entries, told apart by their queue item ids; one that
   was never queued, a station or an entry from elsewhere goes by its own id.
   */
  lemma SameEntry(one: string, other: string, item: string, otherItem: string)
    ensures Track(one, Some(item)).Identity() == Track(other, Some(otherItem)).Identity() <==> item == otherItem
    ensures Track(one, None).Identity() == Track(other, None).Identity() <==> one == other
    ensures Track(one, Some(item)).Identity() == Track(other, None).Identity() <==> item == other
    ensures RadioStation(one).Identity() == RadioStation(other).Identity() <==> one == other
    ensures CatalogPreview(one).Identity() == CatalogPreview(other).Identity() <==> one == other
    ensures ExternalTrack(one).Identity() == ExternalTrack(other).Identity() <==> one == other
  {
  }

  datatype Direction = Previous | Next

  datatype Error = OutOfRange | Invalid | NoRandom

  predicate Distinct(order: seq<nat>) {
    forall i, j :: 0 <= i < j < |order| ==> order[i] != order[j]
  }

  /** Every index below `n`, exactly once. */
  ghost predicate IsPermutation(order: seq<nat>, n: nat) {
    |order| == n && Distinct(order) && forall index :: 0 <= index < n <==> index in order
  }

  function Sequential(n: nat): seq<nat> {
    seq(n, i requires 0 <= i < n => i)
  }

  lemma SequentialIsPermutation(n: nat)
    ensures IsPermutation(Sequential(n), n)
  {
    forall index | 0 <= index < n
      ensures index in Sequential(n)
    {
      assert Sequential(n)[index] == index;
    }
  }

  /** Where an index stands, or the length. */
  function Position(order: seq<nat>, index: nat): (position: nat)
    ensures position <= |order|
    ensures position < |order| ==> order[position] == index
    ensures index in order ==> position < |order|
  {
    if order == [] || order[0] == index then 0 else 1 + Position(order[1..], index)
  }

  function Swapped(order: seq<nat>, i: nat, j: nat): (swapped: seq<nat>)
    requires i < |order| && j < |order|
    ensures |swapped| == |order|
  {
    order[i := order[j]][j := order[i]]
  }

  lemma SwapKeepsPermutation(order: seq<nat>, n: nat, i: nat, j: nat)
    requires IsPermutation(order, n) && i < n && j < n
    ensures IsPermutation(Swapped(order, i, j), n)
  {
    var swapped := Swapped(order, i, j);
    forall index | 0 <= index < n
      ensures index in swapped
    {
      assert index in order;
      var k :| 0 <= k < |order| && order[k] == index;
      assert swapped[if k == i then j else if k == j then i else k] == index;
    }
    forall index | index in swapped
      ensures index in order
    {
      var k :| 0 <= k < |swapped| && swapped[k] == index;
      assert order[if k == i then j else if k == j then i else k] == index;
    }
  }

  function Rotated(order: seq<nat>, start: nat): seq<nat>
    requires start <= |order|
  {
    order[start..] + order[..start]
  }

  lemma RotationKeepsPermutation(order: seq<nat>, n: nat, start: nat)
    requires IsPermutation(order, n) && start <= n
    ensures IsPermutation(Rotated(order, start), n)
  {
    assert order == order[..start] + order[start..];
    assert forall index :: index in Rotated(order, start) <==> index in order;
  }

  /** What moves the current index to the front and its successor away from it. */
  function Avoided(order: seq<nat>, current: nat): seq<nat> {
    var position := Position(order, current);
    if position == |order| then order
    else
      var rotated := Rotated(order, position);
      if |rotated| > 2 && rotated[1] == (current + 1) % |rotated| then Swapped(rotated, 1, 2) else rotated
  }

  /** The current item first, and with more than two items not followed by its sequential successor. */
  lemma AvoidedOrder(order: seq<nat>, n: nat, current: nat)
    requires IsPermutation(order, n) && current < n
    ensures var avoided := Avoided(order, current);
            IsPermutation(avoided, n) && avoided[0] == current && (n > 2 ==> avoided[1] != (current + 1) % n)
  {
    var position := Position(order, current);
    var rotated := Rotated(order, position);
    RotationKeepsPermutation(order, n, position);
    if n > 2 && rotated[1] == (current + 1) % n {
      SwapKeepsPermutation(rotated, n, 1, 2);
    }
  }

  /** The swaps of a shuffle from index `k` down, with these draws. */
  function FisherYates(order: seq<nat>, k: nat, draw: nat -> nat): (shuffled: seq<nat>)
    requires k < |order| || (k == 0 && order == [])
    ensures |shuffled| == |order|
    decreases k
  {
    if k == 0 then order else FisherYates(Swapped(order, k, draw(k) % (k + 1)), k - 1, draw)
  }

  lemma {:induction false} FisherYatesKeepsPermutation(order: seq<nat>, n: nat, k: nat, draw: nat -> nat)
    requires IsPermutation(order, n) && (k < n || (k == 0 && n == 0))
    ensures IsPermutation(FisherYates(order, k, draw), n)
    decreases k
  {
    if k > 0 {
      SwapKeepsPermutation(order, n, k, draw(k) % (k + 1));
      FisherYatesKeepsPermutation(Swapped(order, k, draw(k) % (k + 1)), n, k - 1, draw);
    }
  }

  lemma {:induction false} FisherYatesFixesRest(order: seq<nat>, k: nat, draw: nat -> nat)
    requires k < |order|
    ensures forall i :: k < i < |order| ==> FisherYates(order, k, draw)[i] == order[i]
    decreases k
  {
    if k > 0 {
      FisherYatesFixesRest(Swapped(order, k, draw(k) % (k + 1)), k - 1, draw);
    }
  }

  /**
   Every choice counts: two series of draws that give the same order chose the same
   item at every step, so the orders are as evenly spread as the choices.
   */
  lemma {:induction false} ShuffleLosesNoChoice(order: seq<nat>, k: nat, draw: nat -> nat, other: nat -> nat)
    requires Distinct(order) && k < |order| && FisherYates(order, k, draw) == FisherYates(order, k, other)
    ensures forall i :: 0 < i <= k ==> draw(i) % (i + 1) == other(i) % (i + 1)
    decreases k
  {
    if k > 0 {
      var one, two := draw(k) % (k + 1), other(k) % (k + 1);
      var left, right := Swapped(order, k, one), Swapped(order, k, two);
      LastIsChosen(order, k, draw);
      LastIsChosen(order, k, other);
      hide FisherYates, Swapped;
      assert order[one] == order[two];
      assert one == two;
      SwapKeepsDistinct(order, k, one);
      ShuffleLosesNoChoice(left, k - 1, draw, other);
    }
  }

  lemma LastIsChosen(order: seq<nat>, k: nat, draw: nat -> nat)
    requires 0 < k < |order|
    ensures FisherYates(order, k, draw) == FisherYates(Swapped(order, k, draw(k) % (k + 1)), k - 1, draw)
    ensures FisherYates(order, k, draw)[k] == order[draw(k) % (k + 1)]
  {
    FisherYatesFixesRest(Swapped(order, k, draw(k) % (k + 1)), k - 1, draw);
  }

  lemma SwapKeepsDistinct(order: seq<nat>, i: nat, j: nat)
    requires Distinct(order) && i < |order| && j < |order|
    ensures Distinct(Swapped(order, i, j))
  {
  }

  lemma NoSwap(order: seq<nat>, draw: nat -> nat)
    requires order != []
    ensures FisherYates(order, 0, draw) == order
  {
  }

  lemma LengthOfPermutation(order: seq<nat>, n: nat)
    requires IsPermutation(order, n)
    ensures |order| == n
  {
  }

  function Draws(random: nat -> Option<nat>): nat -> nat {
    k => if random(k).Some? then random(k).value else 0
  }

  /** The order these random numbers draw. */
  function Drawn(order: seq<nat>, random: nat -> Option<nat>): seq<nat> {
    if order == [] then [] else FisherYates(order, |order| - 1, Draws(random))
  }

  class PlaybackQueueContext {
    const parse: Value -> Option<PlaybackSource>
    var sources: seq<Value>
    var order: seq<nat>
    var currentIndex: Option<nat>

    ghost predicate Valid()
      reads this
    {
      && IsPermutation(order, |sources|)
      && (currentIndex.Some? ==> currentIndex.value < |sources|)
      && (forall i :: 0 <= i < |sources| ==> parse(sources[i]).Some?)
    }

    constructor (parse: Value -> Option<PlaybackSource>)
      ensures Valid() && sources == [] && currentIndex == None && this.parse == parse
    {
      this.parse, sources, order, currentIndex := parse, [], [], None;
    }

    /** Takes a new queue, or leaves everything as it was. */
    method Sync(sources: seq<Value>, currentIndex: Option<nat>) returns (r: Result<(), Error>)
      requires Valid()
      modifies this
      ensures Valid()
      ensures r.Success? <==>
                && (currentIndex.Some? ==> currentIndex.value < |sources|)
                && (forall i :: 0 <= i < |sources| ==> parse(sources[i]).Some?)
      ensures r.Success? ==>
                this.sources == sources && this.currentIndex == currentIndex && order == Sequential(|sources|)
      ensures r.Failure? ==> unchanged(this)
    {
      if currentIndex.Some? && currentIndex.value >= |sources| {
        return Failure(OutOfRange);
      }
      for i := 0 to |sources|
        invariant unchanged(this)
        invariant forall j :: 0 <= j < i ==> parse(sources[j]).Some?
      {
        if parse(sources[i]).None? {
          return Failure(Invalid);
        }
      }
      this.sources, this.currentIndex := sources, currentIndex;
      ResetOrder();
      r := Success(());
    }

    method ResetOrder()
      modifies this`order
      ensures order == Sequential(|sources|) && IsPermutation(order, |sources|)
    {
      order := Sequential(|sources|);
      SequentialIsPermutation(|sources|);
    }

    /** The current item becomes the first one the source identifies, or none. */
    method AlignToSource(source: Value) returns (r: Result<(), Error>)
      requires Valid()
      modifies this`currentIndex
      ensures Valid()
      ensures r.Success? <==> parse(source).Some?
      ensures r.Failure? ==> currentIndex == old(currentIndex)
      ensures r.Success? ==>
                match currentIndex
                case None => forall i :: 0 <= i < |sources| ==> !Matches(i, source)
                case Some(index) =>
                  && index < |sources| && Matches(index, source)
                  && forall i :: 0 <= i < index ==> !Matches(i, source)
    {
      var identity := parse(source);
      if identity.None? {
        return Failure(Invalid);
      }
      var found: Option<nat> := None;
      var index := 0;
      while index < |sources| && found.None?
        invariant index <= |sources| && Valid() && currentIndex == old(currentIndex)
        invariant found == None ==> forall i :: 0 <= i < index ==> !Matches(i, source)
        invariant found.Some? ==>
                    && found.value < |sources| && Matches(found.value, source)
                    && forall i :: 0 <= i < found.value ==> !Matches(i, source)
      {
        var candidate := parse(sources[index]);
        if candidate.None? {
          return Failure(Invalid);
        }
        if candidate.value.Identity() == identity.value.Identity() {
          found := Some(index);
        }
        index := index + 1;
      }
      currentIndex := found;
      r := Success(());
    }

    ghost predicate Matches(index: nat, source: Value)
      reads this`sources
      requires index < |sources|
    {
      && parse(sources[index]).Some? && parse(source).Some?
      && parse(sources[index]).value.Identity() == parse(source).value.Identity()
    }

    /** The swaps, from the end; random numbers may run out midway. */
    method DrawOrder(random: nat -> Option<nat>) returns (r: Result<(), Error>)
      requires IsPermutation(order, |sources|)
      modifies this`order
      ensures IsPermutation(order, |sources|)
      ensures r.Success? <==> forall k :: 0 < k < |sources| ==> random(k).Some?
      ensures r.Success? ==> order == Drawn(old(order), random)
    {
      hide IsPermutation, FisherYates, Swapped;
      var n := |sources|;
      ghost var start, draw := order, Draws(random);
      LengthOfPermutation(order, n);
      if n == 0 {
        assert order == [];
        return Success(());
      }
      var index := n - 1;
      while index > 0
        invariant 0 <= index < n && |order| == n && IsPermutation(order, n)
        invariant forall k :: index < k < n ==> random(k).Some?
        invariant FisherYates(start, n - 1, draw) == FisherYates(order, index, draw)
      {
        var drawn := random(index);
        if drawn.None? {
          return Failure(NoRandom);
        }
        LastIsChosen(order, index, draw);
        SwapKeepsPermutation(order, n, index, drawn.value % (index + 1));
        order := Swapped(order, index, drawn.value % (index + 1));
        index := index - 1;
      }
      NoSwap(order, draw);
      r := Success(());
    }

    /** Random numbers may run out midway; the order is then still an order. */
    method Shuffle(random: nat -> Option<nat>) returns (r: Result<(), Error>)
      requires Valid()
      modifies this`order
      ensures Valid()
      ensures r.Success? <==> forall k :: 0 < k < |sources| ==> random(k).Some?
      ensures r.Success? && currentIndex.Some? ==>
                && order[0] == currentIndex.value
                && (|sources| > 2 ==> order[1] != (currentIndex.value + 1) % |sources|)
      ensures r.Success? ==>
                order == if currentIndex.Some? then Avoided(Drawn(Sequential(|sources|), random), currentIndex.value)
                         else Drawn(Sequential(|sources|), random)
    {
      hide IsPermutation, Avoided, Drawn;
      ResetOrder();
      r := DrawOrder(random);
      if r.Success? {
        AvoidSequentialSuccessor();
      }
    }

    method AvoidSequentialSuccessor()
      requires Valid()
      modifies this`order
      ensures Valid()
      ensures order == if currentIndex.Some? then Avoided(old(order), currentIndex.value) else old(order)
      ensures currentIndex.Some? ==>
                order[0] == currentIndex.value && (|sources| > 2 ==> order[1] != (currentIndex.value + 1) % |sources|)
    {
      if currentIndex.None? {
        return;
      }
      var current := currentIndex.value;
      AvoidedOrder(order, |sources|, current);
      var position := Position(order, current);
      if position == |order| {
        return;
      }
      order := Rotated(order, position);
      if |order| > 2 && order[1] == (current + 1) % |order| {
        order := Swapped(order, 1, 2);
      }
    }

    /** The entry before or after the current one, in the order. */
    method AdjacentSource(direction: Direction, shouldWrap: bool) returns (r: Option<Value>)
      requires Valid()
      ensures r == match Adjacent(order, currentIndex, direction, shouldWrap)
                   case None => None
                   case Some(index) => Some(sources[index])
    {
      if currentIndex.None? {
        return None;
      }
      var position := Position(order, currentIndex.value);
      if position == |order| {
        return None;
      }
      var next: Option<nat> :=
        match direction
        case Previous => if position > 0 then Some(position - 1) else if shouldWrap then Some(|order| - 1) else None
        case Next => if position + 1 < |order| then Some(position + 1) else if shouldWrap then Some(0) else None;
      if next.None? {
        return None;
      }
      assert order[next.value] in order;
      r := Some(sources[order[next.value]]);
    }
  }

  function Adjacent(order: seq<nat>, current: Option<nat>, direction: Direction, shouldWrap: bool): (index: Option<nat>)
    ensures index.Some? ==> index.value in order
  {
    if current.None? || Position(order, current.value) == |order| then None
    else
      var position := Position(order, current.value);
      match direction
      case Previous => if position > 0 then Some(order[position - 1]) else if shouldWrap then Some(order[|order| - 1])
          else None
      case Next => if position + 1 < |order| then Some(order[position + 1]) else if shouldWrap then Some(order[0])
          else None
  }

  // Moving along the order.

  /** Where wrapping on from `current` leads after `steps`. */
  function After(order: seq<nat>, current: nat, direction: Direction, steps: nat): nat
    decreases steps
  {
    if steps == 0 then current
    else
      var index := Adjacent(order, Some(current), direction, true);
      After(order, if index.Some? then index.value else current, direction, steps - 1)
  }

  lemma PositionIn(order: seq<nat>, position: nat)
    requires Distinct(order) && position < |order|
    ensures Position(order, order[position]) == position
  {
    assert order[position] in order;
  }

  /** Without wrapping, Next and Previous stay within the order and stop at its ends. */
  lemma StopsAtTheEnds(order: seq<nat>, position: nat, shouldWrap: bool)
    requires Distinct(order) && position < |order|
    ensures position + 1 < |order| ==>
              Adjacent(order, Some(order[position]), Next, shouldWrap) == Some(order[position + 1])
              && Adjacent(order, Some(order[position + 1]), Previous, shouldWrap) == Some(order[position])
    ensures Adjacent(order, Some(order[|order| - 1]), Next, shouldWrap) == if shouldWrap then Some(order[0]) else None
    ensures Adjacent(order, Some(order[0]), Previous, shouldWrap)
            == if shouldWrap then Some(order[|order| - 1]) else None
  {
    PositionIn(order, position);
    PositionIn(order, |order| - 1);
    PositionIn(order, 0);
    if position + 1 < |order| {
      PositionIn(order, position + 1);
    }
  }

  function Wrapped(position: nat, n: nat): nat {
    if position < n then position else position - n
  }

  lemma {:induction false} AfterSteps(order: seq<nat>, position: nat, steps: nat)
    requires Distinct(order) && position < |order| && steps <= |order|
    ensures After(order, order[position], Next, steps) == order[Wrapped(position + steps, |order|)]
    decreases steps
  {
    hide Position, Distinct;
    if steps > 0 {
      PositionIn(order, position);
      AfterSteps(order, Wrapped(position + 1, |order|), steps - 1);
    }
  }

  /** Wrapped Next and Previous undo each other. */
  lemma NextAndPrevious(order: seq<nat>, n: nat, current: nat)
    requires IsPermutation(order, n) && current < n
    ensures After(order, After(order, current, Next, 1), Previous, 1) == current
    ensures After(order, After(order, current, Previous, 1), Next, 1) == current
  {
    assert current in order;
    var position := Position(order, current);
    PositionIn(order, if position + 1 < n then position + 1 else 0);
    PositionIn(order, if position > 0 then position - 1 else n - 1);
  }

  /** Wrapped Next comes by every item once in `n` steps, and then starts over. */
  lemma NextVisitsAll(order: seq<nat>, n: nat, current: nat)
    requires IsPermutation(order, n) && current < n
    ensures IsPermutation(seq(n, steps requires 0 <= steps < n => After(order, current, Next, steps)), n)
    ensures After(order, current, Next, n) == current
  {
    assert current in order;
    var position := Position(order, current);
    var visited := seq(n, steps requires 0 <= steps < n => After(order, current, Next, steps));
    var rotated := Rotated(order, position);
    forall steps | 0 <= steps < n
      ensures visited[steps] == rotated[steps]
    {
      AfterSteps(order, position, steps);
    }
    assert visited == rotated;
    RotationKeepsPermutation(order, n, position);
    AfterSteps(order, position, n);
  }

  /** No two entries are taken for each other. */
  ghost predicate DistinctIdentities(context: PlaybackQueueContext)
    reads context
  {
    forall i, j ::
        0 <= i < |context.sources| && 0 <= j < |context.sources| && context.Matches(i, context.sources[j]) ==> i == j
  }

  /** Playing the entry next to the current one, which then is the current one. */
  method Move(context: PlaybackQueueContext, direction: Direction) returns (moved: bool)
    requires context.Valid() && DistinctIdentities(context)
    modifies context`currentIndex
    ensures context.Valid() && DistinctIdentities(context)
    ensures moved <==> old(context.currentIndex).Some?
    ensures moved ==> context.currentIndex == Some(After(context.order, old(context.currentIndex).value, direction, 1))
    ensures !moved ==> context.currentIndex == old(context.currentIndex)
  {
    var source := context.AdjacentSource(direction, true);
    moved := source.Some?;
    if context.currentIndex.Some? {
      var current := context.currentIndex.value;
      assert current in context.order;
      ghost var next := Adjacent(context.order, Some(current), direction, true);
      assert next.Some? && next.value in context.order;
      assert After(context.order, current, direction, 1) == next.value;
      var aligned := context.AlignToSource(source.value);
      assert context.Matches(next.value, context.sources[next.value]);
    }
  }

  /** From a current item, pressing Next as often as there are items plays each once and comes back. */
  method PlayAround(context: PlaybackQueueContext) returns (played: seq<nat>)
    requires context.Valid() && DistinctIdentities(context) && context.currentIndex.Some?
    modifies context`currentIndex
    ensures IsPermutation(played, |context.sources|) && context.currentIndex == old(context.currentIndex)
  {
    var n, current := |context.sources|, context.currentIndex.value;
    played := [];
    ghost var order := context.order;
    for i := 0 to n
      invariant context.Valid() && DistinctIdentities(context)
      invariant context.currentIndex == Some(After(order, current, Next, i))
      invariant played == seq(i, steps requires 0 <= steps < i => After(order, current, Next, steps))
    {
      played := played + [context.currentIndex.value];
      AfterOneMore(order, current, i);
      var moved := Move(context, Next);
    }
    NextVisitsAll(order, n, current);
  }

  lemma {:induction false} AfterOneMore(order: seq<nat>, current: nat, steps: nat)
    ensures After(order, After(order, current, Next, steps), Next, 1) == After(order, current, Next, steps + 1)
    decreases steps
  {
    if steps > 0 {
      AfterOneMore(order, After(order, current, Next, 1), steps - 1);
    }
  }

  datatype Event = Synced(sources: seq<Value>, currentIndex: Option<nat>) | Aligned(source: Value)
      | Shuffle(random: nat -> Option<nat>) | Reset

  /** Whatever is asked of it, in whatever order, the order stays an order of the entries. */
  method Run(context: PlaybackQueueContext, events: seq<Event>)
    requires context.Valid()
    modifies context
    ensures context.Valid()
  {
    for i := 0 to |events|
      invariant context.Valid()
    {
      match events[i] {
        case Synced(sources, currentIndex) =>
          var r := context.Sync(sources, currentIndex);
        case Aligned(source) =>
          var r := context.AlignToSource(source);
        case Shuffle(random) =>
          var r := context.Shuffle(random);
        case Reset =>
          context.ResetOrder();
      }
    }
  }
}
