/**
 Cancelling the renderer's HTTP requests. One thread reads the lines and registers each
 request as it meets it; what a line asks for is then done by a task of its own, and
 the tasks run in any order (desktop/core/src/connection.rs:449-465, 688-721;
 desktop/core/src/lib.rs:264-306, 1071-1076, 1513-1541).
 */
module Cancellation {
  import opened Outcomes

  /** A token's number; clones of a token have the same one. */
  type Token = nat

  /** The tokens of the requests in flight, behind one lock. */
  class HttpRequestCancellations {
    var tokens: map<string, Token>
    var fired: set<Token>
    var next: Token

    /** No two requests share a token. */
    ghost predicate Valid()
      reads this
    {
      && (forall id :: id in tokens ==> tokens[id] < next)
      && (forall one, other :: one in tokens && other in tokens && tokens[one] == tokens[other] ==> one == other)
      && (forall token :: token in fired ==> token < next)
    }

    constructor ()
      ensures Valid() && tokens == map[] && fired == {}
    {
      tokens, fired, next := map[], {}, 0;
    }

    /** The token registered for the id, or a new one that has not fired. */
    method Begin(id: string) returns (token: Token)
      requires Valid()
      modifies this
      ensures Valid() && id in tokens && token == tokens[id] && fired == old(fired)
      ensures tokens == old(tokens)[id := token]
      ensures id in old(tokens) ==> tokens == old(tokens)
      ensures id !in old(tokens) ==> token !in fired
    {
      if id !in tokens {
        tokens := tokens[id := next];
        next := next + 1;
      }
      token := tokens[id];
    }

    method Cancel(id: string)
      requires Valid()
      modifies this`fired
      ensures Valid() && fired == old(fired) + if id in tokens then {tokens[id]} else {}
    {
      if id in tokens {
        fired := fired + {tokens[id]};
      }
    }

    method Finish(id: string)
      requires Valid()
      modifies this`tokens
      ensures Valid() && tokens == old(tokens) - {id}
    {
      tokens := tokens - {id};
    }
  }

  /** `Rejected` is the answer to a line whose arguments cannot be read, or before the origin can be. */
  datatype Answer = Cancelled | Answered | NoServer | Rejected

  /** Where a request's handler is. */
  datatype Phase = Waiting | Sending(token: Token, isAnswered: bool) | Resolved(answer: Answer) | Done(answer: Answer)

  datatype Request = Request(id: string, phase: Phase)

  /** The task of a cancel line. */
  datatype CancelTask = CancelTask(id: string, hasRun: bool)

  predicate IsOpen(phase: Phase) {
    phase.Waiting? || phase.Sending?
  }

  predicate InFlight(requests: seq<Request>, k: int) {
    0 <= k < |requests| && !requests[k].phase.Done?
  }

  predicate IsFree(requests: seq<Request>, id: string) {
    forall k :: 0 <= k < |requests| && requests[k].id == id ==> requests[k].phase.Done?
  }

  /** No later request has the same id. */
  ghost predicate IsLast(requests: seq<Request>, k: int) {
    && 0 <= k < |requests|
    && forall j :: k < j < |requests| ==> requests[j].id != requests[k].id
  }

  /** A handler that got as far as `finish` has given up its registration; a rejected request never does. */
  predicate KeepsRegistration(phase: Phase) {
    !phase.Done? || phase.answer == Rejected
  }

  /** The last request with the id is in flight or was rejected. */
  ghost predicate Holds(requests: seq<Request>, id: string) {
    exists k :: IsLast(requests, k) && requests[k].id == id && KeepsRegistration(requests[k].phase)
  }

  function With(requests: seq<Request>, k: nat, phase: Phase): (next: seq<Request>)
    requires k < |requests|
    ensures |next| == |requests|
    ensures forall j :: 0 <= j < |next| ==>
              next[j].id == requests[j].id && next[j].phase == if j == k then phase else requests[j].phase
  {
    requests[k := Request(requests[k].id, phase)]
  }

  function Read(requests: seq<Request>, id: string): (more: seq<Request>)
    ensures |more| == |requests| + 1 && more[|requests|] == Request(id, Waiting)
    ensures forall j :: 0 <= j < |requests| ==> more[j] == requests[j]
  {
    requests + [Request(id, Waiting)]
  }

  /** The one request in flight with the id, if it is still open. */
  ghost function Hit(requests: seq<Request>, id: string): (hit: set<nat>)
    ensures forall k :: k in hit <==> InFlight(requests, k) && IsOpen(requests[k].phase) && requests[k].id == id
  {
    set k: nat | 0 <= k < |requests| && InFlight(requests, k) && IsOpen(requests[k].phase) && requests[k].id == id
  }

  datatype Event =
    | Ask(id: string) | AskToCancel(id: string)
    | Cancelling(cancel: nat) | Rejecting(request: nat) | Begin(request: nat) | Answering(request: nat)
    | Polling(request: nat) | NoOrigin(request: nat) | Finishing(request: nat)

  /**
   What a run shows: the requests, the cancels, which ids are registered and whether
   their registration was cancelled, and which requests are. Registrations are told
   without tokens.
   */
  datatype View = View(requests: seq<Request>, cancels: seq<CancelTask>, registered: map<string, bool>,
      cancelled: set<nat>)

  predicate Exists(view: View, k: nat) {
    k < |view.requests|
  }

  /** The handler of request `k` moves on. */
  function Moved(view: View, k: nat, phase: Phase): View
    requires k < |view.requests|
  {
    view.(requests := With(view.requests, k, phase))
  }

  predicate IsMarked(view: View, id: string) {
    id in view.registered && view.registered[id]
  }

  /** A line is read: an id still registered keeps its registration, cancelled or not. */
  function Asked(view: View, id: string): View {
    var isCancelled := IsMarked(view, id);
    view.(requests := Read(view.requests, id),
          registered := view.registered[id := isCancelled],
          cancelled := view.cancelled + if isCancelled then {|view.requests|} else {})
  }

  ghost function CancelRun(view: View, c: nat): View
    requires c < |view.cancels|
  {
    var id := view.cancels[c].id;
    View(view.requests, view.cancels[c := view.cancels[c].(hasRun := true)],
         if id in view.registered then view.registered[id := true] else view.registered,
         view.cancelled + Hit(view.requests, id))
  }

  function Finished(view: View, k: nat): View
    requires k < |view.requests| && view.requests[k].phase.Resolved?
  {
    Moved(view, k, Done(view.requests[k].phase.answer)).(registered := view.registered - {view.requests[k].id})
  }

  /** What an event does. A cancel that finds its request open settles what the request answers. */
  ghost predicate Steps(before: View, event: Event, after: View) {
    match event
    case Ask(id) => after == if IsFree(before.requests, id) then Asked(before, id) else before
    case AskToCancel(id) => after == before.(cancels := before.cancels + [CancelTask(id, false)])
    case Cancelling(c) =>
      after == if c < |before.cancels| && !before.cancels[c].hasRun then CancelRun(before, c) else before
    case Rejecting(k) =>
      after == if Exists(before, k) && before.requests[k].phase.Waiting? then Moved(before, k, Done(Rejected))
          else before
    case Begin(k) =>
      if Exists(before, k) && before.requests[k].phase.Waiting? then
        exists token :: after == Moved(before, k, Sending(token, false))
      else after == before
    case Answering(k) =>
      after == if Exists(before, k) && before.requests[k].phase.Sending?
      then Moved(before, k, before.requests[k].phase.(isAnswered := true)) else before
    case Polling(k) =>
      if Exists(before, k) && before.requests[k].phase.Sending? && k in before.cancelled then
        after == Moved(before, k, Resolved(Cancelled))
      else if Exists(before, k) && before.requests[k].phase.Sending? && before.requests[k].phase.isAnswered then
        after == Moved(before, k, Resolved(Answered))
      else after == before
    case NoOrigin(k) =>
      after == if Exists(before, k) && before.requests[k].phase.Sending? then Moved(before, k, Resolved(NoServer))
          else before
    case Finishing(k) =>
      after == if Exists(before, k) && before.requests[k].phase.Resolved? then Finished(before, k) else before
  }

  // What every run keeps.

  /** Only what has been read is cancelled. */
  ghost predicate AllRead(requests: seq<Request>, cancelled: set<nat>) {
    forall k :: k in cancelled ==> k < |requests|
  }

  /** Only the last request with an id is in flight, and exactly the ids held are registered. */
  ghost predicate Registered(requests: seq<Request>, registered: map<string, bool>) {
    && (forall k :: InFlight(requests, k) ==> IsLast(requests, k))
    && (forall id :: id in registered <==> Holds(requests, id))
  }

  /** What a request answers, cancelled or not. */
  predicate Kept(answer: Answer, isCancelled: bool) {
    answer == NoServer || answer == Rejected || (answer == Cancelled <==> isCancelled)
  }

  /** An open request's registration is cancelled exactly when it was, and then it answers so. */
  ghost predicate Honoured(view: View) {
    && (forall k: nat ::
        InFlight(view.requests, k) && view.requests[k].id in view.registered && IsOpen(view.requests[k].phase) ==>
          (view.registered[view.requests[k].id] <==> k in view.cancelled))
    && (forall k: nat :: k < |view.requests| && !IsOpen(view.requests[k].phase) ==>
          Kept(view.requests[k].phase.answer, k in view.cancelled))
  }

  ghost predicate Sound(view: View) {
    && Registered(view.requests, view.registered) && Honoured(view) && AllRead(view.requests, view.cancelled)
    && (forall k :: 0 <= k < |view.requests| && view.requests[k].phase.Resolved? ==>
          view.requests[k].phase.answer != Rejected)
  }

  lemma InFlightIsRegistered(view: View, k: nat)
    requires Sound(view) && InFlight(view.requests, k)
    ensures view.requests[k].id in view.registered
    ensures IsOpen(view.requests[k].phase) ==> (view.registered[view.requests[k].id] <==> k in view.cancelled)
  {
    assert IsLast(view.requests, k);
  }

  lemma LastAfterAsk(requests: seq<Request>, id: string, j: int)
    ensures IsLast(Read(requests, id), j) <==> j == |requests| || (IsLast(requests, j) && requests[j].id != id)
  {
    var more := Read(requests, id);
    hide Read;
    if IsLast(requests, j) && requests[j].id != id {
      assert forall n :: j < n < |more| ==> more[n].id != more[j].id;
    }
    if IsLast(more, j) && j < |requests| {
      assert more[|requests|].id != more[j].id;
      assert forall n :: j < n < |requests| ==> more[n].id != more[j].id;
    }
  }

  lemma HeldAfterAsk(requests: seq<Request>, id: string, other: string)
    ensures Holds(Read(requests, id), other) <==> other == id || Holds(requests, other)
  {
    var more := Read(requests, id);
    hide Read;
    LastAfterAsk(requests, id, |requests|);
    if other == id {
      assert more[|requests|].id == other;
    } else {
      if Holds(requests, other) {
        var k :| IsLast(requests, k) && requests[k].id == other && KeepsRegistration(requests[k].phase);
        LastAfterAsk(requests, id, k);
        assert more[k].id == other;
      }
      if Holds(more, other) {
        var k :| IsLast(more, k) && more[k].id == other && KeepsRegistration(more[k].phase);
        LastAfterAsk(requests, id, k);
        assert requests[k].id == other;
      }
    }
  }

  lemma AskKeepsRegistered(requests: seq<Request>, id: string, registered: map<string, bool>, isCancelled: bool)
    requires Registered(requests, registered) && IsFree(requests, id)
    ensures Registered(Read(requests, id), registered[id := isCancelled])
  {
    var more := Read(requests, id);
    hide Read, IsLast, Holds;
    forall k | InFlight(more, k)
      ensures IsLast(more, k)
    {
      LastAfterAsk(requests, id, k);
      assert k < |requests| ==> InFlight(requests, k);
    }
    forall other
      ensures other in registered[id := isCancelled] <==> Holds(more, other)
    {
      HeldAfterAsk(requests, id, other);
    }
  }

  lemma AskKeepsHonoured(view: View, id: string)
    requires Sound(view) && IsFree(view.requests, id)
    ensures Honoured(Asked(view, id))
  {
    hide Kept, Read, Registered;
    var after := Asked(view, id);
    forall k: nat | InFlight(after.requests, k) && after.requests[k].id in after.registered
    && IsOpen(after.requests[k].phase)
      ensures after.registered[after.requests[k].id] <==> k in after.cancelled
    {
      if k < |view.requests| {
        assert InFlight(view.requests, k) && view.requests[k].id != id;
      }
    }
  }

  lemma AskKeeps(view: View, id: string)
    requires Sound(view) && IsFree(view.requests, id)
    ensures Sound(Asked(view, id))
  {
    AskKeepsRegistered(view.requests, id, view.registered, IsMarked(view, id));
    AskKeepsHonoured(view, id);
    hide Registered, Honoured, Read;
  }

  lemma CancelKeeps(view: View, c: nat)
    requires Sound(view) && c < |view.cancels|
    ensures Sound(CancelRun(view, c))
  {
    hide Kept, IsLast, Holds;
    var id, after := view.cancels[c].id, CancelRun(view, c);
    assert after.registered.Keys == view.registered.Keys;
    forall k: nat | k < |view.requests| && !IsOpen(view.requests[k].phase)
      ensures k in after.cancelled <==> k in view.cancelled
    {
    }
  }

  /** A handler's own step leaves the registrations as they are. */
  lemma MoveKeepsRegistered(requests: seq<Request>, k: nat, phase: Phase, registered: map<string, bool>)
    requires Registered(requests, registered) && InFlight(requests, k) && KeepsRegistration(phase)
    ensures Registered(With(requests, k, phase), registered)
  {
    var next := With(requests, k, phase);
    hide With;
    assert forall j :: IsLast(next, j) <==> IsLast(requests, j);
    assert forall j :: InFlight(next, j) ==> InFlight(requests, j);
    forall id
      ensures Holds(next, id) <==> Holds(requests, id)
    {
      if Holds(requests, id) {
        var j :| IsLast(requests, j) && requests[j].id == id && KeepsRegistration(requests[j].phase);
        assert IsLast(next, j) && next[j].id == id;
      }
      if Holds(next, id) {
        var j :| IsLast(next, j) && next[j].id == id && KeepsRegistration(next[j].phase);
        assert IsLast(requests, j) && requests[j].id == id;
      }
    }
  }

  lemma MoveKeeps(view: View, k: nat, phase: Phase)
    requires Sound(view) && InFlight(view.requests, k) && KeepsRegistration(phase) && phase != Resolved(Rejected)
    requires IsOpen(phase) ==> IsOpen(view.requests[k].phase)
    requires !IsOpen(phase) ==> Kept(phase.answer, k in view.cancelled)
    ensures Sound(Moved(view, k, phase))
  {
    MoveKeepsRegistered(view.requests, k, phase, view.registered);
    hide Kept, With, Registered;
  }

  /** A request that has finished leaves the registry, and only that. */
  lemma FinishKeepsRegistered(requests: seq<Request>, k: nat, answer: Answer, registered: map<string, bool>)
    requires Registered(requests, registered) && InFlight(requests, k) && answer != Rejected
    ensures Registered(With(requests, k, Done(answer)), registered - {requests[k].id})
  {
    var next := With(requests, k, Done(answer));
    hide With;
    assert forall j :: IsLast(next, j) <==> IsLast(requests, j);
    assert forall j :: InFlight(next, j) ==> InFlight(requests, j) && j != k;
    assert IsLast(requests, k);
    forall id
      ensures Holds(next, id) <==> Holds(requests, id) && id != requests[k].id
    {
      if Holds(requests, id) && id != requests[k].id {
        var j :| IsLast(requests, j) && requests[j].id == id && KeepsRegistration(requests[j].phase);
        assert IsLast(next, j) && next[j].id == id;
      }
      if Holds(next, id) {
        var j :| IsLast(next, j) && next[j].id == id && KeepsRegistration(next[j].phase);
        assert IsLast(requests, j) && requests[j].id == id && j != k;
      }
    }
  }

  lemma FinishKeeps(view: View, k: nat)
    requires Sound(view) && k < |view.requests| && view.requests[k].phase.Resolved?
    ensures Sound(Finished(view, k))
  {
    FinishKeepsRegistered(view.requests, k, view.requests[k].phase.answer, view.registered);
    hide Kept, With, Registered;
  }

  /** A handler that is sending has the token its id is registered with. */
  ghost predicate Tokened(requests: seq<Request>, tokens: map<string, Token>) {
    forall k :: InFlight(requests, k) && requests[k].phase.Sending? && requests[k].id in tokens ==>
      requests[k].phase.token == tokens[requests[k].id]
  }

  lemma AskKeepsTokened(requests: seq<Request>, id: string, before: map<string, Token>, tokens: map<string, Token>)
    requires Tokened(requests, before) && IsFree(requests, id)
    requires id in tokens && tokens == before[id := tokens[id]]
    ensures Tokened(Read(requests, id), tokens)
  {
    hide Read;
    var more := Read(requests, id);
    assert forall k :: InFlight(more, k) && k < |requests| ==> InFlight(requests, k) && requests[k].id != id;
  }

  lemma FinishKeepsTokened(requests: seq<Request>, k: nat, answer: Answer, tokens: map<string, Token>)
    requires Tokened(requests, tokens) && k < |requests|
    ensures Tokened(With(requests, k, Done(answer)), tokens - {requests[k].id})
  {
    hide With;
    var next := With(requests, k, Done(answer));
    assert forall j :: InFlight(next, j) ==> InFlight(requests, j) && next[j].phase == requests[j].phase;
  }

  class Core {
    const registry: HttpRequestCancellations
    var requests: seq<Request>
    var cancels: seq<CancelTask>
    /** The requests a cancel found open, or that began with a registration already cancelled. */
    ghost var cancelled: set<nat>

    ghost function Seen(): View
      reads this, registry
    {
      View(requests, cancels, Registrations(registry.tokens, registry.fired), cancelled)
    }

    ghost predicate Valid()
      reads this, registry
    {
      registry.Valid() && Sound(Seen()) && Tokened(requests, registry.tokens)
    }

    constructor ()
      ensures Valid() && fresh(registry) && Seen() == View([], [], map[], {})
    {
      registry := new HttpRequestCancellations();
      requests, cancels := [], [];
      cancelled := {};
    }

    /** The reader registers the request, then spawns its handler. */
    method ReadRequest(id: string)
      requires Valid() && IsFree(requests, id)
      modifies this`requests, this`cancelled, registry
      ensures Valid() && Seen() == Asked(old(Seen()), id)
    {
      AskKeeps(Seen(), id);
      ghost var isCancelled, before := IsMarked(Seen(), id), registry.tokens;
      hide Sound, Read, Tokened, Registrations, IsFree;
      var token := registry.Begin(id);
      RegistrationsAfterBegin(before, registry.tokens, registry.fired, id);
      AskKeepsTokened(requests, id, before, registry.tokens);
      cancelled := cancelled + if isCancelled then {|requests|} else {};
      requests := Read(requests, id);
      assert Seen() == Asked(old(Seen()), id);
    }

    method ReadCancel(id: string)
      requires Valid()
      modifies this`cancels
      ensures Valid() && Seen() == old(Seen()).(cancels := old(cancels) + [CancelTask(id, false)])
    {
      hide Registered;
      cancels := cancels + [CancelTask(id, false)];
    }

    /** A cancel's task: the request with its id is cancelled if it is still open, and no other. */
    method RunCancel(c: nat)
      requires Valid() && c < |cancels| && !cancels[c].hasRun
      modifies this`cancels, this`cancelled, registry
      ensures Valid() && Seen() == CancelRun(old(Seen()), c)
    {
      CancelKeeps(Seen(), c);
      hide Sound;
      var cancel := cancels[c];
      ghost var fired := registry.fired;
      registry.Cancel(cancel.id);
      RegistrationsAfterCancel(registry.tokens, fired, cancel.id);
      cancels := cancels[c := cancel.(hasRun := true)];
      cancelled := cancelled + Hit(requests, cancel.id);
      assert Seen() == CancelRun(old(Seen()), c);
    }

    /** The line's arguments cannot be read: it is answered, and its registration stays. */
    method Reject(k: nat)
      requires Valid() && k < |requests| && requests[k].phase.Waiting?
      modifies this`requests
      ensures Valid() && Seen() == Moved(old(Seen()), k, Done(Rejected))
    {
      SetPhase(k, Done(Rejected));
    }

    /** The handler gets the token the reader registered. */
    method BeginSend(k: nat)
      requires Valid() && k < |requests| && requests[k].phase.Waiting?
      modifies this`requests, registry
      ensures Valid() && old(requests)[k].id in registry.tokens
      ensures Seen() == Moved(old(Seen()), k, Sending(registry.tokens[old(requests)[k].id], false))
    {
      InFlightIsRegistered(Seen(), k);
      hide Sound;
      var token := registry.Begin(requests[k].id);
      SetPhase(k, Sending(token, false));
    }

    method SetPhase(k: nat, phase: Phase)
      requires Valid() && InFlight(requests, k) && KeepsRegistration(phase) && phase != Resolved(Rejected)
      requires phase.Sending? && requests[k].id in registry.tokens ==> phase.token == registry.tokens[requests[k].id]
      requires IsOpen(phase) ==> IsOpen(requests[k].phase)
      requires !IsOpen(phase) ==> Kept(phase.answer, k in cancelled)
      modifies this`requests
      ensures Valid() && Seen() == Moved(old(Seen()), k, phase)
    {
      MoveKeeps(Seen(), k, phase);
      hide Sound;
      requests := With(requests, k, phase);
      assert Seen() == Moved(old(Seen()), k, phase);
    }

    /** The Music Server's answer is there. */
    method ReceiveAnswer(k: nat)
      requires Valid() && k < |requests| && requests[k].phase.Sending?
      modifies this`requests
      ensures Valid() && Seen() == Moved(old(Seen()), k, old(requests)[k].phase.(isAnswered := true))
    {
      hide Sound;
      SetPhase(k, requests[k].phase.(isAnswered := true));
    }

    /** The biased select: a fired token wins over an answer that is there. */
    method Poll(k: nat)
      requires Valid() && k < |requests| && requests[k].phase.Sending?
      modifies this`requests
      ensures Valid()
      ensures Seen() == if k in cancelled then Moved(old(Seen()), k, Resolved(Cancelled))
                        else if old(requests)[k].phase.isAnswered then Moved(old(Seen()), k, Resolved(Answered))
                        else old(Seen())
    {
      InFlightIsRegistered(Seen(), k);
      hide Sound;
      if requests[k].phase.token in registry.fired {
        SetPhase(k, Resolved(Cancelled));
      } else if requests[k].phase.isAnswered {
        SetPhase(k, Resolved(Answered));
      }
    }

    /** No Music Server is configured: the request is not sent. */
    method RefuseWithoutServer(k: nat)
      requires Valid() && k < |requests| && requests[k].phase.Sending?
      modifies this`requests
      ensures Valid() && Seen() == Moved(old(Seen()), k, Resolved(NoServer))
    {
      hide Sound;
      SetPhase(k, Resolved(NoServer));
    }

    method Finish(k: nat)
      requires Valid() && k < |requests| && requests[k].phase.Resolved?
      modifies this`requests, registry
      ensures Valid() && Seen() == Finished(old(Seen()), k)
      ensures registry.tokens == old(registry.tokens) - {old(requests)[k].id}
    {
      FinishKeeps(Seen(), k);
      FinishKeepsTokened(requests, k, requests[k].phase.answer, registry.tokens);
      RegistrationsAfterFinish(registry.tokens, registry.fired, requests[k].id);
      hide Sound, With, Tokened, Registrations;
      registry.Finish(requests[k].id);
      requests := With(requests, k, Done(requests[k].phase.answer));
      assert Seen() == Finished(old(Seen()), k);
    }
  }

  /** What the registry shows: which ids are registered, and whose token is fired. */
  function Registrations(tokens: map<string, Token>, fired: set<Token>): map<string, bool> {
    map id | id in tokens :: tokens[id] in fired
  }

  lemma RegistrationsAfterBegin(before: map<string, Token>, tokens: map<string, Token>, fired: set<Token>, id: string)
    requires id in tokens && tokens == before[id := tokens[id]]
    requires if id in before then tokens == before else tokens[id] !in fired
    ensures var registered := Registrations(before, fired);
            Registrations(tokens, fired) == registered[id := id in registered && registered[id]]
  {
  }

  lemma RegistrationsAfterFinish(tokens: map<string, Token>, fired: set<Token>, id: string)
    ensures Registrations(tokens - {id}, fired) == Registrations(tokens, fired) - {id}
  {
  }

  lemma RegistrationsAfterCancel(tokens: map<string, Token>, fired: set<Token>, id: string)
    requires forall one, other :: one in tokens && other in tokens && tokens[one] == tokens[other] ==> one == other
    ensures Registrations(tokens, fired + if id in tokens then {tokens[id]} else {})
            == if id in tokens then Registrations(tokens, fired)[id := true] else Registrations(tokens, fired)
  {
  }

  /** The views of a run, from nothing read to after its last event. */
  ghost predicate IsRun(events: seq<Event>, views: seq<View>) {
    && |views| == |events| + 1 && views[0] == View([], [], map[], {})
    && forall i :: 0 <= i < |events| ==> Steps(views[i], events[i], views[i + 1])
  }

  /** The request is cancelled, and never answers with the server's response. */
  ghost predicate IsCancelled(view: View, k: nat) {
    && k < |view.requests| && k in view.cancelled
    && (IsOpen(view.requests[k].phase) || view.requests[k].phase.answer != Answered)
  }

  lemma StepKeepsCancelled(before: View, event: Event, after: View, k: nat)
    requires Steps(before, event, after) && IsCancelled(before, k)
    ensures IsCancelled(after, k) && after.requests[k].id == before.requests[k].id
  {
    hide Hit, IsFree;
  }

  /** Event `i` of the run is a cancel's task that finds request `k` open. */
  ghost predicate FindsOpen(events: seq<Event>, views: seq<View>, i: nat, k: nat)
    requires i < |events| < |views|
  {
    && events[i].Cancelling? && events[i].cancel < |views[i].cancels| && !views[i].cancels[events[i].cancel].hasRun
    && k in Hit(views[i].requests, views[i].cancels[events[i].cancel].id)
  }

  /** A request that was open when its cancel ran never answers with the server's response. */
  lemma {:induction false} CancelIsNotLost(events: seq<Event>, views: seq<View>, i: nat, j: nat, k: nat)
    requires IsRun(events, views) && i < j <= |events| && FindsOpen(events, views, i, k)
    ensures IsCancelled(views[j], k)
    decreases j
  {
    hide Hit, IsFree;
    assert Steps(views[j - 1], events[j - 1], views[j]);
    if i + 1 < j {
      CancelIsNotLost(events, views, i, j - 1, k);
      StepKeepsCancelled(views[j - 1], events[j - 1], views[j], k);
    }
  }

  /** What has been read keeps its place and its id. */
  ghost predicate Grows(before: View, after: View) {
    && |before.requests| <= |after.requests| && |before.cancels| <= |after.cancels|
    && (forall k :: 0 <= k < |before.requests| ==> after.requests[k].id == before.requests[k].id)
    && (forall c :: 0 <= c < |before.cancels| ==> after.cancels[c].id == before.cancels[c].id)
  }

  lemma StepGrows(before: View, event: Event, after: View)
    requires Steps(before, event, after)
    ensures Grows(before, after)
  {
    hide Hit, IsFree;
  }

  lemma {:induction false} RunGrows(events: seq<Event>, views: seq<View>, i: nat, j: nat)
    requires IsRun(events, views) && i <= j <= |events|
    ensures Grows(views[i], views[j])
    decreases j
  {
    if i < j {
      RunGrows(events, views, i, j - 1);
      StepGrows(views[j - 1], events[j - 1], views[j]);
    }
  }

  /**
   The cancel's line is read after the request's, and its task runs before the
   request has an answer: from then on the request is cancelled.
   */
  lemma CancelReachesItsRequest(events: seq<Event>, views: seq<View>, id: string, asked: nat, told: nat, run: nat,
          j: nat)
    requires IsRun(events, views) && asked < told < run < j <= |events|
    requires events[asked] == Ask(id) && IsFree(views[asked].requests, id)
    requires events[told] == AskToCancel(id) && events[run] == Cancelling(|views[told].cancels|)
    ensures var request, cancel := |views[asked].requests|, |views[told].cancels|;
            && request < |views[run].requests| && cancel < |views[run].cancels|
            && (IsOpen(views[run].requests[request].phase) && !views[run].cancels[cancel].hasRun ==>
                IsCancelled(views[j], request))
  {
    var request, cancel := |views[asked].requests|, |views[told].cancels|;
    assert Steps(views[asked], events[asked], views[asked + 1]) && Steps(views[told], events[told], views[told + 1]);
    assert views[asked + 1].requests[request].id == id && views[told + 1].cancels[cancel].id == id;
    hide Steps, Hit, IsFree;
    RunGrows(events, views, asked + 1, run);
    RunGrows(events, views, told + 1, run);
    if IsOpen(views[run].requests[request].phase) && !views[run].cancels[cancel].hasRun {
      CancelIsNotLost(events, views, run, j, request);
    }
  }

  lemma StepKeepsSound(before: View, event: Event, after: View)
    requires Steps(before, event, after) && Sound(before)
    ensures Sound(after)
  {
    match event {
      case Ask(id) => if IsFree(before.requests, id) { AskKeeps(before, id); }
      case AskToCancel(_) =>
      case Cancelling(c) => if c < |before.cancels| { CancelKeeps(before, c); }
      case Finishing(k) =>
        if Exists(before, k) && before.requests[k].phase.Resolved? { FinishKeeps(before, k); }
      case Rejecting(k) =>
        if Exists(before, k) && before.requests[k].phase.Waiting? { MoveKeeps(before, k, after.requests[k].phase); }
      case Begin(k) =>
        if Exists(before, k) && before.requests[k].phase.Waiting? { MoveKeeps(before, k, after.requests[k].phase); }
      case Answering(k) =>
        if Exists(before, k) && before.requests[k].phase.Sending? { MoveKeeps(before, k, after.requests[k].phase); }
      case NoOrigin(k) =>
        if Exists(before, k) && before.requests[k].phase.Sending? { MoveKeeps(before, k, after.requests[k].phase); }
      case Polling(k) =>
        if after != before {
          InFlightIsRegistered(before, k);
          MoveKeeps(before, k, after.requests[k].phase);
        }
    }
  }

  lemma {:induction false} RunIsSound(events: seq<Event>, views: seq<View>, j: nat)
    requires IsRun(events, views) && j <= |events|
    ensures Sound(views[j])
  {
    if j > 0 {
      RunIsSound(events, views, j - 1);
      StepKeepsSound(views[j - 1], events[j - 1], views[j]);
    }
  }

  /** Once every request has its answer, exactly the ids whose last request was rejected are still registered. */
  lemma RejectedStayRegistered(events: seq<Event>, views: seq<View>, j: nat, id: string)
    requires IsRun(events, views) && j <= |events|
    requires forall k :: 0 <= k < |views[j].requests| ==> views[j].requests[k].phase.Done?
    ensures id in views[j].registered <==>
              exists k :: IsLast(views[j].requests, k) && views[j].requests[k] == Request(id, Done(Rejected))
  {
    RunIsSound(events, views, j);
    assert id in views[j].registered <==> Holds(views[j].requests, id);
  }

  /** Event `i` is a cancel's task for the id. */
  ghost predicate Cancels(events: seq<Event>, views: seq<View>, i: nat, id: string)
    requires i < |events| < |views|
  {
    && events[i].Cancelling? && events[i].cancel < |views[i].cancels| && !views[i].cancels[events[i].cancel].hasRun
    && views[i].cancels[events[i].cancel].id == id
  }

  lemma StepMarks(events: seq<Event>, views: seq<View>, i: nat, id: string)
    requires IsRun(events, views) && i < |events|
    ensures IsMarked(views[i + 1], id) <==>
              && id in views[i].registered && id in views[i + 1].registered
              && (IsMarked(views[i], id) || Cancels(events, views, i, id))
  {
    assert Steps(views[i], events[i], views[i + 1]);
    hide Hit, IsFree, IsRun;
  }

  /** A cancel's task for the id has run since it was last registered anew. */
  ghost predicate CancelledSince(events: seq<Event>, views: seq<View>, i: nat, j: nat, id: string)
    requires i < j <= |events| < |views|
  {
    Cancels(events, views, i, id) && forall n :: i <= n <= j ==> id in views[n].registered
  }

  lemma {:induction false} MarkedIffCancelledSince(events: seq<Event>, views: seq<View>, j: nat, id: string)
    requires IsRun(events, views) && j <= |events|
    ensures IsMarked(views[j], id) <==> exists i: nat :: i < j && CancelledSince(events, views, i, j, id)
  {
    if j > 0 {
      MarkedIffCancelledSince(events, views, j - 1, id);
      StepMarks(events, views, j - 1, id);
      hide IsRun, Cancels;
      if IsMarked(views[j], id) {
        if IsMarked(views[j - 1], id) {
          var i: nat :| i < j - 1 && CancelledSince(events, views, i, j - 1, id);
          assert CancelledSince(events, views, i, j, id);
        } else {
          assert CancelledSince(events, views, j - 1, j, id);
        }
      } else if exists i: nat :: i < j && CancelledSince(events, views, i, j, id) {
        var i: nat :| i < j && CancelledSince(events, views, i, j, id);
        assert i < j - 1 ==> CancelledSince(events, views, i, j - 1, id);
      }
    }
  }

  /**
   A request that is read starts cancelled exactly when its id stayed registered
   from an earlier request, which can only have been rejected, and a cancel for the
   id has run since. Otherwise a reused id starts uncancelled.
   */
  lemma StartsCancelled(events: seq<Event>, views: seq<View>, asked: nat, id: string)
    requires IsRun(events, views) && asked < |events| && events[asked] == Ask(id) && IsFree(views[asked].requests, id)
    ensures |views[asked].requests| in views[asked + 1].cancelled <==>
              exists i: nat :: i < asked && CancelledSince(events, views, i, asked, id)
    ensures id in views[asked].registered <==>
              exists k :: IsLast(views[asked].requests, k) && views[asked].requests[k] == Request(id, Done(Rejected))
  {
    RunIsSound(events, views, asked);
    MarkedIffCancelledSince(events, views, asked, id);
    assert Steps(views[asked], events[asked], views[asked + 1]);
    assert id in views[asked].registered <==> Holds(views[asked].requests, id);
    hide IsRun, CancelledSince;
  }

  /** Event `i` reads request `k`, whose id is registered and cancelled already. */
  ghost predicate ReadsCancelled(events: seq<Event>, views: seq<View>, i: nat, k: nat)
    requires i < |events| < |views|
  {
    && events[i].Ask? && IsFree(views[i].requests, events[i].id) && k == |views[i].requests|
    && IsMarked(views[i], events[i].id)
  }

  lemma {:induction false} CancelledByTask(events: seq<Event>, views: seq<View>, j: nat, k: nat)
    requires IsRun(events, views) && j <= |events| && k in views[j].cancelled
    ensures exists i: nat :: i < j && (FindsOpen(events, views, i, k) || ReadsCancelled(events, views, i, k))
  {
    assert j > 0;
    assert Steps(views[j - 1], events[j - 1], views[j]);
    if k in views[j - 1].cancelled {
      CancelledByTask(events, views, j - 1, k);
    } else {
      hide IsFree, Hit, IsRun;
      assert FindsOpen(events, views, j - 1, k) || ReadsCancelled(events, views, j - 1, k);
    }
  }

  /** A request answers as cancelled only if a cancel with its id found it open, or if it started cancelled. */
  lemma OnlyItsCancel(events: seq<Event>, views: seq<View>, j: nat, k: nat)
    requires IsRun(events, views) && j <= |events| && k < |views[j].requests|
    requires !IsOpen(views[j].requests[k].phase) && views[j].requests[k].phase.answer == Cancelled
    ensures exists i: nat :: i < j && (FindsOpen(events, views, i, k) || ReadsCancelled(events, views, i, k))
  {
    RunIsSound(events, views, j);
    assert Kept(views[j].requests[k].phase.answer, k in views[j].cancelled);
    CancelledByTask(events, views, j, k);
  }

  const INHERITED_EVENTS :=
    [Ask("a"), Rejecting(0), AskToCancel("a"), Cancelling(0), Ask("a"), Begin(1), Polling(1)]

  function InheritedViews(): seq<View> {
    var rejected, cancel := Request("a", Done(Rejected)), CancelTask("a", true);
    [View([], [], map[], {}),
     View([Request("a", Waiting)], [], map["a" := false], {}),
     View([rejected], [], map["a" := false], {}),
     View([rejected], [CancelTask("a", false)], map["a" := false], {}),
     View([rejected], [cancel], map["a" := true], {}),
     View([rejected, Request("a", Waiting)], [cancel], map["a" := true], {1}),
     View([rejected, Request("a", Sending(0, false))], [cancel], map["a" := true], {1}),
     View([rejected, Request("a", Resolved(Cancelled))], [cancel], map["a" := true], {1})]
  }

  /**
   So a cancel can reach a request read after it ran: the id of a request that was
   rejected stays registered, the cancel fires its token, and the next request with
   the id is answered as cancelled though no cancel ever found it open.
   */
  lemma CancelIsInherited()
    ensures IsRun(INHERITED_EVENTS, InheritedViews())
    ensures InheritedViews()[7].requests[1].phase == Resolved(Cancelled)
    ensures forall i: nat :: i < 7 ==> !FindsOpen(INHERITED_EVENTS, InheritedViews(), i, 1)
  {
    var events, views := INHERITED_EVENTS, InheritedViews();
    forall i | 0 <= i < 7
      ensures Steps(views[i], events[i], views[i + 1])
    {
      InheritedStep(i);
    }
  }

  lemma InheritedStep(i: nat)
    requires i < 7
    ensures Steps(InheritedViews()[i], INHERITED_EVENTS[i], InheritedViews()[i + 1])
  {
    var before, after := InheritedViews()[i], InheritedViews()[i + 1];
    if i == 0 {
      assert Asked(before, "a") == after;
    } else if i == 1 {
      assert Moved(before, 0, Done(Rejected)) == after;
    } else if i == 3 {
      assert CancelRun(before, 0) == after;
    } else if i == 4 {
      assert Asked(before, "a") == after;
    } else if i == 5 {
      assert Moved(before, 1, Sending(0, false)) == after;
    } else if i == 6 {
      assert Moved(before, 1, Resolved(Cancelled)) == after;
    }
  }

  method Step(core: Core, event: Event)
    requires core.Valid()
    modifies core, core.registry
    ensures core.Valid() && Steps(old(core.Seen()), event, core.Seen())
  {
    hide Sound, HttpRequestCancellations.Valid, Core.Valid;
    match event {
      case Ask(id) =>
        if IsFree(core.requests, id) { core.ReadRequest(id); }
      case AskToCancel(id) =>
        core.ReadCancel(id);
      case Cancelling(c) =>
        if c < |core.cancels| && !core.cancels[c].hasRun { core.RunCancel(c); }
      case Rejecting(k) =>
        if k < |core.requests| && core.requests[k].phase.Waiting? { core.Reject(k); }
      case Begin(k) =>
        if k < |core.requests| && core.requests[k].phase.Waiting? { core.BeginSend(k); }
      case Answering(k) =>
        if k < |core.requests| && core.requests[k].phase.Sending? { core.ReceiveAnswer(k); }
      case Polling(k) =>
        if k < |core.requests| && core.requests[k].phase.Sending? { core.Poll(k); }
      case NoOrigin(k) =>
        if k < |core.requests| && core.requests[k].phase.Sending? { core.RefuseWithoutServer(k); }
      case Finishing(k) =>
        if k < |core.requests| && core.requests[k].phase.Resolved? { core.Finish(k); }
    }
  }

  /**
   Every interleaving of the reader with the tasks of the requests and the cancels,
   as long as no id is used again while in flight, is a run of the events without
   tokens, for which the lemmas above say what is cancelled. A registration goes with
   its request, unless the request was rejected.
   */
  method Run(events: seq<Event>) returns (core: Core, ghost views: seq<View>)
    ensures core.Valid() && IsRun(events, views) && core.Seen() == views[|events|]
    ensures forall id :: id in core.registry.tokens <==> Holds(core.requests, id)
  {
    core := new Core();
    views := [core.Seen()];
    for i := 0 to |events|
      invariant fresh(core) && fresh(core.registry) && core.Valid()
      invariant IsRun(events[..i], views) && core.Seen() == views[i]
    {
      hide Steps, Core.Valid;
      Step(core, events[i]);
      views := views + [core.Seen()];
      assert events[..i + 1] == events[..i] + [events[i]];
    }
    assert events[..|events|] == events;
    assert forall id :: id in core.registry.tokens <==> id in core.Seen().registered;
  }
}
