/**
 The server's side of the queue events: mutations that publish what they read back,
 and the stream of one subscriber, which first sends the current state and then the
 newest publication it has not sent (server/src/modules/playback/handlers.rs:79-110,
 266-305; server/src/modules/playback/events.rs:48-79).
 */
module QueueServer {
  import opened Outcomes
  import opened QueueEvents
  import opened QueueStream

  /**
   One connection: the newest event when it was opened, what it has sent, and what it
   was offered to send. Events are told by their sequence, their place in the log.
   */
  datatype Connection = Connection(newest: nat, sent: seq<nat>, offered: seq<nat>)

  /**
   `read` holds what mutations have read back, and `watch` what is published to the
   subscriber and not sent. A reconnect drops the stream there was.
   */
  datatype Server = Server(current: nat, read: set<nat>, watch: Option<nat>, past: seq<Connection>,
      stream: Option<Connection>)

  datatype Event = Commit | ReadBack | Publish(sequence: nat) | Open | SendFirst | SendChanged

  predicate IsSending(server: Server) {
    server.stream.Some? && server.stream.value.sent != []
  }

  function Waiting(server: Server): seq<nat> {
    if server.watch.Some? then [server.watch.value] else []
  }

  function Streaming(server: Server): seq<Connection> {
    if server.stream.Some? then [server.stream.value] else []
  }

  function Connections(server: Server): seq<Connection> {
    server.past + Streaming(server)
  }

  function Next(server: Server, event: Event): Server {
    match event
    case Commit => server.(current := server.current + 1)
    case ReadBack => server.(read := server.read + {server.current})
    case Publish(sequence) =>
      if server.stream.None? || sequence !in server.read then server
      else if !IsSending(server) then server.(watch := Some(sequence))
      else
        var stream := server.stream.value;
        server.(watch := Some(sequence), stream := Some(stream.(offered := stream.offered + [sequence])))
    case Open => server.(watch := None, past := Connections(server), stream := Some(Connection(server.current, [], [])))
    case SendFirst =>
      if server.stream.None? || IsSending(server) then server else
      server.(stream := Some(server.stream.value.(sent := [server.current],
          offered := [server.current] + Waiting(server))))
    case SendChanged =>
      if !IsSending(server) || server.watch.None? then server else
      var stream := server.stream.value;
      server.(watch := None, stream := Some(stream.(sent := stream.sent + [server.watch.value])))
  }

  function After(server: Server, events: seq<Event>): Server {
    if events == [] then server else Next(After(server, events[..|events| - 1]), events[|events| - 1])
  }

  const START := Server(0, {}, None, [], None)

  /** Everything here was current at some time. */
  ghost predicate Past(server: Server) {
    && (forall sequence :: sequence in server.read ==> sequence <= server.current)
    && (server.watch.Some? ==> server.watch.value <= server.current)
  }

  predicate AtMost(places: seq<nat>, bound: nat) {
    forall i :: 0 <= i < |places| ==> places[i] <= bound
  }

  /** It starts at or after the newest event at its opening, and sends nothing that is not there yet. */
  ghost predicate StartsForward(connection: Connection, current: nat) {
    && connection.newest <= current && AtMost(connection.sent, current)
    && (connection.sent != [] ==> connection.newest <= connection.sent[0])
  }

  /** A connection's start is after all that was sent before. */
  ghost predicate Forward(current: nat, connections: seq<Connection>) {
    && (forall n :: 0 <= n < |connections| ==> StartsForward(connections[n], current))
    && (forall m, n :: 0 <= m < n < |connections| ==> AtMost(connections[m].sent, connections[n].newest))
  }

  lemma OneMoreForward(before: nat, current: nat, connections: seq<Connection>, connection: Connection)
    requires Forward(before, connections) && before <= current && StartsForward(connection, current)
    requires forall m :: 0 <= m < |connections| ==> AtMost(connections[m].sent, connection.newest)
    ensures Forward(current, connections + [connection])
  {
  }

  lemma PartIsForward(current: nat, connections: seq<Connection>, connection: Connection)
    requires Forward(current, connections + [connection])
    ensures Forward(current, connections) && StartsForward(connection, current)
    ensures forall m :: 0 <= m < |connections| ==> AtMost(connections[m].sent, connection.newest)
  {
    var all := connections + [connection];
    assert all[|connections|] == connection;
    assert forall n :: 0 <= n < |connections| ==> all[n] == connections[n];
  }

  lemma StepIsForward(server: Server, event: Event)
    requires Past(server) && Forward(server.current, Connections(server))
    ensures Past(Next(server, event)) && Forward(Next(server, event).current, Connections(Next(server, event)))
  {
    var next := Next(server, event);
    if server.stream.Some? {
      PartIsForward(server.current, server.past, server.stream.value);
    }
    assert server.stream.None? ==> Connections(server) == server.past;
    if event.Open? {
      OneMoreForward(server.current, server.current, Connections(server), next.stream.value);
    } else if server.stream.Some? {
      StartStays(server, event);
      OneMoreForward(server.current, next.current, server.past, next.stream.value);
    }
  }

  lemma StartStays(server: Server, event: Event)
    requires Past(server) && server.stream.Some? && StartsForward(server.stream.value, server.current) && !event.Open?
    ensures var next := Next(server, event);
            && next.past == server.past && next.stream.Some? && next.stream.value.newest == server.stream.value.newest
            && StartsForward(next.stream.value, next.current)
  {
  }

  /** Whatever mutations overlap, no connection starts before anything an earlier one sent. */
  lemma {:induction false} ConnectionsStartForward(server: Server, events: seq<Event>)
    requires Past(server) && Connections(server) == []
    ensures var after := After(server, events);
            Past(after) && Forward(after.current, Connections(after))
  {
    if events != [] {
      ConnectionsStartForward(server, events[..|events| - 1]);
      StepIsForward(After(server, events[..|events| - 1]), events[|events| - 1]);
    }
  }

  predicate Rises(places: seq<nat>, i: int) {
    0 < i < |places| && places[i - 1] <= places[i]
  }

  predicate Nondecreasing(places: seq<nat>) {
    forall i :: 0 < i < |places| ==> Rises(places, i)
  }

  lemma RisesInBoth(before: seq<nat>, part: seq<nat>, i: int)
    ensures 0 < i < |before| ==> (Rises(before + part, i) <==> Rises(before, i))
    ensures 0 < i < |part| ==> (Rises(before + part, |before| + i) <==> Rises(part, i))
    ensures before != [] && part != [] ==> (Rises(before + part, |before|) <==> before[|before| - 1] <= part[0])
  {
  }

  lemma NondecreasingBoth(before: seq<nat>, part: seq<nat>)
    ensures Nondecreasing(before + part) <==>
              && Nondecreasing(before) && Nondecreasing(part)
              && (before != [] && part != [] ==> before[|before| - 1] <= part[0])
  {
    var both := before + part;
    hide Rises;
    RisesInBoth(before, part, 0);
    if Nondecreasing(both) {
      forall i | 0 < i < |before|
        ensures Rises(before, i)
      {
        RisesInBoth(before, part, i);
      }
      forall i | 0 < i < |part|
        ensures Rises(part, i)
      {
        RisesInBoth(before, part, i);
        assert Rises(both, |before| + i);
      }
      assert before != [] && part != [] ==> Rises(both, |before|);
    }
    if Nondecreasing(before) && Nondecreasing(part)
        && (before != [] && part != [] ==> before[|before| - 1] <= part[0]) {
      forall i | 0 < i < |both|
        ensures Rises(both, i)
      {
        RisesInBoth(before, part, i);
        RisesInBoth(before, part, i - |before|);
      }
    }
  }

  /** What is sent is some of what is offered, in order. */
  ghost predicate SomeOf(connection: Connection) {
    connection.sent != [] ==>
      && connection.offered != []
      && (Nondecreasing(connection.offered) ==>
            && Nondecreasing(connection.sent)
            && connection.sent[|connection.sent| - 1] <= connection.offered[|connection.offered| - 1])
  }

  /** And what is waiting is the last of it. */
  ghost predicate SendsOffered(server: Server) {
    && (forall n :: 0 <= n < |server.past| ==> SomeOf(server.past[n]))
    && (server.stream.Some? ==> SomeOf(server.stream.value))
    && (IsSending(server) && server.watch.Some? ==>
          var offered := server.stream.value.offered;
          offered != [] && offered[|offered| - 1] == server.watch.value)
  }

  lemma OneRises(place: nat)
    ensures Nondecreasing([]) && Nondecreasing([place])
  {
  }

  lemma StepSendsOffered(server: Server, event: Event)
    requires Past(server) && SendsOffered(server)
    ensures SendsOffered(Next(server, event))
  {
    OneRises(server.current);
    NondecreasingBoth([server.current], Waiting(server));
    if server.stream.Some? && event.Publish? {
      NondecreasingBoth(server.stream.value.offered, [event.sequence]);
    }
    if server.stream.Some? && server.watch.Some? {
      OneRises(server.watch.value);
      NondecreasingBoth(server.stream.value.sent, [server.watch.value]);
    }
    hide Nondecreasing;
  }

  /** A connection never goes back if what it is offered does not. */
  lemma {:induction false} SentIsOffered(server: Server, events: seq<Event>)
    requires Past(server) && Connections(server) == []
    ensures SendsOffered(After(server, events))
  {
    if events != [] {
      var earlier := events[..|events| - 1];
      SentIsOffered(server, earlier);
      ConnectionsStartForward(server, earlier);
      StepSendsOffered(After(server, earlier), events[|events| - 1]);
    }
  }

  /** The publication that is about to be sent is older than what was sent last. */
  predicate IsOvertaken(server: Server) {
    IsSending(server) && server.watch.Some?
    && server.watch.value < server.stream.value.sent[|server.stream.value.sent| - 1]
  }

  /** No publication is sent when it is overtaken; one replaced before it is sent counts for nothing. */
  predicate NoneOvertaken(server: Server, events: seq<Event>) {
    events == []
    || (NoneOvertaken(server, events[..|events| - 1])
        && (events[|events| - 1].SendChanged? ==> !IsOvertaken(After(server, events[..|events| - 1]))))
  }

  ghost predicate AllRise(server: Server) {
    && (forall n :: 0 <= n < |server.past| ==> Nondecreasing(server.past[n].sent))
    && (server.stream.Some? ==> Nondecreasing(server.stream.value.sent))
  }

  lemma StepRises(server: Server, event: Event)
    ensures AllRise(Next(server, event)) <==> AllRise(server) && (event.SendChanged? ==> !IsOvertaken(server))
  {
    OneRises(server.current);
    if server.stream.Some? && server.watch.Some? {
      OneRises(server.watch.value);
      NondecreasingBoth(server.stream.value.sent, [server.watch.value]);
    }
    hide Nondecreasing;
    var all := Connections(server);
    if event.Open? && AllRise(Next(server, event)) {
      forall n | 0 <= n < |server.past|
        ensures Nondecreasing(server.past[n].sent)
      {
        assert all[n] == server.past[n] && Nondecreasing(all[n].sent);
      }
      if server.stream.Some? {
        assert all[|server.past|] == server.stream.value && Nondecreasing(all[|server.past|].sent);
      }
    }
  }

  /** No connection goes back exactly when no publication that reaches it has been overtaken, coalescing or not. */
  lemma {:induction false} RisesIffNoneOvertaken(server: Server, events: seq<Event>)
    requires Connections(server) == []
    ensures AllRise(After(server, events)) <==> NoneOvertaken(server, events)
  {
    hide IsOvertaken, Nondecreasing;
    if events != [] {
      RisesIffNoneOvertaken(server, events[..|events| - 1]);
      StepRises(After(server, events[..|events| - 1]), events[|events| - 1]);
    }
  }

  /** Once the current state is sent, no publication finds another still waiting. */
  predicate Promptly(server: Server, event: Event) {
    event.Publish? && IsSending(server) ==> server.watch.None?
  }

  predicate IsPrompt(server: Server, events: seq<Event>) {
    events == []
    || (IsPrompt(server, events[..|events| - 1])
        && Promptly(After(server, events[..|events| - 1]), events[|events| - 1]))
  }

  /** A stream that keeps up sends all it is offered: whether it goes back is then up to that alone. */
  lemma {:induction false} PromptStreamSendsAll(server: Server, events: seq<Event>)
    requires server.stream == None && IsPrompt(server, events)
    ensures var after := After(server, events);
            IsSending(after) ==>
              && after.stream.value.sent + Waiting(after) == after.stream.value.offered
              && (Nondecreasing(after.stream.value.sent + Waiting(after))
                  <==> Nondecreasing(after.stream.value.offered))
  {
    hide Nondecreasing;
    if events != [] {
      PromptStreamSendsAll(server, events[..|events| - 1]);
    }
  }

  /** A mutation publishes what is current, and a publication waiting for the first send is current. */
  predicate IsFresh(server: Server, event: Event) {
    && (event.Publish? ==> event.sequence == server.current)
    && (event.SendFirst? && server.watch.Some? ==> server.watch.value == server.current)
  }

  predicate AllFresh(server: Server, events: seq<Event>) {
    events == []
    || (AllFresh(server, events[..|events| - 1])
        && IsFresh(After(server, events[..|events| - 1]), events[|events| - 1]))
  }

  ghost predicate OffersRise(connection: Connection, current: nat) {
    && Nondecreasing(connection.offered)
    && (connection.offered != [] ==> connection.offered[|connection.offered| - 1] <= current)
  }

  ghost predicate AllOffersRise(server: Server) {
    && (forall n :: 0 <= n < |server.past| ==> OffersRise(server.past[n], server.current))
    && (server.stream.Some? ==> OffersRise(server.stream.value, server.current))
  }

  lemma StepOffersFresh(server: Server, event: Event)
    requires IsFresh(server, event) && AllOffersRise(server)
    ensures AllOffersRise(Next(server, event))
  {
    OneRises(server.current);
    NondecreasingBoth([server.current], Waiting(server));
    if server.stream.Some? {
      NondecreasingBoth(server.stream.value.offered, [server.current]);
    }
    hide Nondecreasing;
  }

  lemma {:induction false} FreshOffersRise(server: Server, events: seq<Event>)
    requires Connections(server) == [] && AllFresh(server, events)
    ensures AllOffersRise(After(server, events))
  {
    if events != [] {
      FreshOffersRise(server, events[..|events| - 1]);
      StepOffersFresh(After(server, events[..|events| - 1]), events[|events| - 1]);
    }
  }

  /** So while no mutation commits between another's commit and its publication, no connection goes back. */
  lemma FreshNeverGoesBack(server: Server, events: seq<Event>)
    requires Past(server) && Connections(server) == [] && AllFresh(server, events)
    ensures AllRise(After(server, events)) && NoneOvertaken(server, events)
  {
    SentIsOffered(server, events);
    FreshOffersRise(server, events);
    RisesIffNoneOvertaken(server, events);
    OneRises(0);
    hide Nondecreasing, After, AllFresh, NoneOvertaken;
  }

  // What the client makes of it.

  /** Each connection delivers the first of what it was sent. */
  predicate DeliveredOf(connections: seq<Connection>, parts: seq<seq<nat>>) {
    |parts| <= |connections| && forall n :: 0 <= n < |parts| ==> parts[n] <= connections[n].sent
  }

  lemma {:induction false} PlacesAreAtMost(current: nat, connections: seq<Connection>, parts: seq<seq<nat>>, bound: nat)
    requires DeliveredOf(connections, parts)
    requires forall n :: 0 <= n < |parts| ==> AtMost(connections[n].sent, bound)
    ensures AtMost(Places(parts), bound)
  {
    if parts != [] {
      PlacesAreAtMost(current, connections, parts[..|parts| - 1], bound);
    }
  }

  /** A reconnect never takes the client back: it goes back exactly when one connection does. */
  lemma {:induction false} OnlyAConnectionGoesBack(current: nat, connections: seq<Connection>, parts: seq<seq<nat>>)
    requires Forward(current, connections) && DeliveredOf(connections, parts)
    ensures Nondecreasing(Places(parts)) <==> forall n :: 0 <= n < |parts| ==> Nondecreasing(parts[n])
  {
    OneRises(0);
    hide Nondecreasing;
    if parts != [] {
      var n := |parts| - 1;
      OnlyAConnectionGoesBack(current, connections, parts[..n]);
      PlacesAreAtMost(current, connections, parts[..n], connections[n].newest);
      NondecreasingBoth(Places(parts[..n]), parts[n]);
      assert forall m :: 0 <= m < n ==> parts[..n][m] == parts[m];
    }
  }

  /** Whatever id the client asks after, the connection it gets is the server's next one. */
  ghost predicate IgnoresIds(sends: (nat, Option<string>) -> seq<nat>, connections: seq<Connection>) {
    forall n, id :: 0 <= n < |connections| ==> sends(n, id) == connections[n].sent
  }

  lemma {:induction false} TakenAreDelivered(log: seq<QueueEvent>, sends: (nat, Option<string>) -> seq<nat>,
                                             connections: seq<Connection>, parts: seq<seq<nat>>)
    requires IgnoresIds(sends, connections) && |parts| <= |connections| && Takes(log, sends, parts)
    ensures DeliveredOf(connections, parts)
  {
    hide At, Places, Within, LastId;
    if parts != [] {
      var earlier := parts[..|parts| - 1];
      TakenAreDelivered(log, sends, connections, earlier);
      assert forall n :: 0 <= n < |earlier| ==> parts[n] == earlier[n];
    }
  }

  lemma PartsRise(server: Server, parts: seq<seq<nat>>)
    requires AllRise(server) && DeliveredOf(Connections(server), parts)
    ensures forall n :: 0 <= n < |parts| ==> Nondecreasing(parts[n])
  {
    hide Nondecreasing;
    forall n | 0 <= n < |parts|
      ensures Nondecreasing(parts[n])
    {
      var sent := Connections(server)[n].sent;
      assert Nondecreasing(sent);
      NondecreasingBoth(parts[n], sent[|parts[n]|..]);
      assert sent == parts[n] + sent[|parts[n]|..];
    }
  }

  /**
   What this server gives the client, whatever mutations overlap and however often it
   reconnects: the deliveries go back in the log exactly when those of one connection
   do, and while mutations publish what is current they never do.
   */
  lemma Deliveries(events: seq<Event>, log: seq<QueueEvent>, sends: (nat, Option<string>) -> seq<nat>,
          parts: seq<seq<nat>>)
    requires IgnoresIds(sends, Connections(After(START, events))) && |parts| <= |Connections(After(START, events))|
    requires Takes(log, sends, parts)
    ensures Nondecreasing(Places(parts)) <==> forall n :: 0 <= n < |parts| ==> Nondecreasing(parts[n])
    ensures NoneOvertaken(START, events) || AllFresh(START, events) ==> Nondecreasing(Places(parts))
  {
    var after := After(START, events);
    ConnectionsStartForward(START, events);
    TakenAreDelivered(log, sends, Connections(after), parts);
    OnlyAConnectionGoesBack(after.current, Connections(after), parts);
    RisesIffNoneOvertaken(START, events);
    if AllFresh(START, events) {
      FreshNeverGoesBack(START, events);
    }
    if AllRise(after) {
      PartsRise(after, parts);
    }
  }

  // What this server does not give.

  lemma RunsOn(events: seq<Event>, n: nat, before: Server, after: Server)
    requires n < |events| && After(START, events[..n]) == before && Next(before, events[n]) == after
    ensures After(START, events[..n + 1]) == after
  {
    assert events[..n + 1][..n] == events[..n];
  }

  lemma OneCommitReadBack(events: seq<Event>)
    requires 3 <= |events| && events[0] == Open && events[1] == Commit && events[2] == ReadBack
    ensures After(START, events[..3]) == Server(1, {1}, None, [], Some(Connection(0, [], [])))
  {
    hide After;
    assert After(START, events[..0]) == START by { NothingHappened(events); }
    RunsOn(events, 0, START, Server(0, {}, None, [], Some(Connection(0, [], []))));
    RunsOn(events, 1, Server(0, {}, None, [], Some(Connection(0, [], []))),
           Server(1, {}, None, [], Some(Connection(0, [], []))));
    RunsOn(events, 2, Server(1, {}, None, [], Some(Connection(0, [], []))),
           Server(1, {1}, None, [], Some(Connection(0, [], []))));
  }

  /** A publication already waiting when the newer current state is sent first: the client is told 2, then 1. */
  lemma GoesBack()
    ensures After(START, [Open, Commit, ReadBack, Publish(1), Commit, SendFirst, SendChanged]).stream
            == Some(Connection(0, [2, 1], [2, 1]))
  {
    var events := [Open, Commit, ReadBack, Publish(1), Commit, SendFirst, SendChanged];
    OneCommitReadBack(events);
    hide After;
    assert [2] + [1] == [2, 1] && events[..7] == events;
    RunsOn(events, 3, Server(1, {1}, None, [], Some(Connection(0, [], []))),
           Server(1, {1}, Some(1), [], Some(Connection(0, [], []))));
    RunsOn(events, 4, Server(1, {1}, Some(1), [], Some(Connection(0, [], []))),
           Server(2, {1}, Some(1), [], Some(Connection(0, [], []))));
    RunsOn(events, 5, Server(2, {1}, Some(1), [], Some(Connection(0, [], []))),
           Server(2, {1}, Some(1), [], Some(Connection(0, [2], [2, 1]))));
    RunsOn(events, 6, Server(2, {1}, Some(1), [], Some(Connection(0, [2], [2, 1]))),
           Server(2, {1}, None, [], Some(Connection(0, [2, 1], [2, 1]))));
  }

  /** A state that is sent first and published afterwards is sent twice. */
  lemma SendsTwice()
    ensures After(START, [Open, Commit, ReadBack, SendFirst, Publish(1), SendChanged]).stream
            == Some(Connection(0, [1, 1], [1, 1]))
  {
    var events := [Open, Commit, ReadBack, SendFirst, Publish(1), SendChanged];
    OneCommitReadBack(events);
    hide After;
    assert [1] + [] == [1] && [1] + [1] == [1, 1] && events[..6] == events;
    RunsOn(events, 3, Server(1, {1}, None, [], Some(Connection(0, [], []))),
           Server(1, {1}, None, [], Some(Connection(0, [1], [1]))));
    RunsOn(events, 4, Server(1, {1}, None, [], Some(Connection(0, [1], [1]))),
           Server(1, {1}, Some(1), [], Some(Connection(0, [1], [1, 1]))));
    RunsOn(events, 5, Server(1, {1}, Some(1), [], Some(Connection(0, [1], [1, 1]))),
           Server(1, {1}, None, [], Some(Connection(0, [1, 1], [1, 1]))));
  }

  lemma NothingHappened(events: seq<Event>)
    ensures After(START, events[..0]) == START
  {
  }

  /** A reconnect is answered with the current state, whatever was missed: event 1 is never sent. */
  lemma LeavesGap()
    ensures Connections(After(START, [Open, SendFirst, Commit, Commit, Open, SendFirst]))
            == [Connection(0, [0], [0]), Connection(2, [2], [2])]
  {
    var events := [Open, SendFirst, Commit, Commit, Open, SendFirst];
    var first := Connection(0, [0], [0]);
    hide After;
    assert After(START, events[..0]) == START by { NothingHappened(events); }
    RunsOn(events, 0, START, Server(0, {}, None, [], Some(Connection(0, [], []))));
    assert [0] + [] == [0] && [2] + [] == [2];
    RunsOn(events, 1, Server(0, {}, None, [], Some(Connection(0, [], []))), Server(0, {}, None, [], Some(first)));
    RunsOn(events, 2, Server(0, {}, None, [], Some(first)), Server(1, {}, None, [], Some(first)));
    RunsOn(events, 3, Server(1, {}, None, [], Some(first)), Server(2, {}, None, [], Some(first)));
    RunsOn(events, 4, Server(2, {}, None, [], Some(first)), Server(2, {}, None, [first], Some(Connection(2, [], []))));
    RunsOn(events, 5, Server(2, {}, None, [first], Some(Connection(2, [], []))),
        Server(2, {}, None, [first], Some(Connection(2, [2], [2]))));
    assert events[..6] == events;
  }

  lemma OutOfStep(log: seq<QueueEvent>, places: seq<nat>)
    requires DistinctIds(log) && Within(log, places) && |places| == 2 && places[1] != places[0] + 1
    ensures !IsStretch(log, At(log, places))
  {
    StretchIffConsecutive(log, places);
    assert !Follows(places, 1);
  }

  /** None of these deliveries is a stretch of the log. */
  lemma NoStretch(log: seq<QueueEvent>)
    requires |log| == 3 && DistinctIds(log)
    ensures !IsStretch(log, At(log, [2, 1])) && !IsStretch(log, At(log, [1, 1])) && !IsStretch(log, At(log, [0, 2]))
  {
    hide IsStretch, At;
    OutOfStep(log, [2, 1]);
    OutOfStep(log, [1, 1]);
    OutOfStep(log, [0, 2]);
  }
}
