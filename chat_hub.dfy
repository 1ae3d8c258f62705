/** The hub of hub.go: the single owner of the room registry.

    The Go hub is a goroutine whose `select` loop takes one request at a
    time from its `register`, `unregister`, `broadcast` and `quit`
    channels. Each case is a sequential step on the registry. The model
    states every step twice: as a function on a `Registry` value (the
    specification, about which the lemmas speak) and as a method of the
    class `Hub`, whose fields the method updates in place as the Go code
    does.

    A Go run-time panic is an explicit outcome here (`Panic`): writing
    into a nil inner map, sending on a closed channel and closing a
    closed channel. */
module ChatHub {
  import opened Base
  import opened ChatTime

  /** A client session as the hub sees it (client.go:40-49). The hub
      keys its sets by the `*client` pointer; `id` stands for that
      identity. `capacity` is the buffer size of the session's `send`
      channel, fixed when the channel is made. */
  datatype Client = Client(id: nat, room: Uuid, user: Uuid, name: string, capacity: nat)

  /** A chat message on its way from one session to the others. */
  datatype Message = Message(room: Uuid, user: Uuid, username: string, body: string, time: Time)

  datatype Panic =
    | NilMapWrite    // assignment to an entry of a nil map
    | SendOnClosed   // send on a closed channel
    | CloseOfClosed  // close of a closed channel

  /** The state the hub owns: `rooms` (hub.go:8), the contents of every
      client's `send` channel, and the set of clients whose channel has
      been closed. */
  datatype Registry = Registry(rooms: map<Uuid, set<Client>>,
                               queues: map<Client, seq<Message>>,
                               closed: set<Client>)

  /** What `newHub` builds (hub.go:21-29): no rooms at all. */
  const EmptyRegistry := Registry(map[], map[], {})

  /** The buffered contents of `c.send`; a channel the hub has never
      written to is empty. */
  function QueueOf(s: Registry, c: Client): seq<Message> {
    if c in s.queues then s.queues[c] else []
  }

  predicate Registered(s: Registry, c: Client) {
    c.room in s.rooms && c in s.rooms[c.room]
  }

  /** The registry invariant: every client in a room is filed under its
      own room and still has an open queue. */
  predicate Inv(s: Registry) {
    forall rid, c :: rid in s.rooms && c in s.rooms[rid] ==> c.room == rid && c !in s.closed
  }

  /** Whether the non-blocking send `client.send <- m` of hub.go:51 goes
      through: the buffer has room, or the channel is empty and the
      session's write task is parked in its receive (`parked`); the
      latter is how an unbuffered channel (capacity 0) accepts anything. */
  predicate Accepts(s: Registry, c: Client, parked: set<Client>) {
    |QueueOf(s, c)| < c.capacity || (c in parked && QueueOf(s, c) == [])
  }

  // -----------------------------------------------------------------------
  // The cases of `run`, as functions

  /** hub.go:36-38: `h.rooms[c.rid][c] = true`. The inner map must
      already exist: writing into a missing (nil) one panics. */
  function RegisterStep(s: Registry, c: Client): Result<Registry, Panic> {
    if c.room !in s.rooms then Err(NilMapWrite)
    else Ok(s.(rooms := s.rooms[c.room := s.rooms[c.room] + {c}]))
  }

  /** hub.go:39-46: a registered client is deleted from its room and its
      queue is closed; anything else is left alone. */
  function UnregisterStep(s: Registry, c: Client): Result<Registry, Panic> {
    if !Registered(s, c) then Ok(s)
    else if c in s.closed then Err(CloseOfClosed)
    else Ok(s.(rooms := s.rooms[c.room := s.rooms[c.room] - {c}], closed := s.closed + {c}))
  }

  /** The registry once the broadcast loop of hub.go:49-56 has dealt with
      the members in `done`: each of them either received `m` or, its
      queue being full, was closed and deleted from the room. */
  function Deliver(s: Registry, m: Message, parked: set<Client>, done: set<Client>): Registry
    requires m.room in s.rooms
  {
    var members := s.rooms[m.room];
    var sent := Sent(s, m, parked, done);
    var evicted := Evicted(s, m, parked, done);
    Registry(s.rooms[m.room := members - evicted],
             map c | c in s.queues.Keys + sent :: if c in sent then QueueOf(s, c) + [m] else s.queues[c],
             s.closed + evicted)
  }

  /** The members in `done` whose queue took `m`. */
  function Sent(s: Registry, m: Message, parked: set<Client>, done: set<Client>): set<Client>
    requires m.room in s.rooms
  {
    set c | c in done && c in s.rooms[m.room] && Accepts(s, c, parked)
  }

  /** The members in `done` whose queue was full. */
  function Evicted(s: Registry, m: Message, parked: set<Client>, done: set<Client>): set<Client>
    requires m.room in s.rooms
  {
    set c | c in done && c in s.rooms[m.room] && !Accepts(s, c, parked)
  }

  /** hub.go:47-56. Ranging over a room with no entry does nothing; a
      member whose queue is already closed makes the send panic. */
  function BroadcastStep(s: Registry, m: Message, parked: set<Client>): Result<Registry, Panic> {
    if m.room !in s.rooms then Ok(s)
    else if s.rooms[m.room] * s.closed != {} then Err(SendOnClosed)
    else Ok(Deliver(s, m, parked, s.rooms[m.room]))
  }

  /** The receive `<-c.send` of a session's write task (client.go:115):
      it takes the oldest buffered message, if there is one. A closed
      channel still yields what it buffered, and an empty one yields
      nothing and changes nothing. */
  function ReceiveStep(s: Registry, c: Client): Registry {
    if QueueOf(s, c) == [] then s
    else s.(queues := s.queues[c := QueueOf(s, c)[1..]])
  }

  /** What happens next to the hub's state: a request taken by the
      `select` of hub.go:33, or a session's write task taking a message
      from its queue, which runs beside the hub and frees the buffer
      space the hub's next send depends on. For the broadcast the request
      carries the set of sessions whose write task is parked at that
      moment: the scheduler's state, which the send depends on. */
  datatype Event =
    | Register(c: Client)
    | Unregister(c: Client)
    | Broadcast(m: Message, parked: set<Client>)
    | Quit(stop: bool)
    | Receive(c: Client)

  function Step(s: Registry, e: Event): Result<Registry, Panic> {
    match e
    case Register(c) => RegisterStep(s, c)
    case Unregister(c) => UnregisterStep(s, c)
    case Broadcast(m, parked) => BroadcastStep(s, m, parked)
    case Quit(_) => Ok(s)
    case Receive(c) => Ok(ReceiveStep(s, c))
  }

  /** How `run` ends: its requests ran out while it was still waiting for
      more, it returned on `quit <- true` (hub.go:57-61), or it panicked. */
  datatype RunEnd = Waiting | Stopped | Panicked(p: Panic)

  datatype Outcome = Outcome(state: Registry, end: RunEnd)

  /** The loop of hub.go:31-63 over a sequence of requests, with the
      sessions' receives interleaved as they happen. On a panic the
      state given is the one before the panicking request. */
  function RunSpec(s: Registry, events: seq<Event>): Outcome
    decreases |events|
  {
    if events == [] then Outcome(s, Waiting)
    else if events[0] == Quit(true) then Outcome(s, Stopped)
    else match Step(s, events[0])
      case Err(p) => Outcome(s, Panicked(p))
      case Ok(s') => RunSpec(s', events[1..])
  }

  /** How a hub method's result and new state follow a step function:
      the new state on success, the panic otherwise. */
  predicate Follows(step: Result<Registry, Panic>, panic: Option<Panic>, now: Registry) {
    match step
    case Ok(s') => panic == None && now == s'
    case Err(p) => panic == Some(p)
  }

  // -----------------------------------------------------------------------
  // The hub object

  class Hub {
    var rooms: map<Uuid, set<Client>>
    var queues: map<Client, seq<Message>>
    var closed: set<Client>

    function State(): Registry
      reads this
    {
      Registry(rooms, queues, closed)
    }

    /** `newHub` (hub.go:21-29). */
    constructor ()
      ensures State() == EmptyRegistry
    {
      rooms, queues, closed := map[], map[], {};
    }

    /** `close(c.send)`. */
    method CloseQueue(c: Client) returns (panic: Option<Panic>)
      modifies this
      ensures panic == (if c in old(closed) then Some(CloseOfClosed) else None)
      ensures rooms == old(rooms) && queues == old(queues) && closed == old(closed) + {c}
    {
      if c in closed {
        return Some(CloseOfClosed);
      }
      closed := closed + {c};
      return None;
    }

    /** The `register` case (hub.go:36-38). */
    method Register(c: Client) returns (panic: Option<Panic>)
      modifies this
      ensures Follows(RegisterStep(old(State()), c), panic, State())
    {
      if c.room !in rooms {
        return Some(NilMapWrite);
      }
      rooms := rooms[c.room := rooms[c.room] + {c}];
      return None;
    }

    /** The `unregister` case (hub.go:39-46). */
    method Unregister(c: Client) returns (panic: Option<Panic>)
      modifies this
      ensures Follows(UnregisterStep(old(State()), c), panic, State())
    {
      panic := None;
      if c.room in rooms {
        var room := rooms[c.room];
        if c in room {
          rooms := rooms[c.room := rooms[c.room] - {c}];
          panic := CloseQueue(c);
        }
      }
    }

    /** The `broadcast` case (hub.go:47-56): a loop over the members of
        the message's room, each visited once. */
    method Broadcast(m: Message, parked: set<Client>) returns (panic: Option<Panic>)
      modifies this
      ensures Follows(BroadcastStep(old(State()), m, parked), panic, State())
    {
      panic := None;
      if m.room !in rooms {
        return;
      }
      ghost var s0 := State();
      var members := rooms[m.room];
      DeliverNothing(s0, m, parked);
      var todo := members;
      assert members - todo == {};
      while todo != {}
        invariant todo <= members
        invariant m.room in rooms
        invariant State() == Deliver(s0, m, parked, members - todo)
        invariant (members - todo) * s0.closed == {}
        invariant panic == None
        decreases todo
      {
        var c :| c in todo;
        ghost var done := members - todo;
        DeliverOne(s0, m, parked, done, c);
        if c in closed {
          assert c in s0.rooms[m.room] * s0.closed;
          return Some(SendOnClosed);
        }
        if Accepts(State(), c, parked) {
          queues := queues[c := QueueOf(State(), c) + [m]];
        } else {
          panic := CloseQueue(c);
          rooms := rooms[m.room := rooms[m.room] - {c}];
        }
        todo := todo - {c};
        assert members - todo == done + {c};
      }
      assert members - todo == members;
    }

    /** A session's write task taking the oldest message of its queue
        (client.go:115); `taken` is that message, or none when the queue
        is empty. */
    method Receive(c: Client) returns (taken: Option<Message>)
      modifies this
      ensures taken == (if QueueOf(old(State()), c) == [] then None else Some(QueueOf(old(State()), c)[0]))
      ensures State() == ReceiveStep(old(State()), c)
    {
      if c !in queues || queues[c] == [] {
        return None;
      }
      taken := Some(queues[c][0]);
      queues := queues[c := queues[c][1..]];
    }

    /** `run` (hub.go:31-63) over the requests in the order the `select`
        takes them, with the sessions' receives (client.go:115) in
        between. */
    method Run(events: seq<Event>) returns (end: RunEnd)
      modifies this
      ensures end == RunSpec(old(State()), events).end
      ensures !end.Panicked? ==> State() == RunSpec(old(State()), events).state
    {
      var i := 0;
      while i < |events|
        invariant 0 <= i <= |events|
        invariant RunSpec(State(), events[i..]) == RunSpec(old(State()), events)
      {
        ghost var before := State();
        assert events[i..][1..] == events[i + 1..];
        var panic: Option<Panic> := None;
        match events[i] {
          case Register(c) =>
            panic := Register(c);
          case Unregister(c) =>
            panic := Unregister(c);
          case Broadcast(m, parked) =>
            panic := Broadcast(m, parked);
          case Quit(stop) =>
            if stop {
              return Stopped;
            }
          case Receive(c) =>
            var _ := Receive(c);
        }
        assert Follows(Step(before, events[i]), panic, State());
        if panic.Some? {
          return Panicked(panic.value);
        }
        i := i + 1;
      }
      return Waiting;
    }
  }

  // -----------------------------------------------------------------------
  // Lemmas

  /** Before the broadcast loop has dealt with any member. */
  lemma DeliverNothing(s: Registry, m: Message, parked: set<Client>)
    requires m.room in s.rooms
    ensures Deliver(s, m, parked, {}) == s
  {
    var d := Deliver(s, m, parked, {});
    assert Evicted(s, m, parked, {}) == {};
    assert Sent(s, m, parked, {}) == {};
    assert s.rooms[m.room] - {} == s.rooms[m.room];
    assert d.rooms == s.rooms[m.room := s.rooms[m.room]];
    assert d.rooms == s.rooms;
    assert d.queues == s.queues;
  }

  /** One more member dealt with by the broadcast loop. */
  lemma DeliverOne(s: Registry, m: Message, parked: set<Client>, done: set<Client>, c: Client)
    requires m.room in s.rooms && c in s.rooms[m.room] && c !in done
    ensures QueueOf(Deliver(s, m, parked, done), c) == QueueOf(s, c)
    ensures var d := Deliver(s, m, parked, done);
      Deliver(s, m, parked, done + {c}) ==
        if Accepts(s, c, parked) then d.(queues := d.queues[c := QueueOf(s, c) + [m]])
        else d.(rooms := d.rooms[m.room := d.rooms[m.room] - {c}], closed := d.closed + {c})
  {
    var members := s.rooms[m.room];
    var d := Deliver(s, m, parked, done);
    var d' := Deliver(s, m, parked, done + {c});
    var sent := Sent(s, m, parked, done);
    var evicted := Evicted(s, m, parked, done);
    if Accepts(s, c, parked) {
      assert Sent(s, m, parked, done + {c}) == sent + {c};
      assert Evicted(s, m, parked, done + {c}) == evicted;
      assert d'.queues == d.queues[c := QueueOf(s, c) + [m]];
    } else {
      assert Sent(s, m, parked, done + {c}) == sent;
      assert Evicted(s, m, parked, done + {c}) == evicted + {c};
      assert members - (evicted + {c}) == (members - evicted) - {c};
    }
  }

  /** A fresh hub has no rooms, so no client is registered or closed. */
  lemma FreshHubIsEmpty(c: Client)
    ensures Inv(EmptyRegistry)
    ensures !Registered(EmptyRegistry, c) && QueueOf(EmptyRegistry, c) == []
    ensures c !in EmptyRegistry.closed
  {
  }

  /** As written, `register` needs its room's entry to exist already; on a
      fresh hub it always panics. */
  lemma RegisterNeedsRoom(s: Registry, c: Client)
    ensures RegisterStep(s, c).Err? <==> c.room !in s.rooms
    ensures RegisterStep(EmptyRegistry, c) == Err(NilMapWrite)
  {
  }

  /** `register` adds exactly `c` to its own room and changes nothing
      else; doing it twice is the same as doing it once. */
  lemma RegisterAdds(s: Registry, c: Client)
    requires c.room in s.rooms
    ensures var s' := RegisterStep(s, c).value;
      && Registered(s', c)
      && s'.rooms.Keys == s.rooms.Keys
      && s'.rooms[c.room] == s.rooms[c.room] + {c}
      && (forall rid :: rid in s.rooms && rid != c.room ==> s'.rooms[rid] == s.rooms[rid])
      && s'.queues == s.queues && s'.closed == s.closed
      && RegisterStep(s', c) == Ok(s')
      && (Registered(s, c) ==> s' == s)
  {
    var s' := RegisterStep(s, c).value;
    assert s'.rooms[c.room] + {c} == s'.rooms[c.room];
    assert s'.rooms[c.room := s'.rooms[c.room] + {c}] == s'.rooms;
    if Registered(s, c) {
      assert s.rooms[c.room] + {c} == s.rooms[c.room];
    }
  }

  /** `unregister` of a registered client deletes it from its room and
      closes its queue; under the invariant that queue was still open, so
      it is closed exactly once. Nothing else changes. */
  lemma UnregisterRemoves(s: Registry, c: Client)
    requires Inv(s) && Registered(s, c)
    ensures UnregisterStep(s, c).Ok?
    ensures var s' := UnregisterStep(s, c).value;
      && c !in s.closed && s'.closed == s.closed + {c}
      && !Registered(s', c)
      && s'.rooms.Keys == s.rooms.Keys
      && s'.rooms[c.room] == s.rooms[c.room] - {c}
      && (forall rid :: rid in s.rooms && rid != c.room ==> s'.rooms[rid] == s.rooms[rid])
      && s'.queues == s.queues
  {
  }

  /** `unregister` of a client that is not in its room, or whose room has
      no entry, changes nothing and closes nothing. Hence a second
      `unregister` is a no-op. */
  lemma UnregisterIdempotent(s: Registry, c: Client)
    ensures !Registered(s, c) ==> UnregisterStep(s, c) == Ok(s)
    ensures UnregisterStep(s, c).Ok? ==>
      UnregisterStep(UnregisterStep(s, c).value, c) == UnregisterStep(s, c)
  {
  }

  /** What a broadcast does, member by member: a member whose queue has
      room gets `m` appended and stays; a member whose queue is full is
      deleted from the room and its queue closed, and it does not keep
      the others from receiving `m`. Clients outside the room, and the
      other rooms, are untouched. */
  lemma BroadcastEffect(s: Registry, m: Message, parked: set<Client>)
    requires Inv(s)
    ensures BroadcastStep(s, m, parked).Ok?
    ensures var s' := BroadcastStep(s, m, parked).value;
      && s'.rooms.Keys == s.rooms.Keys
      && (forall rid :: rid in s.rooms && rid != m.room ==> s'.rooms[rid] == s.rooms[rid])
      && (forall c :: Registered(s, c) && c.room == m.room && Accepts(s, c, parked) ==>
            Registered(s', c) && QueueOf(s', c) == QueueOf(s, c) + [m] && c !in s'.closed)
      && (forall c :: Registered(s, c) && c.room == m.room && !Accepts(s, c, parked) ==>
            !Registered(s', c) && QueueOf(s', c) == QueueOf(s, c) && c in s'.closed - s.closed)
      && (forall c :: !(Registered(s, c) && c.room == m.room) ==>
            QueueOf(s', c) == QueueOf(s, c) && (c in s'.closed <==> c in s.closed))
      && (m.room in s.rooms ==> s'.rooms[m.room] <= s.rooms[m.room])
  {
    if m.room in s.rooms {
      assert s.rooms[m.room] * s.closed == {};
    }
  }

  /** Every case keeps the invariant, provided a `register` never brings
      back a client whose queue is already closed. */
  lemma StepKeepsInv(s: Registry, e: Event)
    requires Inv(s)
    requires e.Register? ==> e.c !in s.closed
    requires Step(s, e).Ok?
    ensures Inv(Step(s, e).value)
  {
    match e
    case Register(c) =>
    case Unregister(c) =>
    case Broadcast(m, parked) =>
      BroadcastEffect(s, m, parked);
    case Quit(_) =>
    case Receive(_) =>
  }

  /** Under the invariant no case sends on or closes a closed queue: the
      only panic left is that of hub.go:38. */
  lemma StepNeverClosesTwice(s: Registry, e: Event)
    requires Inv(s)
    ensures Step(s, e).Err? ==> e.Register? && Step(s, e).error == NilMapWrite
  {
    match e
    case Register(c) =>
    case Unregister(c) =>
    case Broadcast(m, parked) =>
      BroadcastEffect(s, m, parked);
    case Quit(_) =>
    case Receive(_) =>
  }

  /** A receive takes the head of `c`'s queue and changes nothing else:
      no room, no closed flag and no other session's queue. */
  lemma ReceiveTakesHead(s: Registry, c: Client)
    ensures var s' := ReceiveStep(s, c);
      && s'.rooms == s.rooms && s'.closed == s.closed
      && QueueOf(s', c) == (if QueueOf(s, c) == [] then [] else QueueOf(s, c)[1..])
      && (forall d :: d != c ==> QueueOf(s', d) == QueueOf(s, d))
      && (Inv(s) ==> Inv(s'))
  {
  }

  /** The events of a session `c` that keeps up with its room: each
      message is broadcast, with the sessions in `parked` waiting, and
      `c`'s write task then takes it. */
  function KeepUpRounds(c: Client, ms: seq<Message>, parked: set<Client>): seq<Event>
    decreases |ms|
  {
    if ms == [] then []
    else [Broadcast(ms[0], parked), Receive(c)] + KeepUpRounds(c, ms[1..], parked)
  }

  /** A session whose write task takes every message before the next
      broadcast is never evicted, however many messages arrive: it stays
      registered with an open, empty queue. This needs a buffer of at
      least one message, or the write task parked at each broadcast. */
  lemma {:induction false} KeepingUpStaysRegistered(s: Registry, c: Client, ms: seq<Message>,
                                                    parked: set<Client>)
    requires Inv(s) && Registered(s, c) && QueueOf(s, c) == []
    requires 0 < c.capacity || c in parked
    ensures var o := RunSpec(s, KeepUpRounds(c, ms, parked));
      && o.end == Waiting && Inv(o.state)
      && Registered(o.state, c) && QueueOf(o.state, c) == [] && c !in o.state.closed
    decreases |ms|
  {
    if ms != [] {
      var m := ms[0];
      var events := KeepUpRounds(c, ms, parked);
      var rest := KeepUpRounds(c, ms[1..], parked);
      assert events[1..] == [Receive(c)] + rest;
      assert events[1..][1..] == rest;
      BroadcastEffect(s, m, parked);
      StepKeepsInv(s, Broadcast(m, parked));
      var s1 := BroadcastStep(s, m, parked).value;
      assert Registered(s1, c) && c !in s1.closed;
      assert QueueOf(s1, c) == [] || QueueOf(s1, c) == [m];
      ReceiveTakesHead(s1, c);
      var s2 := ReceiveStep(s1, c);
      assert RunSpec(s, events) == RunSpec(s1, events[1..]);
      assert RunSpec(s1, events[1..]) == RunSpec(s2, rest);
      KeepingUpStaysRegistered(s2, c, ms[1..], parked);
    }
  }

  /** `quit <- false` is skipped; `quit <- true` stops the loop there. */
  lemma QuitCases(s: Registry, rest: seq<Event>)
    ensures RunSpec(s, [Quit(false)] + rest) == RunSpec(s, rest)
    ensures RunSpec(s, [Quit(true)] + rest) == Outcome(s, Stopped)
  {
    assert ([Quit(false)] + rest)[1..] == rest;
  }

  /** A client the hub has never seen: not closed and in no room. */
  predicate Unseen(s: Registry, c: Client) {
    c !in s.closed && forall rid :: rid in s.rooms ==> c !in s.rooms[rid]
  }

  /** Every client registered by `events` is one the hub has not seen,
      and is registered once: how `handleServeWs` uses the hub, with a
      new client per connection. */
  predicate FreshRegistrations(s: Registry, events: seq<Event>) {
    forall i :: 0 <= i < |events| && events[i].Register? ==>
      Unseen(s, events[i].c) && forall j :: 0 <= j < i ==> events[j] != events[i]
  }

  lemma StepKeepsUnseen(s: Registry, e: Event, c: Client)
    requires Inv(s) && Unseen(s, c) && e != Register(c) && Step(s, e).Ok?
    ensures Unseen(Step(s, e).value, c)
  {
    match e
    case Register(d) =>
    case Unregister(d) =>
    case Broadcast(m, parked) =>
      BroadcastEffect(s, m, parked);
    case Quit(_) =>
    case Receive(_) =>
  }

  /** A run that registers only new clients keeps the invariant and never
      closes a queue twice or sends on a closed one. */
  lemma {:induction false} RunNeverClosesTwice(s: Registry, events: seq<Event>)
    requires Inv(s) && FreshRegistrations(s, events)
    ensures RunSpec(s, events).end != Panicked(CloseOfClosed)
    ensures RunSpec(s, events).end != Panicked(SendOnClosed)
    ensures Inv(RunSpec(s, events).state)
    decreases |events|
  {
    if events != [] && events[0] != Quit(true) {
      var e := events[0];
      StepNeverClosesTwice(s, e);
      if Step(s, e).Ok? {
        assert e.Register? ==> Unseen(s, e.c);
        StepKeepsInv(s, e);
        var s' := Step(s, e).value;
        var rest := events[1..];
        forall i | 0 <= i < |rest| && rest[i].Register?
          ensures Unseen(s', rest[i].c) && forall j :: 0 <= j < i ==> rest[j] != rest[i]
        {
          assert events[i + 1] == rest[i];
          assert events[0] != events[i + 1];
          StepKeepsUnseen(s, e, rest[i].c);
          forall j | 0 <= j < i ensures rest[j] != rest[i] {
            assert events[j + 1] == rest[j];
          }
        }
        RunNeverClosesTwice(s', rest);
      }
    }
  }

  /** Because `register` panics on a missing room and nothing else adds
      one, a hub built by `newHub` never holds a client: every run of it
      either panics at its first `register` or leaves it empty. */
  lemma {:induction false} FreshHubStaysEmpty(events: seq<Event>)
    ensures RunSpec(EmptyRegistry, events).state == EmptyRegistry
    ensures RunSpec(EmptyRegistry, events).end.Panicked? ==>
      RunSpec(EmptyRegistry, events).end == Panicked(NilMapWrite)
    decreases |events|
  {
    if events != [] && events[0] != Quit(true) {
      if Step(EmptyRegistry, events[0]).Ok? {
        assert Step(EmptyRegistry, events[0]).value == EmptyRegistry;
        FreshHubStaysEmpty(events[1..]);
      }
    }
  }
}
