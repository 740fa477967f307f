/** The log hub of logstream/hub.go: one event loop, any number of clients that come, drain
    their channel and leave, and channels that may be closed only once. */
module LogHub {
  import opened GoStrings

  type Id = nat
  type Message = string

  /** Capacities of a client's send channel and of the broadcast channel. */
  const SEND_CAPACITY: nat := 256
  const BROADCAST_CAPACITY: nat := 256

  /** A client's send channel, with the history of what writePump took from it and of how
      many messages had been broadcast when the client registered. */
  datatype Channel = Channel(buffer: seq<Message>, closed: bool, taken: seq<Message>, since: nat) {
    predicate HasRoom() {
      |buffer| < SEND_CAPACITY
    }
  }

  /** panicked: the loop has sent on or closed a closed channel. The messages broadcast so
      far and the messages accepted by Write are histories. */
  datatype State = State(clients: set<Id>, channels: map<Id, Channel>, pending: seq<Message>,
                         log: seq<Message>, accepted: seq<Message>, panicked: bool)

  /** What can happen: ServeWs registers a client, readPump unregisters it, the loop takes
      a message to broadcast, writePump takes one from its channel, the logger writes. */
  datatype Event = Register(id: Id) | Unregister(id: Id) | Broadcast | Drain(id: Id) | Write(p: Message)

  /** The select of the broadcast case on one client's channel. */
  function Push(c: Channel, m: Message): Channel {
    if c.HasRoom() then c.(buffer := c.buffer + [m]) else c.(closed := true)
  }

  ghost predicate Valid(st: State) {
    st.clients <= st.channels.Keys
  }

  /** A closed channel is still, or again, among the clients. */
  ghost predicate SomeClosed(st: State)
    requires Valid(st)
  {
    exists id :: id in st.clients && st.channels[id].closed
  }

  function PushAll(clients: set<Id>, channels: map<Id, Channel>, m: Message): map<Id, Channel> {
    map id | id in channels :: if id in clients then Push(channels[id], m) else channels[id]
  }

  function Kept(clients: set<Id>, channels: map<Id, Channel>): set<Id>
    requires clients <= channels.Keys
  {
    set id | id in clients && channels[id].HasRoom()
  }

  ghost function Step(st: State, e: Event): State
    requires Valid(st)
  {
    match e
    case Register(id) =>
      st.(clients := st.clients + {id},
          channels := if id in st.channels then st.channels else st.channels[id := Channel([], false, [], |st.log|)])
    case Unregister(id) =>
      if id !in st.clients then st
      else if st.channels[id].closed then st.(panicked := true)
      else st.(clients := st.clients - {id}, channels := st.channels[id := st.channels[id].(closed := true)])
    case Broadcast =>
      if st.pending == [] then st
      else if SomeClosed(st) then st.(panicked := true)
      else
        State(Kept(st.clients, st.channels), PushAll(st.clients, st.channels, st.pending[0]), st.pending[1..],
              st.log + [st.pending[0]], st.accepted, st.panicked)
    case Drain(id) =>
      if id !in st.channels || st.channels[id].buffer == [] then st
      else
        var c := st.channels[id];
        st.(channels := st.channels[id := c.(buffer := c.buffer[1..], taken := c.taken + [c.buffer[0]])])
    case Write(p) =>
      if |st.pending| < BROADCAST_CAPACITY then st.(pending := st.pending + [p], accepted := st.accepted + [p]) else st
  }

  /** In the loop over the clients: the clients in done have been served, those in todo not. */
  ghost predicate Halfway(clients: set<Id>, channels: map<Id, Channel>, todo: set<Id>, done: set<Id>,
                          before: map<Id, Channel>, message: Message) {
    && todo !! done && todo <= before.Keys && done <= before.Keys
    && clients == todo + Kept(done, before)
    && channels == PushAll(done, before, message)
    && forall id :: id in done ==> !before[id].closed
  }

  lemma AllDone(clients: set<Id>, channels: map<Id, Channel>, all: set<Id>, done: set<Id>, before: map<Id, Channel>,
                message: Message)
    requires Halfway(clients, channels, {}, done, before, message) && forall id :: id in all <==> id in done
    ensures clients == Kept(all, before) && channels == PushAll(all, before, message)
    ensures forall id :: id in all ==> !before[id].closed
  {
    assert all == done;
  }

  lemma StepIsValid(st: State, e: Event)
    requires Valid(st)
    ensures Valid(Step(st, e))
  {
  }

  /* ---- The loop and its surroundings ---- */

  class Hub {
    var clients: set<Id>
    var channels: map<Id, Channel>
    var broadcast: seq<Message>
    var panicked: bool
    var log: seq<Message>
    var accepted: seq<Message>

    constructor ()
      ensures View() == State({}, map[], [], [], [], false)
    {
      clients, channels, broadcast, panicked, log, accepted := {}, map[], [], false, [], [];
    }

    ghost function View(): State
      reads this
    {
      State(clients, channels, broadcast, log, accepted, panicked)
    }

    method Register(id: Id)
      requires Valid(View()) && !panicked
      modifies this`clients, this`channels
      ensures View() == Step(old(View()), Event.Register(id))
    {
      if id !in channels {
        channels := channels[id := Channel([], false, [], |log|)];
      }
      clients := clients + {id};
    }

    method Unregister(id: Id)
      requires Valid(View()) && !panicked
      modifies this`clients, this`channels, this`panicked
      ensures View() == Step(old(View()), Event.Unregister(id))
    {
      if id in clients {
        if channels[id].closed {
          panicked := true;
          return;
        }
        clients := clients - {id};
        channels := channels[id := channels[id].(closed := true)];
      }
    }

    /** The broadcast case; a message is taken from the channel if there is one. */
    method Broadcast()
      requires Valid(View()) && !panicked
      modifies this`clients, this`channels, this`broadcast, this`panicked, this`log
      ensures panicked == Step(old(View()), Event.Broadcast).panicked
      ensures !panicked ==> View() == Step(old(View()), Event.Broadcast)
    {
      if broadcast == [] {
        return;
      }
      var message := broadcast[0];
      broadcast := broadcast[1..];
      PushToClients(message);
      if !panicked {
        log := log + [message];
      }
    }

    /** The loop over the clients, in any order, with deletions on the way. */
    method PushToClients(message: Message)
      requires Valid(View()) && !panicked
      modifies this`clients, this`channels, this`panicked
      ensures panicked <==> SomeClosed(old(View()))
      ensures !panicked ==> && clients == Kept(old(clients), old(channels))
                            && channels == PushAll(old(clients), old(channels), message)
    {
      ghost var before, all, done := channels, clients, {};
      var todo := clients;
      PushNone(channels, message);
      while todo != {}
        invariant Halfway(clients, channels, todo, done, before, message) && !panicked
        invariant forall id :: id in all <==> id in todo || id in done
        decreases |todo|
      {
        var id :| id in todo;
        var open := PushToOne(id, message, todo, done, before);
        if !open {
          panicked := true;
          return;
        }
        todo, done := todo - {id}, done + {id};
      }
      AllDone(clients, channels, all, done, before, message);
    }

    method PushToOne(id: Id, message: Message, ghost todo: set<Id>, ghost done: set<Id>, ghost before: map<Id, Channel>)
      returns (open: bool)
      requires Halfway(clients, channels, todo, done, before, message) && id in todo
      modifies this`clients, this`channels
      ensures open <==> !before[id].closed
      ensures open ==> Halfway(clients, channels, todo - {id}, done + {id}, before, message)
    {
      PushOne(done, before, message, id);
      open := !channels[id].closed;
      if open {
        KeptOne(todo, done, before, id);
        Offer(id, message);
      }
    }

    /** The select on one open channel. */
    method Offer(id: Id, message: Message)
      requires id in channels && !channels[id].closed && id in clients
      modifies this`clients, this`channels
      ensures channels == old(channels)[id := Push(old(channels)[id], message)]
      ensures clients == if old(channels)[id].HasRoom() then old(clients) else old(clients) - {id}
    {
      if channels[id].HasRoom() {
        channels := channels[id := Push(channels[id], message)];
      } else {
        channels := channels[id := channels[id].(closed := true)];
        clients := clients - {id};
      }
    }

    static lemma PushNone(channels: map<Id, Channel>, m: Message)
      ensures PushAll({}, channels, m) == channels && Kept({}, channels) == {}
    {
    }

    static lemma KeptOne(todo: set<Id>, done: set<Id>, before: map<Id, Channel>, id: Id)
      requires id in todo && todo !! done && done <= before.Keys && id in before
      ensures (todo - {id}) + Kept(done + {id}, before)
              == if before[id].HasRoom() then todo + Kept(done, before) else todo + Kept(done, before) - {id}
    {
    }

    static lemma PushOne(done: set<Id>, before: map<Id, Channel>, m: Message, id: Id)
      requires id in before && id !in done
      ensures PushAll(done, before, m)[id] == before[id]
      ensures PushAll(done + {id}, before, m) == PushAll(done, before, m)[id := Push(before[id], m)]
    {
    }

    method Drain(id: Id)
      requires Valid(View()) && !panicked
      modifies this`channels
      ensures View() == Step(old(View()), Event.Drain(id))
    {
      if id in channels && channels[id].buffer != [] {
        var c := channels[id];
        channels := channels[id := c.(buffer := c.buffer[1..], taken := c.taken + [c.buffer[0]])];
      }
    }

    /** io.Writer: it never blocks; a full channel swallows the message. */
    method Write(p: Message) returns (n: nat)
      modifies this`broadcast, this`accepted
      ensures n == |p| && (Valid(old(View())) ==> View() == Step(old(View()), Event.Write(p)))
    {
      if |broadcast| < BROADCAST_CAPACITY {
        broadcast, accepted := broadcast + [p], accepted + [p];
      }
      n := |p|;
    }
  }

  /* ---- Over every sequence of events ---- */

  ghost function Run(st: State, events: seq<Event>): State
    requires Valid(st)
    decreases |events|
  {
    if events == [] || st.panicked then st
    else
      StepIsValid(st, events[0]);
      Run(Step(st, events[0]), events[1..])
  }

  const START: State := State({}, map[], [], [], [], false)

  /** What a client has been given: a gap-free run of the broadcasts from its registration
      on, complete as long as it is registered; its channel is closed exactly when it left. */
  ghost predicate Served(c: Channel, log: seq<Message>, member: bool) {
    var n := |c.taken| + |c.buffer|;
    && |c.buffer| <= SEND_CAPACITY
    && c.since + n <= |log| && c.taken + c.buffer == log[c.since..c.since + n]
    && (member ==> c.since + n == |log|)
    && (c.closed <==> !member)
  }

  ghost predicate AllServed(st: State)
    requires Valid(st)
  {
    forall id :: id in st.channels ==> Served(st.channels[id], st.log, id in st.clients)
  }

  /** The messages accepted by Write are broadcast in order; the rest of them is pending. */
  ghost predicate InOrder(st: State) {
    st.accepted == st.log + st.pending && |st.pending| <= BROADCAST_CAPACITY
  }

  /** A client comes back: it registers a channel that has been closed. */
  ghost predicate Returns(st: State, e: Event) {
    e.Register? && e.id in st.channels && st.channels[e.id].closed
  }

  lemma PushServes(c: Channel, log: seq<Message>, m: Message)
    requires Served(c, log, true)
    ensures Served(Push(c, m), log + [m], c.HasRoom())
  {
    var n := |c.taken| + |c.buffer|;
    if c.HasRoom() {
      Assoc(c.taken, c.buffer, [m]);
      assert (log + [m])[c.since..c.since + n + 1] == log[c.since..c.since + n] + [m];
    } else {
      assert (log + [m])[c.since..c.since + n] == log[c.since..c.since + n];
    }
  }

  lemma StillServed(c: Channel, log: seq<Message>, m: Message)
    requires Served(c, log, false)
    ensures Served(c, log + [m], false)
  {
    var n := |c.taken| + |c.buffer|;
    assert (log + [m])[c.since..c.since + n] == log[c.since..c.since + n];
  }

  lemma DrainServes(c: Channel, log: seq<Message>, member: bool)
    requires Served(c, log, member) && c.buffer != []
    ensures Served(c.(buffer := c.buffer[1..], taken := c.taken + [c.buffer[0]]), log, member)
  {
    assert c.taken + [c.buffer[0]] + c.buffer[1..] == c.taken + c.buffer;
  }

  lemma BroadcastServes(st: State)
    requires Valid(st) && AllServed(st) && InOrder(st) && st.pending != []
    ensures var st' := Step(st, Broadcast); Valid(st') && AllServed(st') && InOrder(st') && !SomeClosed(st)
  {
    var m := st.pending[0];
    forall id | id in st.channels
      ensures Served(PushAll(st.clients, st.channels, m)[id], st.log + [m], id in Kept(st.clients, st.channels))
    {
      if id in st.clients {
        PushServes(st.channels[id], st.log, m);
      } else {
        StillServed(st.channels[id], st.log, m);
      }
    }
    assert st.log + st.pending == st.log + [m] + st.pending[1..];
  }

  /** Every step but a return keeps the service going and does not panic. */
  lemma StepServes(st: State, e: Event)
    requires Valid(st) && AllServed(st) && InOrder(st) && !Returns(st, e)
    ensures var st' := Step(st, e); Valid(st') && AllServed(st') && InOrder(st') && st'.panicked == st.panicked
  {
    match e
    case Register(id) =>
      assert st.log[|st.log|..|st.log| + 0] == [];
    case Unregister(id) =>
    case Broadcast =>
      if st.pending != [] {
        BroadcastServes(st);
      }
    case Drain(id) =>
      if id in st.channels && st.channels[id].buffer != [] {
        DrainServes(st.channels[id], st.log, id in st.clients);
      }
    case Write(p) =>
      Assoc(st.log, st.pending, [p]);
  }

  /** No client registers again after it has left, in the run from st. */
  ghost predicate NoReturns(st: State, events: seq<Event>)
    requires Valid(st)
    decreases |events|
  {
    events == [] || st.panicked
    || (!Returns(st, events[0]) && Valid(Step(st, events[0])) && NoReturns(Step(st, events[0]), events[1..]))
  }

  /** Over any sequence of events in which nobody returns: the loop does not panic, so no
      channel is closed twice; each client has a gap-free run of the accepted messages
      from its registration on, with at most 256 of them waiting. */
  lemma {:induction false} RunServes(st: State, events: seq<Event>)
    requires Valid(st) && AllServed(st) && InOrder(st) && !st.panicked && NoReturns(st, events)
    ensures var st' := Run(st, events); Valid(st') && AllServed(st') && InOrder(st') && !st'.panicked
    decreases |events|
  {
    if events != [] {
      StepServes(st, events[0]);
      RunServes(Step(st, events[0]), events[1..]);
    }
  }

  lemma DeliveryIsGapFree(events: seq<Event>, id: Id)
    requires NoReturns(START, events)
    ensures var st := Run(START, events);
            && !st.panicked
            && (id in st.channels ==>
                  var c := st.channels[id];
                  var n := |c.taken| + |c.buffer|;
                  && |c.buffer| <= SEND_CAPACITY && c.since + n <= |st.accepted|
                  && c.taken + c.buffer == st.accepted[c.since..c.since + n]
                  && (c.closed <==> id !in st.clients))
  {
    RunServes(START, events);
    var st := Run(START, events);
    if id in st.channels {
      var c := st.channels[id];
      var n := |c.taken| + |c.buffer|;
      assert Served(c, st.log, id in st.clients);
      assert st.accepted[c.since..c.since + n] == st.log[c.since..c.since + n];
    }
  }

  /** A return is what breaks it: whatever went before, the next departure of the client
      makes the loop panic. */
  lemma ReturnPanics(st: State, id: Id)
    requires Valid(st) && !st.panicked && Returns(st, Register(id))
    ensures Run(st, [Register(id), Unregister(id)]).panicked
  {
    var st1 := Step(st, Register(id));
    StepIsValid(st, Register(id));
    var events := [Register(id), Unregister(id)];
    assert events[1..] == [Unregister(id)];
    assert Run(st, events) == Run(st1, [Unregister(id)]);
    StepIsValid(st1, Unregister(id));
    assert Run(st1, [Unregister(id)]) == Run(Step(st1, Unregister(id)), []);
  }

  /* ---- When the loop panics ---- */

  lemma {:induction false} RunAppend(st: State, events: seq<Event>, e: Event)
    requires Valid(st)
    ensures var mid := Run(st, events);
            Valid(mid) && Run(st, events + [e]) == if mid.panicked then mid else Step(mid, e)
    decreases |events|
  {
    if events == [] || st.panicked {
      StepIsValid(st, e);
      assert [e][1..] == [] && [] + [e] == [e];
    } else {
      StepIsValid(st, events[0]);
      assert (events + [e])[0] == events[0] && (events + [e])[1..] == events[1..] + [e];
      RunAppend(Step(st, events[0]), events[1..], e);
    }
  }

  /** The hub after the first k events. */
  ghost function StateAt(events: seq<Event>, k: nat): (st: State)
    requires k <= |events|
  {
    Run(START, events[..k])
  }

  lemma {:induction false} StateAtIsValid(events: seq<Event>, k: nat)
    requires k <= |events|
    ensures Valid(StateAt(events, k))
  {
    if k > 0 {
      StateAtIsValid(events, k - 1);
      assert events[..k] == events[..k - 1] + [events[k - 1]];
      RunAppend(START, events[..k - 1], events[k - 1]);
      StepIsValid(StateAt(events, k - 1), events[k - 1]);
    }
  }

  lemma NextState(events: seq<Event>, k: nat)
    requires k < |events|
    ensures Valid(StateAt(events, k))
    ensures StateAt(events, k + 1)
            == if StateAt(events, k).panicked then StateAt(events, k) else Step(StateAt(events, k), events[k])
  {
    StateAtIsValid(events, k);
    assert events[..k + 1] == events[..k] + [events[k]];
    RunAppend(START, events[..k], events[k]);
  }

  /** Event i is the return of a client that had left. */
  ghost predicate ReturnsAt(events: seq<Event>, i: nat, id: Id) {
    i < |events| && events[i] == Register(id) && Returns(StateAt(events, i), events[i])
  }

  /** Event j makes the loop touch the channel of a client. */
  ghost predicate TouchesAt(events: seq<Event>, j: nat, id: Id) {
    j < |events| && (events[j] == Unregister(id) || (events[j] == Broadcast && StateAt(events, j).pending != []))
  }

  ghost predicate ClosedMember(st: State, id: Id) {
    id in st.clients && id in st.channels && st.channels[id].closed
  }

  /** One event: the client with the closed channel stays, or the loop panics. */
  lemma ClosedMemberStays(st: State, e: Event, id: Id)
    requires Valid(st) && !st.panicked && ClosedMember(st, id)
    ensures Step(st, e).panicked || ClosedMember(Step(st, e), id)
    ensures e == Unregister(id) || (e == Broadcast && st.pending != []) ==> Step(st, e).panicked
  {
  }

  /** A closed channel comes among the clients only by a return. */
  lemma ClosedMemberComes(st: State, e: Event, id: Id)
    requires Valid(st) && !st.panicked && !Step(st, e).panicked && ClosedMember(Step(st, e), id)
    ensures ClosedMember(st, id) || (e == Register(id) && Returns(st, e))
  {
  }

  lemma StartState(events: seq<Event>)
    ensures StateAt(events, 0) == START
  {
    assert events[..0] == [];
  }

  lemma {:induction false} ClosedMemberReturned(events: seq<Event>, k: nat, id: Id) returns (i: nat)
    requires k <= |events| && !StateAt(events, k).panicked && ClosedMember(StateAt(events, k), id)
    ensures i < k && ReturnsAt(events, i, id)
    decreases k
  {
    StartState(events);
    i := k - 1;
    NextState(events, i);
    var st := StateAt(events, i);
    ClosedMemberComes(st, events[i], id);
    if ClosedMember(st, id) {
      i := ClosedMemberReturned(events, i, id);
    }
  }

  lemma {:induction false} ReturnedStays(events: seq<Event>, i: nat, k: nat, id: Id)
    requires ReturnsAt(events, i, id) && i < k <= |events|
    ensures StateAt(events, k).panicked || ClosedMember(StateAt(events, k), id)
    decreases k
  {
    NextState(events, k - 1);
    if i < k - 1 {
      ReturnedStays(events, i, k - 1, id);
      if !StateAt(events, k - 1).panicked {
        ClosedMemberStays(StateAt(events, k - 1), events[k - 1], id);
      }
    }
  }

  lemma {:induction false} PanicStays(events: seq<Event>, k: nat, l: nat)
    requires k <= l <= |events| && StateAt(events, k).panicked
    ensures StateAt(events, l).panicked
    decreases l
  {
    if k < l {
      PanicStays(events, k, l - 1);
      NextState(events, l - 1);
    }
  }

  /** A panic has a first step, which finds a closed channel among the clients. */
  lemma {:induction false} FirstPanic(events: seq<Event>, k: nat) returns (i: nat, j: nat, id: Id)
    requires k <= |events| && StateAt(events, k).panicked
    ensures i < j < k && ReturnsAt(events, i, id) && TouchesAt(events, j, id)
    decreases k
  {
    StartState(events);
    j := k - 1;
    NextState(events, j);
    var st, e := StateAt(events, j), events[j];
    if st.panicked {
      i, j, id := FirstPanic(events, j);
    } else {
      if e.Unregister? {
        id := e.id;
      } else {
        id :| id in st.clients && st.channels[id].closed;
      }
      i := ClosedMemberReturned(events, j, id);
    }
  }

  /** Over every sequence of events: the loop panics exactly when some client registers
      again after it had left, and later unregisters or has a message broadcast to it. */
  lemma PanicsExactlyAfterReturn(events: seq<Event>)
    ensures Run(START, events).panicked
            <==> exists i: nat, j: nat, id :: i < j && ReturnsAt(events, i, id) && TouchesAt(events, j, id)
  {
    assert events[..|events|] == events;
    if Run(START, events).panicked {
      var i, j, id := FirstPanic(events, |events|);
    }
    if exists i: nat, j: nat, id :: i < j && ReturnsAt(events, i, id) && TouchesAt(events, j, id) {
      var i: nat, j: nat, id :| i < j && ReturnsAt(events, i, id) && TouchesAt(events, j, id);
      ReturnedStays(events, i, j, id);
      NextState(events, j);
      if !StateAt(events, j).panicked {
        ClosedMemberStays(StateAt(events, j), events[j], id);
      }
      PanicStays(events, j + 1, |events|);
    }
  }
}
