/**
 * Concrete runs of the model: the socket machine of
 * examples/hello_tsm/main.cpp, driven through the classes of module Tsm, and
 * a small hierarchy in which a nested machine hands an event to its parent.
 */
module Scenarios {
  import opened Wrappers
  import opened Events
  import opened Transitions
  import opened Hsm
  import opened Tsm

  /** The socket machine's states, and the identity of the machine itself. */
  const Closed: StateId := 0
  const Ready: StateId := 1
  const Bound: StateId := 2
  const Open: StateId := 3
  const Listening: StateId := 4
  const Socket: StateId := 10

  function T(to: StateId): Transition {
    Transition(to, None, None)
  }

  /** The registrations of the socket machine's definition, in source order:
      sock_open, bind, listen, connect, accept and close are the events with
      ids 2 to 7. */
  function SocketLog(): seq<Registration> {
    [ Registration(Closed, Event(2, 0), T(Ready)),
      Registration(Ready, Event(5, 0), T(Open)),
      Registration(Ready, Event(3, 0), T(Bound)),
      Registration(Bound, Event(4, 0), T(Listening)),
      Registration(Listening, Event(6, 0), T(Listening)),
      Registration(Listening, Event(7, 0), T(Closed)),
      Registration(Open, Event(7, 0), T(Closed)) ]
  }

  /** The main thread's id context is fresh when the program starts. The
      static `null_event`, default-constructed before `main`, takes id 1;
      the six events of the socket machine, default-constructed afterwards in
      declaration order, get the ids 2 to 7, provided the builder classes the
      definition derives from mint no ids before them. */
  method MintSocketEvents() returns (nullEvent: Event, events: seq<Event>)
    ensures nullEvent == Event(1, 0)
    ensures events == [Event(2, 0), Event(3, 0), Event(4, 0), Event(5, 0), Event(6, 0), Event(7, 0)]
  {
    var context := new IdCounter();
    nullEvent := context.NewEvent();
    var sockOpen := context.NewEvent();
    var bind := context.NewEvent();
    var listen := context.NewEvent();
    var connect := context.NewEvent();
    var accept := context.NewEvent();
    var close := context.NewEvent();
    events := [sockOpen, bind, listen, connect, accept, close];
  }

  /** A machine definition's constructor: one `add` per registration, in order. */
  method Define(sm: StateMachine, log: seq<Registration>)
    requires sm.Valid() && sm.registered == []
    modifies sm
    ensures sm.Valid() && sm.registered == log
    ensures sm.interrupt == old(sm.interrupt) && sm.currentState == old(sm.currentState)
    ensures sm.parent == old(sm.parent)
  {
    ghost var interrupt, current, parent := sm.interrupt, sm.currentState, sm.parent;
    for i := 0 to |log|
      invariant sm.Valid() && sm.registered == log[..i]
      invariant sm.interrupt == interrupt && sm.currentState == current && sm.parent == parent
    {
      var r := log[i];
      sm.Add(r.from, r.event, r.transition.toState, r.transition.action, r.transition.guard);
      assert log[..i + 1] == log[..i] + [r];
    }
    assert log[..|log|] == log;
  }

  /** The socket machine, a root that starts at Closed and has no stop state. */
  method BuildSocket(queue: EventQueue) returns (sm: StateMachine)
    ensures fresh(sm) && sm.Valid() && sm.registered == SocketLog()
    ensures sm.id == Socket && sm.startState == Some(Closed) && sm.stopState == None
    ensures sm.queue == queue && sm.children == map[] && sm.parent == None
    ensures !sm.interrupt && sm.currentState == None
  {
    var nullEvent, events := MintSocketEvents();
    var sockOpen, bind, listen, connect, accept, close := events[0], events[1], events[2], events[3], events[4], events[5];
    sm := new StateMachine(Socket, Some(Closed), None, queue, None, map[]);
    Define(sm, [ Registration(Closed, sockOpen, T(Ready)),
                 Registration(Ready, connect, T(Open)),
                 Registration(Ready, bind, T(Bound)),
                 Registration(Bound, listen, T(Listening)),
                 Registration(Listening, accept, T(Listening)),
                 Registration(Listening, close, T(Closed)),
                 Registration(Open, close, T(Closed)) ]);
  }

  /**
   * The sequence of examples/hello_tsm/main.cpp on the model: the socket
   * machine is started at Closed, `sock_open` is sent, the loop of
   * `StateMachine::execute` runs (standing in for `step()`, which is not
   * modelled), then the machine is exited. The loop moves to Ready and calls
   * `execute()` of Ready. The program would then block on the empty queue
   * until `stopSM`; the model has no blocking wait, and its stand-in for that
   * wait is the `Rethrown` outcome. Exiting the machine stops the queue.
   */
  method SocketRun(guards: GuardId -> bool)
    returns (outcome: Outcome, calls: seq<Call>, state: Option<StateId>, stopped: bool)
    ensures outcome == Rethrown
    ensures calls == [SetCurrent(Socket, Ready), ExecuteState(Ready)]
    ensures state == Some(Ready) && stopped
  {
    var queue := new EventQueue();
    var sm := BuildSocket(queue);
    sm.StartHSM();
    outcome, calls := OpenSocket(sm, guards);
    state := sm.currentState;
    var exitCalls := sm.OnExit();
    stopped := queue.stopped;
  }

  /** `sendEvent(sock_open)` to the started socket machine, then its loop. */
  method OpenSocket(sm: StateMachine, guards: GuardId -> bool) returns (outcome: Outcome, calls: seq<Call>)
    requires sm.Valid() && sm.registered == SocketLog() && sm.children == map[]
    requires sm.id == Socket && sm.stopState == None && sm.parent == None
    requires !sm.interrupt && sm.currentState == Some(Closed)
    requires sm.queue.events == [] && !sm.queue.stopped
    modifies sm, sm.queue
    ensures outcome == Rethrown && calls == [SetCurrent(Socket, Ready), ExecuteState(Ready)]
    ensures sm.currentState == Some(Ready) && sm.parent == None
  {
    sm.queue.AddBack(Event(2, 0));
    assert sm.Nested() && sm.KidsView() == map[];
    SendOpen(sm.View(), guards);
    outcome, calls := sm.Execute(guards);
  }

  /** From Closed, with `sock_open` the only pending event, the root socket
      machine moves to Ready and then waits on an empty queue. */
  lemma SendOpen(v: Machine, guards: GuardId -> bool)
    requires !v.interrupt && !v.hasParent && v.current == Some(Closed) && v.stop == None
    requires v.table == TableOf(SocketLog())
    ensures Run(v, map[], [Event(2, 0)], false, guards)
         == RunResult(v.(current := Some(Ready)), map[], [], [SetCurrent(v.id, Ready), ExecuteState(Ready)], Rethrown)
  {
    TableOfKeepsFirst(SocketLog(), (Closed, 2));
    var q := [Event(2, 0)];
    assert q[1..] == [];
    assert Run(v, map[], q, false, guards)
        == Then(Fired(v.id, T(Ready)), Run(v.(current := Some(Ready)), map[], [], false, guards));
  }

  /** `close` is one event shared by two transitions, from Listening and from
      Open; `bind` is not handled in Closed. */
  lemma SocketTable()
    ensures Get(TableOf(SocketLog()), (Closed, 2)) == Some(T(Ready))
    ensures Get(TableOf(SocketLog()), (Listening, 7)) == Some(T(Closed))
    ensures Get(TableOf(SocketLog()), (Open, 7)) == Some(T(Closed))
    ensures Get(TableOf(SocketLog()), (Closed, 3)) == None
  {
    TableOfKeepsFirst(SocketLog(), (Closed, 2));
    TableOfKeepsFirst(SocketLog(), (Listening, 7));
    TableOfKeepsFirst(SocketLog(), (Open, 7));
    TableOfKeepsFirst(SocketLog(), (Closed, 3));
  }

  /** The recognised-event set holds each of the six events once, although
      `close` was registered twice. */
  lemma SocketEvents()
    ensures forall id :: 2 <= id <= 7 ==> Get(EventsOf(SocketLog()), id) == Some(Event(id, 0))
    ensures Get(EventsOf(SocketLog()), 1) == None && Get(EventsOf(SocketLog()), 8) == None
  {
    forall id | 1 <= id <= 8 ensures Get(EventsOf(SocketLog()), id) == FirstEvent(SocketLog(), id) {
      EventsOfKeepsFirst(SocketLog(), id);
    }
  }

  /** Registering sock_open from Closed once more, to another target, changes
      neither the table nor the event set: the first registration stays. */
  lemma SocketReRegistration()
    ensures var again := SocketLog() + [Registration(Closed, Event(2, 0), T(Bound))];
      TableOf(again) == TableOf(SocketLog()) && EventsOf(again) == EventsOf(SocketLog())
  {
    TableOfKeepsFirst(SocketLog(), (Closed, 2));
    EventsOfKeepsFirst(SocketLog(), 2);
    RegisterOneMore(SocketLog(), Registration(Closed, Event(2, 0), T(Bound)));
  }

  /**
   * A root machine R at state 0 whose state 1 is a nested machine C (at its
   * state 3) and whose stop state is 2. Event 1 takes R to C; C has no
   * transition for event 2 and hands it back; R takes it to its stop state.
   */
  function Root(): Machine {
    Machine(10, false, Some(0), Some(2),
            map[(0, 1) := Transition(1, None, None), (1, 2) := Transition(2, None, None)],
            map[1 := Event(1, 0), 2 := Event(2, 0)], false)
  }

  function Child(): Machine {
    Machine(1, false, Some(3), None, map[(3, 3) := Transition(4, None, None)],
            map[3 := Event(3, 0)], true)
  }

  lemma BubbleToParent(guards: GuardId -> bool)
    ensures var r := Run(Root(), map[1 := Child()], [Event(1, 0), Event(2, 0)], false, guards);
      && r.outcome == Returned && r.queue == []
      && r.m == Root().(interrupt := true, current := Some(2))
      && r.kids == map[1 := Child()]
      && r.calls == [SetCurrent(10, 1), ExecuteState(1), SetCurrent(10, 2), ExecuteState(2)]
  {
    var q := [Event(1, 0), Event(2, 0)];
    var kids := map[1 := Child()];
    var atChild := Root().(current := Some(1));
    var atStop := Root().(current := Some(2));
    MissWithParentBubbles(Child(), map[], q[1..], false, guards);
    assert Run(Child(), map[], q[1..], false, guards) == RunResult(Child(), map[], q[1..], [], Returned);
    assert kids[1 := Child()] == kids;
    assert Run(Root(), kids, q, false, guards)
        == Then([SetCurrent(10, 1), ExecuteState(1)], Run(atChild, kids, q[1..], false, guards));
    assert q[1..][1..] == [];
    assert Run(atChild, kids, q[1..], false, guards)
        == Then([SetCurrent(10, 2), ExecuteState(2)], Run(atStop, kids, [], false, guards));
  }
}
