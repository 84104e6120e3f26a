/**
 * The hierarchical state machine of tsm.h as objects: the shared event queue,
 * `StateMachine` with its `execute()` loop, and `OrthogonalHSM`, which runs
 * two machines as regions over one queue. Each `execute()` is proved to do
 * exactly what the functions `Run` and `OrthoRun` of module Hsm describe.
 *
 * Threads are not modelled: a root's `execute()` is what its thread would
 * run, called here directly.
 */
module Tsm {
  import opened Wrappers
  import opened Events
  import opened Transitions
  import opened Hsm

  /** The result of waiting for the next event. */
  datatype Wait = Got(event: Event) | Interrupted

  /**
   * The blocking event queue shared by a hierarchy: the pending events and
   * the stop signal. Blocking is not modelled: a wait on an empty queue ends
   * with the interrupted outcome, like a wait on a stopped one.
   */
  class EventQueue {
    var events: seq<Event>
    var stopped: bool

    constructor ()
      ensures events == [] && !stopped
    {
      events, stopped := [], false;
    }

    /** `nextEvent`: the front event, or the interrupted outcome when the
        queue is stopped or empty. */
    method NextEvent() returns (w: Wait)
      modifies this
      ensures stopped == old(stopped)
      ensures old(stopped) || old(events) == [] ==> w == Interrupted && events == old(events)
      ensures !old(stopped) && old(events) != [] ==> w == Got(old(events)[0]) && events == old(events)[1..]
    {
      if stopped || events == [] {
        w := Interrupted;
      } else {
        w := Got(events[0]);
        events := events[1..];
      }
    }

    /** `addFront`: put an event back before everything already queued. */
    method AddFront(e: Event)
      modifies this
      ensures events == [e] + old(events) && stopped == old(stopped)
    {
      events := [e] + events;
    }

    /** The ordinary enqueue behind `sendEvent`. */
    method AddBack(e: Event)
      modifies this
      ensures events == old(events) + [e] && stopped == old(stopped)
    {
      events := events + [e];
    }

    /** `stop`: idempotent; every later wait is interrupted. */
    method Stop()
      modifies this
      ensures stopped && events == old(events)
    {
      stopped := true;
    }
  }

  /** An event put at the front is taken before the ones already queued, which
      keep their order. */
  method FrontInsertionComesFirst(e1: Event, e2: Event, e3: Event) returns (x: Wait, y: Wait, z: Wait)
    ensures x == Got(e1) && y == Got(e2) && z == Got(e3)
  {
    var q := new EventQueue();
    q.AddBack(e2);
    q.AddBack(e3);
    q.AddFront(e1);
    x := q.NextEvent();
    y := q.NextEvent();
    z := q.NextEvent();
  }

  /** A machine's table, event set and registrations. */
  type TableDefinition = (map<Key, Transition>, map<EventId, Event>, seq<Registration>)

  /**
   * `StateMachine`. `children` are the states of this machine that are
   * themselves machines (two levels: they have no nested machines of their
   * own); every other state is a leaf. `parent` is the identity of the parent
   * state, `None` at a root. `registered` is the ghost record of `add` calls.
   */
  class StateMachine {
    const id: StateId
    const startState: Option<StateId>
    const stopState: Option<StateId>
    const queue: EventQueue
    const children: map<StateId, StateMachine>
    var interrupt: bool
    var currentState: Option<StateId>
    var parent: Option<StateId>
    var table: map<Key, Transition>
    var eventSet: map<EventId, Event>
    ghost var registered: seq<Registration>

    /** The table and the event set are those the registrations built. */
    ghost predicate Valid()
      reads this
    {
      table == TableOf(registered) && eventSet == EventsOf(registered)
    }

    /** Nested machines are known by their own identity, have no nested
        machines themselves and share this machine's queue. */
    ghost predicate Nested() {
      && this !in children.Values
      && forall s :: s in children ==>
           children[s].id == s && children[s].children == map[] && children[s].queue == queue
    }

    /** What the `add` calls built: the table, the event set and the
        registrations themselves. A run changes none of them. */
    ghost function Definition(): TableDefinition
      reads this
    {
      (table, eventSet, registered)
    }

    /** The definition and the parent of each nested machine, none of which
        a run changes. */
    ghost function KidsDefinitions(): map<StateId, (TableDefinition, Option<StateId>)>
      reads children.Values
    {
      map s | s in children :: (children[s].Definition(), children[s].parent)
    }

    function View(): Machine
      reads this
    {
      Machine(id, interrupt, currentState, stopState, table, eventSet, parent.Some?)
    }

    function KidsView(): map<StateId, Machine>
      reads children.Values
    {
      map s | s in children :: children[s].View()
    }

    constructor (id: StateId, startState: Option<StateId>, stopState: Option<StateId>,
                 queue: EventQueue, parent: Option<StateId>, children: map<StateId, StateMachine>)
      ensures Valid() && registered == []
      ensures this.id == id && this.startState == startState && this.stopState == stopState
      ensures this.queue == queue && this.parent == parent && this.children == children
      ensures !interrupt && currentState == None
    {
      this.id, this.startState, this.stopState := id, startState, stopState;
      this.queue, this.parent, this.children := queue, parent, children;
      interrupt, currentState := false, None;
      table, eventSet, registered := map[], map[], [];
    }

    /** `add`: insert the transition (an existing one for the key is kept),
        then record the event. */
    method Add(fromState: StateId, onEvent: Event, toState: StateId,
               action: Option<ActionId>, guard: Option<GuardId>)
      requires Valid()
      modifies this
      ensures Valid()
      ensures registered == old(registered) + [Registration(fromState, onEvent, Transition(toState, action, guard))]
      ensures table == Insert(old(table), (fromState, onEvent.id), Transition(toState, action, guard))
      ensures eventSet == InsertEvent(old(eventSet), onEvent)
      ensures interrupt == old(interrupt) && currentState == old(currentState) && parent == old(parent)
    {
      var t := Transition(toState, action, guard);
      AddTransition(fromState, onEvent, t);
      eventSet := InsertEvent(eventSet, onEvent);
      registered := registered + [Registration(fromState, onEvent, t)];
      assert registered[..|registered| - 1] == old(registered);
    }

    /** `addTransition`: insert into the table only. */
    method AddTransition(fromState: StateId, onEvent: Event, t: Transition)
      modifies this
      ensures table == Insert(old(table), (fromState, onEvent.id), t)
      ensures eventSet == old(eventSet) && registered == old(registered)
      ensures interrupt == old(interrupt) && currentState == old(currentState) && parent == old(parent)
    {
      table := Insert(table, (fromState, onEvent.id), t);
    }

    /** `table_.next` on this machine: the first registration of the key. */
    function NextTransition(fromState: Option<StateId>, onEvent: Event): (r: Option<Transition>)
      reads this
      requires Valid()
      ensures fromState.None? ==> r == None
      ensures fromState.Some? ==> r == FirstTransition(registered, (fromState.value, onEvent.id))
    {
      if fromState.None? then None
      else
        NextFindsFirstRegistration(registered, fromState.value, onEvent);
        Next(table, fromState, onEvent)
    }

    /** `getEvents`: each registered id, with the first event registered under it. */
    function GetEvents(): (r: map<EventId, Event>)
      reads this
      requires Valid()
      ensures forall id :: Get(r, id) == FirstEvent(registered, id)
    {
      forall id ensures Get(eventSet, id) == FirstEvent(registered, id) {
        EventsOfKeepsFirst(registered, id);
      }
      eventSet
    }

    /** `setParent`. */
    method SetParent(p: Option<StateId>)
      modifies this
      ensures parent == p
      ensures interrupt == old(interrupt) && currentState == old(currentState)
      ensures table == old(table) && eventSet == old(eventSet) && registered == old(registered)
    {
      parent := p;
    }

    /** `startHSM`: the current state becomes the start state (a root would
        also start its thread). */
    method StartHSM()
      modifies this
      ensures currentState == startState
      ensures interrupt == old(interrupt) && parent == old(parent)
      ensures table == old(table) && eventSet == old(eventSet) && registered == old(registered)
    {
      currentState := startState;
    }

    /** `stopHSM`: raise `interrupt_`; a root also stops the shared queue (and
        would join its thread). */
    method StopHSM()
      modifies this, queue
      ensures interrupt
      ensures queue.stopped == (old(queue.stopped) || parent.None?) && queue.events == old(queue.events)
      ensures currentState == old(currentState) && parent == old(parent)
      ensures table == old(table) && eventSet == old(eventSet) && registered == old(registered)
    {
      interrupt := true;
      if parent.None? {
        queue.Stop();
      }
    }

    /** `OnEntry`: start the machine. */
    method OnEntry() returns (calls: seq<Call>)
      modifies this
      ensures calls == [Entered(id)]
      ensures currentState == startState
      ensures interrupt == old(interrupt) && parent == old(parent)
      ensures table == old(table) && eventSet == old(eventSet) && registered == old(registered)
    {
      StartHSM();
      calls := [Entered(id)];
    }

    /** `OnExit`: forget the current state, then stop the machine. */
    method OnExit() returns (calls: seq<Call>)
      modifies this, queue
      ensures calls == [Exited(id)]
      ensures currentState == None && interrupt
      ensures queue.stopped == (old(queue.stopped) || parent.None?) && queue.events == old(queue.events)
      ensures parent == old(parent)
      ensures table == old(table) && eventSet == old(eventSet) && registered == old(registered)
    {
      currentState := None;
      StopHSM();
      calls := [Exited(id)];
    }

    /**
     * `execute`. The new state of this machine, of its nested machines and
     * of the queue, the calls made and the outcome are those of `Run` on the
     * old state; no machine's definition or parent changes.
     */
    method Execute(guards: GuardId -> bool) returns (outcome: Outcome, calls: seq<Call>)
      requires Nested()
      modifies this, queue, children.Values
      decreases |children|, 5
      ensures queue.stopped == old(queue.stopped) && parent == old(parent)
      ensures Definition() == old(Definition())
      ensures forall s :: s in children ==>
        children[s].Definition() == old(children[s].Definition()) && children[s].parent == old(children[s].parent)
      ensures RunResult(View(), KidsView(), queue.events, calls, outcome)
              == Run(old(View()), old(KidsView()), old(queue.events), old(queue.stopped), guards)
    {
      ghost var defs := KidsDefinitions();
      KidsDefinitionsAt(this, defs);
      outcome, calls := Loop(guards);
      KidsDefinitionsAt(this, defs);
    }

    /** The `while (!interrupt_)` loop of `execute`, which continues `Run`
        pass by pass. */
    method Loop(guards: GuardId -> bool) returns (outcome: Outcome, calls: seq<Call>)
      requires Nested()
      modifies this, queue, children.Values
      decreases |children|, 4
      ensures queue.stopped == old(queue.stopped) && parent == old(parent)
      ensures Definition() == old(Definition()) && KidsDefinitions() == old(KidsDefinitions())
      ensures RunResult(View(), KidsView(), queue.events, calls, outcome)
              == Run(old(View()), old(KidsView()), old(queue.events), old(queue.stopped), guards)
    {
      ghost var spec := Run(View(), KidsView(), queue.events, queue.stopped, guards);
      calls, outcome := [], Returned;
      while !interrupt
        invariant queue.stopped == old(queue.stopped) && parent == old(parent)
        invariant Definition() == old(Definition()) && KidsDefinitions() == old(KidsDefinitions())
        invariant Then(calls, Run(View(), KidsView(), queue.events, queue.stopped, guards)) == spec
        decreases |queue.events|
      {
        ghost var rest := Run(View(), KidsView(), queue.events, queue.stopped, guards);
        var more, o, c := Step(guards, rest);
        if !more {
          calls, outcome := calls + c, o;
          return;
        }
        ThenThen(calls, c, Run(View(), KidsView(), queue.events, queue.stopped, guards));
        calls := calls + c;
      }
      InterruptedRunIsNoOp(View(), KidsView(), queue.events, queue.stopped, guards);
      assert calls + [] == calls;
    }

    /** One pass of the loop of `execute`, which continues the run `spec`. */
    method Step(guards: GuardId -> bool, ghost spec: RunResult) returns (more: bool, outcome: Outcome, calls: seq<Call>)
      requires Nested() && !interrupt
      requires spec == Run(View(), KidsView(), queue.events, queue.stopped, guards)
      modifies this, queue, children.Values
      decreases |children|, 3
      ensures queue.stopped == old(queue.stopped) && parent == old(parent)
      ensures Definition() == old(Definition()) && KidsDefinitions() == old(KidsDefinitions())
      ensures more ==> |queue.events| < |old(queue.events)|
      ensures more ==> Then(calls, Run(View(), KidsView(), queue.events, queue.stopped, guards)) == spec
      ensures !more ==> RunResult(View(), KidsView(), queue.events, calls, outcome) == spec
    {
      if currentState == stopState {
        more, outcome, calls := false, Returned, [];
        ReachStop(guards, spec);
        return;
      }
      ghost var before, kids, pending := View(), KidsView(), queue.events;
      var w := queue.NextEvent();
      KidsUnchanged(this);
      if w.Interrupted? {
        // interrupt_ is still false here, so the queue's exception is rethrown.
        InterruptedWaitRethrows(before, kids, pending, queue.stopped, guards);
        more, outcome, calls := false, Rethrown, [];
        return;
      }
      assert View() == before && KidsView() == kids && [w.event] + queue.events == pending;
      more, outcome, calls := Dispatch(w.event, guards, spec);
    }

    /** The current state is the stop state: raise `interrupt_`, which ends
        the run `spec` with nothing else changed. */
    method ReachStop(guards: GuardId -> bool, ghost spec: RunResult)
      requires Nested() && !interrupt && currentState == stopState
      requires spec == Run(View(), KidsView(), queue.events, queue.stopped, guards)
      modifies this
      ensures Definition() == old(Definition()) && parent == old(parent)
      ensures KidsDefinitions() == old(KidsDefinitions())
      ensures RunResult(View(), KidsView(), queue.events, [], Returned) == spec
    {
      StopStateEndsLoop(View(), KidsView(), queue.events, queue.stopped, guards);
      interrupt := true;
      KidsUnchanged(this);
    }

    /**
     * The rest of one pass after `e` was taken from the queue: look up the
     * transition; bubble the event back to the front (ending the loop) or drop
     * it when there is none; check the guard; fire the transition.
     */
    method Dispatch(e: Event, guards: GuardId -> bool, ghost spec: RunResult)
      returns (more: bool, outcome: Outcome, calls: seq<Call>)
      requires Nested() && !interrupt && currentState != stopState && !queue.stopped
      requires spec == Run(View(), KidsView(), [e] + queue.events, queue.stopped, guards)
      modifies this, queue, children.Values
      decreases |children|, 2
      ensures queue.stopped == old(queue.stopped) && parent == old(parent)
      ensures Definition() == old(Definition()) && KidsDefinitions() == old(KidsDefinitions())
      ensures more ==> |queue.events| <= |old(queue.events)|
      ensures more ==> Then(calls, Run(View(), KidsView(), queue.events, queue.stopped, guards)) == spec
      ensures !more ==> RunResult(View(), KidsView(), queue.events, calls, outcome) == spec
    {
      ghost var before, kids, pending := View(), KidsView(), [e] + queue.events;
      assert pending[0] == e && pending[1..] == queue.events;
      var t := Next(table, currentState, e);
      if t.None? {
        if parent.Some? {
          MissWithParentBubbles(before, kids, pending, queue.stopped, guards);
          queue.AddFront(e);
          KidsUnchanged(this);
          more, outcome, calls := false, Returned, [];
          return;
        }
        MissAtRootDrops(before, kids, pending, queue.stopped, guards);
        more, outcome, calls := true, Returned, [];
        return;
      }
      var tr := t.value;
      var result := tr.guard.Some? && guards(tr.guard.value);
      if tr.guard.Some? && !result {
        GuardRejectionConsumes(before, kids, pending, queue.stopped, guards);
        more, outcome, calls := true, Returned, [];
        return;
      }
      more, outcome, calls := Hit(e, tr, guards, spec);
    }

    /**
     * The transition `t` for `e` fires and the loop goes on with its target:
     * a leaf, or a nested machine that runs on the queue first.
     */
    method Hit(e: Event, t: Transition, guards: GuardId -> bool, ghost spec: RunResult)
      returns (more: bool, outcome: Outcome, calls: seq<Call>)
      requires Nested() && !interrupt && currentState != stopState && !queue.stopped
      requires Next(table, currentState, e) == Some(t) && Permits(t, guards)
      requires spec == Run(View(), KidsView(), [e] + queue.events, queue.stopped, guards)
      modifies this, queue, children.Values
      decreases |children|, 1
      ensures queue.stopped == old(queue.stopped) && parent == old(parent)
      ensures Definition() == old(Definition()) && KidsDefinitions() == old(KidsDefinitions())
      ensures more ==> |queue.events| <= |old(queue.events)|
      ensures more ==> Then(calls, Run(View(), KidsView(), queue.events, queue.stopped, guards)) == spec
      ensures !more ==> RunResult(View(), KidsView(), queue.events, calls, outcome) == spec
    {
      ghost var before, kids, pending := View(), KidsView(), [e] + queue.events;
      assert pending[0] == e && pending[1..] == queue.events;
      HitMovesThenActsThenExecutes(before, kids, pending, queue.stopped, guards);
      calls := Fire(t);
      KidsUnchanged(this);
      more, outcome := true, Returned;
      if t.toState in children {
        ghost var moved := View();
        assert KidsView() == kids && kids[t.toState] == children[t.toState].View();
        ghost var cr := Run(kids[t.toState], map[], pending[1..], queue.stopped, guards);
        var o, c := RunChild(t.toState, guards);
        assert View() == moved;
        assert KidsView() == kids[t.toState := cr.m] && queue.events == cr.queue;
        calls := calls + c;
        if o == Rethrown {
          more, outcome := false, Rethrown;
        }
      }
    }

    /** `doTransition` as `execute` uses it: the current state becomes the
        target, then the action the transition yields runs, then the target's
        `execute()` is called. */
    method Fire(t: Transition) returns (calls: seq<Call>)
      modifies this
      ensures calls == Fired(id, t)
      ensures View() == old(View()).(current := Some(t.toState))
      ensures Definition() == old(Definition()) && parent == old(parent)
    {
      var action := t.action;  // what the transition's doTransition() yields
      currentState := Some(t.toState);
      calls := [SetCurrent(id, t.toState)];
      if action.Some? {
        calls := calls + [RunAction(id, action.value)];
      }
      calls := calls + [ExecuteState(t.toState)];
    }

    /** The target of a fired transition is the nested machine `children[to]`:
        its `execute()` runs on the shared queue, and that machine alone
        changes. */
    method RunChild(to: StateId, guards: GuardId -> bool) returns (outcome: Outcome, calls: seq<Call>)
      requires Nested() && to in children
      modifies children[to], queue
      decreases |children|, 0
      ensures queue.stopped == old(queue.stopped)
      ensures var cr := Run(old(children[to].View()), map[], old(queue.events), queue.stopped, guards);
        && RunResult(children[to].View(), map[], queue.events, calls, outcome) == cr
        && KidsView() == old(KidsView())[to := cr.m]
      ensures KidsDefinitions() == old(KidsDefinitions())
    {
      ghost var views, defs := KidsView(), KidsDefinitions();
      var child := children[to];
      outcome, calls := RunLeafMachine(child, guards);
      forall s | s in children
        ensures KidsView()[s] == views[to := child.View()][s] && KidsDefinitions()[s] == defs[s]
      {
        if s != to {
          assert children[s].id != child.id;
        }
      }
      assert KidsView() == views[to := child.View()];
    }
  }

  /**
   * `OrthogonalHSM`: a machine without states of its own (`base`, whose start
   * and stop states are null) whose regions `hsm1` and `hsm2` share its queue
   * and have it as their parent.
   */
  class OrthogonalHSM {
    const base: StateMachine
    const hsm1: StateMachine
    const hsm2: StateMachine

    ghost predicate Valid()
      reads hsm1, hsm2
    {
      && base != hsm1 && base != hsm2 && hsm1 != hsm2
      && base.startState == None && base.stopState == None
      && base.children == map[] && hsm1.children == map[] && hsm2.children == map[]
      && hsm1.queue == base.queue && hsm2.queue == base.queue
      && hsm1.parent == Some(base.id) && hsm2.parent == Some(base.id)
    }

    /** The composite and both regions keep their definitions. */
    twostate predicate DefinitionsKept()
      reads this, base, hsm1, hsm2
    {
      && base.Definition() == old(base.Definition())
      && hsm1.Definition() == old(hsm1.Definition())
      && hsm2.Definition() == old(hsm2.Definition())
    }

    /** The constructor makes the composite the parent of both regions. */
    constructor (id: StateId, queue: EventQueue, hsm1: StateMachine, hsm2: StateMachine, parent: Option<StateId>)
      requires hsm1 != hsm2 && hsm1.children == map[] && hsm2.children == map[]
      requires hsm1.queue == queue && hsm2.queue == queue
      modifies hsm1, hsm2
      ensures Valid() && fresh(base) && this.hsm1 == hsm1 && this.hsm2 == hsm2
      ensures base.id == id && base.queue == queue && base.parent == parent
      ensures base.startState == None && base.stopState == None
      ensures !base.interrupt && base.currentState == None && base.Valid() && base.registered == []
      ensures hsm1.View() == old(hsm1.View()).(hasParent := true) && hsm1.registered == old(hsm1.registered)
      ensures hsm2.View() == old(hsm2.View()).(hasParent := true) && hsm2.registered == old(hsm2.registered)
    {
      base := new StateMachine(id, None, None, queue, parent, map[]);
      this.hsm1, this.hsm2 := hsm1, hsm2;
      new;
      hsm1.SetParent(Some(id));
      hsm2.SetParent(Some(id));
    }

    /** `OnEntry`: region 1, then region 2, then the composite itself. */
    method OnEntry() returns (calls: seq<Call>)
      requires Valid()
      modifies base, hsm1, hsm2
      ensures Valid()
      ensures calls == [Entered(hsm1.id), Entered(hsm2.id), Entered(base.id)]
      ensures hsm1.currentState == hsm1.startState && hsm2.currentState == hsm2.startState
      ensures base.currentState == None
      ensures hsm1.interrupt == old(hsm1.interrupt) && hsm2.interrupt == old(hsm2.interrupt)
      ensures base.interrupt == old(base.interrupt) && base.parent == old(base.parent)
      ensures base.Definition() == old(base.Definition()) && hsm1.Definition() == old(hsm1.Definition())
      ensures hsm2.Definition() == old(hsm2.Definition())
    {
      var c1 := hsm1.OnEntry();
      var c2 := hsm2.OnEntry();
      var c3 := base.OnEntry();
      calls := c1 + c2 + c3;
    }

    /** `OnExit`: region 1, then region 2, then the composite, each left with
        a null current state and stopped; only a root composite stops the
        shared queue. */
    method OnExit() returns (calls: seq<Call>)
      requires Valid()
      modifies base, hsm1, hsm2, base.queue
      ensures Valid()
      ensures calls == [Exited(hsm1.id), Exited(hsm2.id), Exited(base.id)]
      ensures hsm1.currentState == None && hsm2.currentState == None && base.currentState == None
      ensures hsm1.interrupt && hsm2.interrupt && base.interrupt
      ensures base.queue.stopped == (old(base.queue.stopped) || base.parent.None?)
      ensures base.queue.events == old(base.queue.events) && base.parent == old(base.parent)
      ensures base.Definition() == old(base.Definition()) && hsm1.Definition() == old(hsm1.Definition())
      ensures hsm2.Definition() == old(hsm2.Definition())
    {
      var c1 := hsm1.OnExit();
      var c2 := hsm2.OnExit();
      var c3 := base.OnExit();
      calls := c1 + c2 + c3;
    }

    /**
     * `execute`: the loop of rounds. The new state of the regions and of the
     * queue, the calls made and the outcome are those of `OrthoRun` on the old
     * state, where `fuel` bounds the number of rounds.
     */
    method Execute(guards: GuardId -> bool, fuel: nat) returns (outcome: Outcome, calls: seq<Call>)
      requires Valid()
      modifies base.queue, hsm1, hsm2
      ensures Valid() && base.queue.stopped == old(base.queue.stopped)
      ensures DefinitionsKept()
      ensures OrthoResult(base.View(), hsm1.View(), hsm2.View(), base.queue.events, calls, outcome)
              == OrthoRun(old(base.View()), old(hsm1.View()), old(hsm2.View()), old(base.queue.events),
                          old(base.queue.stopped), guards, fuel)
    {
      ghost var spec := OrthoRun(base.View(), hsm1.View(), hsm2.View(), base.queue.events,
                                 base.queue.stopped, guards, fuel);
      ghost var d1, d2 := hsm1.Definition(), hsm2.Definition();
      var f := fuel;
      calls, outcome := [], Returned;
      while !base.interrupt
        invariant Valid() && base.queue.stopped == old(base.queue.stopped)
        invariant hsm1.Definition() == d1 && hsm2.Definition() == d2
        invariant OrthoThen(calls, OrthoRun(base.View(), hsm1.View(), hsm2.View(), base.queue.events,
                                            base.queue.stopped, guards, f)) == spec
        decreases f
      {
        if f == 0 {
          // The bound on the number of rounds is reached.
          assert calls + [] == calls;
          outcome := OutOfFuel;
          return;
        }
        ghost var rest := OrthoRun(base.View(), hsm1.View(), hsm2.View(), base.queue.events,
                                   base.queue.stopped, guards, f);
        var more, o, c := Round(guards, f - 1, rest);
        if !more {
          calls, outcome := calls + c, o;
          return;
        }
        f := f - 1;
        OrthoThenThen(calls, c, OrthoRun(base.View(), hsm1.View(), hsm2.View(), base.queue.events,
                                         base.queue.stopped, guards, f));
        calls := calls + c;
      }
      assert calls + [] == calls;
    }

    /**
     * One round: run region 1, then region 2, then take the next event from
     * the queue and put it back at the front when region 1 recognises it or
     * when there is a parent to leave it to (ending the loop); at the root
     * any other event is dropped.
     */
    method Round(guards: GuardId -> bool, f: nat, ghost spec: OrthoResult)
      returns (more: bool, outcome: Outcome, calls: seq<Call>)
      requires Valid() && !base.interrupt
      requires spec == OrthoRun(base.View(), hsm1.View(), hsm2.View(), base.queue.events,
                                base.queue.stopped, guards, f + 1)
      modifies base.queue, hsm1, hsm2
      ensures Valid() && base.queue.stopped == old(base.queue.stopped)
      ensures DefinitionsKept()
      ensures more ==> OrthoThen(calls, OrthoRun(base.View(), hsm1.View(), hsm2.View(), base.queue.events,
                                                 base.queue.stopped, guards, f)) == spec
      ensures !more ==> OrthoResult(base.View(), hsm1.View(), hsm2.View(), base.queue.events, calls, outcome) == spec
    {
      assert hsm1.Nested() && hsm1.KidsView() == map[];
      var o1, c1 := hsm1.Execute(guards);
      if o1 == Rethrown {
        more, outcome, calls := false, Rethrown, c1;
        return;
      }
      more, outcome, calls := SecondRegion(guards, f, spec, c1);
    }

    /** The rest of a round after region 1 returned normally with the calls
        `c1`: run region 2, then take the next event. */
    method SecondRegion(guards: GuardId -> bool, f: nat, ghost spec: OrthoResult, c1: seq<Call>)
      returns (more: bool, outcome: Outcome, calls: seq<Call>)
      requires Valid()
      requires spec == OrthoTake(base.View(), hsm1.View(),
                                 Run(hsm2.View(), map[], base.queue.events, base.queue.stopped, guards),
                                 c1, base.queue.stopped, guards, f)
      modifies base.queue, hsm2
      ensures Valid() && base.queue.stopped == old(base.queue.stopped)
      ensures DefinitionsKept()
      ensures more ==> OrthoThen(calls, OrthoRun(base.View(), hsm1.View(), hsm2.View(), base.queue.events,
                                                 base.queue.stopped, guards, f)) == spec
      ensures !more ==> OrthoResult(base.View(), hsm1.View(), hsm2.View(), base.queue.events, calls, outcome) == spec
    {
      assert hsm2.Nested() && hsm2.KidsView() == map[];
      ghost var b := Run(hsm2.View(), map[], base.queue.events, base.queue.stopped, guards);
      var o2, c2 := hsm2.Execute(guards);
      assert b == RunResult(hsm2.View(), map[], base.queue.events, c2, o2);
      calls := c1 + c2;
      if o2 == Rethrown {
        more, outcome := false, Rethrown;
        return;
      }
      more, outcome, calls := Redeliver(guards, f, spec, c1, b, calls);
    }

    /**
     * The end of a round, after region 1 made the calls `c1` and region 2 ran
     * with result `b`, so that `prior` is every call of the round so far: the
     * wait for the next event and the choice between putting it back,
     * bubbling it and dropping it.
     */
    method Redeliver(guards: GuardId -> bool, f: nat, ghost spec: OrthoResult, ghost c1: seq<Call>,
                     ghost b: RunResult, prior: seq<Call>)
      returns (more: bool, outcome: Outcome, calls: seq<Call>)
      requires Valid() && b.m == hsm2.View() && b.queue == base.queue.events
      requires b.outcome != Rethrown && prior == c1 + b.calls
      requires spec == OrthoTake(base.View(), hsm1.View(), b, c1, base.queue.stopped, guards, f)
      modifies base.queue
      ensures Valid() && base.queue.stopped == old(base.queue.stopped)
      ensures DefinitionsKept()
      ensures more ==> OrthoThen(calls, OrthoRun(base.View(), hsm1.View(), hsm2.View(), base.queue.events,
                                                 base.queue.stopped, guards, f)) == spec
      ensures !more ==> OrthoResult(base.View(), hsm1.View(), hsm2.View(), base.queue.events, calls, outcome) == spec
    {
      calls := prior;
      more, outcome := false, Rethrown;
      ghost var r1, r2, pending := hsm1.View(), hsm2.View(), base.queue.events;
      var w := base.queue.NextEvent();
      if w.Interrupted? {
        // As in StateMachine::execute: interrupt_ is false, so this is rethrown.
        return;
      }
      var e := w.event;
      assert pending == [e] + base.queue.events && pending[0] == e && pending[1..] == base.queue.events;
      assert hsm1.View() == r1 && hsm2.View() == r2;
      if e.id in hsm1.eventSet {
        base.queue.AddFront(e);
        assert spec == OrthoThen(prior, OrthoRun(base.View(), r1, r2, pending, base.queue.stopped, guards, f));
        more, outcome := true, Returned;
      } else if base.parent.Some? {
        base.queue.AddFront(e);
        more, outcome := false, Returned;
      } else {
        assert spec == OrthoThen(prior, OrthoRun(base.View(), r1, r2, pending[1..], base.queue.stopped, guards, f));
        more, outcome := true, Returned;
      }
    }
  }

  /** `execute()` of a machine without nested machines, seen from its parent. */
  method RunLeafMachine(m: StateMachine, guards: GuardId -> bool) returns (outcome: Outcome, calls: seq<Call>)
    requires m.children == map[]
    modifies m, m.queue
    decreases |m.children|, 5
    ensures m.queue.stopped == old(m.queue.stopped)
    ensures m.Definition() == old(m.Definition()) && m.parent == old(m.parent)
    ensures RunResult(m.View(), map[], m.queue.events, calls, outcome)
            == Run(old(m.View()), map[], old(m.queue.events), m.queue.stopped, guards)
  {
    assert m.Nested() && m.KidsView() == map[];
    outcome, calls := m.Loop(guards);
  }

  /** Reading the definition and the parent of each nested machine off
      their snapshot. */
  lemma KidsDefinitionsAt(sm: StateMachine, defs: map<StateId, (TableDefinition, Option<StateId>)>)
    requires sm.KidsDefinitions() == defs
    ensures forall s :: s in sm.children ==>
      sm.children[s].Definition() == defs[s].0 && sm.children[s].parent == defs[s].1
  {
  }

  /** Nested machines left alone keep their view. */
  twostate lemma KidsUnchanged(sm: StateMachine)
    requires unchanged(sm.children.Values)
    ensures sm.KidsView() == old(sm.KidsView()) && sm.KidsDefinitions() == old(sm.KidsDefinitions())
  {
  }
}
