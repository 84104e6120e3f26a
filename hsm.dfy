/**
 * What one call of `StateMachine::execute` and of `OrthogonalHSM::execute`
 * (tsm.h) does, as functions on values. The classes of module Tsm are proved
 * to behave exactly like these functions; the lemmas here state what the run
 * loops promise.
 *
 * A machine's view holds the fields its loop reads and writes. A hierarchy is
 * two levels deep: a machine and the nested machines (`kids`) that some of its
 * states are; every other state is a leaf whose `execute()` does nothing. All
 * machines of a hierarchy share one event queue, given here as the sequence of
 * pending events and the queue's stopped flag.
 */
module Hsm {
  import opened Wrappers
  import opened Events
  import opened Transitions

  /** How a call of `execute()` ended. `Rethrown` is the queue's interrupted
      exception escaping the loop (tsm.h:160-163); `OutOfFuel` marks a loop
      of `OrthogonalHSM::execute` cut off after the given number of rounds. */
  datatype Outcome = Returned | Rethrown | OutOfFuel

  /** The observable calls a run makes, in order. */
  datatype Call =
    | SetCurrent(machine: StateId, state: StateId)
    | RunAction(machine: StateId, action: ActionId)
    | ExecuteState(state: StateId)
    | Entered(machine: StateId)
    | Exited(machine: StateId)

  /** The fields of a `StateMachine` that its loop reads and writes. */
  datatype Machine = Machine(
    id: StateId,
    interrupt: bool,
    current: Option<StateId>,
    stop: Option<StateId>,
    table: map<Key, Transition>,
    events: map<EventId, Event>,
    hasParent: bool)

  datatype RunResult = RunResult(
    m: Machine, kids: map<StateId, Machine>, queue: seq<Event>, calls: seq<Call>, outcome: Outcome)

  datatype OrthoResult = OrthoResult(
    base: Machine, region1: Machine, region2: Machine, queue: seq<Event>, calls: seq<Call>, outcome: Outcome)

  /** `StateTransitionTable::next`: a null current state has no transitions. */
  function Next(table: map<Key, Transition>, from: Option<StateId>, e: Event): (r: Option<Transition>)
    ensures r.Some? <==> from.Some? && (from.value, e.id) in table
    ensures r.Some? ==> r.value == table[(from.value, e.id)]
  {
    if from.None? then None else Get(table, (from.value, e.id))
  }

  /** A guard is a member function of the machine, given here as a predicate
      on guard ids; an absent guard always lets the transition fire. */
  predicate Permits(t: Transition, guards: GuardId -> bool): (r: bool)
    ensures t.guard.None? ==> r
  {
    t.guard.None? || guards(t.guard.value)
  }

  /** The calls of a fired transition before the target's own run: the state
      update, then the action the transition yields, then `execute()` of the
      target state. */
  function Fired(id: StateId, t: Transition): seq<Call> {
    [SetCurrent(id, t.toState)]
    + (if t.action.Some? then [RunAction(id, t.action.value)] else [])
    + [ExecuteState(t.toState)]
  }

  function Then(prefix: seq<Call>, r: RunResult): RunResult {
    r.(calls := prefix + r.calls)
  }

  lemma ThenThen(a: seq<Call>, b: seq<Call>, r: RunResult)
    ensures Then(a, Then(b, r)) == Then(a + b, r)
  {
    assert a + (b + r.calls) == (a + b) + r.calls;
  }

  function OrthoThen(prefix: seq<Call>, r: OrthoResult): OrthoResult {
    r.(calls := prefix + r.calls)
  }

  lemma OrthoThenThen(a: seq<Call>, b: seq<Call>, r: OrthoResult)
    ensures OrthoThen(a, OrthoThen(b, r)) == OrthoThen(a + b, r)
  {
    assert a + (b + r.calls) == (a + b) + r.calls;
  }

  predicate IsSuffix<T(==)>(s: seq<T>, q: seq<T>) {
    |s| <= |q| && q[|q| - |s|..] == s
  }

  lemma SuffixOfTail<T>(q: seq<T>)
    requires q != []
    ensures IsSuffix(q[1..], q) && IsSuffix(q, q)
    ensures [q[0]] + q[1..] == q
  {
  }

  lemma SuffixTransitive<T>(a: seq<T>, b: seq<T>, c: seq<T>)
    requires IsSuffix(a, b) && IsSuffix(b, c)
    ensures IsSuffix(a, c)
  {
    assert c[|c| - |a|..] == c[|c| - |b|..][|b| - |a|..];
  }

  /** The machine gave control back because the front event is one it has no
      transition for and it has a parent to leave the event to. */
  predicate Bubbled(m: Machine, q: seq<Event>) {
    m.hasParent && q != [] && Next(m.table, m.current, q[0]).None?
  }

  /**
   * One call of `StateMachine::execute` on machine `m` whose nested machines
   * are `kids`, with `q` pending on a queue whose stopped flag is `stopped`.
   */
  function Run(m: Machine, kids: map<StateId, Machine>, q: seq<Event>, stopped: bool,
               guards: GuardId -> bool): (r: RunResult)
    decreases kids.Keys, |q|, 1
    ensures |r.queue| <= |q|
    ensures r.kids.Keys == kids.Keys
    ensures r.m.id == m.id && r.m.stop == m.stop && r.m.table == m.table
    ensures r.m.events == m.events && r.m.hasParent == m.hasParent
  {
    if m.interrupt then RunResult(m, kids, q, [], Returned)
    else if m.current == m.stop then RunResult(m.(interrupt := true), kids, q, [], Returned)
    else if stopped || q == [] then
      // The wait is interrupted while interrupt_ is still false: rethrown.
      RunResult(m, kids, q, [], Rethrown)
    else
      Take(m, kids, q[0], q[1..], stopped, guards)
  }

  /**
   * The rest of the loop after it took `e` from the front, with `rest` left
   * on the queue: an event without a transition goes back to the front for
   * the parent (ending the loop) or is dropped at the root; a rejected guard
   * drops it; otherwise the transition fires and the target runs.
   */
  function Take(m: Machine, kids: map<StateId, Machine>, e: Event, rest: seq<Event>, stopped: bool,
                guards: GuardId -> bool): (r: RunResult)
    decreases kids.Keys, |rest| + 1, 0
    ensures |r.queue| <= |rest| + 1
    ensures r.kids.Keys == kids.Keys
    ensures r.m.id == m.id && r.m.stop == m.stop && r.m.table == m.table
    ensures r.m.events == m.events && r.m.hasParent == m.hasParent
  {
    var t := Next(m.table, m.current, e);
    if t.None? then
      if m.hasParent then RunResult(m, kids, [e] + rest, [], Returned)
      else Run(m, kids, rest, stopped, guards)
    else if !Permits(t.value, guards) then Run(m, kids, rest, stopped, guards)
    else
      var to := t.value.toState;
      var moved := m.(current := Some(to));
      var fired := Fired(m.id, t.value);
      if to !in kids then Then(fired, Run(moved, kids, rest, stopped, guards))
      else
        var c := Run(kids[to], map[], rest, stopped, guards);
        var kids' := kids[to := c.m];
        assert kids'.Keys == kids.Keys;
        if c.outcome == Rethrown then RunResult(moved, kids', c.queue, fired + c.calls, Rethrown)
        else Then(fired + c.calls, Run(moved, kids', c.queue, stopped, guards))
  }

  /**
   * One call of `OrthogonalHSM::execute`: each round steps region 1, then
   * region 2, then takes one event from the shared queue (`OrthoTake`). The
   * loop need not end, so it is cut off after `fuel` rounds.
   */
  function OrthoRun(base: Machine, r1: Machine, r2: Machine, q: seq<Event>, stopped: bool,
                    guards: GuardId -> bool, fuel: nat): (r: OrthoResult)
    decreases fuel, 0
    ensures r.base == base
    ensures r.region1.id == r1.id && r.region1.events == r1.events && r.region1.table == r1.table
    ensures r.region2.id == r2.id && r.region2.events == r2.events && r.region2.table == r2.table
  {
    if base.interrupt then OrthoResult(base, r1, r2, q, [], Returned)
    else if fuel == 0 then OrthoResult(base, r1, r2, q, [], OutOfFuel)
    else
      var a := Run(r1, map[], q, stopped, guards);
      if a.outcome == Rethrown then OrthoResult(base, a.m, r2, a.queue, a.calls, Rethrown)
      else OrthoTake(base, a.m, Run(r2, map[], a.queue, stopped, guards), a.calls, stopped, guards, fuel - 1)
  }

  /**
   * The end of a round, after region 1 ran (and is now `r1`) and region 2 ran
   * with result `b`. An event region 1's table recognises goes back to the
   * front and the loop goes on; any other event goes back to the front for the
   * parent (when there is one, ending the loop) or is dropped. Region 2's
   * recognised events are never looked at.
   */
  function OrthoTake(base: Machine, r1: Machine, b: RunResult, calls: seq<Call>, stopped: bool,
                     guards: GuardId -> bool, fuel: nat): (r: OrthoResult)
    decreases fuel, 1
    ensures r.base == base
    ensures r.region1.id == r1.id && r.region1.events == r1.events && r.region1.table == r1.table
    ensures r.region2.id == b.m.id && r.region2.events == b.m.events && r.region2.table == b.m.table
  {
    var calls := calls + b.calls;
    if b.outcome == Rethrown then OrthoResult(base, r1, b.m, b.queue, calls, Rethrown)
    else if stopped || b.queue == [] then
      // As in Run: the interrupted wait is rethrown.
      OrthoResult(base, r1, b.m, b.queue, calls, Rethrown)
    else
      var e, rest := b.queue[0], b.queue[1..];
      if e.id in r1.events then
        OrthoThen(calls, OrthoRun(base, r1, b.m, [e] + rest, stopped, guards, fuel))
      else if base.hasParent then
        OrthoResult(base, r1, b.m, [e] + rest, calls, Returned)
      else
        OrthoThen(calls, OrthoRun(base, r1, b.m, rest, stopped, guards, fuel))
  }

  /** `tsm.h`'s table lookup finds the first registration of (state, event id)
      and nothing for a null current state. */
  lemma NextFindsFirstRegistration(log: seq<Registration>, from: StateId, e: Event)
    ensures Next(TableOf(log), Some(from), e) == FirstTransition(log, (from, e.id))
    ensures Next(TableOf(log), None, e) == None
  {
    TableOfKeepsFirst(log, (from, e.id));
  }

  /** A fired transition first updates the current state, then runs the
      action (when there is one), then calls `execute()` of the target once. */
  lemma FiredOrder(id: StateId, t: Transition)
    ensures var f := Fired(id, t);
      && |f| == (if t.action.Some? then 3 else 2)
      && f[0] == SetCurrent(id, t.toState)
      && (t.action.Some? ==> f[1] == RunAction(id, t.action.value))
      && f[|f| - 1] == ExecuteState(t.toState)
      && forall i :: 0 <= i < |f| - 1 ==> !f[i].ExecuteState?
  {
  }

  /** Once `interrupt_` is set, `execute()` does nothing. */
  lemma InterruptedRunIsNoOp(m: Machine, kids: map<StateId, Machine>, q: seq<Event>, stopped: bool,
                             guards: GuardId -> bool)
    requires m.interrupt
    ensures Run(m, kids, q, stopped, guards) == RunResult(m, kids, q, [], Returned)
  {
  }

  /** At the stop state the loop sets `interrupt_` and returns without taking
      an event: the queue is unchanged. */
  lemma StopStateEndsLoop(m: Machine, kids: map<StateId, Machine>, q: seq<Event>, stopped: bool,
                          guards: GuardId -> bool)
    requires !m.interrupt && m.current == m.stop
    ensures Run(m, kids, q, stopped, guards) == RunResult(m.(interrupt := true), kids, q, [], Returned)
  {
  }

  /** A stopped or empty queue makes the wait fail while `interrupt_` is
      false, so the exception leaves `execute()` and nothing changes. */
  lemma InterruptedWaitRethrows(m: Machine, kids: map<StateId, Machine>, q: seq<Event>, stopped: bool,
                                guards: GuardId -> bool)
    requires !m.interrupt && m.current != m.stop && (stopped || q == [])
    ensures Run(m, kids, q, stopped, guards) == RunResult(m, kids, q, [], Rethrown)
  {
  }

  /** The conditions under which the loop takes `q[0]` from the queue. */
  predicate TakesFront(m: Machine, q: seq<Event>, stopped: bool) {
    !m.interrupt && m.current != m.stop && !stopped && q != []
  }

  /** A miss in a nested machine puts the event back at the front, so the
      queue after the call equals the queue before it; the loop ends and the
      current state is unchanged. */
  lemma MissWithParentBubbles(m: Machine, kids: map<StateId, Machine>, q: seq<Event>, stopped: bool,
                              guards: GuardId -> bool)
    requires TakesFront(m, q, stopped) && Next(m.table, m.current, q[0]).None? && m.hasParent
    ensures Run(m, kids, q, stopped, guards) == RunResult(m, kids, q, [], Returned)
  {
    assert [q[0]] + q[1..] == q;
  }

  /** A miss at the root drops the event and the loop goes on with the rest of
      the queue, the current state unchanged. */
  lemma MissAtRootDrops(m: Machine, kids: map<StateId, Machine>, q: seq<Event>, stopped: bool,
                        guards: GuardId -> bool)
    requires TakesFront(m, q, stopped) && Next(m.table, m.current, q[0]).None? && !m.hasParent
    ensures Run(m, kids, q, stopped, guards) == Run(m, kids, q[1..], stopped, guards)
  {
  }

  /** A transition whose guard returns false consumes the event: no action,
      no state change, and the loop goes on with the rest. */
  lemma GuardRejectionConsumes(m: Machine, kids: map<StateId, Machine>, q: seq<Event>, stopped: bool,
                               guards: GuardId -> bool)
    requires TakesFront(m, q, stopped)
    requires var t := Next(m.table, m.current, q[0]); t.Some? && !Permits(t.value, guards)
    ensures Run(m, kids, q, stopped, guards) == Run(m, kids, q[1..], stopped, guards)
  {
  }

  /** A transition that fires moves to its target, records the state change,
      the action and the call of the target's `execute()` in that order, runs
      the target (a nested machine runs on the rest of the queue) and then
      goes on. */
  lemma HitMovesThenActsThenExecutes(m: Machine, kids: map<StateId, Machine>, q: seq<Event>, stopped: bool,
                                     guards: GuardId -> bool)
    requires TakesFront(m, q, stopped)
    requires var t := Next(m.table, m.current, q[0]); t.Some? && Permits(t.value, guards)
    ensures var t := Next(m.table, m.current, q[0]).value;
      var moved := m.(current := Some(t.toState));
      var r := Run(m, kids, q, stopped, guards);
      && (t.toState !in kids ==> r == Then(Fired(m.id, t), Run(moved, kids, q[1..], stopped, guards)))
      && (t.toState in kids ==>
            var c := Run(kids[t.toState], map[], q[1..], stopped, guards);
            r == if c.outcome == Rethrown
                 then RunResult(moved, kids[t.toState := c.m], c.queue, Fired(m.id, t) + c.calls, Rethrown)
                 else Then(Fired(m.id, t) + c.calls, Run(moved, kids[t.toState := c.m], c.queue, stopped, guards)))
      && |Fired(m.id, t)| <= |r.calls| && r.calls[..|Fired(m.id, t)|] == Fired(m.id, t)
  {
    var t := Next(m.table, m.current, q[0]).value;
    var r := Run(m, kids, q, stopped, guards);
    var f := Fired(m.id, t);
    var moved := m.(current := Some(t.toState));
    assert [q[0]] + q[1..] == q;
    assert r == Take(m, kids, q[0], q[1..], stopped, guards);
    if t.toState !in kids {
      assert r == Then(f, Run(moved, kids, q[1..], stopped, guards));
    } else {
      var c := Run(kids[t.toState], map[], q[1..], stopped, guards);
      if c.outcome == Rethrown {
        assert r.calls == f + c.calls;
      } else {
        var rest := Run(moved, kids[t.toState := c.m], c.queue, stopped, guards);
        assert r == Then(f + c.calls, rest);
        assert r.calls == f + (c.calls + rest.calls);
      }
    }
    assert r.calls[..|f|] == f;
  }

  /**
   * `execute()` only ever takes events from the front of the queue (an event
   * put back goes back to the front), so what is left is a suffix of what
   * was pending.
   */
  lemma {:induction false} RunConsumesFromFront(m: Machine, kids: map<StateId, Machine>, q: seq<Event>,
                                                stopped: bool, guards: GuardId -> bool)
    decreases kids.Keys, |q|, 1
    ensures IsSuffix(Run(m, kids, q, stopped, guards).queue, q)
  {
    if !m.interrupt && m.current != m.stop && !stopped && q != [] {
      SuffixOfTail(q);
      TakeConsumesFromFront(m, kids, q[0], q[1..], stopped, guards);
    }
  }

  lemma {:induction false} TakeConsumesFromFront(m: Machine, kids: map<StateId, Machine>, e: Event,
                                                 rest: seq<Event>, stopped: bool, guards: GuardId -> bool)
    decreases kids.Keys, |rest| + 1, 0
    ensures IsSuffix(Take(m, kids, e, rest, stopped, guards).queue, [e] + rest)
  {
    var q := [e] + rest;
    SuffixOfTail(q);
    assert q[1..] == rest;
    var t := Next(m.table, m.current, e);
    if t.None? || !Permits(t.value, guards) {
      if t.Some? || !m.hasParent {
        RunConsumesFromFront(m, kids, rest, stopped, guards);
        SuffixTransitive(Run(m, kids, rest, stopped, guards).queue, rest, q);
      }
    } else {
      var to := t.value.toState;
      var moved := m.(current := Some(to));
      if to !in kids {
        RunConsumesFromFront(moved, kids, rest, stopped, guards);
        SuffixTransitive(Run(moved, kids, rest, stopped, guards).queue, rest, q);
      } else {
        var c := Run(kids[to], map[], rest, stopped, guards);
        RunConsumesFromFront(kids[to], map[], rest, stopped, guards);
        SuffixTransitive(c.queue, rest, q);
        if c.outcome != Rethrown {
          var kids' := kids[to := c.m];
          RunConsumesFromFront(moved, kids', c.queue, stopped, guards);
          SuffixTransitive(Run(moved, kids', c.queue, stopped, guards).queue, c.queue, q);
        }
      }
    }
  }

  /**
   * How a call of `execute()` can end: it never runs out of fuel; it raises
   * `interrupt_` only by reaching the stop state; and when it returns normally
   * without being interrupted, it has bubbled an event it cannot handle to its
   * parent. In particular the root returns normally only at its stop state.
   */
  lemma {:induction false} RunEndsAtStopOrBubble(m: Machine, kids: map<StateId, Machine>, q: seq<Event>,
                                                 stopped: bool, guards: GuardId -> bool)
    decreases kids.Keys, |q|
    ensures var r := Run(m, kids, q, stopped, guards);
      && r.outcome != OutOfFuel
      && (r.m.interrupt ==> m.interrupt || r.m.current == m.stop)
      && (r.outcome == Returned && !r.m.interrupt ==> Bubbled(r.m, r.queue))
      && (!m.hasParent && !m.interrupt && r.outcome == Returned ==> r.m.interrupt && r.m.current == m.stop)
  {
    if TakesFront(m, q, stopped) {
      var e, rest := q[0], q[1..];
      var t := Next(m.table, m.current, e);
      if t.None? {
        if !m.hasParent {
          RunEndsAtStopOrBubble(m, kids, rest, stopped, guards);
        }
      } else if !Permits(t.value, guards) {
        RunEndsAtStopOrBubble(m, kids, rest, stopped, guards);
      } else {
        var to := t.value.toState;
        var moved := m.(current := Some(to));
        if to !in kids {
          RunEndsAtStopOrBubble(moved, kids, rest, stopped, guards);
        } else {
          var c := Run(kids[to], map[], rest, stopped, guards);
          RunEndsAtStopOrBubble(kids[to], map[], rest, stopped, guards);
          if c.outcome != Rethrown {
            RunEndsAtStopOrBubble(moved, kids[to := c.m], c.queue, stopped, guards);
          }
        }
      }
    }
  }

  /** The recognised-event set of a machine without nested machines plays no
      part in its run. */
  lemma {:induction false} RunIgnoresEvents(m: Machine, q: seq<Event>, stopped: bool,
                                            guards: GuardId -> bool, events: map<EventId, Event>)
    decreases |q|
    ensures var r := Run(m, map[], q, stopped, guards);
      Run(m.(events := events), map[], q, stopped, guards) == r.(m := r.m.(events := events))
  {
    if TakesFront(m, q, stopped) {
      var t := Next(m.table, m.current, q[0]);
      if t.None? || !Permits(t.value, guards) {
        RunIgnoresEvents(m, q[1..], stopped, guards, events);
      } else {
        RunIgnoresEvents(m.(current := Some(t.value.toState)), q[1..], stopped, guards, events);
      }
    }
  }

  /** Region 2's recognised-event set is never consulted: changing it changes
      nothing else in the result of `OrthogonalHSM::execute`. */
  lemma {:induction false} OrthoIgnoresRegion2Events(base: Machine, r1: Machine, r2: Machine, q: seq<Event>,
                                                     stopped: bool, guards: GuardId -> bool, fuel: nat,
                                                     events: map<EventId, Event>)
    decreases fuel, 0
    ensures var r := OrthoRun(base, r1, r2, q, stopped, guards, fuel);
      OrthoRun(base, r1, r2.(events := events), q, stopped, guards, fuel)
        == r.(region2 := r.region2.(events := events))
  {
    if !base.interrupt && fuel > 0 {
      var a := Run(r1, map[], q, stopped, guards);
      if a.outcome != Rethrown {
        var f: nat := fuel - 1;
        var b := Run(r2, map[], a.queue, stopped, guards);
        var b' := Run(r2.(events := events), map[], a.queue, stopped, guards);
        assert b' == b.(m := b.m.(events := events)) by {
          RunIgnoresEvents(r2, a.queue, stopped, guards, events);
        }
        assert OrthoRun(base, r1, r2, q, stopped, guards, fuel) == OrthoTake(base, a.m, b, a.calls, stopped, guards, f);
        assert OrthoRun(base, r1, r2.(events := events), q, stopped, guards, fuel)
          == OrthoTake(base, a.m, b', a.calls, stopped, guards, f);
        OrthoTakeIgnoresRegion2Events(base, a.m, b, b', a.calls, stopped, guards, f, events);
      }
    }
  }

  lemma {:induction false} OrthoTakeIgnoresRegion2Events(base: Machine, r1: Machine, b: RunResult, b': RunResult,
                                                         calls: seq<Call>, stopped: bool, guards: GuardId -> bool,
                                                         fuel: nat, events: map<EventId, Event>)
    requires b' == b.(m := b.m.(events := events))
    decreases fuel, 1
    ensures var r := OrthoTake(base, r1, b, calls, stopped, guards, fuel);
      OrthoTake(base, r1, b', calls, stopped, guards, fuel) == r.(region2 := r.region2.(events := events))
  {
    if b.outcome != Rethrown && !stopped && b.queue != [] {
      var e, rest := b.queue[0], b.queue[1..];
      if e.id in r1.events {
        OrthoIgnoresRegion2Events(base, r1, b.m, [e] + rest, stopped, guards, fuel, events);
      } else if !base.hasParent {
        OrthoIgnoresRegion2Events(base, r1, b.m, rest, stopped, guards, fuel, events);
      }
    }
  }

  /** The regions' runs of one round of `OrthogonalHSM::execute` and the queue
      after them: both returned normally and an event is waiting. */
  predicate RoundTakesEvent(r1: Machine, r2: Machine, q: seq<Event>, stopped: bool, guards: GuardId -> bool) {
    var a := Run(r1, map[], q, stopped, guards);
    var b := Run(r2, map[], a.queue, stopped, guards);
    a.outcome == Returned && b.outcome == Returned && !stopped && b.queue != []
  }

  /** After both regions ran, an event region 1 recognises goes back to the
      front and the next round starts with it, region 1 first. */
  lemma OrthoRedeliversRegion1Events(base: Machine, r1: Machine, r2: Machine, q: seq<Event>,
                                     stopped: bool, guards: GuardId -> bool, fuel: nat)
    requires !base.interrupt && fuel > 0 && RoundTakesEvent(r1, r2, q, stopped, guards)
    requires var a := Run(r1, map[], q, stopped, guards);
      Run(r2, map[], a.queue, stopped, guards).queue[0].id in r1.events
    ensures var a := Run(r1, map[], q, stopped, guards);
      var b := Run(r2, map[], a.queue, stopped, guards);
      OrthoRun(base, r1, r2, q, stopped, guards, fuel)
        == OrthoThen(a.calls + b.calls, OrthoRun(base, a.m, b.m, b.queue, stopped, guards, fuel - 1))
  {
    var a := Run(r1, map[], q, stopped, guards);
    var b := Run(r2, map[], a.queue, stopped, guards);
    assert [b.queue[0]] + b.queue[1..] == b.queue;
  }

  /** Any other event, region 2's included, is bubbled to the parent (ending
      the loop with the queue as the regions left it) or dropped at the root. */
  lemma OrthoBubblesOrDropsOthers(base: Machine, r1: Machine, r2: Machine, q: seq<Event>,
                                  stopped: bool, guards: GuardId -> bool, fuel: nat)
    requires !base.interrupt && fuel > 0 && RoundTakesEvent(r1, r2, q, stopped, guards)
    requires var a := Run(r1, map[], q, stopped, guards);
      Run(r2, map[], a.queue, stopped, guards).queue[0].id !in r1.events
    ensures var a := Run(r1, map[], q, stopped, guards);
      var b := Run(r2, map[], a.queue, stopped, guards);
      OrthoRun(base, r1, r2, q, stopped, guards, fuel)
        == if base.hasParent
           then OrthoResult(base, a.m, b.m, b.queue, a.calls + b.calls, Returned)
           else OrthoThen(a.calls + b.calls, OrthoRun(base, a.m, b.m, b.queue[1..], stopped, guards, fuel - 1))
  {
    var a := Run(r1, map[], q, stopped, guards);
    var b := Run(r2, map[], a.queue, stopped, guards);
    assert [b.queue[0]] + b.queue[1..] == b.queue;
  }

  /**
   * The loop of `OrthogonalHSM::execute` can spin forever: when the front
   * event is in region 1's recognised set but neither region has a transition
   * for it from its current state, both regions hand it back, the composite
   * puts it back at the front, and the same round repeats, however many
   * rounds are allowed.
   */
  lemma {:induction false} OrthoLivelock(base: Machine, r1: Machine, r2: Machine, q: seq<Event>,
                                         stopped: bool, guards: GuardId -> bool, fuel: nat)
    requires !base.interrupt && TakesFront(r1, q, stopped) && TakesFront(r2, q, stopped)
    requires r1.hasParent && r2.hasParent && q[0].id in r1.events
    requires Next(r1.table, r1.current, q[0]).None? && Next(r2.table, r2.current, q[0]).None?
    decreases fuel
    ensures var r := OrthoRun(base, r1, r2, q, stopped, guards, fuel);
      r.outcome == OutOfFuel && r.queue == q && r.region1 == r1 && r.region2 == r2 && r.calls == []
  {
    MissWithParentBubbles(r1, map[], q, stopped, guards);
    MissWithParentBubbles(r2, map[], q, stopped, guards);
    if fuel > 0 {
      assert [q[0]] + q[1..] == q;
      OrthoLivelock(base, r1, r2, q, stopped, guards, fuel - 1);
    }
  }
}
