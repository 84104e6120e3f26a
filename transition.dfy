/**
 * The flat transition table and the single transition step of
 * include/Transition.h.
 *
 * A table maps a (state, event id) key to a transition (target state,
 * optional action, optional guard) and records the events it recognises.
 * Registration goes through `unordered_map::insert` and `std::set::insert`,
 * neither of which replaces an existing entry, so the first registration of a
 * key (and the first event of an id) wins. The table is described here twice:
 * by the insertions themselves (`TableOf`, `EventsOf`) and by a reference
 * search for the first matching registration (`FirstTransition`,
 * `FirstEvent`); the lemmas show the two agree.
 */
module Transitions {
  import opened Wrappers
  import opened Events

  /** States, actions and guards are referred to by abstract ids. */
  type StateId = nat
  type ActionId = nat
  type GuardId = nat

  /** A table key: the from-state and the event's id (events compare by id). */
  type Key = (StateId, EventId)

  datatype Transition = Transition(toState: StateId, action: Option<ActionId>, guard: Option<GuardId>)

  /** One `add(fromState, onEvent, toState, action, guard)` call. */
  datatype Registration = Registration(from: StateId, event: Event, transition: Transition) {
    function KeyOf(): Key { (from, event.id) }
  }

  /** `HashStateEventPair`: the Cantor pairing of the state id and the event id. */
  function HashStateEventPair(a: nat, b: nat): (r: nat)
    ensures Triangle(a + b) <= r < Triangle(a + b + 1) && r - Triangle(a + b) == a
  {
    TriangleStep(a + b);
    (a + b) * (a + b + 1) / 2 + a
  }

  /** The triangular number below the diagonal `s` of the Cantor pairing. */
  function Triangle(s: nat): nat {
    s * (s + 1) / 2
  }

  lemma TriangleStep(s: nat)
    ensures Triangle(s + 1) == Triangle(s) + s + 1
  {
    assert (s + 1) * (s + 2) == s * (s + 1) + 2 * (s + 1);
  }

  lemma {:induction false} TriangleMonotone(s: nat, t: nat)
    requires s < t
    ensures Triangle(s) + s < Triangle(t)
    decreases t - s
  {
    TriangleStep(s);
    if s + 1 < t {
      TriangleMonotone(s + 1, t);
    }
  }

  /** The hash depends only on the two ids and never maps two different
      (state id, event id) pairs to the same value. */
  lemma HashInjective(a: nat, b: nat, c: nat, d: nat)
    requires HashStateEventPair(a, b) == HashStateEventPair(c, d)
    ensures a == c && b == d
  {
    var s, t := a + b, c + d;
    assert HashStateEventPair(a, b) == Triangle(s) + a;
    assert HashStateEventPair(c, d) == Triangle(t) + c;
    if s < t {
      TriangleMonotone(s, t);
    } else if t < s {
      TriangleMonotone(t, s);
    }
  }

  /** The entry stored under a key, like `find` followed by a null check. */
  function Get<K, V>(m: map<K, V>, k: K): (r: Option<V>)
    ensures r.Some? <==> k in m
    ensures r.Some? ==> r.value == m[k]
  {
    if k in m then Some(m[k]) else None
  }

  /** `unordered_map::insert`: an existing entry for the key is kept. */
  function Insert(data: map<Key, Transition>, k: Key, t: Transition): (r: map<Key, Transition>)
    ensures r.Keys == data.Keys + {k}
    ensures r[k] == (if k in data then data[k] else t)
    ensures forall k' :: k' in data ==> r[k'] == data[k']
  {
    if k in data then data else data[k := t]
  }

  /** `std::set<Event>::insert`: the set is ordered by id, so an event whose
      id is already present is not added. The set is a map from id to event. */
  function InsertEvent(events: map<EventId, Event>, e: Event): (r: map<EventId, Event>)
    ensures r.Keys == events.Keys + {e.id}
    ensures r[e.id] == (if e.id in events then events[e.id] else e)
    ensures forall id :: id in events ==> r[id] == events[id]
  {
    if e.id in events then events else events[e.id := e]
  }

  /** The table after the registrations of `log`, in order. */
  function TableOf(log: seq<Registration>): (r: map<Key, Transition>)
    ensures forall i :: 0 <= i < |log| ==> log[i].KeyOf() in r
  {
    if log == [] then map[]
    else
      var prefix, last := log[..|log| - 1], log[|log| - 1];
      Insert(TableOf(prefix), last.KeyOf(), last.transition)
  }

  /** The recognised-event set after the registrations of `log`, in order. */
  function EventsOf(log: seq<Registration>): (r: map<EventId, Event>)
    ensures forall i :: 0 <= i < |log| ==> log[i].event.id in r
    ensures forall id :: id in r ==> r[id].id == id
  {
    if log == [] then map[]
    else
      var prefix, last := log[..|log| - 1], log[|log| - 1];
      InsertEvent(EventsOf(prefix), last.event)
  }

  /** The table has a key exactly for each registered state and event. */
  lemma {:induction false} TableOfKeys(log: seq<Registration>)
    ensures TableOf(log).Keys == set i | 0 <= i < |log| :: log[i].KeyOf()
  {
    if log != [] {
      var prefix, last := log[..|log| - 1], log[|log| - 1];
      TableOfKeys(prefix);
      assert (set i | 0 <= i < |log| :: log[i].KeyOf())
          == (set i | 0 <= i < |prefix| :: prefix[i].KeyOf()) + {last.KeyOf()};
    }
  }

  /** The event set has an entry exactly for each registered event id. */
  lemma {:induction false} EventsOfKeys(log: seq<Registration>)
    ensures EventsOf(log).Keys == set i | 0 <= i < |log| :: log[i].event.id
  {
    if log != [] {
      var prefix, last := log[..|log| - 1], log[|log| - 1];
      EventsOfKeys(prefix);
      assert (set i | 0 <= i < |log| :: log[i].event.id)
          == (set i | 0 <= i < |prefix| :: prefix[i].event.id) + {last.event.id};
    }
  }

  /** One more registration inserts its transition and its event. */
  lemma RegisterOneMore(log: seq<Registration>, r: Registration)
    ensures TableOf(log + [r]) == Insert(TableOf(log), r.KeyOf(), r.transition)
    ensures EventsOf(log + [r]) == InsertEvent(EventsOf(log), r.event)
  {
    assert (log + [r])[..|log|] == log;
  }

  /** Reference definition: the transition of the first registration of `k`. */
  function FirstTransition(log: seq<Registration>, k: Key): Option<Transition> {
    if log == [] then None
    else if log[0].KeyOf() == k then Some(log[0].transition)
    else FirstTransition(log[1..], k)
  }

  /** Reference definition: the first registered event with id `id`. */
  function FirstEvent(log: seq<Registration>, id: EventId): Option<Event> {
    if log == [] then None
    else if log[0].event.id == id then Some(log[0].event)
    else FirstEvent(log[1..], id)
  }

  lemma {:induction false} FirstTransitionAppend(log: seq<Registration>, r: Registration, k: Key)
    ensures FirstTransition(log + [r], k) ==
            if FirstTransition(log, k).Some? then FirstTransition(log, k)
            else if r.KeyOf() == k then Some(r.transition)
            else None
  {
    if log != [] {
      assert (log + [r])[1..] == log[1..] + [r];
      FirstTransitionAppend(log[1..], r, k);
    }
  }

  lemma {:induction false} FirstEventAppend(log: seq<Registration>, r: Registration, id: EventId)
    ensures FirstEvent(log + [r], id) ==
            if FirstEvent(log, id).Some? then FirstEvent(log, id)
            else if r.event.id == id then Some(r.event)
            else None
  {
    if log != [] {
      assert (log + [r])[1..] == log[1..] + [r];
      FirstEventAppend(log[1..], r, id);
    }
  }

  /** Looking a key up in the built table finds the transition of the FIRST
      registration of that key, and nothing for a key never registered. */
  lemma {:induction false} TableOfKeepsFirst(log: seq<Registration>, k: Key)
    ensures Get(TableOf(log), k) == FirstTransition(log, k)
  {
    if log != [] {
      var init, last := log[..|log| - 1], log[|log| - 1];
      assert log == init + [last];
      TableOfKeepsFirst(init, k);
      FirstTransitionAppend(init, last, k);
    }
  }

  /** The recognised-event set holds exactly the registered ids, each with the
      first event registered under it. */
  lemma {:induction false} EventsOfKeepsFirst(log: seq<Registration>, id: EventId)
    ensures Get(EventsOf(log), id) == FirstEvent(log, id)
  {
    if log != [] {
      var init, last := log[..|log| - 1], log[|log| - 1];
      assert log == init + [last];
      EventsOfKeepsFirst(init, id);
      FirstEventAppend(init, last, id);
    }
  }

  /** A key is in the table exactly when some registration used it. */
  lemma {:induction false} FirstTransitionFound(log: seq<Registration>, k: Key)
    ensures FirstTransition(log, k).Some? <==> exists i :: 0 <= i < |log| && log[i].KeyOf() == k
  {
    if log != [] {
      FirstTransitionFound(log[1..], k);
      if log[0].KeyOf() != k && exists i :: 0 <= i < |log| && log[i].KeyOf() == k {
        var i :| 0 <= i < |log| && log[i].KeyOf() == k;
        assert log[1..][i - 1] == log[i];
      }
    }
  }

  /** The transition stored for the first registration of a key is the one
      of the earliest registration with that key. */
  lemma {:induction false} FirstTransitionIsEarliest(log: seq<Registration>, k: Key, i: nat)
    requires i < |log| && log[i].KeyOf() == k
    requires forall j :: 0 <= j < i ==> log[j].KeyOf() != k
    ensures FirstTransition(log, k) == Some(log[i].transition)
  {
    if i > 0 {
      forall j | 0 <= j < i - 1 ensures log[1..][j].KeyOf() != k {
        assert log[1..][j] == log[j + 1];
      }
      FirstTransitionIsEarliest(log[1..], k, i - 1);
    }
  }

  /**
   * `StateTransitionTableT`: the table as an object. `registered` is the ghost
   * record of the `add` calls made so far.
   */
  class StateTransitionTableT {
    var data: map<Key, Transition>
    var eventSet: map<EventId, Event>
    ghost var registered: seq<Registration>

    ghost predicate Valid()
      reads this
    {
      data == TableOf(registered) && eventSet == EventsOf(registered)
    }

    constructor ()
      ensures Valid() && registered == []
    {
      data, eventSet, registered := map[], map[], [];
    }

    /** `add`: build the transition, insert it, then record the event. */
    method Add(fromState: StateId, onEvent: Event, toState: StateId,
               action: Option<ActionId>, guard: Option<GuardId>)
      requires Valid()
      modifies this
      ensures Valid()
      ensures registered == old(registered) + [Registration(fromState, onEvent, Transition(toState, action, guard))]
      ensures data == Insert(old(data), (fromState, onEvent.id), Transition(toState, action, guard))
      ensures eventSet == InsertEvent(old(eventSet), onEvent)
    {
      var t := Transition(toState, action, guard);
      AddTransition(fromState, onEvent, t);
      eventSet := InsertEvent(eventSet, onEvent);
      registered := registered + [Registration(fromState, onEvent, t)];
      assert registered[..|registered| - 1] == old(registered);
    }

    /** `addTransition`: insert into `data_` only. */
    method AddTransition(fromState: StateId, onEvent: Event, t: Transition)
      modifies this
      ensures data == Insert(old(data), (fromState, onEvent.id), t)
      ensures eventSet == old(eventSet) && registered == old(registered)
    {
      data := Insert(data, (fromState, onEvent.id), t);
    }

    /** `next`: the transition of the first registration of (fromState,
        onEvent.id), or null when there was none. */
    function Next(fromState: StateId, onEvent: Event): (r: Option<Transition>)
      reads this
      requires Valid()
      ensures r == FirstTransition(registered, (fromState, onEvent.id))
    {
      TableOfKeepsFirst(registered, (fromState, onEvent.id));
      Get(data, (fromState, onEvent.id))
    }

    /** `getEvents`: membership of an event is decided by its id; each id is
        held with the first event registered under it. */
    function GetEvents(): (r: map<EventId, Event>)
      reads this
      requires Valid()
      ensures forall id :: Get(r, id) == FirstEvent(registered, id)
    {
      forall id ensures Get(eventSet, id) == FirstEvent(registered, id) {
        EventsOfKeepsFirst(registered, id);
      }
      eventSet
    }
  }

  /** A fresh table: after `add(s, e, t1)`, `next(s, e)` finds t1 and the event
      is recognised; a second `add` for the same state and an event with the
      same id but another payload and target keeps both entries as they were. */
  method FirstAddWins(s: StateId, e: Event, t1: StateId, t2: StateId, data: EventData)
    returns (first: Option<Transition>, second: Option<Transition>, events: map<EventId, Event>)
    ensures first == Some(Transition(t1, None, None)) && second == first
    ensures events == map[e.id := e]
  {
    var table := new StateTransitionTableT();
    table.Add(s, e, t1, None, None);
    first := table.Next(s, e);
    table.Add(s, Event(e.id, data), t2, None, None);
    second := table.Next(s, Event(e.id, data));
    events := table.GetEvents();
  }

  /** The callbacks a transition step makes, in the order it makes them. */
  datatype Hook =
    | OnExit(state: StateId, event: Event)
    | Action(action: ActionId, event: Event)
    | SetCurrentState(state: StateId)
    | OnEntry(state: StateId, event: Event)

  /**
   * The machine a transition acts on (the `FsmDef*` of `doTransition`): its
   * current state and the trace of the callbacks made so far.
   */
  class Fsm {
    var currentState: StateId
    var trace: seq<Hook>

    constructor (start: StateId)
      ensures currentState == start && trace == []
    {
      currentState, trace := start, [];
    }

    /** `setCurrentState`. */
    method SetCurrentState(s: StateId)
      modifies this
      ensures currentState == s && trace == old(trace) + [Hook.SetCurrentState(s)]
    {
      currentState := s;
      trace := trace + [Hook.SetCurrentState(s)];
    }

    /** A callback into a state or an action, recorded in the trace. */
    method Call(h: Hook)
      requires !h.SetCurrentState?
      modifies this
      ensures currentState == old(currentState) && trace == old(trace) + [h]
    {
      trace := trace + [h];
    }
  }

  /** Whether the guard lets the transition fire: an absent guard always does. */
  predicate GuardAllows(guard: Option<GuardId>, e: Event, guards: (GuardId, Event) -> bool): (r: bool)
    ensures guard.None? ==> r
  {
    guard.None? || guards(guard.value, e)
  }

  /** The hooks of a transition that fires from `from`. */
  function FiredHooks(from: StateId, t: Transition, e: Event): seq<Hook> {
    [OnExit(from, e)]
    + (if t.action.Some? then [Action(t.action.value, e)] else [])
    + [SetCurrentState(t.toState), OnEntry(t.toState, e)]
  }

  /**
   * `Transition::doTransition`: a rejected guard changes nothing; otherwise
   * onExit of the current state, the action, `setCurrentState`, onEntry of
   * the target.
   */
  method DoTransition(t: Transition, hsm: Fsm, e: Event, guards: (GuardId, Event) -> bool)
    returns (transitioned: bool)
    modifies hsm
    ensures transitioned == GuardAllows(t.guard, e, guards)
    ensures transitioned ==> hsm.currentState == t.toState
    ensures transitioned ==> hsm.trace == old(hsm.trace) + FiredHooks(old(hsm.currentState), t, e)
    ensures !transitioned ==> hsm.currentState == old(hsm.currentState) && hsm.trace == old(hsm.trace)
  {
    transitioned := false;
    var result := t.guard.Some? && guards(t.guard.value, e);
    if t.guard.None? || result {
      hsm.Call(OnExit(hsm.currentState, e));
      if t.action.Some? {
        hsm.Call(Action(t.action.value, e));
      }
      hsm.SetCurrentState(t.toState);
      hsm.Call(OnEntry(t.toState, e));
      transitioned := true;
    }
  }

  /** How many hooks of a trace are of the same kind as `h`. */
  function CountLike(trace: seq<Hook>, h: Hook): nat {
    if trace == [] then 0
    else (if SameKind(trace[0], h) then 1 else 0) + CountLike(trace[1..], h)
  }

  predicate SameKind(a: Hook, b: Hook) {
    (a.OnExit? && b.OnExit?) || (a.Action? && b.Action?)
    || (a.SetCurrentState? && b.SetCurrentState?) || (a.OnEntry? && b.OnEntry?)
  }

  lemma {:induction false} CountLikeAppend(a: seq<Hook>, b: seq<Hook>, h: Hook)
    ensures CountLike(a + b, h) == CountLike(a, h) + CountLike(b, h)
  {
    if a == [] {
      assert a + b == b;
    } else {
      assert (a + b)[1..] == a[1..] + b;
      CountLikeAppend(a[1..], b, h);
    }
  }

  /** A fired transition exits the old state first, enters the target last,
      sets the current state right before that, and runs the action (when
      there is one) between the exit and the state change. */
  lemma FiredHooksOrder(from: StateId, t: Transition, e: Event)
    ensures var h := FiredHooks(from, t, e);
      && |h| == (if t.action.Some? then 4 else 3)
      && h[0] == OnExit(from, e)
      && (t.action.Some? ==> h[1] == Action(t.action.value, e))
      && h[|h| - 2] == SetCurrentState(t.toState)
      && h[|h| - 1] == OnEntry(t.toState, e)
  {
  }

  lemma CountLikeSingleton(x: Hook, h: Hook)
    ensures CountLike([x], h) == if SameKind(x, h) then 1 else 0
  {
    assert [x][1..] == [];
  }

  /** Even a self-transition makes exactly one onExit and one onEntry call, and
      exactly one state change. */
  lemma SelfTransitionExitsAndEntersOnce(s: StateId, t: Transition, e: Event)
    requires t.toState == s
    ensures CountLike(FiredHooks(s, t, e), OnExit(s, e)) == 1
    ensures CountLike(FiredHooks(s, t, e), OnEntry(s, e)) == 1
    ensures CountLike(FiredHooks(s, t, e), Hook.SetCurrentState(s)) == 1
  {
    var exit, change, entry := OnExit(s, e), Hook.SetCurrentState(s), OnEntry(s, e);
    var act: seq<Hook> := if t.action.Some? then [Action(t.action.value, e)] else [];
    assert FiredHooks(s, t, e) == [exit] + (act + ([change] + [entry]));
    forall h | h in [exit, change, entry]
      ensures CountLike(FiredHooks(s, t, e), h) == 1
    {
      CountLikeAppend([exit], act + ([change] + [entry]), h);
      CountLikeAppend(act, [change] + [entry], h);
      CountLikeAppend([change], [entry], h);
      CountLikeSingleton(exit, h);
      CountLikeSingleton(change, h);
      CountLikeSingleton(entry, h);
      if t.action.Some? {
        CountLikeSingleton(Action(t.action.value, e), h);
      }
    }
  }
}
