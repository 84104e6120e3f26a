/**
 * Events of the state-machine library (include/Event.h).
 *
 * An event is an id and a payload. Equality and ordering look at the id only,
 * so two events that differ only in their payload are the same event. An event
 * built without an explicit id takes the next value of an id counter owned by
 * the context that mints it.
 *
 * The source stores ids and payloads as `uint32_t`; the model uses naturals and
 * leaves the counter's wrap-around out.
 */
module Events {

  type EventId = nat
  type EventData = nat

  datatype Event = Event(id: EventId, data: EventData)

  /** `Event(id)`: a predefined id without payload. */
  function WithId(id: EventId): (e: Event)
    ensures e.id == id && e.data == 0
  {
    Event(id, 0)
  }

  /** `Event(id, data)`: a predefined id with a payload. */
  function WithIdAndData(id: EventId, data: EventData): (e: Event)
    ensures e.id == id && e.data == data
  {
    Event(id, data)
  }

  /** `operator==`: events are compared by id alone. */
  predicate Equal(a: Event, b: Event): (r: bool)
    ensures r <==> a.(data := 0) == b.(data := 0)
  {
    a.id == b.id
  }

  /** `operator!=`. */
  predicate NotEqual(a: Event, b: Event): (r: bool)
    ensures r <==> a.(data := 0) != b.(data := 0)
  {
    !Equal(a, b)
  }

  /** `operator<`: the order `std::set<Event>` sorts by. */
  predicate Less(a: Event, b: Event): (r: bool)
    ensures r ==> !Equal(a, b)
    ensures !r ==> Equal(a, b) || b.id < a.id
  {
    a.id < b.id
  }

  /** Equal is an equivalence relation. */
  lemma EqualIsEquivalence()
    ensures forall a: Event :: Equal(a, a)
    ensures forall a: Event, b: Event :: Equal(a, b) ==> Equal(b, a)
    ensures forall a: Event, b: Event, c: Event :: Equal(a, b) && Equal(b, c) ==> Equal(a, c)
  {
  }

  /** Two events with the same id are equal whatever their payloads, although
      they are different values when the payloads differ. */
  lemma EqualIgnoresData(id: EventId, d1: EventData, d2: EventData)
    ensures Equal(Event(id, d1), Event(id, d2))
    ensures d1 != d2 ==> Event(id, d1) != Event(id, d2)
  {
  }

  /** `!=` is exactly the negation of `==`. */
  lemma NotEqualIsNegation(a: Event, b: Event)
    ensures NotEqual(a, b) <==> !Equal(a, b)
    ensures NotEqual(a, b) <==> a.id != b.id
  {
  }

  /** `<` is a strict order that is total up to Equal. */
  lemma LessIsStrictOrder()
    ensures forall a: Event :: !Less(a, a)
    ensures forall a: Event, b: Event :: Less(a, b) ==> !Less(b, a)
    ensures forall a: Event, b: Event, c: Event :: Less(a, b) && Less(b, c) ==> Less(a, c)
    ensures forall a: Event, b: Event :: NotEqual(a, b) ==> Less(a, b) || Less(b, a)
  {
  }

  /** Incomparable events under `<` are exactly the Equal ones, so a
      `std::set<Event>` holds at most one event per id. */
  lemma IncomparableIffEqual(a: Event, b: Event)
    ensures !Less(a, b) && !Less(b, a) <==> Equal(a, b)
  {
  }

  /**
   * The id-generation context of `Event::counter_inc` (a `thread_local`
   * counter in the source). `minted` is the ghost record of the ids handed out.
   */
  class IdCounter {
    var counter: EventId
    ghost var minted: set<EventId>

    ghost predicate Valid()
      reads this
    {
      forall id :: id in minted ==> 1 <= id <= counter
    }

    /** A fresh context: the counter starts at zero. */
    constructor ()
      ensures Valid() && counter == 0 && minted == {}
    {
      counter := 0;
      minted := {};
    }

    /** `counter_inc`: `return ++counter;` */
    method CounterInc() returns (id: EventId)
      requires Valid()
      modifies this
      ensures Valid()
      ensures id == old(counter) + 1 && counter == id
      ensures forall prior :: prior in old(minted) ==> prior < id
      ensures minted == old(minted) + {id}
    {
      counter := counter + 1;
      id := counter;
      minted := minted + {id};
    }

    /** `Event()`: a fresh id from this context and no payload. */
    method NewEvent() returns (e: Event)
      requires Valid()
      modifies this
      ensures Valid()
      ensures e.data == 0 && e.id == old(counter) + 1 && counter == e.id
      ensures forall prior :: prior in old(minted) ==> prior < e.id
      ensures minted == old(minted) + {e.id}
    {
      var id := CounterInc();
      e := Event(id, 0);
    }
  }

  /** The first two default-constructed events of a new context get ids 1 and 2. */
  method FirstEventsOfContext() returns (first: Event, second: Event)
    ensures first.id == 1 && second.id == 2
    ensures first.data == 0 && second.data == 0
    ensures Less(first, second) && NotEqual(first, second)
  {
    var context := new IdCounter();
    first := context.NewEvent();
    second := context.NewEvent();
  }
}
