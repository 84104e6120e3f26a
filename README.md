# tsm: a hierarchical state-machine library, modelled in Dafny

This project models the transition-dispatch engine of tsm, a small C++ library
for hierarchical state machines:

- **Events** (`include/Event.h`). Events compare and order by id alone, and
  a default-constructed event takes a fresh id from a counter.
- **The flat transition table** of `include/Transition.h`, and its
  single-transition step `doTransition`. The table maps a (state, event id)
  key to a (target, action?, guard?) transition and records the events it
  recognises. The step runs the guard, then onExit, the action,
  `setCurrentState` and onEntry.
- **The hierarchical run loop** `StateMachine::execute`, and the loop of the
  two-region composite `OrthogonalHSM::execute` (`tsm.h`). Machines of a
  hierarchy share one event queue. A nested machine that has no transition
  for an event puts it back at the front of the queue and returns, so that
  its parent sees it next; the root drops such an event.

The project has six modules:

- `wrappers.dfy` (`Wrappers`): `Option`.
- `event.dfy` (`Events`): events, and the id counter as a class (`IdCounter`).
- `transition.dfy` (`Transitions`):
  - registration as folds over the log of `add` calls (`TableOf`, `EventsOf`);
  - a reference search for the first registration of a key (`FirstTransition`, `FirstEvent`), proved to agree with the folds;
  - the table as a class;
  - the trace-recording machine `Fsm`, and `DoTransition`.
- `hsm.dfy` (`Hsm`): what one call of each `execute()` does, as functions on values.
  - `Run` and `Take` describe one call of `StateMachine::execute`.
  - `OrthoRun` and `OrthoTake` describe one call of `OrthogonalHSM::execute`.
  - The lemmas state what each branch of the loops does.
- `tsm.dfy` (`Tsm`): the event queue, `StateMachine` and `OrthogonalHSM` as classes.
  - Each loop is a `while` loop with invariants.
  - `Execute` is proved to leave the machine, its nested machines and the queue exactly as `Run` (or `OrthoRun`) says, with the calls and outcome it says.
- `scenarios.dfy` (`Scenarios`): two concrete runs.
  - The socket machine of `examples/hello_tsm/main.cpp`, driven through the classes.
  - A nested machine bubbling an event to its parent.

Modelling decisions:

- **Ids.** States, actions and guards are abstract ids. A guard is a
  predicate given as a parameter.
- **Trace.** The calls a run makes are recorded in a trace:
  - `SetCurrent`, `RunAction` and `ExecuteState` for the loop;
  - `Entered` and `Exited` for `OnEntry`/`OnExit`;
  - `OnExit`, `Action`, `SetCurrentState` and `OnEntry` for `doTransition`.
- **Two-level hierarchy.** A machine's `children` are those of its states that
  are themselves machines; the children have no children of their own. Every
  other state is a leaf whose `execute()` does nothing.
- **Queue.** The queue is a sequence of events plus a stopped flag. Waiting on
  a stopped or empty queue gives the interrupted outcome.
- **Rethrow on an interrupted wait.** In tsm.h the interrupted wait is an
  exception. The loop rethrows it unless `interrupt_` is set (tsm.h:160-166).
  Without threads, `interrupt_` was false when the loop condition was just
  checked, so the rethrow always happens. The model ends the run with the
  outcome `Rethrown`.
- **Where the action runs.** The two files order the action differently, and
  each is modelled as written:
  - in tsm.h the current state is set before the action runs (tsm.h:191-196);
  - `include/Transition.h` runs the action before `setCurrentState` (include/Transition.h:38-41).
- **The transition type used by tsm.h.** `TransitionT::doTransition` is not
  part of this model. The loop uses only the action it yields.

## Model

| member | source | states |
|---|---|---|
| `Events.WithId` | include/Event.h:17-19 | `Event(id)` keeps the id and has payload 0 |
| `Events.WithIdAndData` | include/Event.h:22-24 | `Event(id, data)` keeps both |
| `Events.Equal` | include/Event.h:26 | `==` holds exactly when the events agree once their payloads are set aside |
| `Events.NotEqual` | include/Event.h:27 | `!=` holds exactly when the events differ once their payloads are set aside |
| `Events.Less` | include/Event.h:28 | `a<b` rules out `a==b`, and when it fails either `a==b` or `b`'s id is below `a`'s |
| `Events.EqualIsEquivalence` | include/Event.h:26 | `==` is reflexive, symmetric and transitive |
| `Events.EqualIgnoresData` | include/Event.h:26 | events with one id are equal whatever their payloads, though different values when the payloads differ |
| `Events.NotEqualIsNegation` | include/Event.h:27 | `!=` holds exactly when `==` does not, that is when the ids differ |
| `Events.LessIsStrictOrder` | include/Event.h:28 | `<` is irreflexive, asymmetric and transitive, and any two unequal events are comparable |
| `Events.IncomparableIffEqual` | include/Event.h:26-28 | neither `a<b` nor `b<a` exactly when `a==b` |
| `Events.IdCounter.constructor` | include/Event.h:34 | a new context starts its counter at 0, with nothing minted yet |
| `Events.IdCounter.CounterInc` | include/Event.h:33-36 | returns the old counter plus one, which is larger than every id minted before, and stores it |
| `Events.IdCounter.NewEvent` | include/Event.h:12-14 | a default-constructed event has payload 0 and a fresh id larger than every id minted before |
| `Events.FirstEventsOfContext` | include/Event.h:33-36 | the first two default-constructed events of a context get ids 1 and 2, and the first is less than and not equal to the second |
| `Transitions.HashStateEventPair` | include/Transition.h:55-60 | the hash of (a, b) lies on the diagonal a+b of the Cantor pairing, at offset a from its start |
| `Transitions.HashInjective` | include/Transition.h:55-60 | equal Cantor-pairing hashes imply equal state ids and equal event ids |
| `Transitions.Get` | include/Transition.h:73-79 | the lookup finds an entry exactly when the key is present, and gives the stored value |
| `Transitions.Insert` | include/Transition.h:108-110 | `insert` adds the key and never overwrites an existing entry; the other entries are unchanged |
| `Transitions.InsertEvent` | include/Transition.h:98 | inserting into the event set adds the id; an id already present keeps its first event |
| `Transitions.RegisterOneMore` | include/Transition.h:90-99 | one more `add` inserts its transition into the table and its event into the event set |
| `Transitions.TableOf` | include/Transition.h:90-111 | after a sequence of `add` calls, every registered (state, event id) key is in the table |
| `Transitions.EventsOf` | include/Transition.h:90-99 | after a sequence of `add` calls, every registered event id is in the event set, and each entry holds an event with that id |
| `Transitions.TableOfKeys` | include/Transition.h:90-111 | the table has a key exactly for each registered (state, event id) pair and no other |
| `Transitions.EventsOfKeys` | include/Transition.h:90-99 | the event set has an entry exactly for each registered event id and no other |
| `Transitions.FirstTransitionAppend` | include/Transition.h:108-110 | after one more registration, the first registration of a key is the old one if there was one, else the new one when it has that key |
| `Transitions.FirstEventAppend` | include/Transition.h:98 | the same for the first event registered under an id |
| `Transitions.TableOfKeepsFirst` | include/Transition.h:104-111 | looking a key up in the table the registrations built gives the transition of the first registration with that key, and nothing for a key never registered |
| `Transitions.EventsOfKeepsFirst` | include/Transition.h:98-101 | the event set holds exactly the registered ids, each with the first event registered under it |
| `Transitions.FirstTransitionFound` | include/Transition.h:70-80 | a key has a transition exactly when some registration used it |
| `Transitions.FirstTransitionIsEarliest` | include/Transition.h:90-111 | the transition found for a key is the one of the earliest registration with that key |
| `Transitions.StateTransitionTableT.constructor` | include/Transition.h:112-113 | a new table is empty and consistent with an empty registration log |
| `Transitions.StateTransitionTableT.Add` | include/Transition.h:90-99 | `add` appends its registration and keeps the table and the event set equal to what the log builds |
| `Transitions.StateTransitionTableT.AddTransition` | include/Transition.h:104-111 | `addTransition` inserts without overwriting and leaves the event set alone |
| `Transitions.StateTransitionTableT.Next` | include/Transition.h:70-80 | `next` gives the transition of the first registration of (state, event id), or null, and changes nothing |
| `Transitions.StateTransitionTableT.GetEvents` | include/Transition.h:101 | every id maps to the first event registered under it, and an unregistered id is absent |
| `Transitions.FirstAddWins` | include/Transition.h:70-111 | on a fresh table, `next` finds the first `add`'s transition; a second `add` with the same key leaves that transition in place; the event set holds one event for the id |
| `Transitions.Fsm.constructor` | include/Transition.h:25 | the machine a transition acts on starts at a given state with an empty trace |
| `Transitions.Fsm.SetCurrentState` | include/Transition.h:41 | `setCurrentState` changes the current state and records the change |
| `Transitions.Fsm.Call` | include/Transition.h:37-42 | a hook call is recorded and leaves the current state alone |
| `Transitions.GuardAllows` | include/Transition.h:30-32 | a transition without a guard is always allowed |
| `Transitions.DoTransition` | include/Transition.h:25-46 | returns whether the guard allows; if it does not, nothing is called and the state is unchanged; if it does, the trace gains exactly onExit(old), the action if any, setCurrentState(target), onEntry(target), and the current state is the target |
| `Transitions.FiredHooksOrder` | include/Transition.h:37-42 | a fired transition's hooks are 3 or 4: onExit first, then the action, then the state change, then onEntry |
| `Transitions.SelfTransitionExitsAndEntersOnce` | include/Transition.h:37-42 | a self-transition makes exactly one onExit, one onEntry and one state change |
| `Hsm.Run` | tsm.h:147-206 | one call of `execute()` never grows the queue, keeps the set of nested machines and keeps a machine's id, stop state, table, event set and parent |
| `Hsm.Take` | tsm.h:172-203 | the part of the loop after an event is taken leaves at most that event and the rest on the queue, with the same preserved fields |
| `Hsm.OrthoRun` | tsm.h:279-309 | the composite's loop leaves the composite unchanged and keeps each region's id, table and event set |
| `Hsm.OrthoTake` | tsm.h:284-307 | the same for the end of a round |
| `Hsm.Next` | tsm.h:40-52 | the lookup finds a transition exactly when the current state is not null and the table has (state, event id), and gives that entry |
| `Hsm.Permits` | tsm.h:186-190 | a transition without a guard always fires |
| `Hsm.NextFindsFirstRegistration` | tsm.h:40-52 | the loop's lookup gives the transition of the first registration of (state, event id), and nothing for a null state |
| `Hsm.FiredOrder` | tsm.h:189-200 | a fired transition sets the current state, then runs the action if any, then calls `execute()` of the target once, last |
| `Hsm.InterruptedRunIsNoOp` | tsm.h:149 | with `interrupt_` set, `execute()` changes nothing and calls nothing |
| `Hsm.StopStateEndsLoop` | tsm.h:150-153 | at the stop state the loop sets `interrupt_` and returns without taking an event |
| `Hsm.InterruptedWaitRethrows` | tsm.h:157-163 | a stopped or empty queue ends the call with the rethrown interruption and nothing changed |
| `Hsm.MissWithParentBubbles` | tsm.h:175-178 | a miss in a nested machine puts the event back, so the queue is as before; the loop ends and the state is unchanged |
| `Hsm.MissAtRootDrops` | tsm.h:179-183 | a miss at the root drops the event and the loop continues from the same state |
| `Hsm.GuardRejectionConsumes` | tsm.h:186-203 | a guard that returns false drops the event with no action and no state change, and the loop continues |
| `Hsm.HitMovesThenActsThenExecutes` | tsm.h:186-200 | a transition that fires moves to the target and records the state change, the action and the target's `execute()`, in that order. A nested target then runs on the rest of the queue, and either its rethrow ends the call or the loop goes on |
| `Hsm.RunConsumesFromFront` | tsm.h:157-183 | what `execute()` leaves on the queue is a suffix of what was pending |
| `Hsm.TakeConsumesFromFront` | tsm.h:172-203 | the same for the rest of the loop after an event is taken |
| `Hsm.RunEndsAtStopOrBubble` | tsm.h:147-206 | `execute()` sets `interrupt_` only at the stop state; a normal return without it means an event was bubbled to the parent; the root returns normally only at its stop state |
| `Hsm.RunIgnoresEvents` | tsm.h:172-173 | the loop of a machine without nested machines never consults its event set |
| `Hsm.OrthoIgnoresRegion2Events` | tsm.h:295-307 | region 2's event set is never consulted: changing it changes nothing else in the composite's run |
| `Hsm.OrthoTakeIgnoresRegion2Events` | tsm.h:295-307 | the same for the end of a round |
| `Hsm.OrthoRedeliversRegion1Events` | tsm.h:295-298 | an event in region 1's event set goes back to the front, and the next round starts with it |
| `Hsm.OrthoBubblesOrDropsOthers` | tsm.h:299-307 | any other event is put back and the loop ends when there is a parent, or is dropped at the root |
| `Hsm.OrthoLivelock` | tsm.h:279-309 | an event region 1 recognises but neither region can take from its current state makes the same round repeat for ever, with no change and no calls |
| `Tsm.EventQueue.constructor` | include/AsyncExecutionPolicy.h:64 | a new queue is empty and not stopped |
| `Tsm.EventQueue.NextEvent` | tsm.h:157-167 | the wait gives the front event and removes it, or the interrupted outcome with no change on a stopped or empty queue |
| `Tsm.EventQueue.AddFront` | tsm.h:177 | an event put back goes before everything queued |
| `Tsm.EventQueue.AddBack` | include/AsyncExecutionPolicy.h:59 | sending an event appends it to the queue |
| `Tsm.EventQueue.Stop` | tsm.h:141 | stopping the queue keeps its events |
| `Tsm.FrontInsertionComesFirst` | tsm.h:297 | an event put at the front is taken before the ones already queued, which keep their order |
| `Tsm.StateMachine.constructor` | tsm.h:66-78 | a new machine is not interrupted, has a null current state and an empty table consistent with an empty log |
| `Tsm.StateMachine.Add` | tsm.h:88-99 | `add` appends its registration, inserts its transition without overwriting and records its event |
| `Tsm.StateMachine.AddTransition` | tsm.h:230-237 | `addTransition` inserts into the table only |
| `Tsm.StateMachine.NextTransition` | tsm.h:40-52 | `next` gives null for a null state, otherwise the transition of the first registration of the key |
| `Tsm.StateMachine.GetEvents` | tsm.h:214 | every id maps to the first event registered under it |
| `Tsm.StateMachine.SetParent` | tsm.h:216 | `setParent` sets the parent and nothing else |
| `Tsm.StateMachine.StartHSM` | tsm.h:123-132 | the current state becomes the start state |
| `Tsm.StateMachine.StopHSM` | tsm.h:134-145 | `interrupt_` is set; only a root stops the shared queue |
| `Tsm.StateMachine.OnEntry` | tsm.h:105-109 | entering starts the machine |
| `Tsm.StateMachine.OnExit` | tsm.h:111-121 | exiting nulls the current state, then stops the machine |
| `Tsm.StateMachine.Execute` | tsm.h:147-206 | `execute()` leaves the machine, its nested machines and the queue as `Run` says, with the calls and the outcome `Run` gives; the machine keeps its table, event set, registrations and parent, and so does every nested machine |
| `Tsm.StateMachine.Loop` | tsm.h:149-205 | the `while (!interrupt_)` loop gives `Run`'s result, pass by pass, and keeps every definition and parent |
| `Tsm.StateMachine.Step` | tsm.h:149-173 | one pass of the loop continues the run: the stop state ends it, an interrupted wait rethrows, otherwise the taken event is dispatched |
| `Tsm.StateMachine.ReachStop` | tsm.h:150-153 | raising `interrupt_` at the stop state ends the run with nothing else changed |
| `Tsm.StateMachine.Dispatch` | tsm.h:172-203 | after an event is taken: bubble it or drop it on a miss, drop it on a rejected guard, else fire, each as the run says |
| `Tsm.StateMachine.Hit` | tsm.h:190-200 | firing moves to the target and, when the target is a nested machine, runs it on the shared queue, as the run says |
| `Tsm.StateMachine.Fire` | tsm.h:189-197 | the current state becomes the target, then the action runs, then the target's `execute()` is called |
| `Tsm.StateMachine.RunChild` | tsm.h:200 | a nested target's `execute()` changes that machine and the queue as its own run says, and no other nested machine; every nested machine keeps its table, event set, registrations and parent |
| `Tsm.RunLeafMachine` | tsm.h:200 | `execute()` of a machine without nested machines, as its parent calls it: the result of `Run`, with the machine's definition and parent kept |
| `Tsm.OrthogonalHSM.constructor` | tsm.h:248-259 | the composite has null start and stop states and becomes both regions' parent; the regions are otherwise unchanged |
| `Tsm.OrthogonalHSM.OnEntry` | tsm.h:261-267 | enters region 1, then region 2, then the composite; the regions start at their start states, and all three keep their tables, event sets and registrations |
| `Tsm.OrthogonalHSM.OnExit` | tsm.h:269-277 | exits region 1, then region 2, then the composite; all three are stopped with null states, and only a root composite stops the queue; all three keep their tables, event sets and registrations |
| `Tsm.OrthogonalHSM.Execute` | tsm.h:279-309 | the loop leaves the regions and the queue as `OrthoRun` says, with its calls and outcome; the composite and both regions keep their tables, event sets and registrations |
| `Tsm.OrthogonalHSM.Round` | tsm.h:282-307 | one round steps region 1; its rethrow ends the loop, else the round goes on with region 2 |
| `Tsm.OrthogonalHSM.SecondRegion` | tsm.h:283-307 | region 2 runs on the queue region 1 left; its rethrow ends the loop, else the next event is routed |
| `Tsm.OrthogonalHSM.Redeliver` | tsm.h:284-307 | the next event is put back for region 1, bubbled to the parent or dropped, as the round says |
| `Scenarios.MintSocketEvents` | examples/hello_tsm/main.cpp:26-31 | on the main thread's fresh id context, the static `null_event` (include/Event.h:44) takes id 1 before `main`, so the socket machine's six events get ids 2 to 7, in declaration order, provided the builder classes mint no ids before them |
| `Scenarios.Define` | examples/hello_tsm/main.cpp:16-22 | a definition's `add` calls leave the machine's log equal to its registrations, with nothing else changed |
| `Scenarios.BuildSocket` | examples/hello_tsm/main.cpp:8-41 | the socket machine is a root starting at Closed, with no stop state and the seven registrations |
| `Scenarios.SocketRun` | examples/hello_tsm/main.cpp:46-59 | started and sent `sock_open`, with one call of the `execute` loop in place of `step()`, the machine moves to Ready and calls `execute()` of Ready; the `Rethrown` outcome then stands in for the program's blocking wait on the empty queue, and exiting stops the queue |
| `Scenarios.OpenSocket` | examples/hello_tsm/main.cpp:55-56 | sending `sock_open` and running the loop from Closed ends at Ready |
| `Scenarios.SendOpen` | examples/hello_tsm/main.cpp:16 | the run from Closed on `sock_open` alone |
| `Scenarios.SocketTable` | examples/hello_tsm/main.cpp:16-22 | the two `close` transitions are both in the table, and `bind` has none from Closed |
| `Scenarios.SocketEvents` | examples/hello_tsm/main.cpp:16-31 | the event set holds each of the six events once, though `close` was added twice, and nothing under `null_event`'s id 1 |
| `Scenarios.SocketReRegistration` | tsm.h:230-237 | adding `sock_open` from Closed again, to another target, changes neither the table nor the event set |
| `Scenarios.BubbleToParent` | tsm.h:175-200 | a nested machine with no transition for an event hands it back, and its parent takes it to the stop state |

## Left out

- Threads: starting and joining the root's thread (tsm.h:128-130, 140-143). `interrupt_` is a plain bool rather than an atomic. A root's `execute()` is called directly.
- `include/AsyncExecutionPolicy.h`: its point is a dedicated worker thread, and the `dispatch` it calls is not part of this model.
- `EventQueue.h` is not part of this model. The queue is a sequence plus a stopped flag, and blocking is not modelled: an empty queue gives the same interrupted outcome as a stopped one.
- `State.h` is not part of this model. State hooks and `execute()` of a leaf state are recorded calls with no behaviour of their own.
- Logging and printing (`LOG`, `DLOG`, `print()`), including a null current state dereferenced by the log line at tsm.h:169. The model treats a null current state as having no transitions.
- The `interrupt_`-was-set branch of the interrupted wait (tsm.h:164-166), which cannot be reached without a second thread.
- `std::hash<StateEventPair>` (tsm.h:321-334) hashes raw pointers. Keys are abstract ids compared for equality, and the hash of `include/Transition.h` is modelled on unbounded naturals, without integer overflow.
- `Events.IdCounter.CounterInc`: does not model `uint32_t` wrap-around, and the `thread_local` counter is an explicit context object.
- The static `null_event` (include/Event.h:44) appears only as the first event `Scenarios.MintSocketEvents` mints. Its users, the `State` interface's `onEntry`/`onExit` and `startSM`/`stopSM`, are not part of this model.
- The `Event nextEvent;` declarations of the two loops (tsm.h:157, tsm.h:284) default-construct an event, which advances the running thread's id counter on every wait. `Run`, `OrthoRun` and the two `Execute` methods take no id context, so no `IdCounter` advances there.
- `step()` and the builder classes `StateMachineDef`, `SimpleStateMachine` and `State` of examples/hello_tsm/main.cpp are not part of this model. `Scenarios.SocketRun` runs the `execute` loop in place of `step()`, and `Scenarios.MintSocketEvents` takes it that nothing in those classes mints an id before the six events.
- Member-function pointers and `std::function`: guards are a given predicate on guard ids, and actions are recorded calls.
- `TransitionT::doTransition`, used at tsm.h:191, is not part of this model. The loop uses only the action it yields.
- Nesting is two levels deep: a nested machine has no nested machines of its own.
- `Tsm.StateMachine.constructor`: takes the map of substates that are machines as an extra argument. In the source these are whatever `State` objects the table names.
- `Tsm.OrthogonalHSM.Execute`: runs for at most `fuel` rounds, outcome `OutOfFuel`, because the loop need not end (see `Hsm.OrthoLivelock`). Its regions must be distinct machines without nested machines that share the composite's queue.
- The builder API of `examples/hello_tsm/main.cpp` (`StateMachineDef`, `SimpleStateMachine`, `step`) is not part of this model. The scenario drives a `StateMachine` directly.
