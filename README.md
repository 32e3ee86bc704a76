# kros-core: a verified model of the message, behaviour and data-structure core

This project models the sequential core of the KROS robot operating system in Dafny. KROS is an asyncio publish/subscribe framework.

## What is modelled

- **The message.** A message carries an event, one acknowledgement flag per subscriber and a set of processors. It also carries the `expired` and `gcd` flags, plus a count of how often it was saved.
- **Subscribers.** An ordinary subscriber accepts a message whose event is in its filter and which it has not yet acknowledged. From that follows exactly-once consumption: no subscriber consumes a message twice. The garbage collector accepts a message that is expired or fully acknowledged.
- **The behaviour manager.** It arbitrates between behaviours by subsumption: at most one behaviour is released at a time, and a more urgent event preempts a less urgent one.
- **Lifecycle.** This covers the finite state machine's transition table and a component's enable / suppress / close flags.
- **The event catalog.** Each event has a fixed number, priority and ballistic flag, and `from_str` looks events up by name, ignoring case.
- **Queues and heaps.** These are the FIFO/LIFO `DeQueue`, macros (named statement queues), the macro library, and the `heapq` binary heap with `nsmallest` / `nlargest`.
- **Debouncing and triggers.** This covers the bit-state debouncer, and the GPIO bumper publisher's per-bumper trigger and debounce table with its publishing precedence.
- **Small value functions.** These are the jerk limiter, `Util` (clip, repeat, ellipsis, remap_range, to_bin/to_decimal, is_true), the speed ladder and cardinal headings, orientation lookup, the global registry, the string builder, and the infrared distance sensor's pulse-width conversion and smoothing window.

## How the model is built

- Each core source file is one module.
- Objects whose methods update fields are classes. Their methods carry `modifies` clauses, and each method ties the new state to a pure step function of the old state. Examples are `AckStep`, `ConsumeStep`, `Debouncers.Step`, `CallbackStep` and `PutStep`.
- The lemmas about those step functions state what the code promises.
- Pure code (events, orientation, the jerk limiter, the speed ladder) is written as functions.
- Loops in the source are `while`/`for` loops with invariants. Examples are `to_decimal`, the sift loops, `unacknowledged_count` and the string builder.
- Python exceptions are values: `Result`, `Status` and `Option` in module `Wrappers`.
- Python's dynamically typed values are `PyValues.PyValue`.
- Clocks, pigpio ticks and configuration lookups are parameters.
- Python floats are Dafny `real`s, which are exact; "## Left out" lists where binary rounding would differ.

## Model

| member | source | states |
|---|---|---|
| Messages.FullyAckedIffNoneUnacked | core/message.py:167-176 | fully acknowledged iff the set of subscribers with a false flag is empty; vacuously true for an empty map |
| Messages.AckStep | core/message.py:189-203 | no subscribers raises; an unregistered subscriber raises KeyError; a registered one gets its flag set true; the key set never changes |
| Messages.AckStepAcknowledges | core/message.py:178-203 | acknowledge succeeds iff the subscriber is registered, and afterwards acknowledged_by holds |
| Messages.AckStepIdempotent | core/message.py:197-199 | a second acknowledge by the same subscriber changes nothing |
| Messages.AckAgainKeepsCount | core/message.py:197-199 | re-acknowledging leaves the flags and the unacknowledged count unchanged |
| Messages.AckFreshLowersCount | core/message.py:159-165 | acknowledging a fresh subscriber removes exactly it from the unacknowledged set (count minus one), other flags unchanged |
| Messages.ProcessStep | core/message.py:110-114 | a repeat processor raises and changes nothing; a new one is added, growing the set by one |
| Messages.ProcessAllCountsDistinct | core/message.py:106-114 | after any sequence of process calls, processors are the distinct callers and successes plus raises account for every call |
| Messages.Message.constructor | core/message.py:62-75 | a new message has no subscribers, no processors, zero saves, and is neither expired nor collected |
| Messages.Message.SetSubscribers | core/message.py:77-83 | every listed subscriber is registered with a false flag; other fields unchanged |
| Messages.Message.Process | core/message.py:110-114 | the processor set and status follow ProcessStep; other fields unchanged |
| Messages.Message.Expire | core/message.py:122-124 | sets expired and nothing else |
| Messages.Message.Gc | core/message.py:132-140 | sets gcd; a second call raises |
| Messages.Message.Save | core/message.py:241-243 | the save count grows by one, nothing else changes |
| Messages.Message.Age | core/message.py:92-96 | the age in milliseconds at time now: the timestamp plus the age is now, and it is non-negative when now is not before the timestamp |
| Messages.Message.Processed | core/message.py:105-108 | the number of distinct processors, zero iff none has processed the message |
| Messages.Message.UnacknowledgedCount | core/message.py:159-165 | the loop counts exactly the subscribers whose flag is false |
| Messages.Message.FullyAcknowledged | core/message.py:167-176 | the early-exit loop answers true iff no flag is false |
| Messages.Message.AcknowledgedBy | core/message.py:178-187 | the scan answers true iff the subscriber is registered with a true flag |
| Messages.Message.Acknowledge | core/message.py:189-203 | flags and status follow AckStep; processors, save count and expired/gcd flags unchanged |
| Subscribers.Accepts | core/subscriber.py:129-148 | no filter raises TypeError; accepted iff the event is in the filter and the subscriber has not acknowledged the message |
| Subscribers.ConsumeStep | core/subscriber.py:94-113 | a collected message raises; a consumed message was acceptable and is now acknowledged by the consumer; otherwise the flags are unchanged |
| Subscribers.ConsumeOnlyOnce | core/subscriber.py:108-113 | after consuming, the subscriber has acknowledged the message and no longer finds it acceptable |
| Subscribers.ConsumeAllAtMostOnce | core/subscriber.py:94-148 | over any order of consume calls each subscriber consumes at most once (never if it had acknowledged), consumers end acknowledged, keys never change |
| Subscribers.ConsumeAllReachesEveryAccepter | core/subscriber.py:129-148 | any registered subscriber whose filter holds the event and that gets a consume step ends up acknowledged |
| Subscribers.GcAccepts | core/subscriber.py:372-392 | the collector's if-chain accepts iff expired or fully acknowledged |
| Subscribers.EnableAsWritten | core/subscriber.py:318-326 | with `_closed` never assigned, enable raises AttributeError; otherwise it enables unless closed |
| Subscribers.CloseAsWritten | core/subscriber.py:337-346 | with `_closed` never assigned, close raises AttributeError; otherwise it disables and closes |
| Subscribers.FreshSubscriberEnableCloseRaise | core/subscriber.py:43-50 | a freshly built subscriber can neither be enabled nor closed as written |
| Subscribers.Subscriber.constructor | core/subscriber.py:43-60 | no filter, enabled, not a garbage collector |
| Subscribers.Subscriber.Collector | core/subscriber.py:361-369 | same initial state, with is_gc true |
| Subscribers.Subscriber.IsGc | core/subscriber.py:57-59 | true only for the garbage collector, whose subclass overrides `is_gc` to answer true (core/subscriber.py:366-368) |
| Subscribers.Subscriber.SetEvents | core/subscriber.py:77-82 | replaces the filter, nothing else |
| Subscribers.Subscriber.AddEvent | core/subscriber.py:70-75 | appends exactly one event to the filter; with no filter raises AttributeError and changes nothing |
| Subscribers.Subscriber.Acceptable | core/subscriber.py:129-148 | the method's answer is Accepts on its filter and the message's flags |
| Subscribers.Subscriber.Consume | core/subscriber.py:94-113 | flags and result follow ConsumeStep; the message's other fields are unchanged |
| Subscribers.Subscriber.GcAcceptable | core/subscriber.py:372-392 | true iff the message is expired (flag or age) or fully acknowledged |
| Subscribers.Subscriber.GcConsume | core/subscriber.py:395-419 | an acceptable message is collected, raising if it already was; otherwise nothing changes |
| Subscribers.Subscriber.Enable | core/subscriber.py:318-326 | enabled becomes not-closed; the closed-implies-disabled invariant is kept |
| Subscribers.Subscriber.Disable | core/subscriber.py:329-334 | disabled afterwards, closed unchanged |
| Subscribers.Subscriber.Close | core/subscriber.py:337-346 | closed and disabled afterwards, also on a second call |
| BehaviourManagers.Decide | behave/behaviour_manager.py:116-149 | the branch taken: suppress iff the target is released, release iff suppressed with no active behaviour, preempt iff suppressed, another active and compare is 1 |
| BehaviourManagers.DecidePreemptsByPriority | behave/behaviour_manager.py:129-149 | a suppressed target displaces a different active behaviour iff its priority number is smaller; otherwise nothing changes |
| BehaviourManagers.Behaviour.constructor | behave/behaviour.py:38-51 | a new behaviour is suppressed, disabled and not closed |
| BehaviourManagers.BehaviourManager.constructor | behave/behaviour_manager.py:36-39 | no behaviours, no active behaviour, subsumption holds |
| BehaviourManagers.BehaviourManager.GetBehaviourForEvent | behave/behaviour_manager.py:56-61 | the registered behaviour for the event, or none iff none is registered |
| BehaviourManagers.BehaviourManager.RegisterBehaviour | behave/behaviour_manager.py:42-53 | maps the event to the behaviour and appends the event to the subscription filter (AttributeError with no filter) |
| BehaviourManagers.BehaviourManager.SuppressTarget | behave/behaviour_manager.py:119-124 | the target is suppressed and, if it was active, no behaviour is active; the target's enabled and closed flags are kept |
| BehaviourManagers.BehaviourManager.ReleaseTarget | behave/behaviour_manager.py:125-128 | the target is released and becomes active; its enabled and closed flags are kept |
| BehaviourManagers.BehaviourManager.Preempt | behave/behaviour_manager.py:134-143 | the old active behaviour is suppressed, the target released and active; both keep their enabled and closed flags |
| BehaviourManagers.BehaviourManager.ProcessMessage | behave/behaviour_manager.py:103-149 | a collected message raises NameError; otherwise the branch chosen by Decide is applied to the target and the active behaviour, no other suppressed flag changes, no enabled or closed flag of any behaviour changes, and subsumption (only the active behaviour is released) is kept |
| Fsm.Check | core/fsm.py:55-95 | the transition table: NONE only to INITIAL, INITIAL to STARTED/DISABLED/CLOSED, STARTED to ENABLED/DISABLED/CLOSED, ENABLED and DISABLED to each other or CLOSED, CLOSED to nothing; suspect iff a repeated ENABLED or DISABLED |
| Fsm.RunNeverReturns | core/fsm.py:55-95 | along any request sequence the state never returns to NONE or INITIAL, and CLOSED is terminal |
| Fsm.EnableNeedsStartOrDisable | core/fsm.py:68-73 | from INITIAL, enabling before STARTED or DISABLED leaves the machine in INITIAL or CLOSED |
| Fsm.EnabledWithoutStart | core/fsm.py:68-92 | an example run: INITIAL, then DISABLED, then ENABLED is accepted without a start |
| Fsm.FiniteStateMachine.constructor | core/fsm.py:47-52 | construction leaves the state INITIAL |
| Fsm.FiniteStateMachine.Transition | core/fsm.py:55-95 | an illegal transition raises IllegalStateError and keeps the state; a legal one sets it and warns iff suspect |
| Fsm.FiniteStateMachine.Start | core/fsm.py:103-105 | succeeds iff the state was INITIAL |
| Fsm.FiniteStateMachine.Enable | core/fsm.py:108-110 | succeeds iff the state was STARTED, ENABLED or DISABLED |
| Fsm.FiniteStateMachine.Disable | core/fsm.py:113-115 | succeeds iff the state was not CLOSED |
| Fsm.FiniteStateMachine.Close | core/fsm.py:118-120 | succeeds iff the state was not CLOSED |
| Components.Component.constructor | core/component.py:36-46 | the given suppressed and enabled flags, not closed |
| Components.Component.Default | core/component.py:36-46 | suppressed, disabled, not closed by default |
| Components.Component.Enable | core/component.py:56-64 | enables unless closed; after close nothing changes |
| Components.Component.Disable | core/component.py:75-83 | disabled afterwards, other flags unchanged |
| Components.Component.Release | core/component.py:93-98 | only the suppressed flag changes, to false |
| Components.Component.Suppress | core/component.py:100-105 | only the suppressed flag changes, to true |
| Components.Component.Close | core/component.py:112-121 | disables and closes; a second close changes nothing |
| Events.NameInjective | core/event.py:15-110 | no two events share a name |
| Events.Name | core/event.py:156-157 | `str(event)` is the member name: non-empty and starting with a capital letter; NameInjective makes it unique |
| Events.Description | core/event.py:141-143 | the description of the definition tuple, never empty |
| Events.Priority | core/event.py:146-148 | between 1 and 1000; every bumper has 40 and every infrared sensor 50, so bumpers are more urgent |
| Events.IsBallistic | core/event.py:151-153 | every bumper and infrared event is ballistic, and no ballistic event has a priority number above 100 |
| Events.EventNamedName | core/event.py:15-110 | each member name leads back to its event |
| Events.IsIgnoreable | core/event.py:111-117 | priority at least 500 holds exactly for NOOP, NO_ACTION, CLOCK_TICK and CLOCK_TOCK |
| Events.CompareToPriorityOf | behave/behaviour_manager.py:133-149 | 1 iff this event's priority number is smaller, -1 iff larger, 0 iff equal |
| Events.FromStr | core/event.py:160-267 | a result is a listed event whose name is the upper-cased text; otherwise NotImplementedError, and no listed name matches |
| Events.FirstNamed | core/event.py:160-267 | the first listed event with that name, or none iff no listed event has it |
| Events.FirstNamedFinds | core/event.py:160-265 | since names are distinct, the if-chain finds every listed event by its name |
| Events.FromStrFindsNamed | core/event.py:160-265 | any spelling of a listed name in any case gives that event |
| Events.FromStrIgnoresCase | core/event.py:160-265 | texts equal up to case parse alike |
| Events.FromStrRejectsUnlisted | core/event.py:266-267 | the names of events the chain does not list raise NotImplementedError |
| Events.IsBumperAsWritten | core/event.py:131-133 | as written, true exactly for BATTERY_LOW, SHUTDOWN, HIGH_TEMPERATURE, COLLISION_DETECT and EMERGENCY_ASTERN, none of which is a bumper |
| Events.IsInfraredAsWritten | core/event.py:136-138 | as written, true only for GAMEPAD, which is not an infrared event |
| Events.BumperRangesAsWrittenMisclassify | core/event.py:132-139 | the ranges as written reject the three bumper events and INFRARED_PORT, and accept BATTERY_LOW and SHUTDOWN as bumpers and GAMEPAD as infrared |
| Events.IsBumper | core/event.py:132-135 | with the bumper block's range: true exactly for BUMPER_PORT, BUMPER_CNTR, BUMPER_STBD |
| Events.IsInfrared | core/event.py:137-139 | with the infrared block's range: true exactly for the five infrared events |
| DeQueues.PutStep | core/dequeue.py:127-133 | a full queue raises Full and keeps its items; otherwise the item is appended and the size grows by one |
| DeQueues.PutAsSetAsWritten | core/dequeue.py:110-117 | membership on a Queue object raises TypeError, so nothing is ever added |
| DeQueues.PutAsSetAsWrittenNeverAdds | core/dequeue.py:110-117 | for every queue and absent item with room left, the code as written raises TypeError and keeps the queue, while the intended version appends the item |
| DeQueues.PutAsSetStep | core/dequeue.py:110-117 | a present item changes nothing; an absent one is put |
| DeQueues.PutAsSetIsSetLike | core/dequeue.py:110-117 | keeps items distinct, never reorders, adds the item only when absent and not full |
| DeQueues.DeQueue.constructor | core/dequeue.py:29-38 | empty, with the given bound and mode |
| DeQueues.DeQueue.Size | core/dequeue.py:57-62 | the number of queued items, zero iff the queue is empty |
| DeQueues.DeQueue.IsEmpty | core/dequeue.py:72-76 | true iff no item is queued |
| DeQueues.DeQueue.Full | core/dequeue.py:79-83 | true iff the bound is positive and reached; an unbounded queue is never full |
| DeQueues.DeQueue.Peek | core/dequeue.py:86-96 | raises Empty iff empty; oldest item in FIFO mode, newest in LIFO mode |
| DeQueues.DeQueue.Poll | core/dequeue.py:99-107 | raises Empty when empty, TypeError in LIFO mode, else removes and returns the oldest |
| DeQueues.DeQueue.Get | core/dequeue.py:145-151 | raises Empty when empty; removes the oldest (FIFO) or newest (LIFO) item, shrinking the multiset by it |
| DeQueues.DeQueue.Pop | core/dequeue.py:136-142 | raises TypeError in FIFO mode; otherwise get: Empty when empty, the newest item in LIFO mode, the oldest in any other mode |
| DeQueues.DeQueue.Put | core/dequeue.py:127-133 | items and status follow PutStep |
| DeQueues.DeQueue.PutAsSet | core/dequeue.py:110-117 | items and status follow PutAsSetStep |
| DeQueues.DeQueue.ClearAsWritten | core/dequeue.py:65-69 | Queue has no clear method, so clear raises AttributeError |
| DeQueues.DeQueue.Clear | core/dequeue.py:65-69 | the queue is empty afterwards |
| DeQueues.FifoOrder | core/dequeue.py:127-151 | putting a sequence into a FIFO and getting as many items returns the same sequence |
| DeQueues.LifoOrder | core/dequeue.py:127-151 | a LIFO returns the sequence reversed |
| Macros.NewStatementAsWritten | core/macros.py:204-220 | an event gives a non-lambda statement; a callable raises AttributeError on Event.LAMBDA; anything else raises TypeError |
| Macros.NewStatement | core/macros.py:204-220 | succeeds iff the command is an event or a callable; lambda iff callable, with event LAMBDA; label and duration kept |
| Macros.NewStatementAsWrittenRejectsCallables | core/macros.py:214-217 | every callable fails as written but succeeds once LAMBDA exists; other commands agree |
| Macros.LabelInjective | core/macros.py:150 | statements added at different sizes get different labels |
| Macros.Macro.constructor | core/macros.py:114-120 | uses the given queue, or a new empty FIFO bounded by the statement limit |
| Macros.Macro.Size | core/macros.py:128-130 | the number of statements queued, zero iff the statement queue is empty |
| Macros.Macro.Poll | core/macros.py:142-143 | empty raises Empty; otherwise the oldest statement of a FIFO queue is removed and returned, and a LIFO queue raises TypeError |
| Macros.Macro.Add | core/macros.py:146-162 | appends a statement labelled with the prior size, or raises as the statement constructor or put does; it uses the statement constructor corrected in the core/macros.py:214-217 Findings row |
| Macros.Macro.AddEvent | core/macros.py:146-151 | appends a non-lambda statement for the event, labelled `stmt-n` for the prior size n |
| Macros.Macro.AddFunction | core/macros.py:154-162 | appends a lambda statement for the callable, labelled with the prior size; this is the corrected behaviour, since as written every callable raises AttributeError (core/macros.py:214-217 Findings row) |
| Macros.ReplayMacro | core/macros.py:114-151 | polling a macro built from events yields one statement per event, in insertion order, labelled by position |
| Macros.MacroLibrary.constructor | core/macros.py:29-31 | an empty library |
| Macros.MacroLibrary.Size | core/macros.py:34-36 | the number of names holding a macro, zero iff the library is empty |
| Macros.MacroLibrary.Put | core/macros.py:43-50 | a macro replaces any macro of the same name, so the size grows only for a new name; anything else raises TypeError and changes nothing |
| Macros.MacroLibrary.Get | core/macros.py:53-57 | the macro stored under the name, or none iff absent |
| Macros.MacroQueue.constructor | core/macros.py:74-75 | an empty unbounded FIFO of macros |
| Macros.MacroQueue.Size | core/macros.py:78-80 | the number of macros queued, zero iff none is |
| Macros.MacroQueue.Put | core/macros.py:87-91 | follows PutStep on the macro queue |
| Macros.MacroQueue.Get | core/macros.py:94-95 | empty raises Empty; otherwise the oldest macro is removed and returned |
| HeapQ.RootFirst | upy/heapq.py:57-88 | the root of a heap is ahead of, or level with, every element |
| HeapQ.SiftDown | upy/heapq.py:149-159 | with one leaf out of place, the loop restores the heap invariant from startpos and keeps the multiset |
| HeapQ.SiftUp | upy/heapq.py:162-175 | with the invariant below pos, the loop and the final siftdown restore it from pos and keep the multiset |
| HeapQ.Heapify | upy/heapq.py:91-95 | the result is a heap and a permutation of the input |
| HeapQ.HeapPush | upy/heapq.py:57-60 | the list grows by one, is a heap and gains exactly the item |
| HeapQ.HeapPop | upy/heapq.py:63-72 | an empty heap raises IndexError; otherwise the root is returned, the rest is a heap and the multiset loses exactly it |
| HeapQ.PoppedIsLeast | upy/heapq.py:63-72 | the popped root is no larger than anything left |
| HeapQ.HeapReplace | upy/heapq.py:75-80 | an empty heap raises IndexError; otherwise the old root is returned, the size is kept and the item takes its place in a heap |
| HeapQ.HeapPushPop | upy/heapq.py:83-103 | returns the root if it is ahead of the item, else the item; the rest is a heap with nothing ahead of the result |
| HeapQ.Sort | upy/heapq.py:127-146 | sorted and a permutation of the input |
| HeapQ.Extreme | upy/heapq.py:260-266 | `min` / `max`: an element in the list that nothing is ahead of |
| HeapQ.HeapSelect | upy/heapq.py:113-146 | the first n elements under the order, sorted, with nothing left out ahead of anything kept |
| HeapQ.NFirst | upy/heapq.py:254-312 | nsmallest / nlargest equal the first n of the sorted list |
| HeapQ.FirstKIsSortedPrefix | upy/heapq.py:254-312 | any sorted selection of the first k elements is the k-prefix of the sorted list |
| Debouncers.Step | upy/debouncer.py:61-78 | clears CHANGED; a new raw reading toggles UNSTABLE and restarts the bounce time; DEBOUNCED changes only after the interval held, and then CHANGED is set and the durations are recorded |
| Debouncers.SettlesAfterInterval | upy/debouncer.py:61-78 | two updates with one reading an interval apart leave that reading debounced |
| Debouncers.BouncingKeepsValue | upy/debouncer.py:68-70 | a reading that differs from UNSTABLE never changes the debounced value |
| Debouncers.Debouncer.constructor | upy/debouncer.py:24-42 | DEBOUNCED and UNSTABLE are set iff the predicate is initially true; CHANGED is clear |
| Debouncers.Debouncer.SetState | upy/debouncer.py:45-46 | ORs the bits in, keeping every bit already set |
| Debouncers.Debouncer.Update | upy/debouncer.py:61-78 | the new fields follow Step; only the three state bits are ever set |
| Debouncers.Debouncer.Value | upy/debouncer.py:94-99 | the debounced reading, the DEBOUNCED bit; Update (through Step) and SettlesAfterInterval say how it follows the raw reading |
| Debouncers.Debouncer.Rose | upy/debouncer.py:102-108 | true iff DEBOUNCED and CHANGED, and never together with fell |
| Debouncers.Debouncer.Fell | upy/debouncer.py:110-115 | true iff not DEBOUNCED and CHANGED |
| Debouncers.Debouncer.CurrentDuration | upy/debouncer.py:126-131 | the time since the last change: the change time plus the result is now, non-negative when now is not before it |
| Debouncers.UpdateReportsEdges | upy/debouncer.py:61-115 | after an update, rose iff the value went false to true and fell iff it went true to false |
| BumperPublishers.Reset | hardware/gpio_bmp_publisher.py:224-265 | a bumper's event clears only that bumper; ANY clears all six; any other event changes nothing |
| BumperPublishers.CallbackStep | hardware/gpio_bmp_publisher.py:137-194 | only the called bumper changes; an armed bumper past the debounce records the time and tick; a disarmed one resets only its own tick |
| BumperPublishers.Pick | hardware/gpio_bmp_publisher.py:202-213 | none iff nothing is triggered; otherwise the triggered bumper of least rank (MAST, CNTR, PORT, STBD, PAFT, SAFT) |
| BumperPublishers.ListenerStep | hardware/gpio_bmp_publisher.py:199-218 | publishes the picked bumper's event with its trigger time and clears only that trigger |
| BumperPublishers.DrainPublishesInRankOrder | hardware/gpio_bmp_publisher.py:199-218 | passes with no callback publish only triggered bumpers, in strictly increasing rank, all of them within as many passes as triggers |
| BumperPublishers.CallbacksLatch | hardware/gpio_bmp_publisher.py:137-194 | callbacks never clear a trigger, and in one-shot mode a trigger keeps its first time |
| BumperPublishers.GpioBumperPublisher.constructor | hardware/gpio_bmp_publisher.py:60-64 | every trigger and tick counter cleared; debounce in microseconds is milliseconds times 1000 |
| BumperPublishers.GpioBumperPublisher.ResetTrigger | hardware/gpio_bmp_publisher.py:224-243 | triggers follow Reset with none; ticks unchanged |
| BumperPublishers.GpioBumperPublisher.ResetTicks | hardware/gpio_bmp_publisher.py:246-265 | ticks follow Reset with 0; triggers unchanged |
| BumperPublishers.GpioBumperPublisher.Fire | hardware/gpio_bmp_publisher.py:139-141 | sets only the called bumper's trigger to the time and its tick counter to the edge's tick |
| BumperPublishers.GpioBumperPublisher.Callback | hardware/gpio_bmp_publisher.py:137-194 | triggers and ticks follow CallbackStep |
| BumperPublishers.GpioBumperPublisher.PublishNext | hardware/gpio_bmp_publisher.py:199-218 | the message and triggers follow ListenerStep; ticks unchanged |
| Jerk.NewJerkLimiter | hardware/jerk.py:42-54 | a given power limit p sets the range to [-p, p]; otherwise the configured range |
| Jerk.Stepped | hardware/jerk.py:58-80 | the target when close or within the maximum change; otherwise current plus or minus the maximum change towards the target |
| Jerk.MirrorClip | hardware/jerk.py:81 | in a non-negative output range the sign of the value is kept and the magnitude lies in the range |
| Jerk.Limit | hardware/jerk.py:58-81 | in a non-negative output range the magnitude of the result lies in the range; its bounds in a symmetric range and its step are the two lemmas below |
| Jerk.SymmetricLimitIsClipped | hardware/jerk.py:46-54 | with a symmetric range the result is the ordinary clip and lies in [-p, p] |
| Jerk.LimitBoundsTheChange | hardware/jerk.py:58-81 | inside a symmetric range one call moves at most the maximum change and never past the target |
| Util.IsTrue | core/util.py:32-44 | true exactly for the integer 1 (True included) and "1", "y", "yes", "true" in any case; false for falsy values |
| Util.Repeat | core/util.py:107-112 | an empty string raises ZeroDivisionError; otherwise n characters, the i-th being s[i mod len s] |
| Util.Abbreviate | core/util.py:115-123 | shorter strings are kept; otherwise the first max-1 characters and an ellipsis, with Python's negative slice for small max |
| Util.RemapRange | core/util.py:150-179 | raises ValueError iff the input or output range is empty |
| Util.RemapRangeIsAffine | core/util.py:161-179 | in every orientation of the ranges the result is the affine map from inMin to outMin and inMax to outMax |
| Util.RemapRangeEndpoints | core/util.py:161-179 | the range ends map to the range ends |
| Util.Clip | core/util.py:182-189 | in [lo, hi] when lo is at most hi, the value itself when strictly inside, the bound otherwise |
| Util.ToBin | core/util.py:192-194 | non-negative numbers give at least eight characters, each '0' or '1'; negatives keep a sign in front of binary digits |
| Util.ToDecimal | core/util.py:202-210 | a digit string gives its positional base-2 value; any other character raises ValueError |
| Util.ToDecimalOfToBin | core/util.py:192-210 | to_decimal(to_bin(n)) is n for every non-negative n |
| Util.UpperIgnoresCase | core/event.py:163 | strings equal up to case have the same upper-case form |
| Util.Lower | core/util.py:42 | same length, each character lower-cased |
| Util.Upper | core/event.py:163 | same length, each character upper-cased |
| Util.LowerMatches | core/util.py:42 | for a lower-case word w, lower(s) == w iff s equals w ignoring case |
| Orient.SlowerThan | core/orient.py:79-97 | a ladder speed; STOP below 20, FULL from 90; the fastest ladder speed not above the input |
| Orient.NumberOrdersValue | core/orient.py:55-62 | the enum number and the speed value put the ladder in the same order |
| Orient.SlowerThanMonotone | core/orient.py:79-97 | a larger input never yields a slower speed |
| Orient.Round | core/orient.py:125 | Python's round: nearest integer, halves to even |
| Orient.HeadingAsWritten | core/orient.py:118-125 | always one of the eight cardinals |
| Orient.HeadingAsWrittenSector | core/orient.py:118-125 | as written, strictly between 45(k-1) and 45k degrees the heading is the k-th cardinal |
| Orient.Heading | core/orient.py:118-125 | always one of the eight cardinals |
| Orient.HeadingSector | core/orient.py:118-125 | within 22.5 degrees of 45k the heading is the k-th cardinal |
| Orient.HeadingAsWrittenShifted | core/orient.py:118-125 | ten degrees heads north-east as written and north once corrected |
| Orientations.Side | core/orientation.py:63-73 | PORT for a 'PORT' side, STBD for a 'STBD' side, NONE otherwise |
| Orientations.Name | core/orientation.py:47-52 | the name is never shorter than the label and starts with the same letter |
| Orientations.Label | core/orientation.py:54-59 | a short tag of three or four letters; LabelsDistinct makes it unique |
| Orientations.SideIdempotent | core/orientation.py:63-73 | the side of a side is itself |
| Orientations.FindLabel | core/orientation.py:76-84 | the first member with the label, or none iff no member has it |
| Orientations.FromLabel | core/orientation.py:76-84 | a result carries the label; none iff no orientation has it |
| Orientations.LabelsDistinct | core/orientation.py:18-38 | no two orientations share a label |
| Orientations.FromLabelOfLabel | core/orientation.py:76-84 | from_label of an orientation's label is that orientation |
| Globals.HasIn | core/globals.py:42-47 | NameError before init; otherwise true iff the key is stored with a value other than None |
| Globals.GetIn | core/globals.py:61-65 | NameError before init; None for a missing key; the stored value otherwise |
| Globals.PutIn | core/globals.py:50-58 | a truthy stored value refuses the put and keeps the map; otherwise the key is bound |
| Globals.PutThenGet | core/globals.py:50-65 | after a successful put, get returns the value, has reports it unless None, other keys are unchanged |
| Globals.PutRefusedKeepsValue | core/globals.py:50-57 | a refused put changes nothing and the truthy value stays readable |
| Globals.PutAsWrittenRaisesNameError | core/globals.py:56-57 | as written a refusal raises NameError, the intended version GlobalsError |
| Globals.Registry.constructor | core/globals.py:34-39 | the registry starts with `gvars` unbound, the state `init()` tests for with its try/except |
| Globals.Registry.Init | core/globals.py:14-39 | binds an empty map only the first time |
| Globals.Registry.Has | core/globals.py:42-47 | answers HasIn of the state |
| Globals.Registry.Get | core/globals.py:61-65 | answers GetIn of the state |
| Globals.Registry.PutAsWritten | core/globals.py:50-58 | follows PutIn with NameError as the refusal |
| Globals.Registry.Put | core/globals.py:50-58 | follows PutIn with GlobalsError as the refusal |
| Globals.Registry.PutRaising | core/globals.py:50-58 | follows PutIn with the given refusal |
| StringBuilders.IndentText | core/stringbuilder.py:47-52 | a non-zero per-call indent overrides the builder's |
| StringBuilders.DelimText | core/stringbuilder.py:53-57 | a per-call delimiter overrides the builder's, which defaults to none |
| StringBuilders.Piece | core/stringbuilder.py:36-58 | None raises TypeError; otherwise indent, then str(obj), then delimiter |
| StringBuilders.Concat | core/stringbuilder.py:36-58 | fails with TypeError iff some object is None |
| StringBuilders.StringBuilder.constructor | core/stringbuilder.py:26-33 | a truthy initial object is written with the delimiter but without indent; the indent is set afterwards |
| StringBuilders.StringBuilder.Append | core/stringbuilder.py:36-58 | the buffer grows by exactly Piece, or None raises and changes nothing |
| StringBuilders.StringBuilder.LengthAsWritten | core/stringbuilder.py:61-62 | len of a StringIO raises TypeError |
| StringBuilders.StringBuilder.Length | core/stringbuilder.py:61-62 | the length of the text written |
| StringBuilders.StringBuilder.ToString | core/stringbuilder.py:65-70 | the text written so far; Build ties it to Concat of every object appended |
| StringBuilders.Build | core/stringbuilder.py:36-70 | appending objects in turn yields the concatenation of their pieces in order, or TypeError |
| DistanceSensors.TickDiff | hardware/distance_sensor.py:119 | in [0, 2^32): the plain difference when the tick is not behind the start, the difference plus 2^32 when the counter wrapped |
| DistanceSensors.WidthToDistance | hardware/distance_sensor.py:132-133 | a distance iff 1000 to 1850 microseconds: (w - 1000) * 3/4, in [0, 637.5] |
| DistanceSensors.Push | hardware/distance_sensor.py:136 | the deque appends and keeps the newest maxlen values |
| DistanceSensors.Mean | hardware/distance_sensor.py:137 | the integer part of the window mean, in [0, 637] |
| DistanceSensors.DistanceSensor.constructor | hardware/distance_sensor.py:68-75 | no pulse, an empty window and distance -1 |
| DistanceSensors.DistanceSensor.PulseCallback | hardware/distance_sensor.py:111-121 | a rising edge records its tick; a falling edge sets the width from a start, or none without one |
| DistanceSensors.DistanceSensor.ComputeDistance | hardware/distance_sensor.py:124-141 | none without an in-range width; the floor of the distance, or of the window mean when smoothing; the width cleared afterwards |
| DistanceSensors.DistanceSensor.LoopStep | hardware/distance_sensor.py:159-165 | stores exactly the value ComputeDistance gives in each branch (none, the floor of the distance, or the window mean), with the same window and read time; a zero-length window raises ZeroDivisionError and keeps the stored distance and width; a stored distance is none or in [0, 637] |
| DistanceSensors.DistanceSensor.TimedOut | hardware/distance_sensor.py:152-156 | timed out iff the last in-range reading is more than `timeout` seconds before now; never at or before the last reading with a non-negative timeout |
| DistanceSensors.NewDistanceSensor | hardware/distance_sensor.py:56-64 | only PORT, CNTR and STBD are accepted; any other orientation raises |
| PyValues.NatDigitsInjective | core/stringbuilder.py:54 | distinct naturals print differently |
| PyValues.Truthy | core/globals.py:56 | falsy exactly for None, False, 0 and '' |
| PyValues.Str | core/stringbuilder.py:54 | a string is itself; an integer is non-empty with a leading '-' exactly when negative, and all decimal digits otherwise |
| PyValues.StrIntInjective | core/stringbuilder.py:54 | distinct integers print differently |

## Left out

- The asyncio machinery: message bus queues, tasks, `consume` awaiting, republishing, sleeps and signal handlers. Only the synchronous steps are modelled: peek, acknowledge and gc, and the listener pass.
- Logging, colours and printing everywhere.
- Configuration lookups. The values they return are constructor parameters.
- Clocks. `time.time()`, `time.monotonic()` and `dt.now()` are parameters, written `now`.
- The message bus's `is_expired` is a predicate over the message's expired flag and its age against a maximum age. The rest of the message bus is not part of this model.
- Subscribers.Subscriber.Consume: the republish and the asynchronous `handle_message` that follow the acknowledgement are not modelled.
- BehaviourManagers.BehaviourManager.constructor, BehaviourManagers.Behaviour.constructor and BehaviourManagers.BehaviourManager.RegisterBehaviour follow the evident intent where the code cannot run as written. behave/behaviour_manager.py:37 passes `suppressed=` and `enabled=` keywords that `Subscriber.__init__` (core/subscriber.py:43) does not take, which raises TypeError. `process_message` (behave/behaviour_manager.py:118-143) calls `.suppressed`, `.suppress()` and `.release()`, which `Subscriber` does not define, raising AttributeError. behave/behaviour.py:48 calls `_register_behaviour(self)` with one argument, while behave/behaviour_manager.py:42 declares two, `(behaviour, callback)`. The model builds without error, takes the flags from `Components.Component`, and registers with the behaviour alone.
- BehaviourManagers.BehaviourManager.ProcessMessage: the subscriber-level processing at the end (`super().process_message`) is not modelled. As written, behave/behaviour_manager.py:21 imports `Group` from core/event.py, which does not define it, so the module fails at import with ImportError; the model assumes the import succeeds. A collected message raises `GarbageCollectedError` (behave/behaviour_manager.py:112), a name the module never imports or defines, so the raise itself is a NameError, and that is what the model returns. Start, enable, disable and close are not modelled either, because they fan the same call out to every behaviour.
- Events.CompareToPriorityOf: core/event.py does not define `compare_to_priority_of`. The model takes 1 to mean more urgent, that is, a smaller priority number.
- Event descriptions and the ballistic flag are data only. No operation here reads them.
- `Event.LAMBDA`, `Event.ANY` and the PAFT, MAST and SAFT bumper events are not defined in core/event.py. The macro model uses a separate `LambdaEvent`. The bumper publisher uses its own six-bumper enumeration together with a one-bumper, ANY or other-event reset argument.
- BumperPublishers.GpioBumperPublisher.constructor follows the evident intent: as written it always raises AttributeError, because hardware/gpio_bmp_publisher.py:63 reads `Event.ANY`, which core/event.py does not define (it has only BUMPER_PORT, BUMPER_CNTR and BUMPER_STBD at core/event.py:53-55). For the same reason BumperPublishers.Reset, BumperPublishers.CallbackStep and BumperPublishers.ListenerStep follow intent where the source raises AttributeError: `_reset_trigger` and `_reset_ticks` for any event other than PORT, CNTR or STBD (lines 235 and 257 onwards), the PAFT, MAST and SAFT one-shot resets (lines 174, 184 and 194), and the listener's MAST, PAFT and SAFT branches (lines 203, 211 and 213). The model constructs the publisher and runs all six bumpers.
- HeapQ: `merge` is a generator and is not modelled. The `key=` variants are not modelled either, and neither is the (element, counter) decoration. Elements are integers. The decoration only breaks ties between equal integers, which cannot be told apart.
- HeapQ.HeapPush and HeapQ.HeapPop model the list's growth and shrinkage by returning a fresh array. An in-place list resize is therefore not modelled.
- Debouncers: the predicate is sampled outside and passed in as `reading`. The interval getter and setter and `last_duration` are not modelled, `current_duration`'s clock is the parameter `now`, and `_TICKS_PER_SEC` is 1. `_unset_state` and `_toggle_state` are inlined into `Update`.
- BumperPublishers: pigpio setup, enable/disable and the publish delay are not modelled. The six pin callbacks are one callback with a bumper parameter. Ticks are unbounded integers: the source compares raw pigpio ticks, so 32-bit tick wrap-around is neither handled nor modelled. The trigger value is the time passed in.
- Jerk: floating point is modelled as reals. `math.isclose` keeps its default relative tolerance and uses abs_tol 1e-3.
- Util, Orient, DistanceSensors, Debouncers, BumperPublishers and Messages: Python floats are exact Dafny reals, so binary rounding is not modelled. This affects `Util.RemapRange` and `Util.Clip`; the speed ladder, `Orient.Round` and the headings, where `round(d / 45 + 0.5)` on doubles can land differently from exact reals at a sector boundary; the distance sensor's distances, window and `Mean`, where `int()` truncates a float sum that has already been rounded; its `timeout` and clock; the debouncer's times; and the bumper trigger times. `Messages.Message.Age` takes the clock as whole milliseconds, so `int()` of the float age is not modelled.
- Orient: the older Orientation, Direction and Rotation helpers, `get_heading_from_degrees_old`, and display strings are not modelled. `get_color_for_direction` refers to an undefined name and is left out.
- DistanceSensors: pigpio, threads and the message-bus publishing are not modelled, and neither are enable, disable and stop. A missing configuration raises ValueError and is not modelled. `_last_read_time` is set at construction, while the source sets it when pigpio connects.
- DistanceSensors.Mean: the requires restricts the window to values in [0, 637.5], since only converted distances are ever appended.
- Globals: the module-level `gvars` global is the state of a `Registry` object.
- Util: `get_timestamp`, configuration import and export, `frange`, `list_methods`, `already_running` and the formatting helpers are I/O or reflection. They are not modelled.
- Util.ToBin: only the digit count and the binary alphabet are stated. Its value is stated by ToDecimalOfToBin.
- Util.Lower and Util.Upper map ASCII letters only.
- Strings are sequences of characters. Unicode case mapping beyond ASCII is not modelled.

## Findings

| source | as written | input that shows it | evidently intended | confidence | as-written member | corrected member |
|---|---|---|---|---|---|---|
| core/event.py:132-139 | `is_bumper` (Events.IsBumperAsWritten) tests numbers 10 to 19 and `is_infrared` (Events.IsInfraredAsWritten) 20 to 29 | BUMPER_PORT (number 111) is not a bumper; BATTERY_LOW (10) is | the bumper block (110-119) and the infrared block (120-129) | not executed | Events.BumperRangesAsWrittenMisclassify | Events.IsBumper |
| core/dequeue.py:110-117 | `item not in self._queue` asks a `Queue` object, which has no membership test | `put_as_set(7)` on an empty queue raises TypeError | membership in the backing sequence, adding only absent items | not executed | DeQueues.PutAsSetAsWrittenNeverAdds | DeQueues.PutAsSetIsSetLike |
| core/dequeue.py:65-69 | `self._queue.clear()` calls a method `Queue` does not have | any `clear()` raises AttributeError | emptying the queue | not executed | DeQueues.DeQueue.ClearAsWritten | DeQueues.DeQueue.Clear |
| core/subscriber.py:43-50 | the constructor never assigns `_closed`, which enable and close read | `enable()` on a new subscriber raises AttributeError | `_closed = False` at construction | not executed | Subscribers.FreshSubscriberEnableCloseRaise | Subscribers.Subscriber.Close |
| core/macros.py:214-217 | a callable statement reads `Event.LAMBDA`, which core/event.py does not define | `Statement('stmt-0', f, 100)` for a callable f raises AttributeError | a lambda statement with event LAMBDA | not executed | Macros.NewStatementAsWrittenRejectsCallables | Macros.NewStatement |
| core/globals.py:56-57 | a refused put raises `Globalerror`, an undefined name | `put('motor', 2)` after `put('motor', 1)` raises NameError | raising the module's `GlobalsError` | not executed | Globals.PutAsWrittenRaisesNameError | Globals.Registry.Put |
| core/stringbuilder.py:61-62 | `length()` returns `len()` of a StringIO | `length()` on any builder raises TypeError | the length of the text written | not executed | StringBuilders.StringBuilder.LengthAsWritten | StringBuilders.StringBuilder.Length |
| core/orient.py:118-125 | `round(degrees / 45 + 0.5)` adds a half to a rounding that is already to nearest, shifting each sector by half its width | 10 degrees gives NORTH_EAST | the nearest cardinal, NORTH for 10 degrees | not executed | Orient.HeadingAsWrittenShifted | Orient.HeadingSector |
