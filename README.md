# Evdev demuxer: routing and the two axis updaters

This project models the core of the evdev demuxer activity. The activity takes a stream of
decoded Linux input events and splits it into three output lanes, each with its own policy:

- **Key events** (`EV_KEY`) are forwarded at once, one output per event, with no aggregation.
- **Absolute-axis events** (`EV_ABS`) go to `EvdevDemuxerAbsUpdater`. Its state stores the last
  value per code and a dirty mark. On every tick, `update()` posts the state if it is dirty or
  holds any nonzero value, then cleans it. Cleaning clears the mark but keeps the values, so an
  axis held away from rest is reported on every tick (level semantics).
- **Relative-axis events** (`EV_REL`) go to `EvdevDemuxerRelUpdater`. On every tick, `update()`
  posts the state only if it is dirty, then zeroes it, so each value is reported once (edge
  semantics).

Every object posted on the activity's event bus reaches the activity's subscriber, which sends it
on the channel of its lane. The "key" channel carries the event. The "abs" channel carries only
the nonzero entries. The "rel" channel carries the dirty entries.

## Structure

- `events.dfy` (`Events`): the event record, the event-type constants (Linux's
  `linux/input-event-codes.h` values), what can be posted on the bus, and the `EventBus` class.
  The bus records everything posted, in order.
- `axis_states.dfy` (`AxisStates`): the support library's `InputAbsState` and `InputRelState`.
  Each is a class holding a `map<int, int>` and a `dirty` flag, with the abstract value functions
  `AbsApply` / `RelApply` that their `Update` methods are proved against.
- `handlers.dfy` (`Handlers`): the three handlers, as a datatype holding the one object each
  handler acts on, and the dispatch table `InputEventHandlers`.
- `abs_updater.dfy` (`AbsUpdater`), `rel_updater.dfy` (`RelUpdater`): the updater classes. Each
  has a pure tick function (`AbsTick`, `RelTick`) and a run function over a sequence of events
  and ticks (`AbsRun`, `RelRun`). The lemmas about multi-tick behaviour are stated over the run
  functions.
- `activity.dfy` (`Activity`): the activity class, which is built by `OnActivitySetup`. It also
  holds the per-lane output selection (`Deliver`), a whole-demuxer step function (`DemuxStep`,
  `DemuxRun`) that the activity's methods are proved against, and the lemmas that keep the lanes
  apart.
- `scenarios.dfy` (`Scenarios`): the updaters' unit tests replayed on the model, plus one
  end-to-end run of the activity.

### What the support library's unseen parts become

The code of `InputAbsState`, `InputRelState` and `InputEventHandlers` is not part of this model.
Where the demuxer and its tests do not pin their behaviour down, the model takes a parameter
instead of making a claim:

- `marksDirty` (`AbsDirtyRule`) decides whether an abs event marks the state dirty. It is given
  the values held before the event. Whatever the rule, the event's value replaces the one held
  for its code, and an event never clears the mark.
- `combine` (`RelCombineRule`) decides how a REL event for a code that is already held combines
  with the held value: replacement, accumulation or anything else. A code that is not yet held
  takes the event's value, and the state becomes dirty. The tests at
  `TestEvdevDemuxerRelUpdater.java:98-117` need both of these.
- The rel state's map holds exactly the codes updated since the last `zero()`. Those are its
  dirty entries, which `getDirtyAsJsonBuilder` sends on the "rel" channel.
- The dispatch table holds one handler per event type, registered for all codes. An event whose
  type has no handler changes nothing in the model, and `HandleEvent` reports `None`. This is a
  modelling choice, not a proved property of the library.

Every lemma and scenario holds for every choice of `marksDirty` and `combine`.

## Model

| member | source | states |
|---|---|---|
| Events.EventBus.constructor | src/main/java/com/endpoint/lg/evdev/demuxer/EvdevDemuxerActivity.java:97 | a new bus has nothing posted on it |
| Events.EventBus.Post | src/main/java/com/endpoint/lg/evdev/demuxer/EvdevDemuxerAbsUpdater.java:49 | post(p): the bus's record grows by exactly p, at its end; every earlier post is kept in order |
| AxisStates.AbsApply | src/main/test/com/endpoint/lg/evdev/demuxer/TestEvdevDemuxerAbsUpdater.java:133-139 | abs update(event): afterwards the event's code reports the event's value (replacement, not addition); every other code keeps its value; the key set grows by the code; a dirty state stays dirty |
| AxisStates.RelApply | src/main/java/com/endpoint/lg/evdev/demuxer/EvdevDemuxerRelUpdater.java:43-47 | rel update(event): the state is dirty afterwards; the key set grows by exactly the event's code; a code not held before takes the event's value; every other held value is unchanged |
| AxisStates.NonZero | src/main/java/com/endpoint/lg/evdev/demuxer/EvdevDemuxerActivity.java:80 | the abs lane's payload: exactly the entries with a nonzero value, each with its value; it is empty iff the state has no nonzero value |
| AxisStates.InputAbsState.constructor | src/main/java/com/endpoint/lg/evdev/demuxer/EvdevDemuxerAbsUpdater.java:40 | a new abs state holds no value and is clean, with the given dirty rule |
| AxisStates.InputAbsState.IsDirty | src/main/java/com/endpoint/lg/evdev/demuxer/EvdevDemuxerAbsUpdater.java:48 | isDirty() reports the state's dirty mark |
| AxisStates.InputAbsState.IsNonZero | src/main/java/com/endpoint/lg/evdev/demuxer/EvdevDemuxerAbsUpdater.java:48 | isNonZero() holds iff some code reports a nonzero value, which is exactly when the abs payload is not empty |
| AxisStates.InputAbsState.Update | src/main/java/com/endpoint/lg/evdev/demuxer/EvdevDemuxerAbsUpdater.java:60 | the state object's new value is AbsApply of its old value |
| AxisStates.InputAbsState.Clean | src/main/java/com/endpoint/lg/evdev/demuxer/EvdevDemuxerAbsUpdater.java:50 | clean(): dirty becomes false and every value is kept |
| AxisStates.InputRelState.constructor | src/main/java/com/endpoint/lg/evdev/demuxer/EvdevDemuxerRelUpdater.java:41 | a new rel state holds no value and is clean (the zero state), with the given combining rule |
| AxisStates.InputRelState.IsDirty | src/main/java/com/endpoint/lg/evdev/demuxer/EvdevDemuxerRelUpdater.java:57 | isDirty() reports the state's dirty mark |
| AxisStates.InputRelState.Update | src/main/java/com/endpoint/lg/evdev/demuxer/EvdevDemuxerRelUpdater.java:45 | the state object's new value is RelApply of its old value |
| AxisStates.InputRelState.Zero | src/main/java/com/endpoint/lg/evdev/demuxer/EvdevDemuxerRelUpdater.java:59 | zero(): no value is held and dirty is false |
| AbsUpdater.AbsTick | src/main/java/com/endpoint/lg/evdev/demuxer/EvdevDemuxerAbsUpdater.java:47-52 | one update(): posts iff the state is dirty or has a nonzero value; posts at most one snapshot, namely the values before cleaning; afterwards dirty is false and the values are unchanged; when nothing is posted the state is unchanged |
| AbsUpdater.AbsRun | src/main/java/com/endpoint/lg/evdev/demuxer/EvdevDemuxerAbsUpdater.java:47-63 | over any run of events and ticks, at most one snapshot is posted per tick, none per handled event, and every posted object is an abs snapshot |
| AbsUpdater.QuietStaysQuiet | src/main/java/com/endpoint/lg/evdev/demuxer/EvdevDemuxerAbsUpdater.java:48 | once the state is clean and all zero, any number of further ticks posts nothing and leaves it unchanged |
| AbsUpdater.LevelHeld | src/main/test/com/endpoint/lg/evdev/demuxer/TestEvdevDemuxerAbsUpdater.java:120-131 | while some value is nonzero, each of n ticks posts the same values again, and the state ends clean with the same values |
| AbsUpdater.DirtyZeroPostedOnce | src/main/java/com/endpoint/lg/evdev/demuxer/EvdevDemuxerAbsUpdater.java:48-51 | a dirty state with only zero values is posted by the first tick and never again |
| AbsUpdater.LaterEventReplaces | src/main/test/com/endpoint/lg/evdev/demuxer/TestEvdevDemuxerAbsUpdater.java:133-139 | a second event for the same code leaves the values as if only the second had arrived |
| AbsUpdater.EvdevDemuxerAbsUpdater.constructor | src/main/java/com/endpoint/lg/evdev/demuxer/EvdevDemuxerAbsUpdater.java:37-41 | the updater posts on the given bus and owns a new, empty, clean abs state |
| AbsUpdater.EvdevDemuxerAbsUpdater.Update | src/main/java/com/endpoint/lg/evdev/demuxer/EvdevDemuxerAbsUpdater.java:47-52 | the state becomes AbsTick's next state and the bus gains exactly AbsTick's posts; nothing else changes |
| AbsUpdater.EvdevDemuxerAbsUpdater.GetHandler | src/main/java/com/endpoint/lg/evdev/demuxer/EvdevDemuxerAbsUpdater.java:57-63 | the handler acts on this updater's abs state and on nothing else |
| RelUpdater.RelTick | src/main/java/com/endpoint/lg/evdev/demuxer/EvdevDemuxerRelUpdater.java:56-61 | one update(): posts iff the state is dirty; the snapshot is the values before zeroing; after a post the state is zero; otherwise it is unchanged; dirty is always false afterwards |
| RelUpdater.RelRun | src/main/java/com/endpoint/lg/evdev/demuxer/EvdevDemuxerRelUpdater.java:56-61 | over any run of events and ticks, at most one snapshot is posted per tick, and every posted object is a rel snapshot |
| RelUpdater.IdleStaysIdle | src/main/java/com/endpoint/lg/evdev/demuxer/EvdevDemuxerRelUpdater.java:57 | a clean state stays silent and unchanged for any number of ticks |
| RelUpdater.OneShot | src/main/test/com/endpoint/lg/evdev/demuxer/test/TestEvdevDemuxerRelUpdater.java:98-109 | n ≥ 1 ticks with no event in between post the state exactly once if it was dirty and never otherwise, then leave it zero |
| RelUpdater.Window | src/main/java/com/endpoint/lg/evdev/demuxer/EvdevDemuxerRelUpdater.java:43-47 | handling events without a tick posts nothing; the held codes become the old ones plus the events' codes; the state is dirty iff it was or some event arrived; a held code no event carries keeps its value; a code not held that exactly one event carries takes that event's value |
| RelUpdater.FreshWindowPosted | src/main/test/com/endpoint/lg/evdev/demuxer/test/TestEvdevDemuxerRelUpdater.java:111-117 | after a tick, the next non-empty batch of events is posted by the following tick, holding only codes not zeroed away; after a zeroing tick, exactly the new events' codes |
| RelUpdater.FreshWindowValues | src/main/test/com/endpoint/lg/evdev/demuxer/test/TestEvdevDemuxerRelUpdater.java:111-117 | after a zeroing tick, every event's code is held, and when the codes are distinct each is held, and so posted, with its own event's value: nothing carries over |
| RelUpdater.ConsistentPreserved | src/main/java/com/endpoint/lg/evdev/demuxer/EvdevDemuxerRelUpdater.java:56-61 | the invariant "a value is held iff the state is dirty" holds after every run from a state that has it, including a new one |
| RelUpdater.EvdevDemuxerRelUpdater.constructor | src/main/java/com/endpoint/lg/evdev/demuxer/EvdevDemuxerRelUpdater.java:38-48 | posts on the given bus; owns a new zero state; the handler is built once and acts on that state |
| RelUpdater.EvdevDemuxerRelUpdater.Update | src/main/java/com/endpoint/lg/evdev/demuxer/EvdevDemuxerRelUpdater.java:56-61 | the state becomes RelTick's next state and the bus gains exactly RelTick's posts |
| RelUpdater.EvdevDemuxerRelUpdater.GetHandler | src/main/java/com/endpoint/lg/evdev/demuxer/EvdevDemuxerRelUpdater.java:66-68 | always returns the handler built by the constructor |
| Handlers.HandleWith | src/main/java/com/endpoint/lg/evdev/demuxer/EvdevDemuxerActivity.java:114-125 | the key handler posts exactly one key event wrapping its input; the abs and rel handlers apply the event to their state; each changes only its own target |
| Handlers.InputEventHandlers.constructor | src/main/java/com/endpoint/lg/evdev/demuxer/EvdevDemuxerActivity.java:112 | a new table has no handler registered |
| Handlers.InputEventHandlers.RegisterHandler | src/main/java/com/endpoint/lg/evdev/demuxer/EvdevDemuxerActivity.java:114 | registering sets the all-codes handler of that type and changes no other entry |
| Handlers.InputEventHandlers.HandlerFor | src/main/java/com/endpoint/lg/evdev/demuxer/EvdevDemuxerActivity.java:56 | an event is given to a handler iff its type has one, and then to that type's handler |
| Handlers.InputEventHandlers.HandleEvent | src/main/java/com/endpoint/lg/evdev/demuxer/EvdevDemuxerActivity.java:56 | one dispatch: exactly the handler for the event's type runs, once, and only its target changes |
| Activity.Deliver | src/main/java/com/endpoint/lg/evdev/demuxer/EvdevDemuxerActivity.java:65-93 | a key event goes out on "key" verbatim; an abs snapshot goes out on "abs" with exactly its nonzero entries; a rel snapshot goes out on "rel" with its dirty entries |
| Activity.Sent | src/main/java/com/endpoint/lg/evdev/demuxer/EvdevDemuxerActivity.java:65-93 | one output per posted object, in posting order, each being the delivery of that object |
| Activity.DemuxStep | src/main/java/com/endpoint/lg/evdev/demuxer/EvdevDemuxerActivity.java:114-125 | one step of the wired activity: the bus only grows; a KEY event posts exactly its key event and any other event posts nothing; an event of an unrouted type changes nothing; only an ABS event or an abs frame changes the abs state, only a REL event or a rel frame the rel state; a frame posts exactly its updater's tick |
| Activity.DemuxRun | src/main/java/com/endpoint/lg/evdev/demuxer/EvdevDemuxerActivity.java:53-57 | a run of steps keeps everything posted before and adds at most one object per step |
| Activity.KeysForwardedInOrder | src/main/java/com/endpoint/lg/evdev/demuxer/EvdevDemuxerActivity.java:114-119 | over any run, the key events posted are exactly the key events received, each once, in arrival order |
| Activity.AbsLaneStep | src/main/java/com/endpoint/lg/evdev/demuxer/EvdevDemuxerActivity.java:114-125 | one activity step changes the abs state and the abs snapshots exactly as the abs updater's view of that step: an ABS event or an abs frame |
| Activity.RelLaneStep | src/main/java/com/endpoint/lg/evdev/demuxer/EvdevDemuxerActivity.java:114-125 | one activity step changes the rel state and the rel snapshots exactly as the rel updater's view of that step |
| Activity.AbsLaneIsolated | src/main/java/com/endpoint/lg/evdev/demuxer/EvdevDemuxerActivity.java:121-122 | after any run, the abs state and abs posts are those of the abs updater run only on the ABS events and abs frames; key and REL events never reach it |
| Activity.RelLaneIsolated | src/main/java/com/endpoint/lg/evdev/demuxer/EvdevDemuxerActivity.java:124-125 | after any run, the rel state and rel posts are those of the rel updater run only on the REL events and rel frames |
| Activity.EvdevDemuxerActivity.OnActivitySetup | src/main/java/com/endpoint/lg/evdev/demuxer/EvdevDemuxerActivity.java:95-126 | one shared bus, two new updaters on it, and the table mapping KEY, ABS and REL to the key, abs and rel handlers; both states start empty and clean and nothing has been posted |
| Activity.EvdevDemuxerActivity.OnNewInputJson | src/main/java/com/endpoint/lg/evdev/demuxer/EvdevDemuxerActivity.java:53-57 | one inbound event causes exactly one dispatch, for KEY, ABS and REL to that type's registered handler; the new state is DemuxStep of the old one |
| Activity.EvdevDemuxerActivity.AbsLoopFrame | src/main/java/com/endpoint/lg/evdev/demuxer/EvdevDemuxerActivity.java:100-104 | one frame of the abs loop is one abs update(); the rel state is not touched |
| Activity.EvdevDemuxerActivity.RelLoopFrame | src/main/java/com/endpoint/lg/evdev/demuxer/EvdevDemuxerActivity.java:106-110 | one frame of the rel loop is one rel update(); the abs state is not touched |
| Scenarios.Flush | src/main/test/com/endpoint/lg/evdev/demuxer/TestEvdevDemuxerAbsUpdater.java:70-74 | the mock bus returns an object iff something was posted since the last flush |
| Scenarios.AbsCleanUpdate | src/main/test/com/endpoint/lg/evdev/demuxer/TestEvdevDemuxerAbsUpdater.java:95-106 | a new abs updater posts nothing on update() |
| Scenarios.AbsDirtyUpdates | src/main/test/com/endpoint/lg/evdev/demuxer/TestEvdevDemuxerAbsUpdater.java:111-140 | event 12, then update, update, event 21, update: the posts are {X:12}, {X:12}, {X:21} |
| Scenarios.RelCleanUpdate | src/main/test/com/endpoint/lg/evdev/demuxer/test/TestEvdevDemuxerRelUpdater.java:73-84 | a new rel updater posts nothing on update() |
| Scenarios.RelDirtyUpdates | src/main/test/com/endpoint/lg/evdev/demuxer/test/TestEvdevDemuxerRelUpdater.java:89-118 | event 12, then update, update, event 21, update: the flushes are {X:12}, nothing, {X:21} |
| Scenarios.ActivityLanes | src/main/java/com/endpoint/lg/evdev/demuxer/EvdevDemuxerActivity.java:53-126 | through the whole activity, one event of each type and one frame of each loop send, in order, the key event on "key", the abs value on "abs" and the rel value on "rel" |

## Left out

- JSON decoding of the inbound message (`JsonNavigator`, `new InputEvent(json)`) and JSON
  encoding of the outputs (`serialize`, `getNonZeroAsJsonBuilder`, `getDirtyAsJsonBuilder`,
  `getJsonBuilder`) are not modelled. These are serialisation calls into the support library.
  The model receives decoded events and sends structured outputs.
- `sendOutputJsonBuilder`, the routed channels, logging, and the activity life cycle apart from
  `onActivitySetup` are not modelled. They are I/O. Output is a sequence of messages tagged
  "key", "abs" or "rel".
- `UpdateableLoop`, `getManagedCommands().submit`, and the timer threads that run ticks
  alongside ingestion are not modelled. They are concurrency. One tick is an explicit call
  (`AbsLoopFrame`, `RelLoopFrame`), and calls are sequential.
- `REFRESH_RATE` (a `double`) only sets the tick period, and the model has no time.
- Guava `EventBus` semantics are reduced to a sequence. Subscriber lookup by class and
  dead-event handling are left out. Delivery is synchronous inside `post`, so a post is recorded
  as a snapshot of the state at posting time. The mock bus in the tests copies the state on
  delivery, to the same effect. The model does not capture aliasing: a subscriber that kept the
  posted state object would see later changes to it.
- The inside of `InputAbsState`, `InputRelState` and `InputKeyEvent` is not modelled. The abs
  dirty rule and the rel combining rule are parameters (see above). Two things are therefore
  not claimed: that REL values accumulate within a tick, and that an abs event repeating the
  held value leaves the state clean. An `InputKeyEvent` is modelled as the event it wraps.
- `InputEventHandlers` registration is modelled only for the `ALL_CODES` wildcard. Exact-code
  registration and its precedence over the wildcard are left out because the demuxer never uses
  them. The value of `ALL_CODES` is also left out.
- Handlers.InputEventHandlers.HandleEvent: for an event whose type has no handler, the model
  changes nothing. That the library drops such events is an assumption, not a proved property.
- Activity.DemuxStep: an event of a type other than KEY, ABS and REL (`Routed` is false) changes
  nothing, by the same assumption. `KeysForwardedInOrder`, `AbsLaneIsolated` and
  `RelLaneIsolated` hold for runs that contain such events only because of it.
- Event values use unbounded integers, not Java's 32-bit `int`. The only arithmetic on values
  is inside the library's rel combining rule, which is a parameter.
- The scenario where REL events 21 and -21 in one tick are posted as 0 depends on
  accumulation, so it is not proved. The scenario where an abs value returns to zero and is
  posted once depends on the dirty rule, so it is proved only conditionally: see
  `AbsUpdater.DirtyZeroPostedOnce`, which assumes the state is dirty.
