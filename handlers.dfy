/**
 * Event handlers and the dispatch table InputEventHandlers. The table's code is not part of this
 * model; only registration under the all-codes wildcard, the one form the demuxer uses, is given.
 */
module Handlers {
  import opened Events
  import opened AxisStates

  /** The three handlers the demuxer builds: each captures the one object it acts on. */
  datatype Handler =
    | KeyForward(bus: EventBus)               // posts an InputKeyEvent wrapping the event
    | AbsAggregate(absState: InputAbsState)   // absState.update(event)
    | RelAggregate(relState: InputRelState)   // relState.update(event)

  /** The one object a handler changes. */
  function Target(h: Handler): set<object>
  {
    match h
    case KeyForward(bus) => {bus}
    case AbsAggregate(s) => {s}
    case RelAggregate(s) => {s}
  }

  /** What handling `e` with `h` did to `h`'s target, between the old state and now. */
  twostate predicate Handled(h: Handler, e: InputEvent)
    reads Target(h)
  {
    match h
    case KeyForward(bus) => bus.posted == old(bus.posted) + [KeyPost(e)]
    case AbsAggregate(s) => s.Model() == AbsApply(s.marksDirty, old(s.Model()), e)
    case RelAggregate(s) => s.Model() == RelApply(s.combine, old(s.Model()), e)
  }

  /** InputEventHandler.handleEvent. */
  method HandleWith(h: Handler, e: InputEvent)
    modifies Target(h)
    ensures Handled(h, e)
  {
    match h
    case KeyForward(bus) => bus.Post(KeyPost(e));
    case AbsAggregate(s) => s.Update(e);
    case RelAggregate(s) => s.Update(e);
  }

  /** InputEventHandlers: one handler per event type, registered for all of its codes. */
  class InputEventHandlers {
    var allCodes: map<int, Handler>

    constructor ()
      ensures allCodes == map[]
    {
      allCodes := map[];
    }

    /** registerHandler(evType, ALL_CODES, h). */
    method RegisterHandler(evType: int, h: Handler)
      modifies this
      ensures allCodes == old(allCodes)[evType := h]
    {
      allCodes := allCodes[evType := h];
    }

    /** The handler an event of type `evType` is given to, if any. */
    function HandlerFor(evType: int): (r: Option<Handler>)
      reads this
      ensures r.Some? <==> evType in allCodes
      ensures r.Some? ==> r.value == allCodes[evType]
    {
      if evType in allCodes then Some(allCodes[evType]) else None
    }

    /**
     * handleEvent(e): gives `e` to the handler registered for its type, once. An event of a type
     * with no handler changes nothing; what the library does then is not part of this model.
     */
    method HandleEvent(e: InputEvent) returns (dispatched: Option<Handler>)
      modifies if e.evType in allCodes then Target(allCodes[e.evType]) else {}
      ensures allCodes == old(allCodes)
      ensures dispatched == HandlerFor(e.evType)
      ensures dispatched.Some? ==> Handled(dispatched.value, e)
    {
      dispatched := HandlerFor(e.evType);
      if dispatched.Some? {
        HandleWith(dispatched.value, e);
      }
    }
  }
}
