/** Decoded input events, what is posted on the demuxer's event bus, and the bus itself. */
module Events {

  /** Event types, with the values of Linux's linux/input-event-codes.h. */
  const EV_KEY: int := 0x01
  const EV_REL: int := 0x02
  const EV_ABS: int := 0x03

  /** The axis codes the unit tests use. */
  const ABS_X: int := 0x00
  const REL_X: int := 0x00

  datatype Option<T> = None | Some(value: T)

  /** A decoded input event: its type, its code within that type and its signed value. */
  datatype InputEvent = InputEvent(evType: int, code: int, value: int)

  /**
   * An object posted on the bus, as its subscribers see it. The bus delivers synchronously
   * inside `post`, so what a subscriber reads is the poster's state at the moment of posting.
   */
  datatype Posted =
    | KeyPost(key: InputEvent)           // an InputKeyEvent wrapping the event
    | AbsPost(absValues: map<int, int>)  // the InputAbsState's values
    | RelPost(relValues: map<int, int>)  // the InputRelState's values

  /** The new state of an aggregator after some steps, and what those steps posted, in order. */
  datatype Ticked<S> = Ticked(next: S, posted: seq<Posted>)

  /** One step seen by an aggregator: an event given to its handler, or one `update()` call. */
  datatype AxisStep = Apply(event: InputEvent) | Frame

  /** `n` consecutive `update()` calls with no event in between. */
  function Frames(n: nat): (r: seq<AxisStep>)
    ensures |r| == n
    ensures forall i :: 0 <= i < n ==> r[i] == Frame
  {
    if n == 0 then [] else [Frame] + Frames(n - 1)
  }

  /** The events of `es`, each handed to the handler, with no `update()` in between. */
  function Applies(es: seq<InputEvent>): (r: seq<AxisStep>)
    ensures |r| == |es|
    ensures forall i :: 0 <= i < |es| ==> r[i] == Apply(es[i])
  {
    if es == [] then [] else [Apply(es[0])] + Applies(es[1..])
  }

  /** The number of `update()` calls among `steps`. */
  function FrameCount(steps: seq<AxisStep>): nat
  {
    if steps == [] then 0 else (if steps[0].Frame? then 1 else 0) + FrameCount(steps[1..])
  }

  /** `n` copies of `p`. */
  function Repeat(p: Posted, n: nat): (r: seq<Posted>)
    ensures |r| == n
    ensures forall i :: 0 <= i < n ==> r[i] == p
  {
    if n == 0 then [] else [p] + Repeat(p, n - 1)
  }

  /** The event bus: everything posted on it, in posting order. */
  class EventBus {
    var posted: seq<Posted>

    constructor ()
      ensures posted == []
    {
      posted := [];
    }

    method Post(p: Posted)
      modifies this
      ensures posted == old(posted) + [p]
    {
      posted := posted + [p];
    }
  }
}
