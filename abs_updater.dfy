/**
 * EvdevDemuxerAbsUpdater: on every tick it posts the absolute-axis state while that state is
 * dirty or holds a nonzero value, then cleans it. Cleaning keeps the values, so an axis held
 * away from rest is reported on every tick (level semantics).
 */
module AbsUpdater {
  import opened Events
  import opened AxisStates
  import opened Handlers

  /** One `update()` call on a state `s`. */
  function AbsTick(s: AbsModel): (t: Ticked<AbsModel>)
    ensures |t.posted| <= 1
    ensures t.posted != [] <==> s.dirty || HasNonZero(s.values)
    ensures t.posted != [] ==> t.posted == [AbsPost(s.values)]
    ensures t.posted == [] ==> t.next == s
    ensures t.next.values == s.values && !t.next.dirty
  {
    if s.dirty || HasNonZero(s.values) then Ticked(AbsModel(s.values, false), [AbsPost(s.values)])
    else Ticked(s, [])
  }

  /** One step on a state `s`: an event given to the handler, or one `update()` call. */
  function AbsAct(marksDirty: AbsDirtyRule, s: AbsModel, step: AxisStep): Ticked<AbsModel>
  {
    match step
    case Apply(e) => Ticked(AbsApply(marksDirty, s, e), [])
    case Frame => AbsTick(s)
  }

  /** A run of handled events and `update()` calls, from state `s`. */
  function AbsRun(marksDirty: AbsDirtyRule, s: AbsModel, steps: seq<AxisStep>): (t: Ticked<AbsModel>)
    ensures |t.posted| <= FrameCount(steps)
    ensures forall i :: 0 <= i < |t.posted| ==> t.posted[i].AbsPost?
    decreases |steps|
  {
    if steps == [] then Ticked(s, [])
    else
      var first := AbsAct(marksDirty, s, steps[0]);
      var rest := AbsRun(marksDirty, first.next, steps[1..]);
      Ticked(rest.next, first.posted + rest.posted)
  }

  /** A state that is clean and all zero stays silent and unchanged on every further tick. */
  lemma {:induction false} QuietStaysQuiet(marksDirty: AbsDirtyRule, s: AbsModel, n: nat)
    requires !s.dirty && !HasNonZero(s.values)
    ensures AbsRun(marksDirty, s, Frames(n)) == Ticked(s, [])
  {
    if n > 0 {
      assert Frames(n)[1..] == Frames(n - 1);
      QuietStaysQuiet(marksDirty, s, n - 1);
    }
  }

  /** While some value is nonzero, each of `n` ticks posts the same values again. */
  lemma {:induction false} LevelHeld(marksDirty: AbsDirtyRule, s: AbsModel, n: nat)
    requires HasNonZero(s.values)
    ensures AbsRun(marksDirty, s, Frames(n)).posted == Repeat(AbsPost(s.values), n)
    ensures n > 0 ==> AbsRun(marksDirty, s, Frames(n)).next == AbsModel(s.values, false)
    decreases n
  {
    if n > 0 {
      assert Frames(n)[1..] == Frames(n - 1);
      LevelHeld(marksDirty, AbsModel(s.values, false), n - 1);
      assert Repeat(AbsPost(s.values), n) == [AbsPost(s.values)] + Repeat(AbsPost(s.values), n - 1);
    }
  }

  /** A dirty state whose values are all zero is posted once, then never again. */
  lemma {:induction false} DirtyZeroPostedOnce(marksDirty: AbsDirtyRule, s: AbsModel, n: nat)
    requires s.dirty && !HasNonZero(s.values) && n > 0
    ensures AbsRun(marksDirty, s, Frames(n)) == Ticked(AbsModel(s.values, false), [AbsPost(s.values)])
  {
    assert Frames(n)[1..] == Frames(n - 1);
    QuietStaysQuiet(marksDirty, AbsModel(s.values, false), n - 1);
  }

  /** A second event for the same code replaces the value the first one stored. */
  lemma LaterEventReplaces(marksDirty: AbsDirtyRule, s: AbsModel, e1: InputEvent, e2: InputEvent)
    requires e1.code == e2.code
    ensures AbsApply(marksDirty, AbsApply(marksDirty, s, e1), e2).values == AbsApply(marksDirty, s, e2).values
    ensures ValueOf(AbsApply(marksDirty, AbsApply(marksDirty, s, e1), e2).values, e2.code) == e2.value
  {
  }

  /** EvdevDemuxerAbsUpdater. */
  class EvdevDemuxerAbsUpdater {
    const eventBus: EventBus
    const absState: InputAbsState

    constructor (eventBus: EventBus, marksDirty: AbsDirtyRule)
      ensures this.eventBus == eventBus && fresh(absState)
      ensures absState.Model() == AbsInitial && absState.marksDirty == marksDirty
    {
      this.eventBus := eventBus;
      absState := new InputAbsState(marksDirty);
    }

    /** Posts the state if it is dirty or nonzero, then cleans it. */
    method Update()
      modifies eventBus, absState
      ensures absState.Model() == AbsTick(old(absState.Model())).next
      ensures eventBus.posted == old(eventBus.posted) + AbsTick(old(absState.Model())).posted
    {
      if absState.IsDirty() || absState.IsNonZero() {
        eventBus.Post(AbsPost(absState.values));
        absState.Clean();
      }
    }

    /** A handler whose only effect is absState.update(event). */
    method GetHandler() returns (h: Handler)
      ensures h == AbsAggregate(absState)
    {
      h := AbsAggregate(absState);
    }
  }
}
