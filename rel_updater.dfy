/**
 * EvdevDemuxerRelUpdater: on every tick it posts the relative-axis state only if it is dirty,
 * then zeroes it, so each value is reported once (edge, one-shot semantics).
 */
module RelUpdater {
  import opened Events
  import opened AxisStates
  import opened Handlers

  /** One `update()` call on a state `s`. The snapshot is taken before the state is zeroed. */
  function RelTick(s: RelModel): (t: Ticked<RelModel>)
    ensures |t.posted| <= 1
    ensures t.posted != [] <==> s.dirty
    ensures t.posted != [] ==> t.posted == [RelPost(s.values)] && t.next == RelZero
    ensures t.posted == [] ==> t.next == s
    ensures !t.next.dirty
  {
    if s.dirty then Ticked(RelZero, [RelPost(s.values)]) else Ticked(s, [])
  }

  /** One step on a state `s`: an event given to the handler, or one `update()` call. */
  function RelAct(combine: RelCombineRule, s: RelModel, step: AxisStep): Ticked<RelModel>
  {
    match step
    case Apply(e) => Ticked(RelApply(combine, s, e), [])
    case Frame => RelTick(s)
  }

  /** A run of handled events and `update()` calls, from state `s`. */
  function RelRun(combine: RelCombineRule, s: RelModel, steps: seq<AxisStep>): (t: Ticked<RelModel>)
    ensures |t.posted| <= FrameCount(steps)
    ensures forall i :: 0 <= i < |t.posted| ==> t.posted[i].RelPost?
    decreases |steps|
  {
    if steps == [] then Ticked(s, [])
    else
      var first := RelAct(combine, s, steps[0]);
      var rest := RelRun(combine, first.next, steps[1..]);
      Ticked(rest.next, first.posted + rest.posted)
  }

  /** A state that is not dirty stays silent and unchanged on every further tick. */
  lemma {:induction false} IdleStaysIdle(combine: RelCombineRule, s: RelModel, n: nat)
    requires !s.dirty
    ensures RelRun(combine, s, Frames(n)) == Ticked(s, [])
  {
    if n > 0 {
      assert Frames(n)[1..] == Frames(n - 1);
      IdleStaysIdle(combine, s, n - 1);
    }
  }

  /** However many ticks follow, a state is posted at most once: exactly once if it was dirty. */
  lemma {:induction false} OneShot(combine: RelCombineRule, s: RelModel, n: nat)
    requires n > 0
    ensures RelRun(combine, s, Frames(n)) ==
            if s.dirty then Ticked(RelZero, [RelPost(s.values)]) else Ticked(s, [])
  {
    assert Frames(n)[1..] == Frames(n - 1);
    IdleStaysIdle(combine, RelTick(s).next, n - 1);
  }

  /** The codes the events `es` carry. */
  function CodesOf(es: seq<InputEvent>): set<int>
  {
    set i | 0 <= i < |es| :: es[i].code
  }

  lemma CodesOfCons(es: seq<InputEvent>)
    requires es != []
    ensures CodesOf(es) == {es[0].code} + CodesOf(es[1..])
  {
    forall c | c in CodesOf(es) ensures c in {es[0].code} + CodesOf(es[1..]) {
      var i :| 0 <= i < |es| && es[i].code == c;
      if i > 0 { assert es[1..][i - 1] == es[i]; }
    }
    forall c | c in CodesOf(es[1..]) ensures c in CodesOf(es) {
      var i :| 0 <= i < |es[1..]| && es[1..][i].code == c;
      assert es[i + 1] == es[1..][i];
    }
  }

  /** No event of `es` other than the `i`-th carries the `i`-th event's code. */
  predicate OnlyAt(es: seq<InputEvent>, i: int)
    requires 0 <= i < |es|
  {
    forall j :: 0 <= j < |es| && j != i ==> es[j].code != es[i].code
  }

  /**
   * Handling events without a tick posts nothing; the state then holds exactly the codes it held
   * before plus those of the events, and it is dirty if it was or if any event arrived. A held
   * code no event carries keeps its value, and a code not held that exactly one event carries
   * takes that event's value, whatever the combining rule.
   */
  lemma {:induction false} Window(combine: RelCombineRule, s: RelModel, es: seq<InputEvent>)
    ensures RelRun(combine, s, Applies(es)).posted == []
    ensures RelRun(combine, s, Applies(es)).next.values.Keys == s.values.Keys + CodesOf(es)
    ensures RelRun(combine, s, Applies(es)).next.dirty == (s.dirty || es != [])
    ensures forall c :: c in s.values && c !in CodesOf(es) ==>
              RelRun(combine, s, Applies(es)).next.values[c] == s.values[c]
    ensures forall i :: 0 <= i < |es| && es[i].code !in s.values && OnlyAt(es, i) ==>
              RelRun(combine, s, Applies(es)).next.values[es[i].code] == es[i].value
    decreases |es|
  {
    if es != [] {
      var s1 := RelApply(combine, s, es[0]);
      var rest := es[1..];
      assert Applies(es)[1..] == Applies(rest);
      Window(combine, s1, rest);
      CodesOfCons(es);
      var final := RelRun(combine, s, Applies(es)).next;
      assert final == RelRun(combine, s1, Applies(rest)).next;
      forall i | 0 <= i < |es| && es[i].code !in s.values && OnlyAt(es, i)
        ensures final.values[es[i].code] == es[i].value
      {
        if i == 0 {
          forall j | 0 <= j < |rest| ensures rest[j].code != es[0].code {
            assert rest[j] == es[j + 1];
          }
        } else {
          assert rest[i - 1] == es[i];
          assert es[i].code != es[0].code;
          assert OnlyAt(rest, i - 1) by {
            forall j | 0 <= j < |rest| && j != i - 1 ensures rest[j].code != rest[i - 1].code {
              assert rest[j] == es[j + 1];
            }
          }
        }
      }
    }
  }

  /** What a tick posts after a zeroing publish holds exactly the codes of the events handled since. */
  lemma FreshWindowPosted(combine: RelCombineRule, s: RelModel, es: seq<InputEvent>)
    requires es != []
    ensures var after := RelRun(combine, RelTick(s).next, Applies(es));
            RelTick(after.next).posted == [RelPost(after.next.values)] &&
            after.next.values.Keys == (if s.dirty then {} else s.values.Keys) + CodesOf(es)
  {
    Window(combine, RelTick(s).next, es);
  }

  /**
   * After a zeroing publish, events with distinct codes are each held, and so posted by the next
   * tick, with their own value: nothing carries over from before the zeroing.
   */
  lemma FreshWindowValues(combine: RelCombineRule, s: RelModel, es: seq<InputEvent>)
    requires s.dirty && forall i :: 0 <= i < |es| ==> OnlyAt(es, i)
    ensures forall i :: 0 <= i < |es| ==> es[i].code in RelRun(combine, RelTick(s).next, Applies(es)).next.values
    ensures forall i :: 0 <= i < |es| ==>
              RelRun(combine, RelTick(s).next, Applies(es)).next.values[es[i].code] == es[i].value
  {
    var start := RelTick(s).next;
    assert start.values == map[];
    Window(combine, start, es);
    forall i | 0 <= i < |es| ensures es[i].code in CodesOf(es) {
    }
  }

  /** The rel state holds a value exactly when it is dirty: nothing is held that will not be posted. */
  ghost predicate Consistent(s: RelModel)
  {
    s.dirty <==> s.values != map[]
  }

  /** Every run from a consistent state, such as a new one, ends in a consistent state. */
  lemma {:induction false} ConsistentPreserved(combine: RelCombineRule, s: RelModel, steps: seq<AxisStep>)
    requires Consistent(s)
    ensures Consistent(RelRun(combine, s, steps).next)
    decreases |steps|
  {
    if steps != [] {
      var first := RelAct(combine, s, steps[0]).next;
      if steps[0].Apply? {
        assert steps[0].event.code in first.values;
      }
      ConsistentPreserved(combine, first, steps[1..]);
    }
  }

  /** EvdevDemuxerRelUpdater. */
  class EvdevDemuxerRelUpdater {
    const eventBus: EventBus
    const relState: InputRelState
    const handler: Handler

    constructor (eventBus: EventBus, combine: RelCombineRule)
      ensures this.eventBus == eventBus && fresh(relState)
      ensures relState.Model() == RelZero && relState.combine == combine
      ensures handler == RelAggregate(relState)
    {
      this.eventBus := eventBus;
      var s := new InputRelState(combine);
      relState := s;
      handler := RelAggregate(s);
    }

    /** Posts the state if it is dirty, then zeroes it. */
    method Update()
      modifies eventBus, relState
      ensures relState.Model() == RelTick(old(relState.Model())).next
      ensures eventBus.posted == old(eventBus.posted) + RelTick(old(relState.Model())).posted
    {
      if relState.IsDirty() {
        eventBus.Post(RelPost(relState.values));
        relState.Zero();
      }
    }

    /** The handler built once by the constructor; its only effect is relState.update(event). */
    method GetHandler() returns (h: Handler)
      ensures h == handler
    {
      h := handler;
    }
  }
}
