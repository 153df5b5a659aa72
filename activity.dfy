/**
 * EvdevDemuxerActivity: the routing that feeds the two updaters. Setup registers one all-codes
 * handler per event type: key events are posted at once as key events, absolute-axis events go to
 * the abs updater's state and relative-axis events to the rel updater's state. Every object posted
 * on the bus is sent on the output channel of its lane.
 */
module Activity {
  import opened Events
  import opened AxisStates
  import opened Handlers
  import opened AbsUpdater
  import opened RelUpdater

  /** The body of one output message. */
  datatype Body = KeyBody(event: InputEvent) | AxisBody(entries: map<int, int>)

  /** One message sent on an output channel ("key", "abs" or "rel"). */
  datatype Output = Output(channel: string, body: Body)

  /**
   * The activity's subscriber for one posted object: onKeyUpdate sends the key event, onAbsUpdate
   * the nonzero entries of the abs state and onRelUpdate the dirty entries of the rel state, which
   * are the entries it holds (its map keeps only codes updated since the last zero()).
   */
  function Deliver(p: Posted): (o: Output)
    ensures o.channel == match p case KeyPost(_) => "key" case AbsPost(_) => "abs" case RelPost(_) => "rel"
    ensures p.KeyPost? ==> o.body == KeyBody(p.key)
    ensures p.AbsPost? ==> o.body.AxisBody?
    ensures p.AbsPost? ==> forall code :: code in o.body.entries <==> code in p.absValues && p.absValues[code] != 0
    ensures p.AbsPost? ==> forall code :: code in o.body.entries ==> o.body.entries[code] == p.absValues[code]
    ensures p.RelPost? ==> o.body == AxisBody(p.relValues)
  {
    match p
    case KeyPost(e) => Output("key", KeyBody(e))
    case AbsPost(values) => Output("abs", AxisBody(NonZero(values)))
    case RelPost(values) => Output("rel", AxisBody(values))
  }

  /** Everything the activity sends for the objects posted on its bus, in posting order. */
  function Sent(posted: seq<Posted>): (r: seq<Output>)
    ensures |r| == |posted|
    ensures forall i :: 0 <= i < |posted| ==> r[i] == Deliver(posted[i])
  {
    if posted == [] then [] else [Deliver(posted[0])] + Sent(posted[1..])
  }

  /** One thing that happens to the activity: an inbound event, or one frame of either loop. */
  datatype Step = Receive(event: InputEvent) | AbsFrame | RelFrame

  /** The activity's whole state: both aggregate states and what has been posted on its bus. */
  datatype DemuxModel = DemuxModel(abs: AbsModel, rel: RelModel, posted: seq<Posted>)

  const DemuxInitial: DemuxModel := DemuxModel(AbsInitial, RelZero, [])

  /** The event types onActivitySetup registers a handler for. */
  predicate Routed(e: InputEvent)
  {
    e.evType == EV_KEY || e.evType == EV_ABS || e.evType == EV_REL
  }

  /**
   * The lanes, as onActivitySetup wires them: each event type changes only its own lane. An event
   * of a type that is not routed changes nothing, which is what the model assumes of the library.
   */
  function DemuxStep(marksDirty: AbsDirtyRule, combine: RelCombineRule, m: DemuxModel, step: Step): (r: DemuxModel)
    ensures m.posted <= r.posted
    ensures step.Receive? ==> r.posted == m.posted + (if step.event.evType == EV_KEY then [KeyPost(step.event)] else [])
    ensures step.Receive? && !Routed(step.event) ==> r == m
    ensures !(step == AbsFrame || (step.Receive? && step.event.evType == EV_ABS)) ==> r.abs == m.abs
    ensures !(step == RelFrame || (step.Receive? && step.event.evType == EV_REL)) ==> r.rel == m.rel
    ensures step == AbsFrame ==> r.posted == m.posted + AbsTick(m.abs).posted
    ensures step == RelFrame ==> r.posted == m.posted + RelTick(m.rel).posted
  {
    match step
    case Receive(e) =>
      if e.evType == EV_KEY then m.(posted := m.posted + [KeyPost(e)])
      else if e.evType == EV_ABS then m.(abs := AbsApply(marksDirty, m.abs, e))
      else if e.evType == EV_REL then m.(rel := RelApply(combine, m.rel, e))
      else m
    case AbsFrame =>
      var t := AbsTick(m.abs);
      m.(abs := t.next, posted := m.posted + t.posted)
    case RelFrame =>
      var t := RelTick(m.rel);
      m.(rel := t.next, posted := m.posted + t.posted)
  }

  /** A run of steps: the bus only grows, by at most one object per step. */
  function DemuxRun(marksDirty: AbsDirtyRule, combine: RelCombineRule, m: DemuxModel, steps: seq<Step>): (r: DemuxModel)
    ensures m.posted <= r.posted
    ensures |r.posted| <= |m.posted| + |steps|
    decreases |steps|
  {
    if steps == [] then m else DemuxRun(marksDirty, combine, DemuxStep(marksDirty, combine, m, steps[0]), steps[1..])
  }

  /** The elements of `s` that `pick` selects, each as `pick` maps it, in order. */
  function Select<T, U>(pick: T -> Option<U>, s: seq<T>): seq<U>
    decreases |s|
  {
    if s == [] then []
    else (if pick(s[0]).Some? then [pick(s[0]).value] else []) + Select(pick, s[1..])
  }

  function KeyOf(p: Posted): Option<InputEvent>
  {
    if p.KeyPost? then Some(p.key) else None
  }

  function AbsOf(p: Posted): Option<Posted>
  {
    if p.AbsPost? then Some(p) else None
  }

  function RelOf(p: Posted): Option<Posted>
  {
    if p.RelPost? then Some(p) else None
  }

  /** The key events among `posted`, in order. */
  function KeysPosted(posted: seq<Posted>): seq<InputEvent>
  {
    Select(KeyOf, posted)
  }

  /** The inbound key events among `steps`, in order. */
  function KeysReceived(steps: seq<Step>): seq<InputEvent>
  {
    if steps == [] then []
    else (if steps[0].Receive? && steps[0].event.evType == EV_KEY then [steps[0].event] else [])
         + KeysReceived(steps[1..])
  }

  /** The abs (resp. rel) snapshots among `posted`, in order. */
  function AbsPosted(posted: seq<Posted>): seq<Posted>
  {
    Select(AbsOf, posted)
  }

  function RelPosted(posted: seq<Posted>): seq<Posted>
  {
    Select(RelOf, posted)
  }

  /** What the abs updater sees of one step: an ABS event, or its own frame. */
  function AbsView(step: Step): seq<AxisStep>
  {
    match step
    case Receive(e) => if e.evType == EV_ABS then [Apply(e)] else []
    case AbsFrame => [Frame]
    case RelFrame => []
  }

  /** What the rel updater sees of one step: a REL event, or its own frame. */
  function RelView(step: Step): seq<AxisStep>
  {
    match step
    case Receive(e) => if e.evType == EV_REL then [Apply(e)] else []
    case AbsFrame => []
    case RelFrame => [Frame]
  }

  function AbsSteps(steps: seq<Step>): seq<AxisStep>
  {
    if steps == [] then [] else AbsView(steps[0]) + AbsSteps(steps[1..])
  }

  function RelSteps(steps: seq<Step>): seq<AxisStep>
  {
    if steps == [] then [] else RelView(steps[0]) + RelSteps(steps[1..])
  }

  /** Selecting from `a + b` is selecting from `a`, then from `b`. */
  lemma {:induction false} SelectAppend<T, U>(pick: T -> Option<U>, a: seq<T>, b: seq<T>)
    ensures Select(pick, a + b) == Select(pick, a) + Select(pick, b)
    decreases |a|
  {
    if a == [] {
      assert a + b == b;
    } else {
      var head := if pick(a[0]).Some? then [pick(a[0]).value] else [];
      assert (a + b)[0] == a[0];
      assert (a + b)[1..] == a[1..] + b;
      assert Select(pick, a + b) == head + Select(pick, a[1..] + b);
      SelectAppend(pick, a[1..], b);
      assert head + (Select(pick, a[1..]) + Select(pick, b)) == (head + Select(pick, a[1..])) + Select(pick, b);
    }
  }

  /**
   * Every inbound key event is posted exactly once, in arrival order, with nothing in between
   * from the key lane: the key events posted by a run are exactly the key events it received.
   * Events of an unrouted type may occur in the run; DemuxStep drops them (see Routed).
   */
  lemma {:induction false} KeysForwardedInOrder(marksDirty: AbsDirtyRule, combine: RelCombineRule, m: DemuxModel, steps: seq<Step>)
    ensures KeysPosted(DemuxRun(marksDirty, combine, m, steps).posted) == KeysPosted(m.posted) + KeysReceived(steps)
    decreases |steps|
  {
    if steps != [] {
      var m1 := DemuxStep(marksDirty, combine, m, steps[0]);
      KeysForwardedInOrder(marksDirty, combine, m1, steps[1..]);
      match steps[0]
      case Receive(e) =>
        if e.evType == EV_KEY {
          SelectAppend(KeyOf, m.posted, [KeyPost(e)]);
        }
      case AbsFrame =>
        SelectAppend(KeyOf, m.posted, AbsTick(m.abs).posted);
      case RelFrame =>
        SelectAppend(KeyOf, m.posted, RelTick(m.rel).posted);
    }
  }

  /** Running the abs updater on `a` and then on `b` is running it on `a + b`. */
  lemma {:induction false} AbsRunAppend(marksDirty: AbsDirtyRule, s: AbsModel, a: seq<AxisStep>, b: seq<AxisStep>)
    ensures var r1 := AbsRun(marksDirty, s, a);
            var r2 := AbsRun(marksDirty, r1.next, b);
            AbsRun(marksDirty, s, a + b) == Ticked(r2.next, r1.posted + r2.posted)
    decreases |a|
  {
    if a == [] {
      assert a + b == b;
    } else {
      assert (a + b)[0] == a[0];
      assert (a + b)[1..] == a[1..] + b;
      var first := AbsAct(marksDirty, s, a[0]);
      AbsRunAppend(marksDirty, first.next, a[1..], b);
      var r1 := AbsRun(marksDirty, first.next, a[1..]);
      var r2 := AbsRun(marksDirty, r1.next, b);
      assert first.posted + (r1.posted + r2.posted) == (first.posted + r1.posted) + r2.posted;
    }
  }

  lemma {:induction false} RelRunAppend(combine: RelCombineRule, s: RelModel, a: seq<AxisStep>, b: seq<AxisStep>)
    ensures var r1 := RelRun(combine, s, a);
            var r2 := RelRun(combine, r1.next, b);
            RelRun(combine, s, a + b) == Ticked(r2.next, r1.posted + r2.posted)
    decreases |a|
  {
    if a == [] {
      assert a + b == b;
    } else {
      assert (a + b)[0] == a[0];
      assert (a + b)[1..] == a[1..] + b;
      var first := RelAct(combine, s, a[0]);
      RelRunAppend(combine, first.next, a[1..], b);
      var r1 := RelRun(combine, first.next, a[1..]);
      var r2 := RelRun(combine, r1.next, b);
      assert first.posted + (r1.posted + r2.posted) == (first.posted + r1.posted) + r2.posted;
    }
  }

  /** One step changes the abs lane exactly as the abs updater's view of that step does. */
  lemma AbsLaneStep(marksDirty: AbsDirtyRule, combine: RelCombineRule, m: DemuxModel, step: Step)
    ensures DemuxStep(marksDirty, combine, m, step).abs == AbsRun(marksDirty, m.abs, AbsView(step)).next
    ensures AbsPosted(DemuxStep(marksDirty, combine, m, step).posted)
         == AbsPosted(m.posted) + AbsRun(marksDirty, m.abs, AbsView(step)).posted
  {
    match step
    case Receive(e) =>
      if e.evType == EV_ABS {
        assert [Apply(e)][1..] == [];
      } else if e.evType == EV_KEY {
        SelectAppend(AbsOf, m.posted, [KeyPost(e)]);
      }
    case AbsFrame =>
      var t := AbsTick(m.abs);
      assert [Frame][1..] == [];
      SelectAppend(AbsOf, m.posted, t.posted);
      AllAbsPosted(t.posted);
    case RelFrame =>
      var t := RelTick(m.rel);
      SelectAppend(AbsOf, m.posted, t.posted);
      NoAbsAmongRel(t.posted);
  }

  /** One step changes the rel lane exactly as the rel updater's view of that step does. */
  lemma RelLaneStep(marksDirty: AbsDirtyRule, combine: RelCombineRule, m: DemuxModel, step: Step)
    ensures DemuxStep(marksDirty, combine, m, step).rel == RelRun(combine, m.rel, RelView(step)).next
    ensures RelPosted(DemuxStep(marksDirty, combine, m, step).posted)
         == RelPosted(m.posted) + RelRun(combine, m.rel, RelView(step)).posted
  {
    match step
    case Receive(e) =>
      if e.evType == EV_REL {
        assert [Apply(e)][1..] == [];
      } else if e.evType == EV_KEY {
        SelectAppend(RelOf, m.posted, [KeyPost(e)]);
      }
    case RelFrame =>
      var t := RelTick(m.rel);
      assert [Frame][1..] == [];
      SelectAppend(RelOf, m.posted, t.posted);
      AllRelPosted(t.posted);
    case AbsFrame =>
      var t := AbsTick(m.abs);
      SelectAppend(RelOf, m.posted, t.posted);
      NoRelAmongAbs(t.posted);
  }

  /**
   * The abs lane sees nothing but ABS events and its own frames: after any run, the abs state and
   * the abs snapshots posted are those of the abs updater run on that part of the input alone.
   * Events of an unrouted type may occur in the run; DemuxStep drops them (see Routed).
   */
  lemma {:induction false} AbsLaneIsolated(marksDirty: AbsDirtyRule, combine: RelCombineRule, m: DemuxModel, steps: seq<Step>)
    ensures DemuxRun(marksDirty, combine, m, steps).abs == AbsRun(marksDirty, m.abs, AbsSteps(steps)).next
    ensures AbsPosted(DemuxRun(marksDirty, combine, m, steps).posted)
         == AbsPosted(m.posted) + AbsRun(marksDirty, m.abs, AbsSteps(steps)).posted
    decreases |steps|
  {
    if steps != [] {
      var m1 := DemuxStep(marksDirty, combine, m, steps[0]);
      AbsLaneIsolated(marksDirty, combine, m1, steps[1..]);
      AbsLaneStep(marksDirty, combine, m, steps[0]);
      AbsRunAppend(marksDirty, m.abs, AbsView(steps[0]), AbsSteps(steps[1..]));
    }
  }

  /**
   * The rel lane sees nothing but REL events and its own frames. Events of an unrouted type may
   * occur in the run; DemuxStep drops them (see Routed).
   */
  lemma {:induction false} RelLaneIsolated(marksDirty: AbsDirtyRule, combine: RelCombineRule, m: DemuxModel, steps: seq<Step>)
    ensures DemuxRun(marksDirty, combine, m, steps).rel == RelRun(combine, m.rel, RelSteps(steps)).next
    ensures RelPosted(DemuxRun(marksDirty, combine, m, steps).posted)
         == RelPosted(m.posted) + RelRun(combine, m.rel, RelSteps(steps)).posted
    decreases |steps|
  {
    if steps != [] {
      var m1 := DemuxStep(marksDirty, combine, m, steps[0]);
      RelLaneIsolated(marksDirty, combine, m1, steps[1..]);
      RelLaneStep(marksDirty, combine, m, steps[0]);
      RelRunAppend(combine, m.rel, RelView(steps[0]), RelSteps(steps[1..]));
    }
  }

  lemma {:induction false} AllAbsPosted(p: seq<Posted>)
    requires forall i :: 0 <= i < |p| ==> p[i].AbsPost?
    ensures AbsPosted(p) == p
    decreases |p|
  {
    if p != [] { AllAbsPosted(p[1..]); }
  }

  lemma {:induction false} AllRelPosted(p: seq<Posted>)
    requires forall i :: 0 <= i < |p| ==> p[i].RelPost?
    ensures RelPosted(p) == p
    decreases |p|
  {
    if p != [] { AllRelPosted(p[1..]); }
  }

  lemma {:induction false} NoAbsAmongRel(p: seq<Posted>)
    requires forall i :: 0 <= i < |p| ==> p[i].RelPost?
    ensures AbsPosted(p) == []
    decreases |p|
  {
    if p != [] { NoAbsAmongRel(p[1..]); }
  }

  lemma {:induction false} NoRelAmongAbs(p: seq<Posted>)
    requires forall i :: 0 <= i < |p| ==> p[i].AbsPost?
    ensures RelPosted(p) == []
    decreases |p|
  {
    if p != [] { NoRelAmongAbs(p[1..]); }
  }

  /** The handler onActivitySetup registers for each event type. */
  function Registered(bus: EventBus, absState: InputAbsState, relState: InputRelState): map<int, Handler>
  {
    map[EV_KEY := KeyForward(bus), EV_ABS := AbsAggregate(absState), EV_REL := RelAggregate(relState)]
  }

  /** EvdevDemuxerActivity, from onActivitySetup on. */
  class EvdevDemuxerActivity {
    const eventBus: EventBus
    const absUpdater: EvdevDemuxerAbsUpdater
    const relUpdater: EvdevDemuxerRelUpdater
    const inputHandlers: InputEventHandlers
    const marksDirty: AbsDirtyRule
    const combine: RelCombineRule

    ghost predicate Valid()
      reads inputHandlers
    {
      absUpdater.eventBus == eventBus && relUpdater.eventBus == eventBus &&
      absUpdater.absState.marksDirty == marksDirty && relUpdater.relState.combine == combine &&
      inputHandlers.allCodes == Registered(eventBus, absUpdater.absState, relUpdater.relState)
    }

    function Model(): DemuxModel
      reads eventBus, absUpdater.absState, relUpdater.relState
    {
      DemuxModel(absUpdater.absState.Model(), relUpdater.relState.Model(), eventBus.posted)
    }

    /** Everything sent on the output channels so far. */
    function Outputs(): seq<Output>
      reads eventBus
    {
      Sent(eventBus.posted)
    }

    /**
     * onActivitySetup: one bus, the two updaters on it, and one all-codes handler each for KEY,
     * ABS and REL. `marksDirty` and `combine` are the support library's rules (see AxisStates).
     */
    constructor OnActivitySetup(marksDirty: AbsDirtyRule, combine: RelCombineRule)
      ensures Valid() && Model() == DemuxInitial
      ensures this.marksDirty == marksDirty && this.combine == combine
      ensures fresh(eventBus) && fresh(absUpdater.absState) && fresh(relUpdater.relState) && fresh(inputHandlers)
    {
      var bus := new EventBus();
      var absUp := new EvdevDemuxerAbsUpdater(bus, marksDirty);
      var relUp := new EvdevDemuxerRelUpdater(bus, combine);
      var handlers := new InputEventHandlers();
      handlers.RegisterHandler(EV_KEY, KeyForward(bus));
      var absHandler := absUp.GetHandler();
      handlers.RegisterHandler(EV_ABS, absHandler);
      var relHandler := relUp.GetHandler();
      handlers.RegisterHandler(EV_REL, relHandler);
      eventBus, absUpdater, relUpdater, inputHandlers := bus, absUp, relUp, handlers;
      this.marksDirty, this.combine := marksDirty, combine;
    }

    /** onNewInputJson: one dispatch of the decoded event. */
    method OnNewInputJson(e: InputEvent) returns (dispatched: Option<Handler>)
      requires Valid()
      modifies eventBus, absUpdater.absState, relUpdater.relState
      ensures Valid()
      ensures Model() == DemuxStep(marksDirty, combine, old(Model()), Receive(e))
      ensures dispatched.Some? <==> Routed(e)
      ensures dispatched.Some? ==>
                dispatched.value == Registered(eventBus, absUpdater.absState, relUpdater.relState)[e.evType]
    {
      dispatched := inputHandlers.HandleEvent(e);
    }

    /** One frame of the loop that drives the abs updater. */
    method AbsLoopFrame()
      requires Valid()
      modifies eventBus, absUpdater.absState
      ensures Valid()
      ensures Model() == DemuxStep(marksDirty, combine, old(Model()), AbsFrame)
    {
      absUpdater.Update();
    }

    /** One frame of the loop that drives the rel updater. */
    method RelLoopFrame()
      requires Valid()
      modifies eventBus, relUpdater.relState
      ensures Valid()
      ensures Model() == DemuxStep(marksDirty, combine, old(Model()), RelFrame)
    {
      relUpdater.Update();
    }
  }
}
