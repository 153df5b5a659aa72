/**
 * The unit tests of the two updaters, replayed on the model, and one run of the whole activity.
 * Each holds for every choice of the support library's open rules.
 */
module Scenarios {
  import opened Events
  import opened AxisStates
  import opened Handlers
  import opened AbsUpdater
  import opened RelUpdater
  import opened Activity

  /**
   * What the tests' mock bus returns from flushResult() once `seen` objects had been posted
   * before: the last object posted since then, or None (null) if there is none.
   */
  function Flush(posted: seq<Posted>, seen: nat): (r: Option<Posted>)
    ensures r.Some? <==> |posted| > seen
  {
    if |posted| > seen then Some(posted[|posted| - 1]) else None
  }

  /** A new abs updater that has seen no event posts nothing. */
  method AbsCleanUpdate(marksDirty: AbsDirtyRule) returns (result: Option<Posted>)
    ensures result == None
  {
    var bus := new EventBus();
    var updater := new EvdevDemuxerAbsUpdater(bus, marksDirty);
    updater.Update();
    result := Flush(bus.posted, 0);
  }

  /**
   * One event with value 12: two updates both post 12 (level). A later event with 21 for the
   * same code replaces it: the next update posts 21, not 12 + 21.
   */
  method AbsDirtyUpdates(marksDirty: AbsDirtyRule) returns (results: seq<Option<Posted>>)
    ensures results == [Some(AbsPost(map[ABS_X := 12])), Some(AbsPost(map[ABS_X := 12])),
                        Some(AbsPost(map[ABS_X := 21]))]
  {
    var bus := new EventBus();
    var updater := new EvdevDemuxerAbsUpdater(bus, marksDirty);
    var handler := updater.GetHandler();

    HandleWith(handler, InputEvent(EV_ABS, ABS_X, 12));
    assert updater.absState.values == map[ABS_X := 12];
    assert HasNonZero(updater.absState.values) by { assert updater.absState.values[ABS_X] != 0; }
    var seen := |bus.posted|;
    updater.Update();
    var r0 := Flush(bus.posted, seen);
    assert r0 == Some(AbsPost(map[ABS_X := 12]));
    assert updater.absState.values == map[ABS_X := 12];

    seen := |bus.posted|;
    assert HasNonZero(updater.absState.values) by { assert updater.absState.values[ABS_X] != 0; }
    updater.Update();
    var r1 := Flush(bus.posted, seen);
    assert r1 == Some(AbsPost(map[ABS_X := 12]));

    HandleWith(handler, InputEvent(EV_ABS, ABS_X, 21));
    assert updater.absState.values == map[ABS_X := 21];
    seen := |bus.posted|;
    assert HasNonZero(updater.absState.values) by { assert updater.absState.values[ABS_X] != 0; }
    updater.Update();
    var r2 := Flush(bus.posted, seen);
    assert r2 == Some(AbsPost(map[ABS_X := 21]));

    results := [r0, r1, r2];
  }

  /** A new rel updater that has seen no event posts nothing. */
  method RelCleanUpdate(combine: RelCombineRule) returns (result: Option<Posted>)
    ensures result == None
  {
    var bus := new EventBus();
    var updater := new EvdevDemuxerRelUpdater(bus, combine);
    updater.Update();
    result := Flush(bus.posted, 0);
  }

  /**
   * One event with value 12 is posted once; the next update, with no new event, posts nothing
   * (one-shot). A new event with 21 is then posted as 21: nothing carries over from the 12.
   */
  method RelDirtyUpdates(combine: RelCombineRule) returns (results: seq<Option<Posted>>)
    ensures results == [Some(RelPost(map[REL_X := 12])), None, Some(RelPost(map[REL_X := 21]))]
  {
    var bus := new EventBus();
    var updater := new EvdevDemuxerRelUpdater(bus, combine);
    var handler := updater.GetHandler();

    HandleWith(handler, InputEvent(EV_REL, REL_X, 12));
    var seen := |bus.posted|;
    updater.Update();
    var r0 := Flush(bus.posted, seen);

    seen := |bus.posted|;
    updater.Update();
    var r1 := Flush(bus.posted, seen);

    HandleWith(handler, InputEvent(EV_REL, REL_X, 21));
    seen := |bus.posted|;
    updater.Update();
    var r2 := Flush(bus.posted, seen);

    results := [r0, r1, r2];
  }

  /**
   * One event of each type, then one frame of each loop: the key event is sent at once on "key",
   * the abs value on "abs" and the rel value on "rel".
   */
  method ActivityLanes(marksDirty: AbsDirtyRule, combine: RelCombineRule, key: InputEvent)
    returns (sent: seq<Output>)
    requires key.evType == EV_KEY
    ensures sent == [Output("key", KeyBody(key)),
                     Output("abs", AxisBody(map[ABS_X := 12])),
                     Output("rel", AxisBody(map[REL_X := 5]))]
  {
    var activity := new EvdevDemuxerActivity.OnActivitySetup(marksDirty, combine);
    var absEvent, relEvent := InputEvent(EV_ABS, ABS_X, 12), InputEvent(EV_REL, REL_X, 5);
    var abs := AbsApply(marksDirty, AbsInitial, absEvent);
    var rel := RelModel(map[REL_X := 5], true);
    assert DemuxStep(marksDirty, combine, DemuxInitial, Receive(absEvent)) == DemuxModel(abs, RelZero, []);
    var d0 := activity.OnNewInputJson(absEvent);
    assert activity.Model() == DemuxModel(abs, RelZero, []);
    assert DemuxStep(marksDirty, combine, DemuxModel(abs, RelZero, []), Receive(relEvent)) == DemuxModel(abs, rel, []);
    var d1 := activity.OnNewInputJson(relEvent);
    assert activity.Model() == DemuxModel(abs, rel, []);
    assert DemuxStep(marksDirty, combine, DemuxModel(abs, rel, []), Receive(key)) == DemuxModel(abs, rel, [KeyPost(key)]);
    var d2 := activity.OnNewInputJson(key);
    assert activity.Model() == DemuxModel(abs, rel, [KeyPost(key)]);
    assert HasNonZero(abs.values) by { assert abs.values[ABS_X] != 0; }
    activity.AbsLoopFrame();
    var posted := [KeyPost(key), AbsPost(map[ABS_X := 12])];
    assert activity.Model() == DemuxModel(AbsModel(abs.values, false), rel, posted);
    activity.RelLoopFrame();
    posted := posted + [RelPost(map[REL_X := 5])];
    assert activity.Model() == DemuxModel(AbsModel(abs.values, false), RelZero, posted);
    sent := activity.Outputs();
    assert NonZero(map[ABS_X := 12]) == map[ABS_X := 12];
    assert sent == Sent(posted);
  }
}
