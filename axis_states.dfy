/**
 * The aggregate states InputAbsState and InputRelState of the support library. Their code is
 * not part of this model; they are given only the behaviour the demuxer and its unit tests rely
 * on. The parts that behaviour leaves open are parameters of the state (`marksDirty`, `combine`),
 * so every property proved here holds whatever the library does there.
 */
module AxisStates {
  import opened Events

  /** The value a state reports for `code`: the stored one, or 0 for a code never stored. */
  function ValueOf(values: map<int, int>, code: int): int
  {
    if code in values then values[code] else 0
  }

  /** Some stored value is nonzero (InputAbsState.isNonZero). */
  predicate HasNonZero(values: map<int, int>)
  {
    exists code :: code in values && values[code] != 0
  }

  /** The nonzero entries of `values` (what getNonZeroAsJsonBuilder serialises). */
  function NonZero(values: map<int, int>): (r: map<int, int>)
    ensures forall code :: code in r <==> code in values && values[code] != 0
    ensures forall code :: code in r ==> r[code] == values[code]
    ensures r == map[] <==> !HasNonZero(values)
  {
    var r := map code | code in values && values[code] != 0 :: values[code];
    assert HasNonZero(values) ==> r != map[] by {
      if HasNonZero(values) {
        var code :| code in values && values[code] != 0;
        assert code in r;
      }
    }
    assert !HasNonZero(values) ==> r == map[] by {
      if !HasNonZero(values) {
        forall code | code in r ensures code in values && values[code] != 0 {
        }
        assert forall code :: code !in r;
        assert r == map[];
      }
    }
    r
  }

  /** Whether InputAbsState.update(e) marks the state dirty, given the values it held before. */
  type AbsDirtyRule = (map<int, int>, InputEvent) -> bool

  /** How InputRelState.update combines a new value with the one already held for that code. */
  type RelCombineRule = (int, int) -> int

  /** An absolute-axis state: the last value per code and the dirty mark. */
  datatype AbsModel = AbsModel(values: map<int, int>, dirty: bool)

  const AbsInitial: AbsModel := AbsModel(map[], false)

  /** InputAbsState.update(e): the event's value replaces the one held for its code. */
  function AbsApply(marksDirty: AbsDirtyRule, s: AbsModel, e: InputEvent): (r: AbsModel)
    ensures ValueOf(r.values, e.code) == e.value
    ensures forall code :: code != e.code ==> ValueOf(r.values, code) == ValueOf(s.values, code)
    ensures r.values.Keys == s.values.Keys + {e.code}
    ensures s.dirty ==> r.dirty
  {
    AbsModel(s.values[e.code := e.value], s.dirty || marksDirty(s.values, e))
  }

  /** A relative-axis state: the values held per code since the last zero(), and the dirty mark. */
  datatype RelModel = RelModel(values: map<int, int>, dirty: bool)

  /** The state after InputRelState.zero(), and of a new InputRelState. */
  const RelZero: RelModel := RelModel(map[], false)

  /**
   * InputRelState.update(e): a code not yet held takes the event's value, a held one is combined
   * with it by the library's rule; either way the state is dirty.
   */
  function RelApply(combine: RelCombineRule, s: RelModel, e: InputEvent): (r: RelModel)
    ensures r.dirty
    ensures r.values.Keys == s.values.Keys + {e.code}
    ensures e.code !in s.values ==> r.values[e.code] == e.value
    ensures forall code :: code in s.values && code != e.code ==> r.values[code] == s.values[code]
  {
    var v := if e.code in s.values then combine(s.values[e.code], e.value) else e.value;
    RelModel(s.values[e.code := v], true)
  }

  /** InputAbsState, updated in place by the abs handler and by the abs updater. */
  class InputAbsState {
    var values: map<int, int>
    var dirty: bool
    const marksDirty: AbsDirtyRule

    constructor (marksDirty: AbsDirtyRule)
      ensures Model() == AbsInitial && this.marksDirty == marksDirty
    {
      values, dirty := map[], false;
      this.marksDirty := marksDirty;
    }

    function Model(): AbsModel
      reads this
    {
      AbsModel(values, dirty)
    }

    /** isDirty(): the dirty mark of the state's model. */
    predicate IsDirty()
      reads this
      ensures IsDirty() <==> Model().dirty
    {
      dirty
    }

    /** isNonZero(): some code reports a nonzero value, so the abs payload is not empty. */
    predicate IsNonZero()
      reads this
      ensures IsNonZero() <==> exists code :: ValueOf(values, code) != 0
      ensures IsNonZero() <==> NonZero(values) != map[]
    {
      assert HasNonZero(values) ==> exists code :: ValueOf(values, code) != 0 by {
        if HasNonZero(values) {
          var code :| code in values && values[code] != 0;
          assert ValueOf(values, code) != 0;
        }
      }
      HasNonZero(values)
    }

    method Update(e: InputEvent)
      modifies this
      ensures Model() == AbsApply(marksDirty, old(Model()), e)
    {
      dirty := dirty || marksDirty(values, e);
      values := values[e.code := e.value];
    }

    /** clean(): clears the dirty mark and keeps every value. */
    method Clean()
      modifies this
      ensures Model() == AbsModel(old(values), false)
    {
      dirty := false;
    }
  }

  /** InputRelState, updated in place by the rel handler and reset by the rel updater. */
  class InputRelState {
    var values: map<int, int>
    var dirty: bool
    const combine: RelCombineRule

    constructor (combine: RelCombineRule)
      ensures Model() == RelZero && this.combine == combine
    {
      values, dirty := map[], false;
      this.combine := combine;
    }

    function Model(): RelModel
      reads this
    {
      RelModel(values, dirty)
    }

    /** isDirty(): the dirty mark of the state's model. */
    predicate IsDirty()
      reads this
      ensures IsDirty() <==> Model().dirty
    {
      dirty
    }

    method Update(e: InputEvent)
      modifies this
      ensures Model() == RelApply(combine, old(Model()), e)
    {
      var v := if e.code in values then combine(values[e.code], e.value) else e.value;
      values, dirty := values[e.code := v], true;
    }

    /** zero(): drops every value and clears the dirty mark. */
    method Zero()
      modifies this
      ensures Model() == RelZero
    {
      values, dirty := map[], false;
    }
  }
}
