/**
 * Surveys and the app state that changes them: the survey list
 * (`data.surveys`) and the selected target (`selectedTargetId`), with the
 * survey status operations and the target actions and selector buttons.
 */
module Surveys {
  import opened Wrappers
  import opened Targets

  const OPEN := "Open"
  const CLOSED := "Closed"

  /** A survey record; `status` is a string because imported data may hold any. */
  datatype Survey = Survey(id: string, name: string, createdAt: int, status: string, archived: bool, targets: seq<Target>)

  /** The survey `getOpenSurvey` looks for. */
  predicate IsOpen(s: Survey) {
    s.status == OPEN && !s.archived
  }

  /** At most one survey is Open and not archived. */
  predicate AtMostOneOpen(ss: seq<Survey>) {
    forall i, j :: 0 <= i < |ss| && 0 <= j < |ss| && IsOpen(ss[i]) && IsOpen(ss[j]) ==> i == j
  }

  /** No two surveys share an id. */
  predicate UniqueSurveyIds(ss: seq<Survey>) {
    forall i, j :: 0 <= i < |ss| && 0 <= j < |ss| && ss[i].id == ss[j].id ==> i == j
  }

  /** `getOpenSurvey`: the position of the first Open, non-archived survey, if any. */
  function OpenIndex(ss: seq<Survey>): (r: Option<nat>)
    ensures r.Some? ==> r.value < |ss| && IsOpen(ss[r.value]) && forall j :: 0 <= j < r.value ==> !IsOpen(ss[j])
    ensures r.None? ==> forall j :: 0 <= j < |ss| ==> !IsOpen(ss[j])
  {
    if ss == [] then None
    else if IsOpen(ss[0]) then Some(0)
    else match OpenIndex(ss[1..])
      case None => None
      case Some(k) => Some(k + 1)
  }

  /** When at most one survey is open, `getOpenSurvey` finds exactly that one. */
  lemma OpenIndexFindsTheOpenSurvey(ss: seq<Survey>, k: nat)
    requires AtMostOneOpen(ss) && k < |ss| && IsOpen(ss[k])
    ensures OpenIndex(ss) == Some(k)
  {
  }

  /** `data.surveys.findIndex(x => x.id === id)`: -1 when no survey has the id. */
  function SurveyIndex(ss: seq<Survey>, id: string): (r: int)
    ensures -1 <= r < |ss|
    ensures r >= 0 ==> ss[r].id == id && forall j :: 0 <= j < r ==> ss[j].id != id
    ensures r == -1 ==> forall j :: 0 <= j < |ss| ==> ss[j].id != id
  {
    if ss == [] then -1
    else if ss[0].id == id then 0
    else
      var k := SurveyIndex(ss[1..], id);
      if k < 0 then -1 else k + 1
  }

  /** One survey as `setOnlyOpen(id)` leaves it (`id` is None for `setOnlyOpen(null)`). */
  function OnlyOpenStatus(s: Survey, id: Option<string>): Survey {
    s.(status := if id == Some(s.id) then OPEN else if s.status == OPEN then CLOSED else s.status)
  }

  /** The survey list after `setOnlyOpen(id)`. */
  function WithOnlyOpen(ss: seq<Survey>, id: Option<string>): (r: seq<Survey>)
    ensures |r| == |ss|
    ensures forall k :: 0 <= k < |r| ==> (r[k].status == OPEN <==> id == Some(ss[k].id))
  {
    seq(|ss|, i requires 0 <= i < |ss| => OnlyOpenStatus(ss[i], id))
  }

  /**
   * `setOnlyOpen(id)` makes the surveys with that id Open, turns every other
   * Open survey Closed, and changes nothing else.
   */
  lemma SetOnlyOpenEffect(ss: seq<Survey>, id: Option<string>, k: nat)
    requires k < |ss|
    ensures |WithOnlyOpen(ss, id)| == |ss|
    ensures WithOnlyOpen(ss, id)[k].(status := ss[k].status) == ss[k]
    ensures WithOnlyOpen(ss, id)[k].status == OPEN <==> id == Some(ss[k].id)
    ensures id != Some(ss[k].id) && ss[k].status == OPEN ==> WithOnlyOpen(ss, id)[k].status == CLOSED
    ensures id != Some(ss[k].id) && ss[k].status != OPEN ==> WithOnlyOpen(ss, id)[k].status == ss[k].status
  {
  }

  /**
   * With unique ids, after `setOnlyOpen(Some(id))` at most one survey is
   * open, and a non-archived survey carrying the id is the one
   * `getOpenSurvey` returns.
   */
  lemma {:induction false} SetOnlyOpenLeavesOneOpen(ss: seq<Survey>, id: string)
    requires UniqueSurveyIds(ss)
    ensures AtMostOneOpen(WithOnlyOpen(ss, Some(id)))
    ensures forall k :: 0 <= k < |ss| && ss[k].id == id && !ss[k].archived ==>
      OpenIndex(WithOnlyOpen(ss, Some(id))) == Some(k)
  {
    var r := WithOnlyOpen(ss, Some(id));
    forall i, j | 0 <= i < |r| && 0 <= j < |r| && IsOpen(r[i]) && IsOpen(r[j])
      ensures i == j
    {
      assert r[i] == OnlyOpenStatus(ss[i], Some(id)) && r[j] == OnlyOpenStatus(ss[j], Some(id));
      assert ss[i].id == id && ss[j].id == id;
    }
    forall k | 0 <= k < |ss| && ss[k].id == id && !ss[k].archived
      ensures OpenIndex(r) == Some(k)
    {
      assert IsOpen(r[k]);
      OpenIndexFindsTheOpenSurvey(r, k);
    }
  }

  /** After `setOnlyOpen(null)` no survey is Open. */
  lemma {:induction false} SetOnlyOpenNullClosesAll(ss: seq<Survey>)
    ensures forall k :: 0 <= k < |ss| ==> WithOnlyOpen(ss, None)[k].status != OPEN
  {
    forall k | 0 <= k < |ss|
      ensures WithOnlyOpen(ss, None)[k].status != OPEN
    {
      assert WithOnlyOpen(ss, None)[k] == OnlyOpenStatus(ss[k], None);
    }
  }

  /** Giving a survey a status other than Open keeps at most one survey open. */
  lemma ReplacingByNotOpenKeepsAtMostOneOpen(ss: seq<Survey>, k: nat, s: Survey)
    requires AtMostOneOpen(ss) && k < |ss| && !IsOpen(s)
    ensures AtMostOneOpen(ss[k := s])
  {
  }

  /** Removing a survey keeps at most one survey open. */
  lemma {:induction false} RemovingKeepsAtMostOneOpen(ss: seq<Survey>, k: nat)
    requires AtMostOneOpen(ss) && k < |ss|
    ensures AtMostOneOpen(ss[..k] + ss[k + 1..])
  {
    var r := ss[..k] + ss[k + 1..];
    forall i, j | 0 <= i < |r| && 0 <= j < |r| && IsOpen(r[i]) && IsOpen(r[j])
      ensures i == j
    {
      var i', j' := if i < k then i else i + 1, if j < k then j else j + 1;
      assert r[i] == ss[i'] && r[j] == ss[j'];
    }
  }

  /** The survey-list buttons (`data-action` of `addSurveyItem`), with the answer to the confirm dialog. */
  datatype SurveyCommand = View | SetOpen | Close | Archive | Restore | Delete(confirmed: bool)

  class SurveyStore {
    var surveys: seq<Survey>
    var selectedTargetId: Option<string>

    /** The state after `load()`: the stored surveys and no selected target. */
    constructor (stored: seq<Survey>)
      ensures surveys == stored && selectedTargetId == None
    {
      surveys := stored;
      selectedTargetId := None;
    }

    /** `setOnlyOpen(id)`: the in-place `forEach` over the surveys. */
    method SetOnlyOpen(id: Option<string>)
      modifies this
      ensures surveys == WithOnlyOpen(old(surveys), id)
      ensures selectedTargetId == old(selectedTargetId)
    {
      var i := 0;
      while i < |surveys|
        invariant 0 <= i <= |surveys| == |old(surveys)|
        invariant forall k :: 0 <= k < i ==> surveys[k] == OnlyOpenStatus(old(surveys)[k], id)
        invariant forall k :: i <= k < |surveys| ==> surveys[k] == old(surveys)[k]
        invariant selectedTargetId == old(selectedTargetId)
      {
        surveys := surveys[i := OnlyOpenStatus(surveys[i], id)];
        i := i + 1;
      }
    }

    /**
     * `createSurvey(name)`: closes every open survey and appends a new Open,
     * non-archived one with no targets.  The random id, the clock and the
     * date-stamped fallback name are parameters.
     */
    method CreateSurvey(newId: string, name: string, fallbackName: string, now: int) returns (s: Survey)
      modifies this
      ensures s == Survey(newId, if name != "" then name else fallbackName, now, OPEN, false, [])
      ensures surveys == WithOnlyOpen(old(surveys), None) + [s]
      ensures selectedTargetId == old(selectedTargetId)
      ensures AtMostOneOpen(surveys) && OpenIndex(surveys) == Some(|surveys| - 1)
      ensures UniqueSurveyIds(old(surveys)) && (forall k :: 0 <= k < |old(surveys)| ==> old(surveys)[k].id != newId) ==>
        UniqueSurveyIds(surveys)
    {
      SetOnlyOpen(None);
      SetOnlyOpenNullClosesAll(old(surveys));
      s := Survey(newId, if name != "" then name else fallbackName, now, OPEN, false, []);
      surveys := surveys + [s];
      OpenIndexFindsTheOpenSurvey(surveys, |surveys| - 1);
    }

    /**
     * The Close Survey button: with a confirmed dialog the open survey
     * becomes Closed; without an open survey nothing changes.
     */
    method CloseOpenSurvey(confirmed: bool)
      modifies this
      ensures OpenIndex(old(surveys)).None? || !confirmed ==> surveys == old(surveys)
      ensures OpenIndex(old(surveys)).Some? && confirmed ==>
        var k := OpenIndex(old(surveys)).value;
        surveys == old(surveys)[k := old(surveys)[k].(status := CLOSED)]
      ensures AtMostOneOpen(old(surveys)) ==> AtMostOneOpen(surveys)
      ensures AtMostOneOpen(old(surveys)) && confirmed ==> OpenIndex(surveys).None?
      ensures selectedTargetId == old(selectedTargetId)
    {
      var o := OpenIndex(surveys);
      if o.None? || !confirmed {
        return;
      }
      surveys := surveys[o.value := surveys[o.value].(status := CLOSED)];
      if AtMostOneOpen(old(surveys)) {
        ReplacingByNotOpenKeepsAtMostOneOpen(old(surveys), o.value, surveys[o.value]);
        assert forall j :: 0 <= j < |surveys| ==> !IsOpen(surveys[j])
          by {
            forall j | 0 <= j < |surveys|
              ensures !IsOpen(surveys[j])
            {
              if j != o.value {
                assert surveys[j] == old(surveys)[j];
              }
            }
          }
      }
    }

    /**
     * `surveyAction`: act on the first survey with the given id; an unknown
     * id, View, and an unconfirmed Delete change nothing.  Every command
     * keeps at most one survey open, SetOpen when the ids are unique.
     */
    method Act(cmd: SurveyCommand, id: string)
      modifies this
      ensures var k := SurveyIndex(old(surveys), id);
        && (k == -1 || cmd.View? || cmd == Delete(false) ==> surveys == old(surveys))
        && (k >= 0 && cmd.SetOpen? ==> surveys == WithOnlyOpen(old(surveys), Some(id)))
        && (k >= 0 && cmd.Close? ==> surveys == old(surveys)[k := old(surveys)[k].(status := CLOSED)])
        && (k >= 0 && cmd.Archive? ==> surveys == old(surveys)[k := old(surveys)[k].(archived := true, status := CLOSED)])
        && (k >= 0 && cmd.Restore? ==> surveys == old(surveys)[k := old(surveys)[k].(archived := false, status := CLOSED)])
        && (k >= 0 && cmd == Delete(true) ==> surveys == old(surveys)[..k] + old(surveys)[k + 1..])
      ensures !cmd.SetOpen? && AtMostOneOpen(old(surveys)) ==> AtMostOneOpen(surveys)
      ensures cmd.SetOpen? && UniqueSurveyIds(old(surveys)) && (SurveyIndex(old(surveys), id) >= 0 || AtMostOneOpen(old(surveys))) ==>
        AtMostOneOpen(surveys)
      ensures selectedTargetId == old(selectedTargetId)
    {
      var k := SurveyIndex(surveys, id);
      if k == -1 {
        return;
      }
      match cmd
      case View =>
      case SetOpen =>
        SetOnlyOpen(Some(id));
        if UniqueSurveyIds(old(surveys)) {
          SetOnlyOpenLeavesOneOpen(old(surveys), id);
        }
      case Close =>
        surveys := surveys[k := surveys[k].(status := CLOSED)];
        if AtMostOneOpen(old(surveys)) {
          ReplacingByNotOpenKeepsAtMostOneOpen(old(surveys), k, surveys[k]);
        }
      case Archive =>
        surveys := surveys[k := surveys[k].(archived := true, status := CLOSED)];
        if AtMostOneOpen(old(surveys)) {
          ReplacingByNotOpenKeepsAtMostOneOpen(old(surveys), k, surveys[k]);
        }
      case Restore =>
        surveys := surveys[k := surveys[k].(archived := false, status := CLOSED)];
        if AtMostOneOpen(old(surveys)) {
          ReplacingByNotOpenKeepsAtMostOneOpen(old(surveys), k, surveys[k]);
        }
      case Delete(confirmed) =>
        if !confirmed {
          return;
        }
        surveys := surveys[..k] + surveys[k + 1..];
        if AtMostOneOpen(old(surveys)) {
          RemovingKeepsAtMostOneOpen(old(surveys), k);
        }
    }

    /** The open survey's targets, or none when no survey is open. */
    function OpenTargets(): (ts: seq<Target>)
      reads this
    {
      match OpenIndex(surveys)
      case None => []
      case Some(k) => surveys[k].targets
    }

    /** The Navigate action of a target: select it when the open survey holds it. */
    method GoToTarget(id: string)
      modifies this
      ensures surveys == old(surveys)
      ensures selectedTargetId == if IndexOf(OpenTargets(), Some(id)) >= 0 then Some(id) else old(selectedTargetId)
    {
      var o := OpenIndex(surveys);
      if o.None? || IndexOf(surveys[o.value].targets, Some(id)) < 0 {
        return;
      }
      selectedTargetId := Some(id);
    }

    /**
     * The Delete action of a target: with a confirmed dialog every target of
     * the open survey with that id is removed, and a selection of that id is
     * cleared.
     */
    method DeleteTarget(id: string, confirmed: bool)
      modifies this
      ensures var o := OpenIndex(old(surveys));
        if o.None? || IndexOf(old(surveys)[o.value].targets, Some(id)) < 0 || !confirmed then
          surveys == old(surveys) && selectedTargetId == old(selectedTargetId)
        else
          && surveys == old(surveys)[o.value := old(surveys)[o.value].(targets := WithoutTarget(old(surveys)[o.value].targets, id))]
          && selectedTargetId == if old(selectedTargetId) == Some(id) then None else old(selectedTargetId)
      ensures selectedTargetId != old(selectedTargetId) ==> selectedTargetId == None
    {
      var o := OpenIndex(surveys);
      if o.None? || IndexOf(surveys[o.value].targets, Some(id)) < 0 || !confirmed {
        return;
      }
      surveys := surveys[o.value := surveys[o.value].(targets := WithoutTarget(surveys[o.value].targets, id))];
      if selectedTargetId == Some(id) {
        selectedTargetId := None;
      }
    }

    /** The First button: with targets in the open survey, select the first one. */
    method SelectFirst()
      modifies this
      ensures surveys == old(surveys)
      ensures selectedTargetId == if OpenTargets() == [] then old(selectedTargetId) else Some(OpenTargets()[0].id)
    {
      var ts := OpenTargets();
      if ts == [] {
        return;
      }
      selectedTargetId := Some(ts[0].id);
    }

    /** The Last button: with targets in the open survey, select the last one. */
    method SelectLast()
      modifies this
      ensures surveys == old(surveys)
      ensures selectedTargetId == if OpenTargets() == [] then old(selectedTargetId) else Some(OpenTargets()[|OpenTargets()| - 1].id)
    {
      var ts := OpenTargets();
      if ts == [] {
        return;
      }
      selectedTargetId := Some(ts[|ts| - 1].id);
    }

    /** The Prev button: the previous target of the open survey, wrapping to the last. */
    method SelectPrev()
      modifies this
      ensures surveys == old(surveys)
      ensures var ts := OpenTargets();
        selectedTargetId == if ts == [] then old(selectedTargetId)
                            else Some(ts[PrevIndex(IndexOf(ts, old(selectedTargetId)), |ts|)].id)
    {
      var ts := OpenTargets();
      if ts == [] {
        return;
      }
      var i := IndexOf(ts, selectedTargetId);
      selectedTargetId := Some(ts[PrevIndex(i, |ts|)].id);
    }

    /** The Next button: the next target of the open survey, wrapping to the first. */
    method SelectNext()
      modifies this
      ensures surveys == old(surveys)
      ensures var ts := OpenTargets();
        selectedTargetId == if ts == [] then old(selectedTargetId)
                            else Some(ts[NextIndex(IndexOf(ts, old(selectedTargetId)), |ts|)].id)
    {
      var ts := OpenTargets();
      if ts == [] {
        return;
      }
      var i := IndexOf(ts, selectedTargetId);
      selectedTargetId := Some(ts[NextIndex(i, |ts|)].id);
    }
  }
}
