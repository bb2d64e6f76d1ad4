/** The day-detail screen (src/screens/Habit.tsx): the habits possible on one
    day, which of them are completed, the completion toggle and what the
    screen derives from that state. */
module Habit {
  import opened ToggleList
  import opened Calendar
  import opened Wrappers

  /** One entry of `possibleHabits`. */
  datatype PossibleHabit = PossibleHabit(id: string, title: string)

  /** The record the day endpoint returns and the screen keeps (`HabitsInfoProps`). */
  datatype HabitsInfo = HabitsInfo(completedHabits: seq<string>, possibleHabits: seq<PossibleHabit>)

  /** What the screen hands to one checkbox. */
  datatype CheckBoxProps = CheckBoxProps(title: string, checked: bool, disabled: bool)

  /** The list area: the empty placeholder, or one checkbox per possible habit. */
  datatype HabitList = HabitsEmpty | CheckBoxes(boxes: seq<CheckBoxProps>)

  /** The arguments of the progress helper, or the constant 0 shown while
      there is no record. */
  datatype HabitsProgress = NoProgress | ProgressOf(possibleCount: nat, completedCount: nat)

  /** The ids of the possible habits, in order. */
  function Ids(ps: seq<PossibleHabit>): (ids: seq<string>)
    ensures |ids| == |ps|
    ensures forall i :: 0 <= i < |ps| ==> ids[i] == ps[i].id
  {
    seq(|ps|, i requires 0 <= i < |ps| => ps[i].id)
  }

  /** The completed ids form a set of possible habits. */
  predicate WellFormed(info: HabitsInfo) {
    NoDup(info.completedHabits) &&
    forall id | id in info.completedHabits :: id in Ids(info.possibleHabits)
  }

  /** The new record built after a successful remote toggle: the id is
      filtered out when it is completed, appended otherwise, and the possible
      habits are carried over. */
  function ToggleHabit(info: HabitsInfo, habitId: string): (r: HabitsInfo)
    ensures r.possibleHabits == info.possibleHabits
    ensures habitId in r.completedHabits <==> habitId !in info.completedHabits
    ensures forall id | id != habitId :: id in r.completedHabits <==> id in info.completedHabits
  {
    HabitsInfo(Toggle(info.completedHabits, habitId), info.possibleHabits)
  }

  /** `isDateInPast`: the end of the screen's day is before the current instant. */
  function IsDateInPast(date: int, now: int): (past: bool)
    ensures past <==> DayOf(date) < DayOf(now)
  {
    EndOfDayBefore(date, now);
    EndOfDay(date) < now
  }

  /** The list the screen renders. An empty `possibleHabits` array is truthy,
      so the placeholder appears only while there is no record. */
  function RenderHabitList(info: Option<HabitsInfo>, date: int, now: int): (v: HabitList)
    ensures v.HabitsEmpty? <==> info.None?
    ensures info.Some? ==>
      |v.boxes| == |info.value.possibleHabits| &&
      forall i :: 0 <= i < |v.boxes| ==>
        v.boxes[i].title == info.value.possibleHabits[i].title &&
        (v.boxes[i].checked <==> info.value.possibleHabits[i].id in info.value.completedHabits) &&
        (v.boxes[i].disabled <==> DayOf(date) < DayOf(now))
  {
    match info
    case None => HabitsEmpty
    case Some(hi) =>
      var past := IsDateInPast(date, now);
      CheckBoxes(seq(|hi.possibleHabits|, i requires 0 <= i < |hi.possibleHabits| =>
        CheckBoxProps(hi.possibleHabits[i].title,
                      hi.possibleHabits[i].id in hi.completedHabits,
                      past)))
  }

  /** `habitsProgress`: the progress helper receives the number of possible
      and of completed habits; without a record the progress is 0. */
  function Progress(info: Option<HabitsInfo>): (p: HabitsProgress)
    ensures p.NoProgress? <==> info.None?
    ensures info.Some? ==> p.possibleCount == |info.value.possibleHabits|
    ensures info.Some? ==> p.completedCount == |info.value.completedHabits|
  {
    match info
    case None => NoProgress
    case Some(hi) => ProgressOf(|hi.possibleHabits|, |hi.completedHabits|)
  }

  /** Toggling a habit of the day keeps the completed ids a set of possible habits. */
  lemma ToggleHabitKeepsWellFormed(info: HabitsInfo, habitId: string)
    requires WellFormed(info)
    requires habitId in Ids(info.possibleHabits)
    ensures WellFormed(ToggleHabit(info, habitId))
  {
    ToggleKeepsNoDup(info.completedHabits, habitId);
  }

  /** Toggling twice: a habit that was not completed gives back the very same
      record; a completed one occurring once comes back with the same
      completed set, the id moved to the end. */
  lemma ToggleHabitTwice(info: HabitsInfo, habitId: string)
    ensures habitId !in info.completedHabits ==>
      ToggleHabit(ToggleHabit(info, habitId), habitId) == info
    ensures habitId in info.completedHabits && NoDup(info.completedHabits) ==>
      var twice := ToggleHabit(ToggleHabit(info, habitId), habitId);
      twice.possibleHabits == info.possibleHabits &&
      twice.completedHabits == Remove(info.completedHabits, habitId) + [habitId] &&
      multiset(twice.completedHabits) == multiset(info.completedHabits)
  {
    if habitId !in info.completedHabits {
      ToggleTwiceAbsent(info.completedHabits, habitId);
    } else {
      ToggleTwicePresent(info.completedHabits, habitId);
    }
  }

  /** The completed count handed to the progress helper goes up by one when a
      habit is completed and down by the id's number of occurrences when it
      is un-completed; for a duplicate-free list that is one. */
  lemma ToggleHabitProgress(info: HabitsInfo, habitId: string)
    ensures var p := Progress(Some(ToggleHabit(info, habitId)));
      p.possibleCount == |info.possibleHabits| &&
      p.completedCount == if habitId in info.completedHabits
                          then |info.completedHabits| - multiset(info.completedHabits)[habitId]
                          else |info.completedHabits| + 1
    ensures NoDup(info.completedHabits) ==>
      var p := Progress(Some(ToggleHabit(info, habitId)));
      p.completedCount == if habitId in info.completedHabits
                          then |info.completedHabits| - 1
                          else |info.completedHabits| + 1
  {
    var s := info.completedHabits;
    if habitId in s {
      var m := multiset(s);
      assert m == m[habitId := 0] + multiset{}[habitId := m[habitId]];
      assert |multiset(Remove(s, habitId))| == |m| - m[habitId];
      if NoDup(s) {
        var k :| 0 <= k < |s| && s[k] == habitId;
        OnlyOccurrence(s, k);
      }
    }
  }

  /** For a well-formed record the progress helper never receives more
      completed habits than possible ones. */
  lemma ProgressBounded(info: HabitsInfo)
    requires WellFormed(info)
    ensures Progress(Some(info)).completedCount <= Progress(Some(info)).possibleCount
  {
    var ids := Ids(info.possibleHabits);
    ElementsCard(info.completedHabits);
    ElementsCard(ids);
    assert Elements(info.completedHabits) <= Elements(ids);
    SubsetCard(Elements(info.completedHabits), Elements(ids));
  }

  /** After a toggle exactly the toggled habit's checkbox changes its check
      mark; titles and the disabled flag stay as they were. */
  lemma ToggleHabitFlipsOneCheckBox(info: HabitsInfo, habitId: string, date: int, now: int, i: nat)
    requires i < |info.possibleHabits|
    ensures var before := RenderHabitList(Some(info), date, now).boxes;
      var after := RenderHabitList(Some(ToggleHabit(info, habitId)), date, now).boxes;
      |after| == |before| &&
      after[i].title == before[i].title &&
      after[i].disabled == before[i].disabled &&
      (after[i].checked <==>
        if info.possibleHabits[i].id == habitId then !before[i].checked else before[i].checked)
  {
  }

  /** The screen's state: the day it shows, the loading flag and the record
      (null until the first successful fetch). */
  class HabitScreen {
    const date: int
    var loading: bool
    var habitsInfo: Option<HabitsInfo>

    constructor (date: int)
      ensures this.date == date && loading && habitsInfo == None
    {
      this.date := date;
      loading := true;
      habitsInfo := None;
    }

    /** `fetchHabits`: `response` is the body of the day request, or None
        when the request was rejected; a rejection leaves the record as it was. */
    method FetchHabits(response: Option<HabitsInfo>)
      modifies this
      ensures !loading
      ensures habitsInfo == if response.Some? then response else old(habitsInfo)
    {
      loading := true;
      if response.Some? {
        habitsInfo := response;
      }
      loading := false;
    }

    /** `handleToggleHabit`: `patchOk` is whether the remote toggle request
        succeeded. The record is replaced only after that success and only
        when there is a record; otherwise the exception is caught and nothing
        changes. */
    method HandleToggleHabit(habitId: string, patchOk: bool)
      modifies this
      ensures loading == old(loading)
      ensures habitsInfo == if patchOk && old(habitsInfo).Some?
                            then Some(ToggleHabit(old(habitsInfo).value, habitId))
                            else old(habitsInfo)
      ensures old(habitsInfo).Some? && WellFormed(old(habitsInfo).value) &&
              habitId in Ids(old(habitsInfo).value.possibleHabits) ==>
              habitsInfo.Some? && WellFormed(habitsInfo.value)
    {
      if !patchOk {
        return;
      }
      if habitsInfo.None? {
        return;
      }
      ghost var before := habitsInfo.value;
      var isHabitAlreadyCompleted := habitId in habitsInfo.value.completedHabits;
      var completedHabits: seq<string> := [];
      if isHabitAlreadyCompleted {
        completedHabits := Remove(habitsInfo.value.completedHabits, habitId);
      } else {
        completedHabits := habitsInfo.value.completedHabits + [habitId];
      }
      habitsInfo := Some(HabitsInfo(completedHabits, habitsInfo.value.possibleHabits));
      if WellFormed(before) && habitId in Ids(before.possibleHabits) {
        ToggleHabitKeepsWellFormed(before, habitId);
      }
    }
  }
}
