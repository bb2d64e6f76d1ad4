/** The weekday recurrence picker of the habit-creation screen
    (src/screens/New.tsx): a list of weekday indices (0 is Sunday) toggled by
    seven checkboxes. */
module NewHabit {
  import opened ToggleList

  /** The checkbox titles, Sunday first. */
  const AvailableWeekDays: seq<string> := [
    "Domingo", "Segunda-Feira", "Terça-Feira", "Quarta-Feira",
    "Quinta-Feira", "Sexta-Feira", "Sábado"
  ]

  /** What the screen hands to one weekday checkbox. */
  datatype CheckBoxProps = CheckBoxProps(title: string, checked: bool)

  /** The invariant the picker keeps: distinct indices of available weekdays. */
  predicate ValidWeekDays(weekDays: seq<int>) {
    NoDup(weekDays) &&
    forall d | d in weekDays :: 0 <= d < |AvailableWeekDays|
  }

  /** The seven checkboxes: box `i` is checked exactly when `i` is chosen. */
  function RenderWeekDays(weekDays: seq<int>): (boxes: seq<CheckBoxProps>)
    ensures |boxes| == |AvailableWeekDays|
    ensures forall i :: 0 <= i < |boxes| ==>
      boxes[i].title == AvailableWeekDays[i] && (boxes[i].checked <==> i in weekDays)
  {
    seq(|AvailableWeekDays|, i requires 0 <= i < |AvailableWeekDays| =>
      CheckBoxProps(AvailableWeekDays[i], i in weekDays))
  }

  /** The list after a series of checkbox presses, each toggling one index. */
  function AfterPresses(weekDays: seq<int>, presses: seq<int>): seq<int>
    decreases presses
  {
    if presses == [] then weekDays
    else AfterPresses(Toggle(weekDays, presses[0]), presses[1..])
  }

  /** Toggling an available weekday keeps the invariant. */
  lemma ToggleKeepsValid(weekDays: seq<int>, weekDayIndex: int)
    requires ValidWeekDays(weekDays)
    requires 0 <= weekDayIndex < |AvailableWeekDays|
    ensures ValidWeekDays(Toggle(weekDays, weekDayIndex))
  {
    ToggleKeepsNoDup(weekDays, weekDayIndex);
  }

  /** A valid list has at most seven entries. */
  lemma {:induction false} ValidWeekDaysLength(weekDays: seq<int>)
    requires ValidWeekDays(weekDays)
    ensures |weekDays| <= |AvailableWeekDays|
  {
    var all: set<int> := {0, 1, 2, 3, 4, 5, 6};
    ElementsCard(weekDays);
    forall d | d in Elements(weekDays) ensures d in all {
      assert 0 <= d < 7;
    }
    SubsetCard(Elements(weekDays), all);
  }

  /** Starting from the empty list and pressing only the seven checkboxes
      always leaves a duplicate-free list of at most seven indices in 0..6. */
  lemma {:induction false} PressesKeepValid(weekDays: seq<int>, presses: seq<int>)
    requires ValidWeekDays(weekDays)
    requires forall i :: 0 <= i < |presses| ==> 0 <= presses[i] < |AvailableWeekDays|
    ensures ValidWeekDays(AfterPresses(weekDays, presses))
    ensures |AfterPresses(weekDays, presses)| <= |AvailableWeekDays|
    decreases presses
  {
    if presses == [] {
      ValidWeekDaysLength(weekDays);
    } else {
      ToggleKeepsValid(weekDays, presses[0]);
      PressesKeepValid(Toggle(weekDays, presses[0]), presses[1..]);
    }
  }

  /** Pressing checkbox `k` flips box `k` and leaves the other boxes alone. */
  lemma PressFlipsOneBox(weekDays: seq<int>, k: int, i: nat)
    requires i < |AvailableWeekDays|
    ensures RenderWeekDays(Toggle(weekDays, k))[i].checked ==
      if i == k then !RenderWeekDays(weekDays)[i].checked else RenderWeekDays(weekDays)[i].checked
  {
  }

  /** The screen's state: the chosen weekdays. */
  class NewScreen {
    var weekDays: seq<int>

    ghost predicate Valid()
      reads this
    {
      ValidWeekDays(weekDays)
    }

    constructor ()
      ensures weekDays == [] && Valid()
    {
      weekDays := [];
    }

    /** `handleToggleWeekDay`: drop every occurrence of a chosen index, or
        append an index not yet chosen. Indices of the seven checkboxes keep
        the invariant. */
    method HandleToggleWeekDay(weekDayIndex: int)
      modifies this
      ensures weekDays == Toggle(old(weekDays), weekDayIndex)
      ensures weekDayIndex in weekDays <==> weekDayIndex !in old(weekDays)
      ensures weekDayIndex in old(weekDays) ==> weekDays == Remove(old(weekDays), weekDayIndex)
      ensures weekDayIndex !in old(weekDays) ==> weekDays == old(weekDays) + [weekDayIndex]
      ensures old(Valid()) && 0 <= weekDayIndex < |AvailableWeekDays| ==> Valid()
    {
      if weekDayIndex in weekDays {
        weekDays := Remove(weekDays, weekDayIndex);
      } else {
        weekDays := weekDays + [weekDayIndex];
      }
      if old(Valid()) && 0 <= weekDayIndex < |AvailableWeekDays| {
        ToggleKeepsValid(old(weekDays), weekDayIndex);
      }
    }
  }
}
