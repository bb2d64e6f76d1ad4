/** The year grid of the home screen (src/screens/Home.tsx): one cell per date
    from the start of the year, each showing the summary of the same calendar
    day if there is one, padded with empty cells to a minimum grid size. */
module Home {
  import opened Wrappers
  import opened Calendar

  /** One entry of the summary the server returns (only days with habits). */
  datatype DaySummary = DaySummary(id: string, date: int, amount: int, completed: int)

  /** A rendered cell: a day with the amount and completed count of its
      summary entry (absent when it has none), or an empty filler. */
  datatype Cell = DayCell(date: int, amount: Option<int>, completed: Option<int>) | FillerCell

  /** 18 weeks of 7 days. */
  const MinSummaryDatesSize: int := 18 * 7

  /** The summary state before the first fetch. */
  const InitialSummary: seq<DaySummary> := []

  /** `amountOfDaysToFill`: may be negative when the year is long enough. */
  function AmountOfDaysToFill(datesCount: nat): (fill: int)
    ensures fill > 0 <==> datesCount < 126
    ensures datesCount + fill == 126
  {
    MinSummaryDatesSize - datesCount
  }

  /** How many filler cells are rendered: none unless `amountOfDaysToFill > 0`. */
  function FillerCount(datesCount: nat): (fillers: nat)
    ensures fillers == 0 <==> datesCount >= 126
    ensures fillers > 0 ==> datesCount + fillers == 126
  {
    if AmountOfDaysToFill(datesCount) > 0 then AmountOfDaysToFill(datesCount) else 0
  }

  /** The index `summary.find` stops at: the first entry on the same calendar
      day as `date`. */
  function FindSameDay(summary: seq<DaySummary>, date: int): (r: Option<nat>)
    ensures r.Some? ==> r.value < |summary| && SameDay(date, summary[r.value].date)
    ensures r.Some? ==> forall j :: 0 <= j < r.value ==> !SameDay(date, summary[j].date)
    ensures r.None? ==> forall j :: 0 <= j < |summary| ==> !SameDay(date, summary[j].date)
  {
    if summary == [] then None
    else if SameDay(date, summary[0].date) then Some(0)
    else match FindSameDay(summary[1..], date)
      case None => None
      case Some(k) => Some(k + 1)
  }

  /** `dayWithHabits`: the entry `find` returns, or undefined. */
  function DayWithHabits(summary: seq<DaySummary>, date: int): (day: Option<DaySummary>)
    ensures day.Some? ==> day.value in summary && SameDay(date, day.value.date)
    ensures day.None? <==> forall j :: 0 <= j < |summary| ==> !SameDay(date, summary[j].date)
  {
    match FindSameDay(summary, date)
    case None => None
    case Some(k) => Some(summary[k])
  }

  /** The cell of one date: `amount` and `completed` read through the
      optional entry. */
  function DateCell(summary: seq<DaySummary>, date: int): (c: Cell)
    ensures c.DayCell? && c.date == date
    ensures c.amount.Some? <==> c.completed.Some?
    ensures c.amount.None? <==> forall j :: 0 <= j < |summary| ==> !SameDay(date, summary[j].date)
  {
    match DayWithHabits(summary, date)
    case None => DayCell(date, None, None)
    case Some(day) => DayCell(date, Some(day.amount), Some(day.completed))
  }

  /** The grid: the date cells in date order, then the fillers. */
  function Grid(dates: seq<int>, summary: seq<DaySummary>): (g: seq<Cell>)
    ensures |g| >= 126 && |g| >= |dates|
    ensures forall i :: 0 <= i < |dates| ==> g[i].DayCell? && g[i].date == dates[i]
    ensures forall i :: |dates| <= i < |g| ==> g[i] == FillerCell
  {
    seq(|dates|, i requires 0 <= i < |dates| => DateCell(summary, dates[i])) +
    seq(FillerCount(|dates|), _ => FillerCell)
  }

  /** The summary entries on the day of `date`, in order. */
  function OnDay(summary: seq<DaySummary>, date: int): seq<DaySummary> {
    if summary == [] then []
    else if SameDay(date, summary[0].date) then [summary[0]] + OnDay(summary[1..], date)
    else OnDay(summary[1..], date)
  }

  /** The filler count is `max(0, 126 - n)`, and the grid holds `max(n, 126)`
      cells: one per date, in order, with the date's first same-day entry,
      then only fillers. */
  lemma GridShape(dates: seq<int>, summary: seq<DaySummary>)
    ensures FillerCount(|dates|) == if |dates| < 126 then 126 - |dates| else 0
    ensures |Grid(dates, summary)| == if |dates| < 126 then 126 else |dates|
    ensures forall i :: 0 <= i < |dates| ==>
      Grid(dates, summary)[i] == DateCell(summary, dates[i]) &&
      Grid(dates, summary)[i].date == dates[i]
    ensures forall i :: |dates| <= i < |Grid(dates, summary)| ==> Grid(dates, summary)[i] == FillerCell
  {
  }

  /** A date cell carries the amount and completed count of the first summary
      entry on its calendar day, and nothing when no entry is on that day. */
  lemma DateCellContents(summary: seq<DaySummary>, date: int)
    ensures var c := DateCell(summary, date);
      c.DayCell? && c.date == date &&
      (c.amount.Some? <==> c.completed.Some?) &&
      (c.amount.None? <==> forall j :: 0 <= j < |summary| ==> !SameDay(date, summary[j].date)) &&
      (c.amount.Some? ==>
        (exists k :: 0 <= k < |summary| && SameDay(date, summary[k].date) &&
          (forall j :: 0 <= j < k ==> !SameDay(date, summary[j].date)) &&
          c.amount.value == summary[k].amount && c.completed.value == summary[k].completed))
  {
    match FindSameDay(summary, date)
    case None =>
    case Some(k) =>
      assert SameDay(date, summary[k].date);
  }

  /** `find` agrees with a reference definition: the first entry of those
      on the same day. */
  lemma {:induction false} DayWithHabitsIsFirstOnDay(summary: seq<DaySummary>, date: int)
    ensures DayWithHabits(summary, date) ==
      if OnDay(summary, date) == [] then None else Some(OnDay(summary, date)[0])
  {
    if summary != [] && !SameDay(date, summary[0].date) {
      DayWithHabitsIsFirstOnDay(summary[1..], date);
    }
  }

  lemma {:induction false} OnDayConcat(a: seq<DaySummary>, b: seq<DaySummary>, date: int)
    ensures OnDay(a + b, date) == OnDay(a, date) + OnDay(b, date)
  {
    if a == [] {
      assert a + b == b;
    } else {
      assert (a + b)[1..] == a[1..] + b;
      OnDayConcat(a[1..], b, date);
    }
  }

  /** A cell depends only on the summary entries of its own day. */
  lemma OnlySameDayMatters(s1: seq<DaySummary>, s2: seq<DaySummary>, date: int)
    requires OnDay(s1, date) == OnDay(s2, date)
    ensures DateCell(s1, date) == DateCell(s2, date)
  {
    DayWithHabitsIsFirstOnDay(s1, date);
    DayWithHabitsIsFirstOnDay(s2, date);
  }

  /** Adding (or, read backwards, removing) a summary entry on another day
      anywhere in the list leaves a cell as it was. */
  lemma OtherDayEntryIrrelevant(before: seq<DaySummary>, e: DaySummary, after: seq<DaySummary>, date: int)
    requires !SameDay(date, e.date)
    ensures DateCell(before + [e] + after, date) == DateCell(before + after, date)
  {
    OnDayConcat(before + [e], after, date);
    OnDayConcat(before, [e], date);
    OnDayConcat(before, after, date);
    assert OnDay([e], date) == [];
    OnlySameDayMatters(before + [e] + after, before + after, date);
  }

  /** Before any summary arrives every date cell is blank. */
  lemma InitialGridBlank(dates: seq<int>)
    ensures forall i :: 0 <= i < |dates| ==>
      Grid(dates, InitialSummary)[i] == DayCell(dates[i], None, None)
  {
  }

  /** The screen's state: the loading flag and the summary. */
  class HomeScreen {
    var loading: bool
    var summary: seq<DaySummary>

    constructor ()
      ensures loading && summary == InitialSummary
    {
      loading := true;
      summary := InitialSummary;
    }

    /** `fetchData`: `response` is the body of the summary request, or None
        when it was rejected; a rejection keeps the summary as it was. */
    method FetchData(response: Option<seq<DaySummary>>)
      modifies this
      ensures !loading
      ensures summary == if response.Some? then response.value else old(summary)
    {
      loading := true;
      if response.Some? {
        summary := response.value;
      }
      loading := false;
    }
  }

  /** If the first summary request is rejected, every date cell shows no
      amount and no completed count. */
  method FirstFetchRejected(dates: seq<int>) returns (grid: seq<Cell>)
    ensures |grid| == if |dates| < 126 then 126 else |dates|
    ensures forall i :: 0 <= i < |dates| ==> grid[i] == DayCell(dates[i], None, None)
  {
    var screen := new HomeScreen();
    screen.FetchData(None);
    grid := Grid(dates, screen.summary);
    GridShape(dates, screen.summary);
    InitialGridBlank(dates);
  }
}
