/** Days as numbers and the weekday derived from them (`.dt.dayofweek`,
    Monday = 0, and `.dt.day_name()`). Day 0 is 1970-01-01, a Thursday. */
module Calendar {
  import opened Values

  /** The weekday order of the ordered categorical at app.py lines 40-41. */
  const DayNames: seq<string> :=
    ["Monday", "Tuesday", "Wednesday", "Thursday", "Friday", "Saturday", "Sunday"]

  /** `.dt.dayofweek` of a day number: Monday is 0 and Sunday is 6. */
  function Weekday(day: int): (w: nat)
    ensures w < 7
  {
    (day + 3) % 7
  }

  /** Successive days have successive weekdays, Sunday wrapping to Monday. */
  lemma WeekdayNext(day: int)
    ensures Weekday(day + 1) == if Weekday(day) == 6 then 0 else Weekday(day) + 1
  {
  }

  /** 2024-01-01 (day 19723) is a Monday, and 1970-01-01 a Thursday. */
  lemma WeekdayAnchors()
    ensures Weekday(19723) == 0 && DayNames[Weekday(19723)] == "Monday"
    ensures DayNames[Weekday(0)] == "Thursday"
  {
  }

  /** `.dt.day_name()` of a date cell; a missing date has no name. */
  function DayNameCell(c: Cell): (r: Cell)
    ensures r.Text? <==> c.Date?
    ensures c.Date? ==> r.s in DayNames && r.s == DayNames[Weekday(c.day)]
    ensures !c.Date? ==> r == Null
  {
    match c
    case Date(d) => Text(DayNames[Weekday(d)])
    case _ => Null
  }

  /** `.dt.dayofweek` of a date cell; a missing date has no number. */
  function DayNumberCell(c: Cell): (r: Cell)
    ensures r.Int? <==> c.Date?
    ensures c.Date? ==> 0 <= r.i < 7 && r.i == Weekday(c.day)
    ensures !c.Date? ==> r == Null
  {
    match c
    case Date(d) => Int(Weekday(d))
    case _ => Null
  }

  /** The day name and the day number of a date always name the same day. */
  lemma DayCellsAgree(c: Cell)
    ensures DayNumberCell(c).Int? <==> DayNameCell(c).Text?
    ensures DayNumberCell(c).Int? ==> 0 <= DayNumberCell(c).i < 7 && DayNameCell(c).s == DayNames[DayNumberCell(c).i]
  {
  }
}
