/** The challenge calendar: one cell per day of the challenge window, coloured by whether the
    day is done, missed, today or still to come, preceded by blank cells up to the weekday
    the window starts on. Dates are day numbers and `today` is a parameter. */
module Calendar {

  import opened Common
  import opened Sorting
  import opened PlankStats

  datatype Status = Completed | Missed | Future | Today

  datatype CalendarDay = CalendarDay(date: Day, status: Status)

  // ---------------------------------------------------------------------------------------
  // The date-to-duration map: later records overwrite earlier ones with the same date.
  // ---------------------------------------------------------------------------------------

  /** The map the records produce when they are stored one after the other. */
  function PlankMapOf(planks: seq<Plank>): map<Day, nat>
  {
    if planks == [] then map[]
    else
      var last := planks[|planks| - 1];
      PlankMapOf(planks[..|planks| - 1])[last.date := last.duration]
  }

  /** Fills the map record by record, in input order. */
  method BuildPlankMap(planks: seq<Plank>) returns (plankMap: map<Day, nat>)
    ensures plankMap == PlankMapOf(planks)
  {
    plankMap := map[];
    for i := 0 to |planks|
      invariant plankMap == PlankMapOf(planks[..i])
    {
      assert planks[..i + 1][..i] == planks[..i];
      plankMap := plankMap[planks[i].date := planks[i].duration];
    }
    assert planks[..|planks|] == planks;
  }

  /** A date is in the map exactly when some record carries it, and then the map holds the
      duration of the LAST record with that date. */
  lemma {:induction false} LastRecordWins(planks: seq<Plank>, d: Day)
    ensures d in PlankMapOf(planks) <==> exists i :: 0 <= i < |planks| && planks[i].date == d
    ensures forall i :: (0 <= i < |planks| && planks[i].date == d &&
                         forall j :: i < j < |planks| ==> planks[j].date != d) ==>
      PlankMapOf(planks)[d] == planks[i].duration
  {
    if planks != [] {
      var n := |planks| - 1;
      var init := planks[..n];
      LastRecordWins(init, d);
      if planks[n].date != d {
        if exists i :: 0 <= i < |planks| && planks[i].date == d {
          var i :| 0 <= i < |planks| && planks[i].date == d;
          assert init[i].date == d;
        }
        forall i | 0 <= i < |planks| && planks[i].date == d &&
          (forall j :: i < j < |planks| ==> planks[j].date != d)
          ensures PlankMapOf(planks)[d] == planks[i].duration
        {
          assert init[i] == planks[i];
          assert forall j :: i < j < |init| ==> init[j].date != d;
        }
      }
    }
  }

  /** The date of a record, as a sort key. */
  function PlankDate(p: Plank): int
  {
    p.date
  }

  /** The map entry of a date is decided by the records of that date alone, in their order:
      present exactly when there is one, holding the duration of the last. */
  lemma {:induction false} PlankMapByDate(planks: seq<Plank>, d: Day)
    ensures d in PlankMapOf(planks) <==> WithKey(planks, PlankDate, d) != []
    ensures var same := WithKey(planks, PlankDate, d);
      d in PlankMapOf(planks) ==> PlankMapOf(planks)[d] == same[|same| - 1].duration
  {
    if planks != [] {
      var n := |planks| - 1;
      PlankMapByDate(planks[..n], d);
      assert planks == planks[..n] + [planks[n]];
      WithKeyAppend(planks[..n], [planks[n]], PlankDate, d);
    }
  }

  /** Two record lists that agree on the records of a date, in order, agree on that date's
      map entry, whatever the order across dates. */
  lemma PlankMapAgree(a: seq<Plank>, b: seq<Plank>, d: Day)
    requires WithKey(a, PlankDate, d) == WithKey(b, PlankDate, d)
    ensures Lookup(PlankMapOf(a), d) == Lookup(PlankMapOf(b), d)
  {
    PlankMapByDate(a, d);
    PlankMapByDate(b, d);
  }

  /** Two record lists that agree, date by date, on the records of that date and their order
      give the same calendar. */
  lemma CalendarSameByDate(a: seq<Plank>, b: seq<Plank>, startDate: Day, endDate: Day, today: Day)
    requires forall d :: WithKey(a, PlankDate, d) == WithKey(b, PlankDate, d)
    ensures CalendarOf(a, startDate, endDate, today) == CalendarOf(b, startDate, endDate, today)
  {
    var ca, cb := CalendarOf(a, startDate, endDate, today), CalendarOf(b, startDate, endDate, today);
    forall i | 0 <= i < |ca| ensures ca[i] == cb[i] {
      PlankMapAgree(a, b, startDate + i);
    }
  }

  function Lookup(plankMap: map<Day, nat>, d: Day): Option<nat>
  {
    if d in plankMap then Some(plankMap[d]) else None
  }

  /** JavaScript truthiness of a looked-up duration: missing and 0 are both false. */
  predicate Truthy(duration: Option<nat>)
  {
    duration.Some? && duration.value != 0
  }

  /** The status of one day: today is completed or pending, a later day is always in the
      future, an earlier day is completed or missed. */
  function StatusOf(d: Day, duration: Option<nat>, today: Day): (s: Status)
    ensures s == Today ==> d == today
    ensures s == Future <==> d > today
    ensures s == Missed <==> d < today && !Truthy(duration)
    ensures s == Completed <==> d <= today && Truthy(duration)
  {
    if d == today then (if Truthy(duration) then Completed else Today)
    else if d > today then Future
    else if Truthy(duration) then Completed else Missed
  }

  /** The calendar as a whole: one entry per day of [startDate, endDate]. */
  function CalendarOf(planks: seq<Plank>, startDate: Day, endDate: Day, today: Day): seq<CalendarDay>
  {
    var plankMap := PlankMapOf(planks);
    seq(Max(endDate - startDate + 1, 0),
        i => CalendarDay(startDate + i, StatusOf(startDate + i, Lookup(plankMap, startDate + i), today)))
  }

  /** The day-generation loop of the calendar component. */
  method GenerateDays(planks: seq<Plank>, startDate: Day, endDate: Day, today: Day)
    returns (days: seq<CalendarDay>)
    ensures days == CalendarOf(planks, startDate, endDate, today)
  {
    var plankMap := BuildPlankMap(planks);
    days := [];
    var current := startDate;
    while current <= endDate
      invariant startDate <= current <= Max(endDate + 1, startDate)
      invariant |days| == current - startDate
      invariant forall i :: 0 <= i < |days| ==>
        days[i] == CalendarDay(startDate + i, StatusOf(startDate + i, Lookup(plankMap, startDate + i), today))
      decreases endDate - current
    {
      var duration := Lookup(plankMap, current);
      var status;
      if current == today {
        status := if Truthy(duration) then Completed else Today;
      } else if current > today {
        status := Future;
      } else {
        status := if Truthy(duration) then Completed else Missed;
      }
      days := days + [CalendarDay(current, status)];
      current := current + 1;
    }
  }

  /** One entry per day from start to end, consecutive and ascending; none when start > end. */
  lemma CalendarCoversWindow(planks: seq<Plank>, startDate: Day, endDate: Day, today: Day)
    ensures var days := CalendarOf(planks, startDate, endDate, today);
      |days| == Max(endDate - startDate + 1, 0) &&
      (forall i :: 0 <= i < |days| ==> days[i].date == startDate + i) &&
      (|days| > 0 ==> days[0].date == startDate && days[|days| - 1].date == endDate)
  {
  }

  /** The entry at position i, spelled out. */
  lemma CalendarAt(planks: seq<Plank>, startDate: Day, endDate: Day, today: Day, i: int)
    requires 0 <= i < |CalendarOf(planks, startDate, endDate, today)|
    ensures CalendarOf(planks, startDate, endDate, today)[i] ==
      CalendarDay(startDate + i, StatusOf(startDate + i, Lookup(PlankMapOf(planks), startDate + i), today))
  {
  }

  /** The status of each day in terms of the last record for it: a day after today is in the
      future whatever was recorded; today and earlier days are completed exactly when their
      last record has a non-zero duration, so a 0-second record shows as missed. */
  lemma CalendarStatus(planks: seq<Plank>, startDate: Day, endDate: Day, today: Day, i: int, k: int)
    requires var days := CalendarOf(planks, startDate, endDate, today); 0 <= i < |days|
    requires 0 <= k < |planks| && planks[k].date == startDate + i
    requires forall j :: k < j < |planks| ==> planks[j].date != startDate + i
    ensures var s := CalendarOf(planks, startDate, endDate, today)[i].status;
      (startDate + i > today ==> s == Future) &&
      (startDate + i == today ==> (s == Completed <==> planks[k].duration != 0) && (s == Today <==> planks[k].duration == 0)) &&
      (startDate + i < today ==> (s == Completed <==> planks[k].duration != 0) && (s == Missed <==> planks[k].duration == 0))
  {
    CalendarAt(planks, startDate, endDate, today, i);
    LastRecordWins(planks, startDate + i);
  }

  /** A day no record carries is today, future or missed, never completed. */
  lemma CalendarUnrecordedDay(planks: seq<Plank>, startDate: Day, endDate: Day, today: Day, i: int)
    requires var days := CalendarOf(planks, startDate, endDate, today); 0 <= i < |days|
    requires forall k :: 0 <= k < |planks| ==> planks[k].date != startDate + i
    ensures var s := CalendarOf(planks, startDate, endDate, today)[i].status;
      s != Completed && (s == Missed <==> startDate + i < today) && (s == Today <==> startDate + i == today)
  {
    CalendarAt(planks, startDate, endDate, today, i);
    LastRecordWins(planks, startDate + i);
  }

  /** At most one cell is marked today, it is the cell for today, and there is one only when
      today falls inside the window. */
  lemma AtMostOneToday(planks: seq<Plank>, startDate: Day, endDate: Day, today: Day)
    ensures var days := CalendarOf(planks, startDate, endDate, today);
      (forall i, j :: 0 <= i < |days| && 0 <= j < |days| && days[i].status == Today && days[j].status == Today ==> i == j) &&
      (forall i :: 0 <= i < |days| && days[i].status == Today ==> days[i].date == today && startDate <= today <= endDate)
  {
    var days := CalendarOf(planks, startDate, endDate, today);
    forall i | 0 <= i < |days|
      ensures days[i].date == startDate + i && (days[i].status == Today ==> startDate + i == today)
    {
      CalendarAt(planks, startDate, endDate, today, i);
    }
  }

  /** `getDay()` of a day number: 0 for Sunday through 6 for Saturday (day 0 was a Thursday). */
  function Weekday(d: Day): (w: nat)
    ensures w < 7
  {
    (d + 4) % 7
  }

  /** The blank cells in front of the first day: as many as it takes to start the grid's
      first row on a Sunday. */
  function LeadingBlankCells(startDate: Day): (n: nat)
    ensures n < 7 && Weekday(startDate - n) == 0
  {
    Weekday(startDate)
  }

  /** No smaller count would start the grid on a Sunday. */
  lemma LeadingBlankCellsLeast(startDate: Day, m: nat)
    requires m < 7 && Weekday(startDate - m) == 0
    ensures m == LeadingBlankCells(startDate)
  {
  }
}
