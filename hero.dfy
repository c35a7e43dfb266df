/** The header of the home view: how many days the couple has been together
    and which anniversary comes next. Each milestone recurs yearly on its
    month and day; its next occurrence is this year's, or next year's once
    this year's has passed, and the occurrence with the fewest days to go is
    shown. The component keeps both results as state. */
module Hero {
  import opened Text
  import opened Js
  import opened Calendar
  import opened Types
  import opened Sorting

  const MsPerDay := 1000 * 60 * 60 * 24

  /** `Math.floor((now - start) / MsPerDay)` over millisecond timestamps. */
  function DaysTogether(start: int, now: int): (n: int)
    ensures n * MsPerDay <= now - start < (n + 1) * MsPerDay
  {
    (now - start) / MsPerDay
  }

  /** From a moment of day `a` to a moment of day `b` the count is `b - a`,
      less one when the later moment is earlier in its day. */
  lemma DaysTogetherCountsDays(a: int, b: int, startInDay: int, nowInDay: int)
    requires 0 <= startInDay < MsPerDay && 0 <= nowInDay < MsPerDay
    ensures DaysTogether(a * MsPerDay + startInDay, b * MsPerDay + nowInDay)
         == b - a - (if nowInDay < startInDay then 1 else 0)
  {
  }

  /** `{title, days}` as the component stores it. */
  datatype UpcomingMilestone = UpcomingMilestone(title: string, days: int)

  /** The milestone's month and day in today's year, or in the next year when
      that date is already before today. */
  function NextOccurrence(m: Milestone, today: CivilDate): CivilDate {
    var thisYear := CivilDate(today.year, m.date.month, m.date.day);
    if DayNumber(thisYear) < DayNumber(today)
    then CivilDate(today.year + 1, m.date.month, m.date.day)
    else thisYear
  }

  /** Both dates are midnights, so `Math.ceil` of the difference in days is
      the difference of day numbers. */
  function Upcoming(m: Milestone, today: CivilDate): UpcomingMilestone {
    UpcomingMilestone(m.title, DayNumber(NextOccurrence(m, today)) - DayNumber(today))
  }

  /** `milestones.map(...)`: one entry per milestone, in list order, carrying
      its title and, for a real date, a count of 0 to 366 days. */
  function UpcomingAll(milestones: seq<Milestone>, today: CivilDate): (r: seq<UpcomingMilestone>)
    ensures |r| == |milestones|
    ensures forall i :: 0 <= i < |r| ==> r[i].title == milestones[i].title
    ensures Valid(today) ==> forall i :: 0 <= i < |r| ==> 0 <= r[i].days <= 366
  {
    var r := seq(|milestones|, i requires 0 <= i < |milestones| => Upcoming(milestones[i], today));
    assert Valid(today) ==> forall i :: 0 <= i < |r| ==> 0 <= r[i].days <= 366 by {
      if Valid(today) {
        forall i | 0 <= i < |r| ensures 0 <= r[i].days <= 366 {
          UpcomingDays(milestones[i], today);
        }
      }
    }
    r
  }

  function Days(u: UpcomingMilestone): int {
    u.days
  }

  /** The first of the upcoming milestones once sorted by days. */
  function NextMilestone(milestones: seq<Milestone>, today: CivilDate): Option<UpcomingMilestone> {
    if |milestones| == 0 then None
    else
      var upcoming := SortBy(UpcomingAll(milestones, today), Days);
      Some(upcoming[0])
  }

  /** `getDaysText(days)` */
  function DaysText(days: int): string {
    if days == 0 then "今天"
    else if days == 1 then "明天"
    else if days == 2 then "后天"
    else IntToString(days) + "天后"
  }

  /** The component's state. */
  class HeroState {
    var daysTogether: int
    var nextMilestone: Option<UpcomingMilestone>

    constructor ()
      ensures daysTogether == 0 && nextMilestone == None
    {
      daysTogether := 0;
      nextMilestone := None;
    }

    /** The effect run when the start date changes. */
    method RefreshDaysTogether(start: int, now: int)
      modifies this
      ensures daysTogether == DaysTogether(start, now)
      ensures nextMilestone == old(nextMilestone)
    {
      daysTogether := DaysTogether(start, now);
    }

    /** The effect run when the milestones change. */
    method RefreshNextMilestone(milestones: seq<Milestone>, today: CivilDate)
      modifies this
      ensures nextMilestone == NextMilestone(milestones, today)
      ensures daysTogether == old(daysTogether)
    {
      if |milestones| == 0 {
        nextMilestone := None;
        return;
      }
      var upcoming := SortBy(UpcomingAll(milestones, today), Days);
      if |upcoming| > 0 {
        nextMilestone := Some(upcoming[0]);
      }
    }
  }

  /** There is a next milestone exactly when there are milestones. */
  lemma NextMilestoneExists(milestones: seq<Milestone>, today: CivilDate)
    ensures NextMilestone(milestones, today).None? <==> milestones == []
  {
  }

  /** The stored year plays no part: only the month and the day do. */
  lemma UpcomingIgnoresYear(m: Milestone, year: int, today: CivilDate)
    ensures Upcoming(m.(date := m.date.(year := year)), today) == Upcoming(m, today)
  {
  }

  /** The next occurrence is never in the past and at most a year and a day
      ahead; it is today exactly when this year's date is today, and it moves
      to next year only when this year's date has passed. */
  lemma UpcomingDays(m: Milestone, today: CivilDate)
    requires Valid(today)
    ensures var u := Upcoming(m, today);
      var thisYear := CivilDate(today.year, m.date.month, m.date.day);
      && 0 <= u.days <= 366
      && (u.days == 0 <==> DayNumber(thisYear) == DayNumber(today))
      && (NextOccurrence(m, today).year == today.year + 1 <==> DayNumber(thisYear) < DayNumber(today))
  {
    var thisYear := CivilDate(today.year, m.date.month, m.date.day);
    YearStartStep(today.year);
    YearStartStep(today.year + 1);
    if DayNumber(thisYear) < DayNumber(today) {
      LaterYearLater(today, NextOccurrence(m, today));
    }
  }

  /** The milestone shown is one of the milestones, with its own title, and
      no milestone is sooner. */
  lemma NextMilestoneIsSoonest(milestones: seq<Milestone>, today: CivilDate)
    requires milestones != []
    ensures var next := NextMilestone(milestones, today).value;
      && (exists i :: 0 <= i < |milestones| && next == Upcoming(milestones[i], today)
                                           && next.title == milestones[i].title)
      && (forall i :: 0 <= i < |milestones| ==> next.days <= Upcoming(milestones[i], today).days)
  {
    var all := UpcomingAll(milestones, today);
    var upcoming := SortBy(all, Days);
    var next := upcoming[0];
    assert next in multiset(all);
    var k :| 0 <= k < |all| && all[k] == next;
    SortBySorted(all, Days);
    forall i | 0 <= i < |milestones| ensures next.days <= Upcoming(milestones[i], today).days {
      assert all[i] in multiset(upcoming);
      var j :| 0 <= j < |upcoming| && upcoming[j] == all[i];
      if j > 0 {
        assert Days(upcoming[0]) <= Days(upcoming[j]);
      }
    }
  }

  /** Among equally near milestones the first in list order is shown. */
  lemma NextMilestoneFirstOfTies(milestones: seq<Milestone>, today: CivilDate)
    requires milestones != []
    ensures var next := NextMilestone(milestones, today).value;
      var ties := WithKey(UpcomingAll(milestones, today), Days, next.days);
      ties != [] && ties[0] == next
  {
    var all := UpcomingAll(milestones, today);
    var upcoming := SortBy(all, Days);
    SortByStable(all, Days, upcoming[0].days);
    WithKeyHead(upcoming, Days);
  }

  /** Different day counts are worded differently. */
  lemma DaysTextInjective(a: nat, b: nat)
    requires DaysText(a) == DaysText(b)
    ensures a == b
  {
    if a >= 3 && b >= 3 {
      var x := NatToString(a);
      var y := NatToString(b);
      assert x == (x + "天后")[..|x|];
      assert y == (y + "天后")[..|y|];
      NatToStringInjective(a, b);
    }
  }
}
