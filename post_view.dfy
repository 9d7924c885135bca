/**
 * The two labels a publication card shows: how long ago it was published,
 * and its category.  The age in seconds, and for old publications the
 * calendar month index, day and year of the publication date, are inputs:
 * the card reads them from the host clock and time zone.
 */
module PostView {
  import opened LedgerTypes
  import opened Decimal

  const Minute: nat := 60
  const Hour: nat := 3600
  const Day: nat := 86400
  /** Older than this (about 324 days), the calendar label also shows the year. */
  const YearThreshold: nat := 28000000

  /** Month abbreviations as the card writes them; an index outside 0..11 gives no text. */
  function MonthText(monthIndex: nat): string {
    if monthIndex == 0 then "Jan."
    else if monthIndex == 1 then "Feb."
    else if monthIndex == 2 then "Mar."
    else if monthIndex == 3 then "Apr."
    else if monthIndex == 4 then "May"
    else if monthIndex == 5 then "Jun."
    else if monthIndex == 6 then "Jul."
    else if monthIndex == 7 then "Aug."
    else if monthIndex == 8 then "Sep."
    else if monthIndex == 9 then "Oct."
    else if monthIndex == 10 then "Nov."
    else if monthIndex == 11 then "Dec."
    else ""
  }

  /**
   * The time label, branch by branch as the card computes it: nothing for a
   * date in the future, a count of seconds, minutes or hours for less than a
   * day, and otherwise the calendar date, with the year once the publication
   * is older than YearThreshold seconds.
   */
  function DisplayTime(age: int, monthIndex: nat, day: nat, year: nat): string {
    if age < 0 then ""
    else if age < 2 then ToDecimal(age) + " second ago"
    else if age < 60 then ToDecimal(age) + " seconds ago"
    else if age < 120 then "1 minute ago"
    else if age < Hour then ToDecimal(age / Minute) + " minutes ago"
    else if age < 2 * Hour then "1 hour ago"
    else if age < Day then ToDecimal(age / Hour) + " hours ago"
    else
      var date := if monthIndex < 12 then MonthText(monthIndex) + " " + ToDecimal(day) else "";
      if age > YearThreshold then date + " " + ToDecimal(year) else date
  }

  datatype TimeUnit = Seconds | Minutes | Hours

  function UnitLength(u: TimeUnit): (n: nat)
    ensures n > 0
  {
    match u
    case Seconds => 1
    case Minutes => Minute
    case Hours => Hour
  }

  /** The words after the count: the unit, singular or plural, then "ago". */
  function UnitWords(u: TimeUnit, plural: bool): string {
    match u
    case Seconds => if plural then " seconds ago" else " second ago"
    case Minutes => if plural then " minutes ago" else " minute ago"
    case Hours => if plural then " hours ago" else " hour ago"
  }

  /** What the label says, before it is written out. */
  datatype Age = Future | Ago(count: nat, unit: TimeUnit) | OnDate(withYear: bool)

  /**
   * A reference reading of the label: the largest unit that fits, the whole
   * number of those units elapsed, or the calendar date past one day.
   */
  function Classify(age: int): Age {
    if age < 0 then Future
    else if age < Minute then Ago(age, Seconds)
    else if age < Hour then Ago(age / Minute, Minutes)
    else if age < Day then Ago(age / Hour, Hours)
    else OnDate(age > YearThreshold)
  }

  /** Writes a classified age out: the count, then the unit in the singular for 0 and 1. */
  function Render(a: Age, monthIndex: nat, day: nat, year: nat): string {
    match a
    case Future => ""
    case Ago(n, u) => ToDecimal(n) + UnitWords(u, n > 1)
    case OnDate(withYear) =>
      var date := if monthIndex < 12 then MonthText(monthIndex) + " " + ToDecimal(day) else "";
      if withYear then date + " " + ToDecimal(year) else date
  }

  /** The card's branch chain and the reference reading give the same label for every age. */
  lemma DisplayTimeIsClassified(age: int, monthIndex: nat, day: nat, year: nat)
    ensures DisplayTime(age, monthIndex, day, year) == Render(Classify(age), monthIndex, day, year)
  {
    if 60 <= age < 120 {
      assert age / Minute == 1;
      assert ToDecimal(1) + " minute ago" == "1 minute ago";
    } else if Hour <= age < 2 * Hour {
      assert age / Hour == 1;
      assert ToDecimal(1) + " hour ago" == "1 hour ago";
    } else if 120 <= age < Hour {
      assert age / Minute > 1;
    } else if 2 * Hour <= age < Day {
      assert age / Hour > 1;
    }
  }

  /**
   * Every non-negative age under a day is shown as the whole number of the
   * largest unit that fits: seconds below a minute, 1..59 minutes below an
   * hour, 1..23 hours below a day; a day or more is a calendar date, with
   * the year exactly past the threshold.
   */
  lemma ClassifyBuckets(age: int)
    ensures Classify(age).Future? <==> age < 0
    ensures Classify(age).Ago? ==>
      var n, u := Classify(age).count, Classify(age).unit;
      && n == age / UnitLength(u)
      && n * UnitLength(u) <= age < (n + 1) * UnitLength(u)
      && (u == Seconds <==> 0 <= age < Minute)
      && (u == Minutes <==> Minute <= age < Hour)
      && (u == Hours <==> Hour <= age < Day)
      && (u == Seconds ==> n < 60)
      && (u == Minutes ==> 1 <= n < 60)
      && (u == Hours ==> 1 <= n < 24)
    ensures Classify(age).OnDate? <==> age >= Day
    ensures Classify(age).OnDate? ==> (Classify(age).withYear <==> age > YearThreshold)
  {
    if Minute <= age < Hour {
      var n := age / Minute;
      assert n * Minute <= age < (n + 1) * Minute;
    } else if Hour <= age < Day {
      var n := age / Hour;
      assert n * Hour <= age < (n + 1) * Hour;
    }
  }

  /**
   * The label is empty only for a future date, or for a calendar date whose
   * month index is out of range and which is too recent to show its year.
   */
  lemma DisplayTimeEmpty(age: int, monthIndex: nat, day: nat, year: nat)
    ensures DisplayTime(age, monthIndex, day, year) == "" <==>
      age < 0 || (age >= Day && monthIndex >= 12 && age <= YearThreshold)
  {
    if age >= Day && monthIndex < 12 {
      assert |MonthText(monthIndex) + " " + ToDecimal(day)| > 0;
    }
  }

  /** The month index a month abbreviation stands for, if any. */
  function MonthIndexOf(text: string): Option<nat> {
    if text == "Jan." then Some(0)
    else if text == "Feb." then Some(1)
    else if text == "Mar." then Some(2)
    else if text == "Apr." then Some(3)
    else if text == "May" then Some(4)
    else if text == "Jun." then Some(5)
    else if text == "Jul." then Some(6)
    else if text == "Aug." then Some(7)
    else if text == "Sep." then Some(8)
    else if text == "Oct." then Some(9)
    else if text == "Nov." then Some(10)
    else if text == "Dec." then Some(11)
    else None
  }

  /**
   * The twelve abbreviations name twelve different months: reading one back
   * gives its index.  Only May carries no dot.
   */
  lemma MonthTextRoundTrip(monthIndex: nat)
    requires monthIndex < 12
    ensures MonthIndexOf(MonthText(monthIndex)) == Some(monthIndex)
    ensures |MonthText(monthIndex)| > 0
    ensures MonthText(monthIndex)[|MonthText(monthIndex)| - 1] == '.' <==> monthIndex != 4
  {
  }

  /** The category label, from the category number a publication stores. */
  function CategoryLabel(category: nat): string {
    if category == 1 then "Technology"
    else if category == 2 then "Politics"
    else if category == 3 then "Sports"
    else if category == 4 then "Misc."
    else ""
  }

  /** The category number a label stands for; the empty text stands for none. */
  function CategoryOf(text: string): Option<nat> {
    if text == "Technology" then Some(1)
    else if text == "Politics" then Some(2)
    else if text == "Sports" then Some(3)
    else if text == "Misc." then Some(4)
    else None
  }

  /**
   * Categories 1..4 get four different non-empty labels that read back as
   * themselves; 0 and every other number get the empty label.
   */
  lemma CategoryLabelRoundTrip(category: nat)
    ensures CategoryLabel(category) != "" <==> 1 <= category <= 4
    ensures 1 <= category <= 4 ==> CategoryOf(CategoryLabel(category)) == Some(category)
    ensures CategoryOf(CategoryLabel(category)).None? <==> (category == 0 || category > 4)
  {
  }
}
