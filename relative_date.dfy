/**
 * `formatDate` of repos-feed.js: the time since a repository was last updated,
 * as "today", "yesterday", "N days ago", "N week(s) ago", "N month(s) ago",
 * or else a calendar date. Instants are integer milliseconds since the epoch;
 * the clock reading `now` is a parameter.
 */
module RelativeDate {
  import opened Wrappers
  import opened Strings

  const MsPerDay: int := 1000 * 60 * 60 * 24

  /** A parsed `updated_at`: an instant, or the NaN Date that an unparsable string gives. */
  datatype Timestamp = At(ms: int) | InvalidDate

  /** Whole days elapsed from `updated` to `now`: the floor of the quotient, also for negative spans. */
  function ElapsedDays(now: int, updated: int): (days: int)
    ensures days * MsPerDay <= now - updated < (days + 1) * MsPerDay
  {
    (now - updated) / MsPerDay
  }

  /** The bucket a day count falls into. */
  datatype Age =
    | Today
    | Yesterday
    | DaysAgo(days: int)
    | WeeksAgo(weeks: int)
    | MonthsAgo(months: int)
    | Older

  function AgeOf(days: int): (a: Age)
    ensures a == Today <==> days == 0
    ensures a == Yesterday <==> days == 1
    ensures a.DaysAgo? <==> days < 7 && days != 0 && days != 1
    ensures a.DaysAgo? ==> a.days == days
    ensures a.WeeksAgo? <==> 7 <= days < 30
    ensures a.WeeksAgo? ==> 1 <= a.weeks <= 4 && 7 * a.weeks <= days < 7 * a.weeks + 7
    ensures a.MonthsAgo? <==> 30 <= days < 365
    ensures a.MonthsAgo? ==> 1 <= a.months <= 12 && 30 * a.months <= days < 30 * a.months + 30
    ensures a == Older <==> days >= 365
  {
    if days == 0 then Today
    else if days == 1 then Yesterday
    else if days < 7 then DaysAgo(days)
    else if days < 30 then WeeksAgo(days / 7)
    else if days < 365 then MonthsAgo(days / 30)
    else Older
  }

  function Plural(n: int): string {
    if n > 1 then "s" else ""
  }

  /** The English text of every bucket but the oldest. */
  function Phrase(a: Age): string
    requires !a.Older?
  {
    match a
    case Today => "today"
    case Yesterday => "yesterday"
    case DaysAgo(n) => IntToString(n) + " days ago"
    case WeeksAgo(n) => IntToString(n) + " week" + Plural(n) + " ago"
    case MonthsAgo(n) => IntToString(n) + " month" + Plural(n) + " ago"
  }

  /** What `formatDate` returns: a relative phrase, or the locale's short calendar date of an instant. */
  datatype DateLabel = Relative(text: string) | CalendarDate(date: Timestamp)

  function FormatDate(now: int, updated: Timestamp): (shown: DateLabel)
    ensures shown.CalendarDate? ==> shown.date == updated
    ensures updated.InvalidDate? ==> shown.CalendarDate?
  {
    match updated
    case InvalidDate => CalendarDate(updated)
    case At(ms) =>
      var age := AgeOf(ElapsedDays(now, ms));
      if age.Older? then CalendarDate(updated) else Relative(Phrase(age))
  }

  // Reading a phrase back

  function CountBefore(s: string, suffix: string): Option<int>
    requires EndsWith(s, suffix)
  {
    ParseInt(s[..|s| - |suffix|])
  }

  /** Recovers the bucket from its phrase; None for text no bucket produces. */
  function ParsePhrase(s: string): Option<Age> {
    if s == "today" then Some(Today)
    else if s == "yesterday" then Some(Yesterday)
    else if EndsWith(s, " days ago") then
      match CountBefore(s, " days ago")
      case Some(n) => Some(DaysAgo(n))
      case None => None
    else if EndsWith(s, " weeks ago") || EndsWith(s, " week ago") then
      var suffix := if EndsWith(s, " weeks ago") then " weeks ago" else " week ago";
      match CountBefore(s, suffix)
      case Some(n) => Some(WeeksAgo(n))
      case None => None
    else if EndsWith(s, " months ago") || EndsWith(s, " month ago") then
      var suffix := if EndsWith(s, " months ago") then " months ago" else " month ago";
      match CountBefore(s, suffix)
      case Some(n) => Some(MonthsAgo(n))
      case None => None
    else None
  }

  lemma CountBeforeAppend(n: int, suffix: string)
    ensures EndsWith(IntToString(n) + suffix, suffix)
    ensures CountBefore(IntToString(n) + suffix, suffix) == Some(n)
  {
    var d := IntToString(n);
    EndsWithAppend(d, suffix, suffix);
    assert (d + suffix)[..|d + suffix| - |suffix|] == d;
    ParseIntToString(n);
  }

  lemma ParseDaysPhrase(n: int)
    ensures ParsePhrase(Phrase(DaysAgo(n))) == Some(DaysAgo(n))
  {
    var s := Phrase(DaysAgo(n));
    assert |s| >= 10;
    assert s != "today" && s != "yesterday";
    CountBeforeAppend(n, " days ago");
  }

  lemma ParseWeeksPhrase(n: int)
    ensures ParsePhrase(Phrase(WeeksAgo(n))) == Some(WeeksAgo(n))
  {
    var d := IntToString(n);
    var suffix := if n > 1 then " weeks ago" else " week ago";
    var s := Phrase(WeeksAgo(n));
    assert s == d + suffix;
    assert |s| >= 10;
    assert s != "today" && s != "yesterday";
    EndsWithAppend(d, suffix, " days ago");
    assert !EndsWith(s, " days ago");
    if n <= 1 {
      EndsWithOneLonger(d, suffix, " weeks ago");
    }
    CountBeforeAppend(n, suffix);
  }

  lemma ParseMonthsPhrase(n: int)
    ensures ParsePhrase(Phrase(MonthsAgo(n))) == Some(MonthsAgo(n))
  {
    var d := IntToString(n);
    var suffix := if n > 1 then " months ago" else " month ago";
    var s := Phrase(MonthsAgo(n));
    assert s == d + suffix;
    assert |s| >= 11;
    assert s != "today" && s != "yesterday";
    EndsWithAppend(d, suffix, " days ago");
    EndsWithAppend(d, suffix, " week ago");
    EndsWithAppend(d, suffix, " weeks ago");
    assert !EndsWith(s, " days ago") && !EndsWith(s, " week ago") && !EndsWith(s, " weeks ago");
    if n <= 1 {
      EndsWithOneLonger(d, suffix, " months ago");
    }
    CountBeforeAppend(n, suffix);
  }

  /** Every phrase reads back as the bucket it was made from, so the text determines the bucket. */
  lemma ParsePhraseOfPhrase(a: Age)
    requires !a.Older?
    ensures ParsePhrase(Phrase(a)) == Some(a)
  {
    match a
    case Today =>
    case Yesterday =>
    case DaysAgo(n) => ParseDaysPhrase(n);
    case WeeksAgo(n) => ParseWeeksPhrase(n);
    case MonthsAgo(n) => ParseMonthsPhrase(n);
  }

  lemma PhraseInjective(a: Age, b: Age)
    requires !a.Older? && !b.Older? && Phrase(a) == Phrase(b)
    ensures a == b
  {
    ParsePhraseOfPhrase(a);
    ParsePhraseOfPhrase(b);
  }

  /** The plural "s" follows "week" exactly when the count exceeds one. */
  lemma WeeksPlural(n: int)
    ensures EndsWith(Phrase(WeeksAgo(n)), "s ago") <==> n > 1
  {
    var d := IntToString(n);
    if n > 1 {
      assert Phrase(WeeksAgo(n)) == (d + " week") + "s ago";
      EndsWithAppend(d + " week", "s ago", "s ago");
    } else {
      assert Phrase(WeeksAgo(n)) == d + " week ago";
      EndsWithAppend(d, " week ago", "s ago");
    }
  }

  /** The plural "s" follows "month" exactly when the count exceeds one. */
  lemma MonthsPlural(n: int)
    ensures EndsWith(Phrase(MonthsAgo(n)), "s ago") <==> n > 1
  {
    var d := IntToString(n);
    if n > 1 {
      assert Phrase(MonthsAgo(n)) == (d + " month") + "s ago";
      EndsWithAppend(d + " month", "s ago", "s ago");
    } else {
      assert Phrase(MonthsAgo(n)) == d + " month ago";
      EndsWithAppend(d, " month ago", "s ago");
    }
  }

  // What formatDate promises

  /** The label of a valid instant names the bucket of the elapsed whole days, or is a calendar date from 365 days on. */
  lemma FormatDateReadsBack(now: int, ms: int)
    ensures match FormatDate(now, At(ms))
      case Relative(text) => ParsePhrase(text) == Some(AgeOf(ElapsedDays(now, ms)))
      case CalendarDate(_) => ElapsedDays(now, ms) >= 365
  {
    var age := AgeOf(ElapsedDays(now, ms));
    if !age.Older? {
      ParsePhraseOfPhrase(age);
    }
  }

  lemma FormatDateToday(now: int, ms: int)
    ensures FormatDate(now, At(ms)) == Relative("today") <==> ElapsedDays(now, ms) == 0
  {
  }

  lemma FormatDateYesterday(now: int, ms: int)
    ensures FormatDate(now, At(ms)) == Relative("yesterday") <==> ElapsedDays(now, ms) == 1
  {
  }

  /** Below a week, other than 0 and 1, the count is echoed; a future instant gives a negative count here. */
  lemma FormatDateDays(now: int, ms: int)
    requires ElapsedDays(now, ms) < 7 && ElapsedDays(now, ms) != 0 && ElapsedDays(now, ms) != 1
    ensures FormatDate(now, At(ms)) == Relative(IntToString(ElapsedDays(now, ms)) + " days ago")
    ensures now < ms ==> ElapsedDays(now, ms) < 0
  {
  }

  /** From 7 to 29 days the label is in weeks, plural from 14 days on. */
  lemma FormatDateWeeks(now: int, ms: int)
    requires 7 <= ElapsedDays(now, ms) < 30
    ensures FormatDate(now, At(ms)).Relative?
    ensures EndsWith(FormatDate(now, At(ms)).text, "s ago") <==> ElapsedDays(now, ms) >= 14
  {
    WeeksPlural(ElapsedDays(now, ms) / 7);
  }

  /** From 30 to 364 days the label is in months, plural from 60 days on. */
  lemma FormatDateMonths(now: int, ms: int)
    requires 30 <= ElapsedDays(now, ms) < 365
    ensures FormatDate(now, At(ms)).Relative?
    ensures EndsWith(FormatDate(now, At(ms)).text, "s ago") <==> ElapsedDays(now, ms) >= 60
  {
    MonthsPlural(ElapsedDays(now, ms) / 30);
  }

  /** A timestamp one millisecond in the future is reported as "-1 days ago". */
  lemma FutureInstant(now: int)
    ensures FormatDate(now, At(now + 1)) == Relative("-1 days ago")
  {
  }

  /** Ten days ago reads "1 week ago"; four hundred days ago is a calendar date. */
  lemma FormatDateExamples(now: int)
    ensures FormatDate(now, At(now)) == Relative("today")
    ensures FormatDate(now, At(now - 10 * MsPerDay)) == Relative("1 week ago")
    ensures FormatDate(now, At(now - 400 * MsPerDay)) == CalendarDate(At(now - 400 * MsPerDay))
  {
    assert ElapsedDays(now, now - 10 * MsPerDay) == 10;
    assert ElapsedDays(now, now - 400 * MsPerDay) == 400;
    assert NatToString(1) == "1";
  }
}
