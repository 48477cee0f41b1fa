/** When a start-up backs up the user database. */
module BackupCalendar {
  import opened DateText

  // ---------- the calendar ----------

  predicate Leap(year: nat) {
    (year % 4 == 0 && year % 100 != 0) || year % 400 == 0
  }

  function DaysIn(year: nat, month: nat): (days: nat)
    ensures 28 <= days <= 31
  {
    if month == 2 then (if Leap(year) then 29 else 28)
    else if month in {4, 6, 9, 11} then 30
    else 31
  }

  predicate InCalendar(d: Date) {
    1 <= d.month <= 12 && 1 <= d.day <= DaysIn(d.year, d.month)
  }

  /** A date whose persisted form can be read back. */
  predicate Persistable(d: Date) {
    InCalendar(d) && 1000 <= d.year <= 9999
  }

  function DaysBefore(year: nat, month: nat): nat {
    if month <= 1 then 0 else DaysBefore(year, month - 1) + DaysIn(year, month - 1)
  }

  function DayOfYear(d: Date): nat {
    DaysBefore(d.year, d.month) + d.day
  }

  predicate NotAfter(a: Date, b: Date) {
    a.year < b.year
    || (a.year == b.year && (a.month < b.month || (a.month == b.month && a.day <= b.day)))
  }

  lemma {:induction false} DaysBeforeIncrease(year: nat, month: nat, later: nat)
    requires 1 <= month < later
    ensures DaysBefore(year, month) + DaysIn(year, month) <= DaysBefore(year, later)
    decreases later
  {
    if month + 1 == later {
    } else {
      DaysBeforeIncrease(year, month, later - 1);
    }
  }

  lemma LengthOfMonth(year: nat, month: nat)
    requires 1 <= month
    ensures DaysBefore(year, month + 1) == DaysBefore(year, month) + DaysIn(year, month)
  {}

  /** The days before each month, with or without a leap day. */
  lemma DaysBeforeMonths(year: nat, leap: nat)
    requires leap == if (year % 4 == 0 && year % 100 != 0) || year % 400 == 0 then 1 else 0
    ensures DaysBefore(year, 1) == 0 && DaysBefore(year, 2) == 31 && DaysBefore(year, 3) == 59 + leap
    ensures DaysBefore(year, 4) == 90 + leap && DaysBefore(year, 5) == 120 + leap && DaysBefore(year, 6) == 151 + leap
    ensures DaysBefore(year, 7) == 181 + leap && DaysBefore(year, 8) == 212 + leap && DaysBefore(year, 9) == 243 + leap
    ensures DaysBefore(year, 10) == 273 + leap && DaysBefore(year, 11) == 304 + leap
    ensures DaysBefore(year, 12) == 334 + leap
  {
    assert DaysIn(year, 2) == 28 + leap;
    forall month | 1 <= month <= 12
      ensures DaysBefore(year, month + 1) == DaysBefore(year, month) + DaysIn(year, month)
    {
      LengthOfMonth(year, month);
    }
  }

  // ---------- the decision ----------

  predicate Due(origin: ParsedDate, now: Date) {
    || origin.year != now.year
    || now.month - origin.month > 1
    || (now.day > origin.day && now.month - origin.month == 1)
  }

  function AsParsed(d: Date): ParsedDate {
    ParsedDate(d.year, d.month, d.day)
  }

  lemma NotAfterIsDayOrder(a: Date, b: Date)
    requires InCalendar(a) && InCalendar(b)
    ensures NotAfter(a, b) <==> a.year < b.year || (a.year == b.year && DayOfYear(a) <= DayOfYear(b))
  {
    if a.year == b.year && a.month < b.month {
      DaysBeforeIncrease(a.year, a.month, b.month);
    } else if a.year == b.year && b.month < a.month {
      DaysBeforeIncrease(a.year, b.month, a.month);
    }
  }

  /** A backup is due exactly in another year, or after the same day of the following month, whether that month
      has such a day or not. */
  lemma DueIffMonthIsOver(origin: Date, now: Date)
    ensures Due(AsParsed(origin), now)
       <==> origin.year != now.year || !NotAfter(now, Date(origin.year, origin.month + 1, origin.day))
  {}

  /** No backup means that the recorded one is from this year and at most 31 days old, wherever the clock
      stands; and not in the future, if the clock was not set back. */
  lemma NotDueIsRecent(origin: Date, now: Date)
    requires InCalendar(origin) && InCalendar(now)
    requires !Due(AsParsed(origin), now)
    ensures origin.year == now.year
    ensures DayOfYear(now) <= DayOfYear(origin) + 31
    ensures NotAfter(origin, now) <==> DayOfYear(origin) <= DayOfYear(now)
  {
    if now.month < origin.month {
      DaysBeforeIncrease(now.year, now.month, origin.month);
    } else if origin.month < now.month {
      DaysBeforeIncrease(now.year, origin.month, now.month);
    }
  }

  /** A backup in the year of the recorded one means that at least 29 days and one turn of the month have
      passed. */
  lemma DueInSameYearIsOld(origin: Date, now: Date)
    requires InCalendar(origin) && InCalendar(now) && origin.year == now.year
    requires Due(AsParsed(origin), now)
    ensures origin.month < now.month
    ensures DayOfYear(origin) + 29 <= DayOfYear(now)
  {
    if origin.month + 2 <= now.month {
      DaysBeforeIncrease(now.year, origin.month + 1, now.month);
    }
  }

  /** Both bounds are met; and across New Year one day is enough. */
  lemma BoundsAreTight()
    ensures var a, b := Date(2023, 1, 1), Date(2023, 2, 1);
      !Due(AsParsed(a), b) && DayOfYear(b) == DayOfYear(a) + 31
    ensures var a, b := Date(2023, 1, 31), Date(2023, 3, 1);
      Due(AsParsed(a), b) && DayOfYear(b) == DayOfYear(a) + 29
    ensures Due(AsParsed(Date(2023, 12, 31)), Date(2024, 1, 1))
  {
    assert DaysBefore(2023, 2) == 31;
  }

  // ---------- one start-up ----------

  /** config.yaml, of which only the persisted date matters here. */
  class ConfigFile {
    var lastBackupTime: string

    constructor (lastBackupTime: string)
      ensures this.lastBackupTime == lastBackupTime
    {
      this.lastBackupTime := lastBackupTime;
    }
  }

  /** `lastDate` is the date as loaded into memory; only the file is rewritten. A malformed date throws
      before anything is written. */
  method CheckDate(lastDate: string, now: Date, file: ConfigFile) returns (due: Result<bool>)
    modifies file
    ensures due == match Parse(lastDate)
                   case Success(origin) => Success(Due(origin, now))
                   case Failure(e) => Failure(e)
    ensures file.lastBackupTime == if due == Success(true) then Print(now) else old(file.lastBackupTime)
    ensures Parse(lastDate).Success? ==>
      var d := Parse(lastDate).value;
      due == Success(d.year != now.year || d.month + 1 < now.month || (d.month + 1 == now.month && d.day < now.day))
  {
    var originDate :- Parse(lastDate);
    if originDate.year != now.year {
      file.lastBackupTime := Print(now);
      return Success(true);
    }
    if now.month - originDate.month > 1 {
      file.lastBackupTime := Print(now);
      return Success(true);
    }
    if now.day > originDate.day && now.month - originDate.month == 1 {
      file.lastBackupTime := Print(now);
      return Success(true);
    }
    return Success(false);
  }

  // ---------- many start-ups ----------

  /** The persisted string after the start-ups on `dates`. Each loads the file and checks it. */
  function Persisted(stored: string, dates: seq<Date>): string {
    if dates == [] then stored
    else
      var s, now := Persisted(stored, dates[..|dates| - 1]), dates[|dates| - 1];
      if BacksUp(s, now) then Print(now) else s
  }

  predicate BacksUp(stored: string, now: Date) {
    Parse(stored).Success? && Due(Parse(stored).value, now)
  }

  /** The dates of the backups made. */
  function Backups(stored: string, dates: seq<Date>): seq<Date> {
    if dates == [] then []
    else
      var front, now := dates[..|dates| - 1], dates[|dates| - 1];
      Backups(stored, front) + if BacksUp(Persisted(stored, front), now) then [now] else []
  }

  /** The driver: every start-up of the process, on the given dates. */
  method StartUps(file: ConfigFile, dates: seq<Date>) returns (made: seq<Date>)
    modifies file
    ensures file.lastBackupTime == Persisted(old(file.lastBackupTime), dates)
    ensures made == Backups(old(file.lastBackupTime), dates)
  {
    made := [];
    ghost var stored := file.lastBackupTime;
    for i := 0 to |dates|
      invariant file.lastBackupTime == Persisted(stored, dates[..i])
      invariant made == Backups(stored, dates[..i])
    {
      assert dates[..i + 1][..i] == dates[..i];
      var due := CheckDate(file.lastBackupTime, dates[i], file);
      if due == Success(true) {
        made := made + [dates[i]];
      }
    }
    assert dates[..|dates|] == dates;
  }

  function Latest(origin: Date, made: seq<Date>): Date {
    if made == [] then origin else made[|made| - 1]
  }

  /** The same without strings: each start-up compares with the latest backup itself. */
  function Made(origin: Date, dates: seq<Date>): seq<Date> {
    if dates == [] then []
    else
      var made, now := Made(origin, dates[..|dates| - 1]), dates[|dates| - 1];
      made + if Due(AsParsed(Latest(origin, made)), now) then [now] else []
  }

  /** The start-ups are on dates that can be persisted, wherever the clock stands. */
  ghost predicate AllPersistable(dates: seq<Date>) {
    forall i | 0 <= i < |dates| :: Persistable(dates[i])
  }

  lemma {:induction false} LatestIsPersistable(origin: Date, dates: seq<Date>)
    requires Persistable(origin) && AllPersistable(dates)
    ensures Persistable(Latest(origin, Made(origin, dates)))
  {
    if dates == [] {
    } else {
      LatestIsPersistable(origin, dates[..|dates| - 1]);
    }
  }

  lemma BacksUpIffDue(latest: Date, now: Date)
    requires Persistable(latest)
    ensures Parse(Print(latest)) == Success(AsParsed(latest))
    ensures BacksUp(Print(latest), now) <==> Due(AsParsed(latest), now)
  {
    FourDigitDatesReturn(latest);
  }

  lemma OneMoreStartUp(stored: string, origin: Date, front: seq<Date>, now: Date)
    requires Persisted(stored, front) == Print(Latest(origin, Made(origin, front)))
    requires Backups(stored, front) == Made(origin, front)
    requires Persistable(Latest(origin, Made(origin, front)))
    ensures Persisted(stored, front + [now]) == Print(Latest(origin, Made(origin, front + [now])))
    ensures Backups(stored, front + [now]) == Made(origin, front + [now])
  {
    BacksUpIffDue(Latest(origin, Made(origin, front)), now);
    assert (front + [now])[..|front|] == front;
    var made := Made(origin, front);
    assert made + [] == made;
  }

  /** Over all start-ups, with the clock set back or not, the stored string is the printed form of the latest
      backup. So the persisted process makes exactly the backups of the process without strings. */
  lemma {:induction false} StoredDateIsLatestBackup(origin: Date, dates: seq<Date>)
    requires Persistable(origin) && AllPersistable(dates)
    ensures Backups(Print(origin), dates) == Made(origin, dates)
    ensures Persisted(Print(origin), dates) == Print(Latest(origin, Made(origin, dates)))
  {
    if dates == [] {
    } else {
      var front, now := dates[..|dates| - 1], dates[|dates| - 1];
      StoredDateIsLatestBackup(origin, front);
      LatestIsPersistable(origin, front);
      OneMoreStartUp(Print(origin), origin, front, now);
      assert front + [now] == dates;
    }
  }

  /** So the stored string can always be parsed. */
  lemma StoredDateIsReadable(origin: Date, dates: seq<Date>)
    requires Persistable(origin) && AllPersistable(dates)
    ensures Parse(Persisted(Print(origin), dates)) == Success(AsParsed(Latest(origin, Made(origin, dates))))
  {
    StoredDateIsLatestBackup(origin, dates);
    LatestIsPersistable(origin, dates);
    BacksUpIffDue(Latest(origin, Made(origin, dates)), origin);
  }

  /** The clock is never set back. */
  ghost predicate Chronological(origin: Date, dates: seq<Date>) {
    && (forall i | 0 <= i < |dates| :: NotAfter(origin, dates[i]))
    && (forall i, j | 0 <= i < j < |dates| :: NotAfter(dates[i], dates[j]))
  }

  lemma {:induction false} LatestIsPast(origin: Date, dates: seq<Date>)
    requires Chronological(origin, dates) && dates != []
    ensures NotAfter(Latest(origin, Made(origin, dates)), dates[|dates| - 1])
  {
    var front, now := dates[..|dates| - 1], dates[|dates| - 1];
    if front == [] {
    } else {
      LatestIsPast(origin, front);
      assert NotAfter(front[|front| - 1], now);
    }
  }

  lemma LatestIsRecent(origin: Date, dates: seq<Date>)
    requires Persistable(origin) && AllPersistable(dates) && dates != []
    ensures !Due(AsParsed(Latest(origin, Made(origin, dates))), dates[|dates| - 1])
  {
    var front, now := dates[..|dates| - 1], dates[|dates| - 1];
    assert dates == front + [now];
    MadePush(origin, front, now);
  }

  /** After every start-up the recorded backup is from the year of the start-up and at most 31 days old, and
      starting again on the same day makes none. It is not in the future unless the clock was set back. */
  lemma BackupIsAlwaysRecent(origin: Date, dates: seq<Date>)
    requires Persistable(origin) && AllPersistable(dates) && dates != []
    ensures var latest, now := Latest(origin, Backups(Print(origin), dates)), dates[|dates| - 1];
      && latest.year == now.year
      && DayOfYear(now) <= DayOfYear(latest) + 31
      && !BacksUp(Persisted(Print(origin), dates), now)
      && (Chronological(origin, dates) ==> DayOfYear(latest) <= DayOfYear(now))
  {
    var latest, now := Latest(origin, Made(origin, dates)), dates[|dates| - 1];
    StoredDateIsLatestBackup(origin, dates);
    LatestIsPersistable(origin, dates);
    LatestIsRecent(origin, dates);
    BacksUpIffDue(latest, now);
    NotDueIsRecent(latest, now);
    if Chronological(origin, dates) {
      LatestIsPast(origin, dates);
    }
  }

  /** One more start-up backs up exactly if it is in another year than the latest backup, or after the same day of
      the following month. */
  lemma StartUpBacksUpIff(origin: Date, dates: seq<Date>, now: Date)
    requires Persistable(origin) && AllPersistable(dates) && Persistable(now)
    ensures var made := Backups(Print(origin), dates);
      var latest := Latest(origin, made);
      Backups(Print(origin), dates + [now]) == made +
        if latest.year != now.year || !NotAfter(now, Date(latest.year, latest.month + 1, latest.day)) then [now] else []
  {
    StoredDateIsLatestBackup(origin, dates);
    StoredDateIsLatestBackup(origin, dates + [now]);
    DueIffMonthIsOver(Latest(origin, Made(origin, dates)), now);
    assert (dates + [now])[..|dates|] == dates;
  }

  /** From the shipped date, a month and a day later, and a day before that. */
  lemma ShippedDateIsDue()
    ensures BacksUp("20230220", Date(2023, 3, 21)) && !BacksUp("20230220", Date(2023, 3, 20))
  {
    ShippedDate();
  }

  /** Neighbours in one year are at least 29 days apart. */
  ghost predicate Spaced(made: seq<Date>) {
    forall i, j | 0 <= i && j == i + 1 < |made| && made[i].year == made[j].year ::
      DayOfYear(made[i]) + 29 <= DayOfYear(made[j])
  }

  lemma {:induction false} MadeAreSpaced(origin: Date, dates: seq<Date>)
    requires Persistable(origin) && AllPersistable(dates)
    ensures Spaced(Made(origin, dates))
  {
    if dates == [] {
    } else {
      var front, now := dates[..|dates| - 1], dates[|dates| - 1];
      MadeAreSpaced(origin, front);
      LatestIsPersistable(origin, front);
      var made := Made(origin, front);
      if !Due(AsParsed(Latest(origin, made)), now) {
        assert made + [] == made;
      } else if made != [] && made[|made| - 1].year == now.year {
        DueInSameYearIsOld(made[|made| - 1], now);
      }
    }
  }

  /** Consecutive backups in one year are at least 29 days apart, with the clock set back or not. */
  lemma BackupsAreSpaced(origin: Date, dates: seq<Date>)
    requires Persistable(origin) && AllPersistable(dates)
    ensures Spaced(Backups(Print(origin), dates))
  {
    StoredDateIsLatestBackup(origin, dates);
    MadeAreSpaced(origin, dates);
  }

  // ---------- how many backups a year ----------

  function InYear(made: seq<Date>, year: nat): nat {
    if made == [] then 0
    else InYear(made[..|made| - 1], year) + if made[|made| - 1].year == year then 1 else 0
  }

  /** How often the clock comes to `year`: the stretches of successive start-ups that fall in it. */
  function Stretches(dates: seq<Date>, year: nat): nat {
    if dates == [] then 0
    else
      var front, now := dates[..|dates| - 1], dates[|dates| - 1];
      Stretches(front, year)
      + if now.year == year && (front == [] || front[|front| - 1].year != year) then 1 else 0
  }

  /** The months of `year` after the latest backup, while the clock is in that year. */
  function MonthsLeft(latest: Date, dates: seq<Date>, year: nat): int {
    if dates != [] && dates[|dates| - 1].year == year then 12 - latest.month else 0
  }

  lemma MadePush(origin: Date, front: seq<Date>, now: Date)
    ensures var made := Made(origin, front);
      Made(origin, front + [now]) == if Due(AsParsed(Latest(origin, made)), now) then made + [now] else made
  {
    assert (front + [now])[..|front|] == front;
    assert Made(origin, front) + [] == Made(origin, front);
  }

  lemma CountsPush(dates: seq<Date>, now: Date, year: nat)
    ensures InYear(dates + [now], year) == InYear(dates, year) + if now.year == year then 1 else 0
    ensures Stretches(dates + [now], year)
         == Stretches(dates, year)
            + if now.year == year && (dates == [] || dates[|dates| - 1].year != year) then 1 else 0
  {
    assert (dates + [now])[..|dates|] == dates;
  }

  lemma MonthUsedUp(origin: Date, front: seq<Date>, now: Date, year: nat)
    requires Persistable(origin) && AllPersistable(front) && Persistable(now)
    ensures var latest, latest' := Latest(origin, Made(origin, front)), Latest(origin, Made(origin, front + [now]));
      && InYear(Made(origin, front + [now]), year) + MonthsLeft(latest', front + [now], year)
         <= InYear(Made(origin, front), year) + MonthsLeft(latest, front, year)
            + 12 * (Stretches(front + [now], year) - Stretches(front, year))
  {
    var made, latest := Made(origin, front), Latest(origin, Made(origin, front));
    MadePush(origin, front, now);
    CountsPush(made, now, year);
    CountsPush(front, now, year);
    LatestIsPersistable(origin, front);
    if front != [] {
      LatestIsRecent(origin, front);
      assert latest.year == front[|front| - 1].year;
    }
    if Due(AsParsed(latest), now) && latest.year == now.year {
      DueInSameYearIsOld(latest, now);
    }
  }

  lemma {:induction false} MadeWithinStretches(origin: Date, dates: seq<Date>, year: nat)
    requires Persistable(origin) && AllPersistable(dates)
    ensures InYear(Made(origin, dates), year) + MonthsLeft(Latest(origin, Made(origin, dates)), dates, year)
         <= 12 * Stretches(dates, year)
  {
    if dates == [] {
    } else {
      var front, now := dates[..|dates| - 1], dates[|dates| - 1];
      MadeWithinStretches(origin, front, year);
      MonthUsedUp(origin, front, now, year);
      assert front + [now] == dates;
    }
  }

  /** However often the program is started, and wherever the clock goes, it makes at most twelve backups each
      time that the clock comes to a calendar year. */
  lemma TwelveBackupsAStretch(origin: Date, dates: seq<Date>, year: nat)
    requires Persistable(origin) && AllPersistable(dates)
    ensures InYear(Backups(Print(origin), dates), year) <= 12 * Stretches(dates, year)
  {
    StoredDateIsLatestBackup(origin, dates);
    MadeWithinStretches(origin, dates, year);
    LatestIsPersistable(origin, dates);
  }

  /** The clock is never set back across New Year. */
  ghost predicate YearsAdvance(dates: seq<Date>) {
    forall i, j | 0 <= i < j < |dates| :: dates[i].year <= dates[j].year
  }

  lemma {:induction false} OneStretch(dates: seq<Date>, year: nat)
    requires YearsAdvance(dates)
    ensures Stretches(dates, year) <= 1
    ensures Stretches(dates, year) == 1 ==> dates != [] && year <= dates[|dates| - 1].year
  {
    if dates == [] {
    } else {
      OneStretch(dates[..|dates| - 1], year);
    }
  }

  /** So it makes at most twelve a year unless the clock is set back across New Year. */
  lemma AtMostTwelveBackupsAYear(origin: Date, dates: seq<Date>, year: nat)
    requires Persistable(origin) && AllPersistable(dates) && YearsAdvance(dates)
    ensures InYear(Backups(Print(origin), dates), year) <= 12
  {
    TwelveBackupsAStretch(origin, dates, year);
    OneStretch(dates, year);
  }

  /** Every start-up is in another year than the one before. */
  ghost predicate YearsChange(origin: Date, dates: seq<Date>) {
    && (dates != [] ==> origin.year != dates[0].year)
    && (forall i | 0 < i < |dates| :: dates[i - 1].year != dates[i].year)
  }

  lemma {:induction false} YearChangesAreMade(origin: Date, dates: seq<Date>)
    requires YearsChange(origin, dates)
    ensures Made(origin, dates) == dates
  {
    if dates == [] {
    } else {
      var front, now := dates[..|dates| - 1], dates[|dates| - 1];
      YearChangesAreMade(origin, front);
      assert Latest(origin, front).year != now.year;
      assert front + [now] == dates;
    }
  }

  /** If it is, there is no bound: a clock that changes the year with every start-up makes every start-up back
      up. */
  lemma EveryYearChangeBacksUp(origin: Date, dates: seq<Date>)
    requires Persistable(origin) && AllPersistable(dates) && YearsChange(origin, dates)
    ensures Backups(Print(origin), dates) == dates
  {
    StoredDateIsLatestBackup(origin, dates);
    YearChangesAreMade(origin, dates);
  }
}
