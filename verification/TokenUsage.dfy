/** Token-usage roll-up: raw logs become daily, weekly and monthly rows and are then deleted.
    crates/nilbox-core/src/config_store.rs (the SQL statements) and
    `run_token_usage_maintenance` in crates/nilbox-core/src/service.rs. */
module TokenUsage {
  import opened Bytes
  import opened Calendar
  import opened Runs

  datatype Key = Key(vm: string, provider: string)

  datatype Log = Log(key: Key, created: nat, request: int, response: int, total: int)

  datatype Totals = Totals(request: int, response: int, total: int, count: nat)

  /** A daily row is keyed by its day, a weekly row by the Sunday it starts on, a monthly row
      by its month. */
  type Rows = map<(Key, int), Totals>

  datatype Tables = Tables(logs: seq<Log>, daily: Rows, weekly: Rows, monthly: Rows)

  const EMPTY := Tables([], map[], map[], map[])
  const RETENTION: int := 60
  const ZERO := Totals(0, 0, 0, 0)

  function Add(a: Totals, b: Totals): Totals {
    Totals(a.request + b.request, a.response + b.response, a.total + b.total, a.count + b.count)
  }

  predicate Counts(l: Log, k: Key, day: int) { l.key == k && DayOf(l.created) == day }

  /** SUM and COUNT over the logs of one key and day. */
  function SumLogs(logs: seq<Log>, k: Key, day: int): Totals {
    if logs == [] then ZERO
    else
      var front, l := SumLogs(logs[..|logs| - 1], k, day), logs[|logs| - 1];
      if Counts(l, k, day) then Add(front, Totals(l.request, l.response, l.total, 1)) else front
  }

  predicate Logged(logs: seq<Log>, k: Key, day: int) { exists i :: 0 <= i < |logs| && Counts(logs[i], k, day) }

  predicate Rowed(daily: Rows, day: int) { exists r :: r in daily && r.1 == day }

  /** get_dates_needing_daily_aggregation */
  function DatesNeeding(t: Tables, from: int, to: int): set<int> {
    set l | l in t.logs && from <= DayOf(l.created) <= to && !Rowed(t.daily, DayOf(l.created)) :: DayOf(l.created)
  }

  /** The rows INSERT OR REPLACE writes when the given days are aggregated. */
  function DailyRows(logs: seq<Log>, days: set<int>): Rows {
    map l | l in logs && DayOf(l.created) in days :: (l.key, DayOf(l.created)) := SumLogs(logs, l.key, DayOf(l.created))
  }

  function Row(daily: Rows, k: Key, day: int): Totals {
    if (k, day) in daily then daily[(k, day)] else ZERO
  }

  /** The sum of `n` daily rows from `day` on. */
  function SumDaily(daily: Rows, k: Key, day: int, n: nat): Totals {
    if n == 0 then ZERO else Add(SumDaily(daily, k, day, n - 1), Row(daily, k, day + n - 1))
  }

  function WeekRows(daily: Rows, sunday: int): Rows {
    map r | r in daily && sunday <= r.1 <= sunday + 6 :: (r.0, sunday) := SumDaily(daily, r.0, sunday, 7)
  }

  /** The weekly table after aggregating every week from `sunday` to `last`. */
  function Weeks(daily: Rows, weekly: Rows, sunday: int, last: int)
    : Rows
    decreases last - sunday + 7
  {
    if sunday > last then weekly
    else Weeks(daily, weekly + WeekRows(daily, sunday), sunday + 7, last)
  }

  /** The rows of one month, each the sum of the month's daily rows. */
  function MonthRows(daily: Rows, m: int): Rows {
    map r | r in daily && InMonth(r.1, m) :: (r.0, m) := SumDaily(daily, r.0, MonthStart(m), MonthLength(m))
  }

  /** The monthly table after the `n` months before `m` were finalised. */
  function Finalised(daily: Rows, monthly: Rows, m: int, n: nat): Rows {
    if n == 0 then monthly else Finalised(daily, monthly, m, n - 1) + MonthRows(daily, m - n)
  }

  lemma OneMonthMore(daily: Rows, monthly: Rows, m: int, n: nat, before: int)
    requires before == m - (n + 1)
    ensures Finalised(daily, monthly, m, n + 1) == Finalised(daily, monthly, m, n) + MonthRows(daily, before)
  {
  }

  /** What recording a log adds to its month at once; the total is taken to be the sum of
      request and response. */
  function Upserted(monthly: Rows, l: Log): Rows {
    var r, one := (l.key, MonthOf(DayOf(l.created))), Totals(l.request, l.response, l.request + l.response, 1);
    monthly[r := if r in monthly then Add(monthly[r], one) else one]
  }

  function Recorded(t: Tables, l: Log): Tables { t.(logs := t.logs + [l], monthly := Upserted(t.monthly, l)) }

  function Kept(logs: seq<Log>, cutoff: int): seq<Log> {
    if logs == [] then []
    else
      var front, l := Kept(logs[..|logs| - 1], cutoff), logs[|logs| - 1];
      if l.created < cutoff then front else front + [l]
  }

  function Yesterday(today: int): int { today - 1 }

  function SixtyDaysAgo(today: int): int { today - RETENTION }

  function LastCompletedSunday(today: int): int { Sunday(today) - 7 }

  function Cutoff(now: int): int { now - RETENTION * DAY }

  /** One run of the maintenance job begun at `now`, whose DELETE executes at `deleteAt`. */
  function Maintain(t: Tables, now: int, deleteAt: int): Tables
    requires now >= 0
  {
    var today := DayOf(now);
    var daily := CaughtUp(t, SixtyDaysAgo(today), Yesterday(today));
    var weekly := Weeks(daily, t.weekly, Sunday(SixtyDaysAgo(today)), LastCompletedSunday(today));
    Tables(Kept(t.logs, Cutoff(deleteAt)), daily, weekly, Finalised(daily, t.monthly, MonthOf(today), 2))
  }

  /** The daily table after aggregating the days that have logs but no row. */
  function CaughtUp(t: Tables, from: int, to: int): Rows {
    t.daily + DailyRows(t.logs, DatesNeeding(t, from, to))
  }

  // ----- the store -----

  class UsageStore {
    var logs: seq<Log>
    var daily: Rows
    var weekly: Rows
    var monthly: Rows

    ghost function View(): Tables
      reads this
    {
      Tables(logs, daily, weekly, monthly)
    }

    constructor ()
      ensures View() == EMPTY
    {
      logs, daily, weekly, monthly := [], map[], map[], map[];
    }

    /** Keeps the log and adds it to its month. */
    method Record(log: Log)
      modifies this
      ensures View() == Recorded(old(View()), log)
    {
      logs := logs + [log];
      monthly := Upserted(monthly, log);
    }

    method FinalizeMonthly(m: int)
      modifies this`monthly
      ensures monthly == old(monthly) + MonthRows(daily, m)
    {
      monthly := monthly + MonthRows(daily, m);
    }

    /** Step 3: finalise the two months before `now`, counting back across the turn of the
        year. */
    method FinalizeTwoMonths(now: int)
      modifies this`monthly
      ensures monthly == Finalised(daily, old(monthly), now, 2)
    {
      var year, month := 1970 + now / 12, now % 12 + 1;
      for i := 0 to 2
        invariant 1 <= month <= 12 && 12 * (year - 1970) + month - 1 == now - i
        invariant monthly == Finalised(daily, old(monthly), now, i)
      {
        month := month - 1;
        if month == 0 {
          month := 12;
          year := year - 1;
        }
        var before := 12 * (year - 1970) + month - 1;
        OneMonthMore(daily, old(monthly), now, i, before);
        FinalizeMonthly(before);
      }
    }

    method AggregateDaily(day: int)
      modifies this`daily
      ensures daily == old(daily) + DailyRows(logs, {day})
    {
      daily := daily + DailyRows(logs, {day});
    }

    method AggregateWeekly(sunday: int)
      modifies this`weekly
      ensures weekly == old(weekly) + WeekRows(daily, sunday)
    {
      weekly := weekly + WeekRows(daily, sunday);
    }

    method DeleteOld(cutoff: int)
      modifies this`logs
      ensures logs == Kept(old(logs), cutoff)
    {
      var kept, i := [], 0;
      while i < |logs|
        invariant 0 <= i <= |logs| && kept == Kept(logs[..i], cutoff)
      {
        assert logs[..i + 1][..i] == logs[..i];
        if logs[i].created >= cutoff {
          kept := kept + [logs[i]];
        }
        i := i + 1;
      }
      assert logs[..i] == logs;
      logs := kept;
    }

    /** Step 1 of the job: aggregate the past days that have logs but no row. */
    method CatchUpDaily(from: int, to: int)
      modifies this`daily
      ensures daily == CaughtUp(old(View()), from, to)
    {
      var dates := DatesNeeding(Tables(logs, daily, weekly, monthly), from, to);
      ghost var all := dates;
      while dates != {}
        invariant dates <= all
        invariant daily == old(daily) + DailyRows(logs, all - dates)
        decreases dates
      {
        var date :| date in dates;
        DailyRowsUnion(old(daily), logs, all - dates, date);
        AggregateDaily(date);
        assert all - (dates - {date}) == (all - dates) + {date};
        dates := dates - {date};
      }
      assert all - {} == all;
    }

    /** Step 2: aggregate the completed weeks from the one starting at `first`. */
    method CatchUpWeekly(first: int, lastCompletedSunday: int)
      modifies this`weekly
      ensures weekly == Weeks(daily, old(weekly), first, lastCompletedSunday)
    {
      var weekStart := first;
      while weekStart <= lastCompletedSunday
        invariant Weeks(daily, weekly, weekStart, lastCompletedSunday)
               == Weeks(daily, old(weekly), first, lastCompletedSunday)
        decreases lastCompletedSunday - weekStart + 7
      {
        AggregateWeekly(weekStart);
        weekStart := weekStart + 7;
      }
    }

    method RunMaintenance(now: int, deleteAt: int)
      requires now >= 0
      modifies this
      ensures View() == Maintain(old(View()), now, deleteAt)
    {
      var today := DayOf(now);
      CatchUpDaily(SixtyDaysAgo(today), Yesterday(today));
      CatchUpWeekly(Sunday(SixtyDaysAgo(today)), LastCompletedSunday(today));
      FinalizeTwoMonths(MonthOf(today));
      DeleteOld(Cutoff(deleteAt));
    }
  }

  lemma DailyRowsUnion(daily: Rows, logs: seq<Log>, days: set<int>, day: int)
    ensures (daily + DailyRows(logs, days)) + DailyRows(logs, {day}) == daily + DailyRows(logs, days + {day})
  {
  }

  // ----- what the statements write -----

  lemma CaughtUpAt(t: Tables, from: int, to: int, k: Key, day: int)
    ensures var r, daily := (k, day), CaughtUp(t, from, to);
      if from <= day <= to && !Rowed(t.daily, day) && Logged(t.logs, k, day)
      then r in daily && daily[r] == SumLogs(t.logs, k, day)
      else (r in daily <==> r in t.daily) && (r in t.daily ==> daily[r] == t.daily[r])
  {
    var days := DatesNeeding(t, from, to);
    if Logged(t.logs, k, day) {
      var i :| 0 <= i < |t.logs| && Counts(t.logs[i], k, day);
      assert t.logs[i] in t.logs;
    }
    assert (k, day) in DailyRows(t.logs, days) ==> Logged(t.logs, k, day) && day in days;
    assert day in days ==> from <= day <= to && !Rowed(t.daily, day);
    assert (k, day) in t.daily ==> Rowed(t.daily, day);
  }

  /** Some of the `n` days from `day` on has a row. */
  predicate HasRows(daily: Rows, k: Key, day: int, n: nat) {
    exists r :: r in daily && r.0 == k && day <= r.1 < day + n
  }

  predicate Visited(sunday: int, first: int, last: int) { first <= sunday <= last && (sunday - first) % 7 == 0 }

  lemma {:induction false} WeeksAt(daily: Rows, weekly: Rows, first: int, last: int, k: Key, sunday: int)
    ensures var r, w := (k, sunday), Weeks(daily, weekly, first, last);
      if Visited(sunday, first, last) && HasRows(daily, k, sunday, 7)
      then r in w && w[r] == SumDaily(daily, k, sunday, 7)
      else (r in w <==> r in weekly) && (r in weekly ==> w[r] == weekly[r])
    decreases last - first + 7
  {
    if first > last {
    } else {
      var next := weekly + WeekRows(daily, first);
      WeeksAt(daily, next, first + 7, last, k, sunday);
      WeekRowsAt(daily, first, k, sunday);
      VisitedNext(sunday, first, last);
    }
  }

  lemma WeekRowsAt(daily: Rows, first: int, k: Key, sunday: int)
    ensures (k, sunday) in WeekRows(daily, first) <==> sunday == first && HasRows(daily, k, first, 7)
    ensures (k, sunday) in WeekRows(daily, first) ==>
      WeekRows(daily, first)[(k, sunday)] == SumDaily(daily, k, sunday, 7)
  {
  }

  lemma VisitedNext(sunday: int, first: int, last: int)
    requires first <= last
    ensures Visited(sunday, first, last) <==> sunday == first || Visited(sunday, first + 7, last)
    ensures Visited(sunday, first + 7, last) ==> sunday != first
  {
  }

  lemma {:induction false} SumDailySame(a: Rows, b: Rows, k: Key, day: int, n: nat)
    requires forall i :: day <= i < day + n ==> Row(a, k, i) == Row(b, k, i)
    ensures SumDaily(a, k, day, n) == SumDaily(b, k, day, n)
  {
    if n == 0 {
    } else {
      SumDailySame(a, b, k, day, n - 1);
    }
  }

  // ----- logs kept and logs ever recorded -----

  lemma {:induction false} SumOfKept(all: seq<Log>, cutoff: int, k: Key, day: int)
    requires cutoff <= day * DAY
    ensures SumLogs(Kept(all, cutoff), k, day) == SumLogs(all, k, day)
    ensures Logged(Kept(all, cutoff), k, day) <==> Logged(all, k, day)
  {
    if all == [] {
    } else {
      var front, l := all[..|all| - 1], all[|all| - 1];
      SumOfKept(front, cutoff, k, day);
      LoggedSnoc(front, l, k, day);
      LoggedSnoc(Kept(front, cutoff), l, k, day);
      assert all == front + [l];
      assert DayOf(l.created) == day ==> l.created >= day * DAY;
      assert (Kept(front, cutoff) + [l])[..|Kept(front, cutoff)|] == Kept(front, cutoff);
    }
  }

  lemma LoggedSnoc(logs: seq<Log>, l: Log, k: Key, day: int)
    ensures Logged(logs + [l], k, day) <==> Logged(logs, k, day) || Counts(l, k, day)
    ensures SumLogs(logs + [l], k, day)
         == if Counts(l, k, day) then Add(SumLogs(logs, k, day), Totals(l.request, l.response, l.total, 1))
            else SumLogs(logs, k, day)
  {
    var more := logs + [l];
    assert more[..|more| - 1] == logs && more[|more| - 1] == l;
    if Logged(logs, k, day) {
      var i :| 0 <= i < |logs| && Counts(logs[i], k, day);
      assert Counts(more[i], k, day);
    }
  }

  lemma KeptSnoc(logs: seq<Log>, l: Log, cutoff: int)
    ensures Kept(logs + [l], cutoff) == if l.created < cutoff then Kept(logs, cutoff) else Kept(logs, cutoff) + [l]
  {
    var more := logs + [l];
    assert more[..|more| - 1] == logs && more[|more| - 1] == l;
  }

  lemma {:induction false} KeptCounts(logs: seq<Log>, cutoff: int, l: Log)
    ensures multiset(Kept(logs, cutoff))[l] == if l.created < cutoff then 0 else multiset(logs)[l]
  {
    if logs == [] {
    } else {
      var front := logs[..|logs| - 1];
      KeptCounts(front, cutoff, l);
      assert logs == front + [logs[|logs| - 1]];
    }
  }

  lemma {:induction false} KeptTwice(logs: seq<Log>, a: int, b: int)
    ensures Kept(Kept(logs, a), b) == Kept(logs, if a < b then b else a)
  {
    if logs == [] {
    } else {
      var front, l := logs[..|logs| - 1], logs[|logs| - 1];
      KeptTwice(front, a, b);
      KeptSnoc(Kept(front, a), l, b);
    }
  }

  // ----- runs -----

  /** The tables, with everything ever recorded, the clock, the latest deletion bound, the
      day of the last maintenance, whether none came more than 60 days after the maintenance
      before it (the first: after the first log), and the months in which maintenance ran. */
  datatype World = World(t: Tables, all: seq<Log>, now: int, cutoff: int, last: Option<int>, punctual: bool,
                         jobs: set<int>)

  datatype Step =
    | Tick(to: int)
    | Record(key: Key, request: int, response: int, total: int)
    | Maintenance(deleteAt: int)

  const START := World(EMPTY, [], 0, Cutoff(0), None, true, {})

  /** Time does not run backwards, and one maintenance takes less than 60 days. */
  predicate Enabled(w: World, step: Step) {
    match step
    case Tick(to) => w.now <= to
    case Record(_, _, _, _) => w.now >= 0
    case Maintenance(deleteAt) => 0 <= w.now <= deleteAt && DayOf(deleteAt) < DayOf(w.now) + RETENTION
  }

  predicate OnTime(w: World) {
    var today := DayOf(w.now);
    match w.last
    case Some(day) => today <= day + RETENTION
    case None => forall i :: 0 <= i < |w.all| ==> SixtyDaysAgo(today) <= DayOf(w.all[i].created)
  }

  function Apply(w: World, step: Step): World
    requires Enabled(w, step)
  {
    match step
    case Tick(to) => w.(now := to)
    case Record(key, request, response, total) =>
      var l := Log(key, w.now, request, response, total);
      w.(t := Recorded(w.t, l), all := w.all + [l])
    case Maintenance(deleteAt) =>
      World(Maintain(w.t, w.now, deleteAt), w.all, deleteAt,
            if w.cutoff < Cutoff(deleteAt) then Cutoff(deleteAt) else w.cutoff,
            Some(DayOf(w.now)), w.punctual && OnTime(w), w.jobs + {MonthOf(DayOf(w.now))})
  }

  ghost predicate Next(w: World, v: World) { exists step :: Enabled(w, step) && v == Apply(w, step) }

  /** The day before which the roll-up has been done. */
  function Done(w: World): int { if w.last.Some? then w.last.value else SixtyDaysAgo(0) }

  ghost predicate ClockOk(w: World) {
    && w.now >= 0 && w.t.logs == Kept(w.all, w.cutoff)
    && (forall i :: 0 <= i < |w.all| ==> w.all[i].created <= w.now)
    && w.cutoff <= Cutoff(w.now) && w.cutoff <= Done(w) * DAY && Done(w) <= DayOf(w.now)
    && (w.last.None? ==> w.t.daily == map[] && w.t.weekly == map[])
  }

  ghost predicate DailyOk(w: World, k: Key, day: int) {
    && ((k, day) in w.t.daily ==>
          day < Done(w) && Logged(w.all, k, day) && w.t.daily[(k, day)] == SumLogs(w.all, k, day))
    && (Rowed(w.t.daily, day) && Logged(w.all, k, day) ==> (k, day) in w.t.daily)
    && (SixtyDaysAgo(Done(w)) <= day < Done(w) && Logged(w.all, k, day) ==> (k, day) in w.t.daily)
    && (w.punctual && day < Done(w) && Logged(w.all, k, day) ==> (k, day) in w.t.daily)
  }

  ghost predicate WeeklyOk(w: World, k: Key, sunday: int) {
    && ((k, sunday) in w.t.weekly ==>
          && Sunday(sunday) == sunday && sunday + 6 < Done(w)
          && w.t.weekly[(k, sunday)] == SumDaily(w.t.daily, k, sunday, 7))
    && (w.punctual && Sunday(sunday) == sunday && sunday + 7 <= Sunday(Done(w)) && HasRows(w.t.daily, k, sunday, 7) ==>
          (k, sunday) in w.t.weekly)
  }

  ghost predicate LoggedIn(all: seq<Log>, k: Key, day: int, n: nat) {
    exists d :: day <= d < day + n && Logged(all, k, d)
  }

  /** The sum of all logs of the `n` days from `day` on. */
  ghost function SumSpan(all: seq<Log>, k: Key, day: int, n: nat): Totals {
    if n == 0 then ZERO else Add(SumSpan(all, k, day, n - 1), SumLogs(all, k, day + n - 1))
  }

  /** The total taken to be the sum of request and response. */
  function Eager(t: Totals): Totals { t.(total := t.request + t.response) }

  /** Maintenance ran in one of the two months after `m`. */
  predicate Job(w: World, m: int) { m + 1 in w.jobs || m + 2 in w.jobs }

  ghost predicate JobsOk(w: World) { forall m :: m in w.jobs ==> w.last.Some? && MonthStart(m) <= Done(w) }

  lemma JobComesAfter(w: World, m: int)
    requires JobsOk(w) && Job(w, m)
    ensures w.last.Some? && MonthStart(m) + MonthLength(m) <= Done(w)
  {
    MonthsAscend(m, m + 1);
    MonthsAscend(m, m + 2);
  }

  /** What the row of a month holds: the sum of its daily rows if maintenance ran in one of the
      two months after it and found any, and else what recording added up. */
  ghost function MonthRow(w: World, k: Key, m: int): Totals {
    if Job(w, m) && HasRows(w.t.daily, k, MonthStart(m), MonthLength(m))
    then SumDaily(w.t.daily, k, MonthStart(m), MonthLength(m))
    else Eager(SumSpan(w.all, k, MonthStart(m), MonthLength(m)))
  }

  /** A month has a row exactly when it was logged. */
  ghost predicate MonthlyOk(w: World, k: Key, m: int) {
    && ((k, m) in w.t.monthly <==> LoggedIn(w.all, k, MonthStart(m), MonthLength(m)))
    && ((k, m) in w.t.monthly ==> w.t.monthly[(k, m)] == MonthRow(w, k, m))
  }

  ghost predicate Safe(w: World) {
    && ClockOk(w)
    && (forall k, day :: DailyOk(w, k, day))
    && (forall k, sunday :: WeeklyOk(w, k, sunday))
    && JobsOk(w) && (forall k, m :: MonthlyOk(w, k, m))
  }

  lemma {:induction false} SpanSnoc(all: seq<Log>, l: Log, k: Key, day: int, n: nat)
    ensures var one := Totals(l.request, l.response, l.total, 1);
      SumSpan(all + [l], k, day, n)
      == if l.key == k && day <= DayOf(l.created) < day + n then Add(SumSpan(all, k, day, n), one) else SumSpan(all, k, day, n)
  {
    if n == 0 {
    } else {
      SpanSnoc(all, l, k, day, n - 1);
      LoggedSnoc(all, l, k, day + n - 1);
    }
  }

  lemma LoggedInSnoc(all: seq<Log>, l: Log, k: Key, day: int, n: nat)
    ensures LoggedIn(all + [l], k, day, n) <==>
      LoggedIn(all, k, day, n) || (l.key == k && day <= DayOf(l.created) < day + n)
  {
    if LoggedIn(all + [l], k, day, n) {
      var d :| day <= d < day + n && Logged(all + [l], k, d);
      LoggedSnoc(all, l, k, d);
    }
    if LoggedIn(all, k, day, n) {
      var d :| day <= d < day + n && Logged(all, k, d);
      LoggedSnoc(all, l, k, d);
      assert Logged(all + [l], k, d);
    }
    if l.key == k && day <= DayOf(l.created) < day + n {
      LoggedSnoc(all, l, k, DayOf(l.created));
      assert Logged(all + [l], k, DayOf(l.created));
    }
  }

  lemma {:induction false} NotLoggedInIsZero(all: seq<Log>, k: Key, day: int, n: nat)
    ensures !LoggedIn(all, k, day, n) ==> SumSpan(all, k, day, n) == ZERO
  {
    if n == 0 {
    } else {
      NotLoggedInIsZero(all, k, day, n - 1);
      NotLoggedIsZero(all, k, day + n - 1);
      if LoggedIn(all, k, day, n - 1) {
        var d :| day <= d < day + (n - 1) && Logged(all, k, d);
      }
    }
  }

  lemma RecordKeepsMonthly(w: World, v: World, l: Log, k: Key, m: int)
    requires ClockOk(w) && JobsOk(w) && MonthlyOk(w, k, m) && l.created == w.now
    requires v.all == w.all + [l] && v.t.daily == w.t.daily && v.t.monthly == Upserted(w.t.monthly, l) && v.jobs == w.jobs
    ensures MonthlyOk(v, k, m)
  {
    var day, n, today := MonthStart(m), MonthLength(m), DayOf(l.created);
    SpanSnoc(w.all, l, k, day, n);
    LoggedInSnoc(w.all, l, k, day, n);
    if InMonth(today, m) {
      MonthIsUnique(today, m, MonthOf(today));
      RecordInMonth(w, v, l, k, m);
    } else {
      assert MonthOf(today) != m;
    }
  }

  lemma RecordInMonth(w: World, v: World, l: Log, k: Key, m: int)
    requires ClockOk(w) && JobsOk(w) && MonthlyOk(w, k, m) && l.created == w.now
    requires v.all == w.all + [l] && v.t.daily == w.t.daily && v.t.monthly == Upserted(w.t.monthly, l) && v.jobs == w.jobs
    requires InMonth(DayOf(l.created), m) && MonthOf(DayOf(l.created)) == m
    ensures MonthlyOk(v, k, m)
  {
    var day, n := MonthStart(m), MonthLength(m);
    SpanSnoc(w.all, l, k, day, n);
    LoggedInSnoc(w.all, l, k, day, n);
    NotLoggedInIsZero(w.all, k, day, n);
    if Job(w, m) {
      JobComesAfter(w, m);
    }
  }

  /** A log counts only towards the day it was created on. */
  lemma RecordKeepsSafe(w: World, step: Step)
    requires Safe(w) && step.Record? && Enabled(w, step)
    ensures Safe(Apply(w, step))
  {
    var l := Log(step.key, w.now, step.request, step.response, step.total);
    LogKeepsSafe(w, l, Apply(w, step));
  }

  lemma LogKeepsSafe(w: World, l: Log, v: World)
    requires Safe(w) && l.created == w.now && v == w.(t := Recorded(w.t, l), all := w.all + [l])
    ensures Safe(v)
  {
    KeptSnoc(w.all, l, w.cutoff);
    forall k, day ensures DailyOk(v, k, day) {
      RecordKeepsDaily(w, v, l, k, day);
    }
    forall k, sunday ensures WeeklyOk(v, k, sunday) {
      assert WeeklyOk(w, k, sunday);
    }
    forall k, m ensures MonthlyOk(v, k, m) {
      assert MonthlyOk(w, k, m);
      RecordKeepsMonthly(w, v, l, k, m);
    }
  }

  lemma RecordKeepsDaily(w: World, v: World, l: Log, k: Key, day: int)
    requires ClockOk(w) && (forall k, day :: DailyOk(w, k, day)) && l.created == w.now
    requires v.all == w.all + [l] && v.t.daily == w.t.daily && v.last == w.last && v.punctual == w.punctual
    ensures DailyOk(v, k, day)
  {
    assert DailyOk(w, k, day);
    LoggedSnoc(w.all, l, k, day);
    if Rowed(w.t.daily, day) {
      var r :| r in w.t.daily && r.1 == day;
      assert DailyOk(w, r.0, day) && r == (r.0, day);
    }
  }

  lemma TickKeepsSafe(w: World, to: int)
    requires Safe(w) && w.now <= to
    ensures Safe(w.(now := to))
  {
    var v := w.(now := to);
    forall k, day ensures DailyOk(v, k, day) {
      assert DailyOk(w, k, day);
    }
    forall k, sunday ensures WeeklyOk(v, k, sunday) {
      assert WeeklyOk(w, k, sunday);
    }
    forall k, m ensures MonthlyOk(v, k, m) {
      assert MonthlyOk(w, k, m);
    }
  }

  lemma MaintenanceKeepsClock(w: World, deleteAt: int)
    requires ClockOk(w) && Enabled(w, Maintenance(deleteAt))
    ensures ClockOk(Apply(w, Maintenance(deleteAt)))
  {
    KeptTwice(w.all, w.cutoff, Cutoff(deleteAt));
  }

  /** A day that still has to be aggregated has lost none of its logs. */
  lemma Retained(w: World, k: Key, day: int)
    requires ClockOk(w) && DailyOk(w, k, day)
    requires SixtyDaysAgo(DayOf(w.now)) <= day && !Rowed(w.t.daily, day)
    ensures Logged(w.all, k, day) <==> Logged(w.t.logs, k, day)
    ensures Logged(w.all, k, day) ==> SumLogs(w.t.logs, k, day) == SumLogs(w.all, k, day)
  {
    assert (k, day) !in w.t.daily;
    if Logged(w.all, k, day) || w.cutoff <= day * DAY {
      assert w.cutoff <= day * DAY;
      SumOfKept(w.all, w.cutoff, k, day);
    } else if Logged(w.t.logs, k, day) {
      KeptLogged(w.all, w.cutoff, k, day);
    }
  }

  lemma {:induction false} KeptLogged(all: seq<Log>, cutoff: int, k: Key, day: int)
    requires Logged(Kept(all, cutoff), k, day)
    ensures Logged(all, k, day)
  {
    var front, l := all[..|all| - 1], all[|all| - 1];
    LoggedSnoc(front, l, k, day);
    LoggedSnoc(Kept(front, cutoff), l, k, day);
    assert all == front + [l];
    if Logged(Kept(front, cutoff), k, day) {
      KeptLogged(front, cutoff, k, day);
    }
  }

  lemma NewDay(t: Tables, from: int, to: int, day: int)
    requires Rowed(CaughtUp(t, from, to), day)
    ensures Rowed(t.daily, day) || from <= day <= to
  {
    var r :| r in CaughtUp(t, from, to) && r.1 == day;
    CaughtUpAt(t, from, to, r.0, day);
    assert r == (r.0, day);
    assert r in t.daily ==> Rowed(t.daily, day);
  }

  lemma MaintenanceKeepsDaily(w: World, deleteAt: int, k: Key, day: int)
    requires ClockOk(w) && Enabled(w, Maintenance(deleteAt)) && DailyOk(w, k, day)
    ensures DailyOk(Apply(w, Maintenance(deleteAt)), k, day)
  {
    var today := DayOf(w.now);
    var daily := CaughtUp(w.t, SixtyDaysAgo(today), Yesterday(today));
    CaughtUpAt(w.t, SixtyDaysAgo(today), Yesterday(today), k, day);
    if Rowed(daily, day) {
      NewDay(w.t, SixtyDaysAgo(today), Yesterday(today), day);
    }
    if SixtyDaysAgo(today) <= day && !Rowed(w.t.daily, day) {
      Retained(w, k, day);
    }
    assert (k, day) in daily ==> Rowed(daily, day);
    if Logged(w.all, k, day) {
      var i :| 0 <= i < |w.all| && Counts(w.all[i], k, day);
      assert OnTime(w) && w.last.None? ==> SixtyDaysAgo(today) <= day;
    }
  }

  /** Aggregation adds no row to days that were already aggregated. */
  lemma SpanSettled(w: World, k: Key, first: int, n: nat)
    requires ClockOk(w) && (forall day :: DailyOk(w, k, day)) && first + n <= Done(w)
    ensures var today := DayOf(w.now);
      var daily := CaughtUp(w.t, SixtyDaysAgo(today), Yesterday(today));
      && SumDaily(daily, k, first, n) == SumDaily(w.t.daily, k, first, n)
      && (HasRows(daily, k, first, n) ==> HasRows(w.t.daily, k, first, n))
  {
    var today := DayOf(w.now);
    var daily := CaughtUp(w.t, SixtyDaysAgo(today), Yesterday(today));
    forall day | first <= day < first + n
      ensures Row(daily, k, day) == Row(w.t.daily, k, day) && ((k, day) in daily ==> (k, day) in w.t.daily)
    {
      assert DailyOk(w, k, day);
      CaughtUpAt(w.t, SixtyDaysAgo(today), Yesterday(today), k, day);
      if SixtyDaysAgo(today) <= day && !Rowed(w.t.daily, day) {
        Retained(w, k, day);
      }
      assert (k, day) in w.t.daily ==> Rowed(w.t.daily, day);
    }
    SumDailySame(daily, w.t.daily, k, first, n);
    if HasRows(daily, k, first, n) {
      var r :| r in daily && r.0 == k && first <= r.1 < first + n;
      assert r == (k, r.1);
      assert r in w.t.daily;
    }
  }

  lemma MaintenanceKeepsWeekly(w: World, deleteAt: int, k: Key, sunday: int)
    requires ClockOk(w) && Enabled(w, Maintenance(deleteAt))
    requires (forall day :: DailyOk(w, k, day)) && WeeklyOk(w, k, sunday)
    ensures WeeklyOk(Apply(w, Maintenance(deleteAt)), k, sunday)
  {
    var today := DayOf(w.now);
    var daily := CaughtUp(w.t, SixtyDaysAgo(today), Yesterday(today));
    var first, last := Sunday(SixtyDaysAgo(today)), LastCompletedSunday(today);
    WeeksAt(daily, w.t.weekly, first, last, k, sunday);
    SundayFacts(sunday, SixtyDaysAgo(today), today);
    SundayFacts(sunday, SixtyDaysAgo(today), Done(w));
    if sunday + 6 < Done(w) {
      SpanSettled(w, k, sunday, 7);
    }
    if w.last.None? && OnTime(w) && HasRows(daily, k, sunday, 7) {
      FirstRunRecent(w, k, sunday);
    }
  }

  /** On a first, timely maintenance every row is of the last 60 days. */
  lemma FirstRunRecent(w: World, k: Key, sunday: int)
    requires ClockOk(w) && w.last.None? && OnTime(w)
    requires var today := DayOf(w.now); HasRows(CaughtUp(w.t, SixtyDaysAgo(today), Yesterday(today)), k, sunday, 7)
    ensures SixtyDaysAgo(DayOf(w.now)) <= sunday + 6
  {
    var today := DayOf(w.now);
    var daily := CaughtUp(w.t, SixtyDaysAgo(today), Yesterday(today));
    var r :| r in daily && r.0 == k && sunday <= r.1 < sunday + 7;
    CaughtUpAt(w.t, SixtyDaysAgo(today), Yesterday(today), k, r.1);
    assert r == (k, r.1);
  }

  /** Which monthly rows the job writes: those of the two months before the current one that
      have daily rows. */
  lemma FinalisedAt(daily: Rows, monthly: Rows, now: int, k: Key, m: int)
    ensures var r, after := (k, m), Finalised(daily, monthly, now, 2);
      if (m == now - 1 || m == now - 2) && HasRows(daily, k, MonthStart(m), MonthLength(m))
      then r in after && after[r] == SumDaily(daily, k, MonthStart(m), MonthLength(m))
      else (r in after <==> r in monthly) && (r in monthly ==> after[r] == monthly[r])
  {
    MonthRowsAt(daily, now - 1, k, m);
    MonthRowsAt(daily, now - 2, k, m);
    assert Finalised(daily, monthly, now, 2) == Finalised(daily, monthly, now, 1) + MonthRows(daily, now - 2);
    assert Finalised(daily, monthly, now, 1) == monthly + MonthRows(daily, now - 1);
  }

  lemma MonthRowsAt(daily: Rows, written: int, k: Key, m: int)
    ensures (k, m) in MonthRows(daily, written) <==> m == written && HasRows(daily, k, MonthStart(m), MonthLength(m))
    ensures (k, m) in MonthRows(daily, written) ==>
      MonthRows(daily, written)[(k, m)] == SumDaily(daily, k, MonthStart(m), MonthLength(m))
  {
    if m == written && HasRows(daily, k, MonthStart(m), MonthLength(m)) {
      var r :| r in daily && r.0 == k && MonthStart(m) <= r.1 < MonthStart(m) + MonthLength(m);
      assert InMonth(r.1, written);
    }
  }

  lemma MaintenanceKeepsMonthly(w: World, deleteAt: int, k: Key, m: int)
    requires ClockOk(w) && JobsOk(w) && Enabled(w, Maintenance(deleteAt)) && MonthlyOk(w, k, m)
    requires (forall day :: DailyOk(w, k, day)) && (forall day :: DailyOk(Apply(w, Maintenance(deleteAt)), k, day))
    ensures MonthlyOk(Apply(w, Maintenance(deleteAt)), k, m)
  {
    var v, day, n := Apply(w, Maintenance(deleteAt)), MonthStart(m), MonthLength(m);
    var now := MonthOf(DayOf(w.now));
    FinalisedAt(v.t.daily, w.t.monthly, now, k, m);
    RowsGrow(w, deleteAt, k, day, n);
    if HasRows(v.t.daily, k, day, n) {
      RowedIsLogged(v, k, day, n);
    }
    if Job(w, m) {
      JobComesAfter(w, m);
      SpanSettled(w, k, day, n);
    }
    MonthKept(w, v, k, m, now);
  }

  /** The row of a month before and after a maintenance in month `now`. */
  lemma MonthKept(w: World, v: World, k: Key, m: int, now: int)
    requires MonthlyOk(w, k, m) && v.all == w.all && v.jobs == w.jobs + {now}
    requires var old', new', day, n := w.t.daily, v.t.daily, MonthStart(m), MonthLength(m);
      && (HasRows(old', k, day, n) ==> HasRows(new', k, day, n))
      && (HasRows(new', k, day, n) ==> LoggedIn(v.all, k, day, n))
      && (Job(w, m) ==> SumDaily(new', k, day, n) == SumDaily(old', k, day, n) && (HasRows(new', k, day, n) ==> HasRows(old', k, day, n)))
      && (if (m == now - 1 || m == now - 2) && HasRows(new', k, day, n)
          then (k, m) in v.t.monthly && v.t.monthly[(k, m)] == SumDaily(new', k, day, n)
          else ((k, m) in v.t.monthly <==> (k, m) in w.t.monthly)
               && ((k, m) in w.t.monthly ==> v.t.monthly[(k, m)] == w.t.monthly[(k, m)]))
    ensures MonthlyOk(v, k, m)
  {
    assert Job(v, m) <==> Job(w, m) || m == now - 1 || m == now - 2;
  }

  /** Daily rows are never taken away. */
  lemma RowsGrow(w: World, deleteAt: int, k: Key, day: int, n: nat)
    requires Enabled(w, Maintenance(deleteAt))
    ensures HasRows(w.t.daily, k, day, n) ==> HasRows(Apply(w, Maintenance(deleteAt)).t.daily, k, day, n)
  {
    if HasRows(w.t.daily, k, day, n) {
      var r :| r in w.t.daily && r.0 == k && day <= r.1 < day + n;
      assert r in Apply(w, Maintenance(deleteAt)).t.daily;
    }
  }

  lemma RowedIsLogged(w: World, k: Key, day: int, n: nat)
    requires (forall d :: DailyOk(w, k, d)) && HasRows(w.t.daily, k, day, n)
    ensures LoggedIn(w.all, k, day, n)
  {
    var r :| r in w.t.daily && r.0 == k && day <= r.1 < day + n;
    assert r == (k, r.1);
    assert DailyOk(w, k, r.1) && Logged(w.all, k, r.1);
  }

  lemma MaintenanceKeepsJobs(w: World, deleteAt: int)
    requires ClockOk(w) && JobsOk(w) && Enabled(w, Maintenance(deleteAt))
    ensures JobsOk(Apply(w, Maintenance(deleteAt)))
  {
  }

  lemma SundayFacts(sunday: int, early: int, late: int)
    ensures Sunday(sunday) == sunday && Sunday(early) <= sunday <= Sunday(late) - 7 ==>
              Visited(sunday, Sunday(early), Sunday(late) - 7)
    ensures Visited(sunday, Sunday(early), Sunday(late) - 7) ==> Sunday(sunday) == sunday && sunday + 6 < late
    ensures Sunday(sunday) == sunday && sunday < Sunday(early) ==> sunday + 7 <= Sunday(early)
    ensures early <= late ==> Sunday(early) <= Sunday(late)
    ensures Sunday(early) <= early
    ensures Sunday(sunday) == sunday && sunday + 7 <= Sunday(late) ==> sunday + 6 < late
  {
  }

  lemma MaintenanceKeepsSafe(w: World, deleteAt: int)
    requires Safe(w) && Enabled(w, Maintenance(deleteAt))
    ensures Safe(Apply(w, Maintenance(deleteAt)))
  {
    var v := Apply(w, Maintenance(deleteAt));
    MaintenanceKeepsClock(w, deleteAt);
    forall k, day ensures DailyOk(v, k, day) {
      assert DailyOk(w, k, day);
      MaintenanceKeepsDaily(w, deleteAt, k, day);
    }
    forall k, sunday ensures WeeklyOk(v, k, sunday) {
      assert WeeklyOk(w, k, sunday);
      MaintenanceKeepsWeekly(w, deleteAt, k, sunday);
    }
    forall k, m ensures MonthlyOk(v, k, m) {
      assert MonthlyOk(w, k, m);
      MaintenanceKeepsMonthly(w, deleteAt, k, m);
    }
    MaintenanceKeepsJobs(w, deleteAt);
  }

  lemma StartIsSafe()
    ensures Safe(START)
  {
    forall k, day ensures DailyOk(START, k, day) {
    }
  }

  lemma StepKeepsSafe(w: World, step: Step)
    requires Safe(w) && Enabled(w, step)
    ensures Safe(Apply(w, step))
  {
    match step
    case Tick(to) => TickKeepsSafe(w, to);
    case Record(_, _, _, _) => RecordKeepsSafe(w, step);
    case Maintenance(deleteAt) => MaintenanceKeepsSafe(w, deleteAt);
  }

  ghost predicate Reached(w: World) { Reachable(START, Next, w) }

  lemma ReachedIsSafe(w: World)
    requires Reached(w)
    ensures Safe(w)
  {
    forall a, b | Safe(a) && Next(a, b) ensures Safe(b) {
      var step :| Enabled(a, step) && b == Apply(a, step);
      StepKeepsSafe(a, step);
    }
    StartIsSafe();
    ReachableKeeps(START, Next, Safe, w);
  }

  /** In every run the log table holds exactly the logs ever recorded that are not older than
      the last cut-off, each as often as it was recorded; and a job that deletes at `deleteAt`
      leaves none older than 60 days. */
  lemma LogsAreKept(w: World, l: Log)
    requires Reached(w)
    ensures multiset(w.t.logs)[l] == if l.created < w.cutoff then 0 else multiset(w.all)[l]
    ensures w.cutoff <= w.now - 60 * 86400
    ensures forall deleteAt :: Enabled(w, Maintenance(deleteAt)) ==> Apply(w, Maintenance(deleteAt)).cutoff == deleteAt - 60 * 86400
  {
    ReachedIsSafe(w);
    KeptCounts(w.all, w.cutoff, l);
  }

  /** In every run each daily row is the sum of all logs ever recorded for its key and day,
      also after those logs were deleted, and a day that has a row has one for every key. */
  lemma DailyRowsSurvive(w: World, k: Key, day: int)
    requires Reached(w)
    ensures (k, day) in w.t.daily ==> day < DayOf(w.now) && w.t.daily[(k, day)] == SumLogs(w.all, k, day)
    ensures Rowed(w.t.daily, day) && Logged(w.all, k, day) ==> (k, day) in w.t.daily
  {
    ReachedIsSafe(w);
    assert DailyOk(w, k, day);
  }

  /** In every run each weekly row starts on a Sunday, covers only finished days and is the
      sum of the seven daily rows as they are now; two weeks never share a day. */
  lemma WeeklyRowsSum(w: World, k: Key, sunday: int)
    requires Reached(w) && (k, sunday) in w.t.weekly
    ensures Sunday(sunday) == sunday && sunday + 6 < DayOf(w.now)
    ensures w.t.weekly[(k, sunday)] == SumDaily(w.t.daily, k, sunday, 7)
    ensures forall r :: r in w.t.weekly && r.1 != sunday ==> r.1 + 6 < sunday || sunday + 6 < r.1
  {
    ReachedIsSafe(w);
    assert WeeklyOk(w, k, sunday);
    forall r | r in w.t.weekly && r.1 != sunday ensures r.1 + 6 < sunday || sunday + 6 < r.1 {
      assert WeeklyOk(w, r.0, r.1) && r == (r.0, r.1);
      SundayFacts(sunday, r.1, r.1);
      SundayFacts(r.1, sunday, sunday);
    }
  }

  /** When maintenance is never more than 60 days apart, nothing is lost: every finished
      day that was logged has its row, and every finished week that was logged has a row
      with the sum of all logs ever recorded in its seven days. */
  lemma NothingLostWhenPunctual(w: World, k: Key, day: int)
    requires Reached(w) && w.punctual && w.last.Some?
    ensures day < w.last.value && Logged(w.all, k, day) ==> (k, day) in w.t.daily
    ensures Sunday(day) == day && day + 7 <= Sunday(w.last.value) && LoggedIn(w.all, k, day, 7) ==>
        (k, day) in w.t.weekly && w.t.weekly[(k, day)] == SumSpan(w.all, k, day, 7)
  {
    ReachedIsSafe(w);
    assert DailyOk(w, k, day);
    if Sunday(day) == day && day + 7 <= Sunday(w.last.value) && LoggedIn(w.all, k, day, 7) {
      var d :| day <= d < day + 7 && Logged(w.all, k, d);
      assert DailyOk(w, k, d);
      SundayFacts(day, day, w.last.value);
      assert (k, d) in w.t.daily;
      assert WeeklyOk(w, k, day);
      DailySumIsLogSum(w, k, day, 7);
    }
  }

  lemma {:induction false} DailySumIsLogSum(w: World, k: Key, day: int, n: nat)
    requires Safe(w) && w.punctual && w.last.Some? && day + n <= w.last.value
    ensures SumDaily(w.t.daily, k, day, n) == SumSpan(w.all, k, day, n)
  {
    if n == 0 {
    } else {
      DailySumIsLogSum(w, k, day, n - 1);
      assert DailyOk(w, k, day + n - 1);
      NotLoggedIsZero(w.all, k, day + n - 1);
    }
  }

  lemma {:induction false} NotLoggedIsZero(logs: seq<Log>, k: Key, day: int)
    ensures !Logged(logs, k, day) ==> SumLogs(logs, k, day) == ZERO
  {
    if logs == [] {
    } else {
      var front, l := logs[..|logs| - 1], logs[|logs| - 1];
      NotLoggedIsZero(front, k, day);
      LoggedSnoc(front, l, k, day);
      assert logs == front + [l];
    }
  }

  /** In every run a month has a row exactly when it was logged, and what the row holds is known:
      see `MonthRow`. So a late maintenance can put an incomplete sum of daily rows in the place
      of a complete one. */
  lemma MonthRowsAreKnown(w: World, k: Key, m: int)
    requires Reached(w)
    ensures (k, m) in w.t.monthly <==> LoggedIn(w.all, k, MonthStart(m), MonthLength(m))
    ensures (k, m) in w.t.monthly ==> w.t.monthly[(k, m)] == MonthRow(w, k, m)
  {
    ReachedIsSafe(w);
    assert MonthlyOk(w, k, m);
  }

  /** When maintenance is never more than 60 days apart, the row of every month that was logged
      has the request tokens, response tokens and number of all logs ever recorded in it. It is
      their exact sum if and only if maintenance ran in one of the two months after, or the
      total of the logs is the sum of request and response anyway. */
  lemma MonthIsExactIff(w: World, k: Key, m: int)
    requires Reached(w) && w.punctual && LoggedIn(w.all, k, MonthStart(m), MonthLength(m))
    ensures (k, m) in w.t.monthly
    ensures var sum, row := SumSpan(w.all, k, MonthStart(m), MonthLength(m)), w.t.monthly[(k, m)];
      && row.request == sum.request && row.response == sum.response && row.count == sum.count
      && (row == sum <==> Job(w, m) || sum.total == sum.request + sum.response)
  {
    MonthRowsAreKnown(w, k, m);
    if Job(w, m) {
      PunctualJob(w, k, m);
    }
  }

  lemma PunctualJob(w: World, k: Key, m: int)
    requires Reached(w) && w.punctual && LoggedIn(w.all, k, MonthStart(m), MonthLength(m)) && Job(w, m)
    ensures HasRows(w.t.daily, k, MonthStart(m), MonthLength(m))
    ensures SumDaily(w.t.daily, k, MonthStart(m), MonthLength(m)) == SumSpan(w.all, k, MonthStart(m), MonthLength(m))
  {
    ReachedIsSafe(w);
    JobComesAfter(w, m);
    var d :| MonthStart(m) <= d < MonthStart(m) + MonthLength(m) && Logged(w.all, k, d);
    assert DailyOk(w, k, d);
    assert (k, d) in w.t.daily;
    DailySumIsLogSum(w, k, MonthStart(m), MonthLength(m));
  }

  /** Right after a punctual maintenance the rows of the two months before are the exact sums. */
  lemma FinalisedMonthsAreExact(w: World, deleteAt: int, k: Key, m: int)
    requires Reached(w) && Enabled(w, Maintenance(deleteAt)) && w.punctual && OnTime(w)
    requires m == MonthOf(DayOf(w.now)) - 1 || m == MonthOf(DayOf(w.now)) - 2
    ensures var v := Apply(w, Maintenance(deleteAt));
      && ((k, m) in v.t.monthly <==> LoggedIn(w.all, k, MonthStart(m), MonthLength(m)))
      && ((k, m) in v.t.monthly ==> v.t.monthly[(k, m)] == SumSpan(w.all, k, MonthStart(m), MonthLength(m)))
  {
    var v := Take(w, Maintenance(deleteAt));
    MonthRowsAreKnown(v, k, m);
    if LoggedIn(v.all, k, MonthStart(m), MonthLength(m)) {
      MonthIsExactIff(v, k, m);
    }
  }

  /** The 60 days are exact: a maintenance gives a past, logged day its row if and only if
      the day had one or is at most 60 days old; an older day is then gone for good. */
  lemma RowIffInReach(w: World, deleteAt: int, k: Key, day: int)
    requires Reached(w) && Enabled(w, Maintenance(deleteAt))
    requires Logged(w.all, k, day) && day < DayOf(w.now)
    ensures var v := Apply(w, Maintenance(deleteAt));
      && ((k, day) in v.t.daily <==> Rowed(w.t.daily, day) || SixtyDaysAgo(DayOf(w.now)) <= day)
      && (day < SixtyDaysAgo(DayOf(w.now)) ==> !Logged(v.t.logs, k, day))
  {
    ReachedIsSafe(w);
    var today := DayOf(w.now);
    assert DailyOk(w, k, day);
    CaughtUpAt(w.t, SixtyDaysAgo(today), Yesterday(today), k, day);
    MaintenanceKeepsDaily(w, deleteAt, k, day);
    if day < SixtyDaysAgo(today) {
      assert (day + 1) * DAY <= Cutoff(deleteAt);
      KeptForgets(w.t.logs, Cutoff(deleteAt), k, day);
    }
    assert (k, day) in w.t.daily ==> Rowed(w.t.daily, day);
  }

  lemma {:induction false} KeptForgets(logs: seq<Log>, cutoff: int, k: Key, day: int)
    requires (day + 1) * DAY <= cutoff
    ensures !Logged(Kept(logs, cutoff), k, day)
  {
    if logs == [] {
    } else {
      var front, l := logs[..|logs| - 1], logs[|logs| - 1];
      KeptForgets(front, cutoff, k, day);
      LoggedSnoc(Kept(front, cutoff), l, k, day);
    }
  }

  // ----- the edge cases do occur -----

  lemma Take(w: World, step: Step) returns (v: World)
    requires Reached(w) && Enabled(w, step)
    ensures v == Apply(w, step) && Reached(v)
  {
    v := Apply(w, step);
    assert Next(w, v);
    StepIsReachable(START, Next, w, v);
  }

  /** A single log, recorded at `at`. */
  lemma OneLog(l: Log) returns (w: World)
    ensures Reached(w) && w.all == [l] && w.now == l.created && w.last == None && w.punctual
    ensures w.t.daily == map[] && Logged(w.all, l.key, DayOf(l.created))
  {
    StartIsReachable(START, Next);
    w := Take(START, Tick(l.created));
    w := Take(w, Record(l.key, l.request, l.response, l.total));
    assert w.all == [l] && Counts(w.all[0], l.key, DayOf(l.created));
  }

  lemma Later(w: World, days: nat) returns (v: World)
    requires Reached(w)
    ensures Reached(v) && v == w.(now := v.now) && DayOf(v.now) == DayOf(w.now) + days && v.now >= w.now
  {
    DaysLater(w.now, days);
    v := Take(w, Tick(w.now + days * DAY));
  }

  lemma Maintained(w: World) returns (v: World)
    requires Reached(w) && w.now >= 0
    ensures Reached(v) && v.all == w.all && v.now == w.now && v.last == Some(DayOf(w.now))
    ensures v.punctual == (w.punctual && OnTime(w)) && v.jobs == w.jobs + {MonthOf(DayOf(w.now))}
    ensures v.t.monthly == Finalised(v.t.daily, w.t.monthly, MonthOf(DayOf(w.now)), 2)
    ensures w.t.daily == map[] ==> forall k, day :: Logged(w.all, k, day) && day < DayOf(w.now) ==>
      && ((k, day) in v.t.daily <==> SixtyDaysAgo(DayOf(w.now)) <= day)
      && (day < SixtyDaysAgo(DayOf(w.now)) ==> !Logged(v.t.logs, k, day))
  {
    v := Take(w, Maintenance(w.now));
    if w.t.daily == map[] {
      forall k, day | Logged(w.all, k, day) && day < DayOf(w.now)
        ensures (k, day) in v.t.daily <==> SixtyDaysAgo(DayOf(w.now)) <= day
        ensures day < SixtyDaysAgo(DayOf(w.now)) ==> !Logged(v.t.logs, k, day)
      {
        RowIffInReach(w, w.now, k, day);
        assert !Rowed(w.t.daily, day);
      }
    }
  }

  /** A log with no maintenance until 61 days after it never gets a row. */
  lemma LateMaintenanceLosesADay(l: Log) returns (v: World)
    ensures Reached(v) && v.all == [l] && v.last == Some(DayOf(v.now)) && DayOf(v.now) == DayOf(l.created) + 61
    ensures (l.key, DayOf(l.created)) !in v.t.daily && !Logged(v.t.logs, l.key, DayOf(l.created))
  {
    var w := OneLog(l);
    w := Later(w, 61);
    v := Maintained(w);
  }

  /** Maintenance that comes too late for the first of two logs of a month, though not for the
      second, replaces a row that counted both by one that counts only the second. */
  lemma LateMaintenanceShrinksAMonth(a: Log, b: Log, m: int) returns (w: World, v: World)
    requires a.key == b.key && a.created <= b.created && DayOf(a.created) < DayOf(b.created)
    requires InMonth(DayOf(a.created), m) && InMonth(DayOf(b.created), m)
    requires InMonth(DayOf(b.created) + 60, m + 1) || InMonth(DayOf(b.created) + 60, m + 2)
    ensures Reached(w) && w.all == [a, b] && (a.key, m) in w.t.monthly && w.t.monthly[(a.key, m)].count == 2
    ensures Reached(v) && v.all == [a, b] && (a.key, m) in v.t.monthly
    ensures v.t.monthly[(a.key, m)] == Totals(b.request, b.response, b.total, 1)
  {
    w := TwoLogs(a, b);
    NoJobYet(w, m);
    MonthRowsAreKnown(w, a.key, m);
    TwoLogsSum(a, b, m);
    v := Later(w, 60);
    SixtyDaysOn(DayOf(b.created), DayOf(v.now), m);
    v := OnlySecondInReach(v, a, b, m);
  }

  lemma SixtyDaysOn(day: int, today: int, m: int)
    requires 0 <= today == day + 60 && (InMonth(day + 60, m + 1) || InMonth(day + 60, m + 2))
    ensures MonthOf(today) == m + 1 || MonthOf(today) == m + 2
  {
    if InMonth(day + 60, m + 1) {
      MonthIsUnique(today, MonthOf(today), m + 1);
    } else {
      MonthIsUnique(today, MonthOf(today), m + 2);
    }
  }

  lemma OnlySecondInReach(w: World, a: Log, b: Log, m: int) returns (v: World)
    requires Reached(w) && w.all == [a, b] && w.now >= 0 && w.t.daily == map[] && a.key == b.key
    requires Logged(w.all, a.key, DayOf(a.created)) && Logged(w.all, b.key, DayOf(b.created)) && InMonth(DayOf(b.created), m)
    requires DayOf(a.created) < SixtyDaysAgo(DayOf(w.now)) <= DayOf(b.created) < DayOf(w.now)
    requires MonthOf(DayOf(w.now)) == m + 1 || MonthOf(DayOf(w.now)) == m + 2
    ensures Reached(v) && v.all == [a, b] && (a.key, m) in v.t.monthly
    ensures v.t.monthly[(a.key, m)] == Totals(b.request, b.response, b.total, 1)
  {
    v := Maintained(w);
    assert Job(v, m);
    OnlySecondCounts(v, a, b, m);
  }

  lemma TwoLogs(a: Log, b: Log) returns (w: World)
    requires a.created <= b.created
    ensures Reached(w) && w.all == [a, b] && w.now == b.created && w.last == None && w.t.daily == map[]
    ensures Logged(w.all, a.key, DayOf(a.created)) && Logged(w.all, b.key, DayOf(b.created))
  {
    w := OneLog(a);
    w := Take(w, Tick(b.created));
    w := Take(w, Record(b.key, b.request, b.response, b.total));
    assert w.all == [a, b] && Counts(w.all[0], a.key, DayOf(a.created)) && Counts(w.all[1], b.key, DayOf(b.created));
  }

  lemma TwoLogsSum(a: Log, b: Log, m: int)
    requires a.key == b.key && InMonth(DayOf(a.created), m) && InMonth(DayOf(b.created), m)
    ensures LoggedIn([a, b], a.key, MonthStart(m), MonthLength(m))
    ensures SumSpan([a, b], a.key, MonthStart(m), MonthLength(m)).count == 2
  {
    OneLogSum(a, m);
    SpanSnoc([a], b, a.key, MonthStart(m), MonthLength(m));
    LoggedInSnoc([a], b, a.key, MonthStart(m), MonthLength(m));
    assert [a] + [b] == [a, b];
  }

  /** The month's row when only the second log's day has a daily row. */
  lemma OnlySecondCounts(v: World, a: Log, b: Log, m: int)
    requires Reached(v) && v.all == [a, b] && a.key == b.key && DayOf(a.created) < DayOf(b.created)
    requires InMonth(DayOf(b.created), m) && (a.key, DayOf(a.created)) !in v.t.daily && (a.key, DayOf(b.created)) in v.t.daily
    requires Job(v, m)
    ensures (a.key, m) in v.t.monthly && v.t.monthly[(a.key, m)] == Totals(b.request, b.response, b.total, 1)
  {
    var k, day, n := a.key, MonthStart(m), MonthLength(m);
    forall d ensures Row(v.t.daily, k, d) == SumLogs([b], k, d) {
      RowOfTwo(v, a, b, d);
    }
    RowsAreSums(v.t.daily, [b], k, day, n);
    OneLogSum(b, m);
    MonthRowsAreKnown(v, k, m);
    LoggedInSnoc([a], b, k, day, n);
    assert [a] + [b] == [a, b];
    assert HasRows(v.t.daily, k, day, n);
  }

  lemma RowOfTwo(v: World, a: Log, b: Log, d: int)
    requires Reached(v) && v.all == [a, b] && a.key == b.key && DayOf(a.created) < DayOf(b.created)
    requires (a.key, DayOf(a.created)) !in v.t.daily && (a.key, DayOf(b.created)) in v.t.daily
    ensures Row(v.t.daily, a.key, d) == SumLogs([b], a.key, d)
  {
    DailyRowsSurvive(v, a.key, d);
    LoggedSnoc([], a, a.key, d);
    LoggedSnoc([a], b, a.key, d);
    LoggedSnoc([], b, a.key, d);
    assert [] + [a] == [a] && [a] + [b] == [a, b] && [] + [b] == [b];
    RowIsLogged(v, a.key, d);
  }

  lemma {:induction false} RowsAreSums(daily: Rows, logs: seq<Log>, k: Key, day: int, n: nat)
    requires forall d :: Row(daily, k, d) == SumLogs(logs, k, d)
    ensures SumDaily(daily, k, day, n) == SumSpan(logs, k, day, n)
  {
    if n == 0 {
    } else {
      RowsAreSums(daily, logs, k, day, n - 1);
      assert Row(daily, k, day + n - 1) == SumLogs(logs, k, day + n - 1);
    }
  }

  lemma RowIsLogged(v: World, k: Key, d: int)
    requires Reached(v)
    ensures (k, d) in v.t.daily ==> Logged(v.all, k, d)
  {
    ReachedIsSafe(v);
    assert DailyOk(v, k, d);
  }

  /** Sixty days reach past two months: with a maintenance on the last day of month `m` and the
      next on the first day of the third month after it, 60 days later, month `m` is never
      finalised, so its total stays the eager one. */
  lemma SixtyDaysCanSkipAMonth(l: Log, m: int) returns (v: World)
    requires DayOf(l.created) + 1 == MonthStart(m + 1) && MonthStart(m + 3) == DayOf(l.created) + 60
    ensures Reached(v) && v.punctual && v.all == [l] && v.last == Some(DayOf(v.now)) && DayOf(v.now) == DayOf(l.created) + 60
    ensures (l.key, m) in v.t.monthly && v.t.monthly[(l.key, m)].total == l.request + l.response
  {
    SkippedMonth(DayOf(l.created), m);
    var w := OneLog(l);
    EagerRow(w, l, m);
    w := NotFinalised(w, l.key, m, m);
    w := Later(w, 60);
    v := NotFinalised(w, l.key, m, m + 3);
  }

  /** A maintenance in month `now` leaves the row of a month that is not one of the two before. */
  lemma NotFinalised(w: World, k: Key, m: int, now: int) returns (v: World)
    requires Reached(w) && w.now >= 0 && MonthOf(DayOf(w.now)) == now && m != now - 1 && m != now - 2
    requires (k, m) in w.t.monthly && OnTime(w)
    ensures Reached(v) && v.all == w.all && v.now == w.now && v.last == Some(DayOf(w.now)) && v.punctual == w.punctual
    ensures (k, m) in v.t.monthly && v.t.monthly[(k, m)] == w.t.monthly[(k, m)]
  {
    v := Maintained(w);
    FinalisedAt(v.t.daily, w.t.monthly, now, k, m);
  }

  lemma SkippedMonth(day: int, m: int)
    requires 0 <= day && day + 1 == MonthStart(m + 1) && MonthStart(m + 3) == day + 60
    ensures InMonth(day, m) && MonthOf(day) == m && MonthOf(day + 60) == m + 3
  {
    NextMonth(m);
    MonthIsUnique(day, MonthOf(day), m);
    MonthIsUnique(day + 60, MonthOf(day + 60), m + 3);
  }

  /** There are such months: every December before a common year. */
  lemma DecemberCanBeSkipped(december: int)
    requires december % 12 == 11 && !Leap(1970 + (december + 2) / 12)
    ensures MonthStart(december + 3) == (MonthStart(december + 1) - 1) + 60
  {
    NextMonth(december + 1);
    NextMonth(december + 2);
  }

  /** Before any maintenance the row of the log's month is what recording added up. */
  lemma EagerRow(w: World, l: Log, m: int)
    requires Reached(w) && w.all == [l] && w.last == None && InMonth(DayOf(l.created), m)
    ensures (l.key, m) in w.t.monthly && w.t.monthly[(l.key, m)].total == l.request + l.response
  {
    MonthRowsAreKnown(w, l.key, m);
    NoJobYet(w, m);
    OneLogSum(l, m);
  }

  lemma NoJobYet(w: World, m: int)
    requires Reached(w) && w.last == None
    ensures !Job(w, m)
  {
    ReachedIsSafe(w);
  }

  lemma OneLogSum(l: Log, m: int)
    requires InMonth(DayOf(l.created), m)
    ensures LoggedIn([l], l.key, MonthStart(m), MonthLength(m))
    ensures SumSpan([l], l.key, MonthStart(m), MonthLength(m)) == Totals(l.request, l.response, l.total, 1)
  {
    SpanSnoc([], l, l.key, MonthStart(m), MonthLength(m));
    LoggedInSnoc([], l, l.key, MonthStart(m), MonthLength(m));
    NotLoggedInIsZero([], l.key, MonthStart(m), MonthLength(m));
    assert [] + [l] == [l];
  }
}
