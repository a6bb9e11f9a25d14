/**
 * The request handlers of app.py over in-memory state: the session gate
 * `login_required` (app.py:45-52), login and logout, registration, the
 * add / edit / delete handlers of both ledgers, `totals_and_monthly`
 * (app.py:97-117) and the dashboard (app.py:119-135). `today` and the
 * registration salt are inputs.
 */
module Tracker {
  import opened Wrappers
  import opened Calendar
  import opened MonthText
  import opened Ledger
  import opened Accounts

  /** Why a request did not do its work. */
  datatype Error =
    | Unauthorized        // no `user_id` in the session: redirect to login (app.py:49-50)
    | NotFound            // no row with that id and owner (app.py:159-160, 198-199)
    | InvalidAmount       // `float()` of the amount raised ValueError (app.py:142, 162, 181, 201)
    | UsernameTaken       // the INSERT into `users` hit the UNIQUE constraint (app.py:72-73)
    | InvalidCredentials  // unknown user or wrong password (app.py:88)
    | DateOverflow        // a bucket's day subtraction left the calendar (OverflowError at app.py:109)

  /** What `totals_and_monthly` returns (app.py:117). */
  datatype Report = Report(
    totalIncome: real, totalExpense: real,
    labels: seq<string>, incomePoints: seq<real>, expensePoints: seq<real>)

  /** What the dashboard shows (app.py:131-135). */
  datatype View = View(
    incomes: seq<(RowId, Row)>, expenses: seq<(RowId, Row)>,
    report: Report, savings: real)

  /** Every one of the six buckets has a month: no subtraction leaves the calendar. */
  predicate BucketsDefined(rule: BucketRule, today: CalDate) {
    forall i: nat :: i < 6 ==> BucketMonth(rule, today, i).Some?
  }

  /** Label `j` of the series is the month of bucket i = 5 - j. */
  predicate LabelAt(labels: seq<string>, today: CalDate, rule: BucketRule, j: int)
    requires 0 <= j < |labels| <= 6
  {
    var m := BucketMonth(rule, today, 5 - j);
    m.Some? && labels[j] == MonthLabel(m.value)
  }

  /** Point `j` of the series is the owner's total over the month of bucket i = 5 - j. */
  predicate PointAt(points: seq<real>, rows: Rows, owner: UserId, today: CalDate, rule: BucketRule, j: int)
    requires 0 <= j < |points| <= 6
  {
    var m := BucketMonth(rule, today, 5 - j);
    m.Some? && points[j] == Total(rows, owner, m)
  }

  /** The first `|labels|` labels of the series, oldest bucket (i = 5) first. */
  predicate Labels(labels: seq<string>, today: CalDate, rule: BucketRule) {
    |labels| <= 6 && forall j :: 0 <= j < |labels| ==> LabelAt(labels, today, rule, j)
  }

  /** The first `|points|` points of the series for one table, oldest bucket first. */
  predicate Points(points: seq<real>, rows: Rows, owner: UserId, today: CalDate, rule: BucketRule) {
    |points| <= 6 && forall j :: 0 <= j < |points| ==> PointAt(points, rows, owner, today, rule, j)
  }

  /** The first `|labels|` buckets of the series: labels and the points of both tables. */
  predicate Series(labels: seq<string>, incomePoints: seq<real>, expensePoints: seq<real>,
                   incomeRows: Rows, expenseRows: Rows, owner: UserId, today: CalDate, rule: BucketRule) {
    && |incomePoints| == |labels| && |expensePoints| == |labels|
    && Labels(labels, today, rule)
    && Points(incomePoints, incomeRows, owner, today, rule)
    && Points(expensePoints, expenseRows, owner, today, rule)
  }

  /** One more label extends the labels. */
  lemma LabelsExtend(labels: seq<string>, today: CalDate, rule: BucketRule)
    requires Labels(labels, today, rule)
    requires |labels| < 6 && BucketMonth(rule, today, 5 - |labels|).Some?
    ensures Labels(labels + [MonthLabel(BucketMonth(rule, today, 5 - |labels|).value)], today, rule)
  {
    var l := labels + [MonthLabel(BucketMonth(rule, today, 5 - |labels|).value)];
    forall j | 0 <= j < |l|
      ensures LabelAt(l, today, rule, j)
    {
      if j < |labels| {
        assert LabelAt(labels, today, rule, j);
        assert l[j] == labels[j];
      } else {
        assert j == |labels| && l[j] == MonthLabel(BucketMonth(rule, today, 5 - |labels|).value);
      }
    }
  }

  /** One more point extends the points. */
  lemma PointsExtend(points: seq<real>, rows: Rows, owner: UserId, today: CalDate, rule: BucketRule)
    requires Points(points, rows, owner, today, rule)
    requires |points| < 6 && BucketMonth(rule, today, 5 - |points|).Some?
    ensures Points(points + [Total(rows, owner, BucketMonth(rule, today, 5 - |points|))], rows, owner, today, rule)
  {
    var p := points + [Total(rows, owner, BucketMonth(rule, today, 5 - |points|))];
    forall j | 0 <= j < |p|
      ensures PointAt(p, rows, owner, today, rule, j)
    {
      if j < |points| {
        assert PointAt(points, rows, owner, today, rule, j);
        assert p[j] == points[j];
      } else {
        assert j == |points| && p[j] == Total(rows, owner, BucketMonth(rule, today, 5 - |points|));
      }
    }
  }

  /** `rep` is the report for `owner`: the two totals and the whole six-bucket series. */
  predicate Describes(rep: Report, incomeRows: Rows, expenseRows: Rows, owner: UserId, today: CalDate, rule: BucketRule) {
    && rep.totalIncome == Total(incomeRows, owner, None)
    && rep.totalExpense == Total(expenseRows, owner, None)
    && |rep.labels| == 6
    && Series(rep.labels, rep.incomePoints, rep.expensePoints, incomeRows, expenseRows, owner, today, rule)
  }

  /** The newest label is the current month. */
  lemma ReportEndsThisMonth(rep: Report, incomeRows: Rows, expenseRows: Rows, owner: UserId, today: CalDate, rule: BucketRule)
    requires Describes(rep, incomeRows, expenseRows, owner, today, rule)
    ensures rep.labels[5] == MonthLabel(FirstOfMonth(today))
  {
    assert LabelAt(rep.labels, today, rule, 5);
    NewestBucketIsCurrentMonth(rule, today);
  }

  /** Each label names the year and month of its bucket. */
  lemma ReportLabelMeaning(rep: Report, incomeRows: Rows, expenseRows: Rows, owner: UserId, today: CalDate, rule: BucketRule, j: int)
    requires Describes(rep, incomeRows, expenseRows, owner, today, rule)
    requires 0 <= j < 6
    ensures var m := BucketMonth(rule, today, 5 - j);
      m.Some? && ParseMonthLabel(rep.labels[j]) == Some((m.value.year, m.value.month))
  {
    assert LabelAt(rep.labels, today, rule, j);
    MonthLabelRoundTrip(BucketMonth(rule, today, 5 - j).value);
  }

  /** Each point is the sum over exactly the owner's rows dated in the year and month of its bucket. */
  lemma ReportPointMeaning(rep: Report, incomeRows: Rows, expenseRows: Rows, owner: UserId, today: CalDate, rule: BucketRule, j: int)
    requires Describes(rep, incomeRows, expenseRows, owner, today, rule)
    requires 0 <= j < 6
    ensures var m := BucketMonth(rule, today, 5 - j);
      && m.Some?
      && rep.incomePoints[j] == Sum(InMonth(incomeRows, owner, m.value.year, m.value.month))
      && rep.expensePoints[j] == Sum(InMonth(expenseRows, owner, m.value.year, m.value.month))
  {
    assert PointAt(rep.incomePoints, incomeRows, owner, today, rule, j);
    assert PointAt(rep.expensePoints, expenseRows, owner, today, rule, j);
    var m := BucketMonth(rule, today, 5 - j);
    BucketSelectsMonth(incomeRows, owner, m.value);
    BucketSelectsMonth(expenseRows, owner, m.value);
  }

  /**
   * As written, the chart for 2024-03-15 labels its fourth and fifth buckets
   * both January 2024, where the corrected chart has February 2024 fifth.
   */
  lemma ThirtyDayLabelsForMarch2024(rep: Report, incomeRows: Rows, expenseRows: Rows, owner: UserId, today: CalDate)
    requires today == Date(2024, 3, 15)
    requires Describes(rep, incomeRows, expenseRows, owner, today, ThirtyDaySteps)
    ensures rep.labels[3] == rep.labels[4]
    ensures ParseMonthLabel(rep.labels[4]) == Some((2024, 1))
  {
    ThirtyDaySeriesForMarch2024(today);
    ReportLabelMeaning(rep, incomeRows, expenseRows, owner, today, ThirtyDaySteps, 4);
    assert LabelAt(rep.labels, today, ThirtyDaySteps, 3);
    assert LabelAt(rep.labels, today, ThirtyDaySteps, 4);
  }

  /** With calendar months every label is a different month, and for 2024-03-15 the fifth is February 2024. */
  lemma CalendarLabelsDistinct(rep: Report, incomeRows: Rows, expenseRows: Rows, owner: UserId, today: CalDate, j: int, k: int)
    requires Describes(rep, incomeRows, expenseRows, owner, today, CalendarMonths)
    requires 0 <= j < k < 6
    ensures rep.labels[j] != rep.labels[k]
    ensures today == Date(2024, 3, 15) ==> ParseMonthLabel(rep.labels[4]) == Some((2024, 2))
  {
    ReportLabelMeaning(rep, incomeRows, expenseRows, owner, today, CalendarMonths, j);
    ReportLabelMeaning(rep, incomeRows, expenseRows, owner, today, CalendarMonths, k);
    ReportLabelMeaning(rep, incomeRows, expenseRows, owner, today, CalendarMonths, 4);
    if today == Date(2024, 3, 15) {
      CalendarSeriesForMarch2024();
    }
  }

  /** `savings = total_income - total_expense` (app.py:130). */
  function Savings(incomeRows: Rows, expenseRows: Rows, owner: UserId): real {
    Total(incomeRows, owner, None) - Total(expenseRows, owner, None)
  }

  /** Adding an income of the owner raises their savings by its amount; adding an expense lowers them by its amount. */
  lemma SavingsAfterAdd(incomeRows: Rows, expenseRows: Rows, owner: UserId, id: RowId, row: Row)
    requires row.owner == owner
    ensures id !in incomeRows ==>
      Savings(incomeRows[id := row], expenseRows, owner) == Savings(incomeRows, expenseRows, owner) + row.amount
    ensures id !in expenseRows ==>
      Savings(incomeRows, expenseRows[id := row], owner) == Savings(incomeRows, expenseRows, owner) - row.amount
  {
    if id !in incomeRows {
      TotalAfterInsert(incomeRows, id, row, owner, None);
    }
    if id !in expenseRows {
      TotalAfterInsert(expenseRows, id, row, owner, None);
    }
  }

  /** Other users' rows never change anyone's savings. */
  lemma SavingsIgnoresOthers(incomeRows: Rows, incomeOthers: Rows, expenseRows: Rows, expenseOthers: Rows, owner: UserId)
    requires incomeRows.Keys !! incomeOthers.Keys && expenseRows.Keys !! expenseOthers.Keys
    requires forall id :: id in incomeOthers ==> incomeOthers[id].owner != owner
    requires forall id :: id in expenseOthers ==> expenseOthers[id].owner != owner
    ensures Savings(incomeRows + incomeOthers, expenseRows + expenseOthers, owner) == Savings(incomeRows, expenseRows, owner)
  {
    TotalIsolated(incomeRows, incomeOthers, owner, None);
    TotalIsolated(expenseRows, expenseOthers, owner, None);
  }

  /** Every row belongs to a registered user. */
  predicate OwnersRegistered(rows: Rows, users: Users) {
    forall id :: id in rows ==> rows[id].owner in users
  }

  /** The application state: the three tables and the session of the client making the requests. */
  class App {
    const directory: Directory
    const income: Table
    const expense: Table
    var session: Option<UserId>

    ghost predicate Valid()
      reads this, directory, income, expense
    {
      && income != expense
      && directory.Valid() && income.Valid() && expense.Valid()
      && (session.Some? ==> session.value in directory.users)
      && OwnersRegistered(income.rows, directory.users)
      && OwnersRegistered(expense.rows, directory.users)
    }

    /** `init_db` (app.py:16-41) on an empty database, and a client without a session. */
    constructor (hasher: Hasher)
      ensures Valid() && session == None
      ensures fresh(directory) && fresh(income) && fresh(expense)
      ensures directory.users == map[] && directory.hasher == hasher
      ensures directory.lastId == 0 && directory.issued == {}
      ensures income.rows == map[] && income.lastId == 0 && income.issued == {}
      ensures expense.rows == map[] && expense.lastId == 0 && expense.issued == {}
    {
      directory := new Directory(hasher);
      income := new Table();
      expense := new Table();
      session := None;
    }

    /** The table a handler of that kind works on. */
    function TableOf(kind: Kind): Table
      reads this
    {
      if kind == Income then income else expense
    }

    /** `register` on POST (app.py:60-76); the session is not involved. */
    method Register(username: string, password: string, salt: Salt) returns (r: Result<UserId, Error>)
      requires Valid()
      modifies directory
      ensures Valid()
      ensures r.Err? <==> Taken(old(directory.users), username)
      ensures r.Err? ==> r.error == UsernameTaken && directory.users == old(directory.users)
      ensures r.Err? ==> directory.lastId == old(directory.lastId) && directory.issued == old(directory.issued)
      ensures r.Ok? ==> r.value !in old(directory.users)
      ensures r.Ok? ==> r.value == old(directory.lastId) + 1 && r.value !in old(directory.issued)
      ensures r.Ok? ==> directory.lastId == r.value && directory.issued == old(directory.issued) + {r.value}
      ensures r.Ok? ==> directory.users == old(directory.users)[r.value := NewAccount(directory.hasher, username, password, salt)]
    {
      var id := directory.Register(username, password, salt);
      if id.None? {
        return Err(UsernameTaken);
      }
      r := Ok(id.value);
    }

    /** `login` on POST (app.py:80-88): the session is set only when the credentials check out. */
    method Login(username: string, password: string) returns (r: Result<UserId, Error>)
      requires Valid()
      modifies this
      ensures Valid()
      ensures r.Ok? <==> directory.Check(username, password).Some?
      ensures r.Ok? ==> r.value in directory.users && directory.users[r.value].username == username
      ensures r.Ok? ==> directory.hasher.check(directory.users[r.value].passwordHash, password)
      ensures r.Ok? ==> session == Some(r.value)
      ensures r.Err? ==> r.error == InvalidCredentials && session == old(session)
    {
      var id := directory.Check(username, password);
      if id.None? {
        return Err(InvalidCredentials);
      }
      AuthenticateExactly(directory.users, directory.hasher, username, password, id.value);
      session := Some(id.value);
      r := Ok(id.value);
    }

    /** `logout` (app.py:91-94). */
    method Logout()
      requires Valid()
      modifies this
      ensures Valid() && session == None
    {
      session := None;
    }

    /**
     * `add_income` / `add_expense` on POST (app.py:141-150, 180-189): the
     * date defaults to today when missing or empty (`None` here), the note to
     * the empty string when missing.
     */
    method AddEntry(kind: Kind, amount: Option<real>, category: string, date: Option<CalDate>, note: Option<string>, today: CalDate)
      returns (r: Result<RowId, Error>)
      requires Valid()
      modifies TableOf(kind)
      ensures Valid()
      ensures old(session).None? ==> r == Err(Unauthorized)
      ensures old(session).Some? && amount.None? ==> r == Err(InvalidAmount)
      ensures r.Err? ==> unchanged(TableOf(kind))
      ensures r.Ok? <==> old(session).Some? && amount.Some?
      ensures r.Ok? ==> r.value !in old(TableOf(kind).issued) && r.value == old(TableOf(kind).lastId) + 1
      ensures r.Ok? ==> TableOf(kind).issued == old(TableOf(kind).issued) + {r.value} && TableOf(kind).lastId == r.value
      ensures r.Ok? ==> (TableOf(kind).rows ==
        old(TableOf(kind).rows)[r.value := Row(session.value, amount.value, category, date.GetOr(today), note.GetOr(""))])
      ensures r.Ok? ==> Foreign(TableOf(kind).rows, session.value) == Foreign(old(TableOf(kind).rows), session.value)
    {
      if session.None? {
        return Err(Unauthorized);
      }
      if amount.None? {
        return Err(InvalidAmount);
      }
      var t := TableOf(kind);
      var row := Row(session.value, amount.value, category, date.GetOr(today), note.GetOr(""));
      InsertKeepsForeign(t.rows, t.lastId + 1, row, session.value);
      var id := t.Insert(row);
      r := Ok(id);
    }

    /** `edit_income` / `edit_expense` on GET (app.py:156-166, 195-205): the row, if the user owns it. */
    function ViewEntry(kind: Kind, id: RowId): (r: Result<Row, Error>)
      reads this, income, expense
      ensures r.Ok? <==> session.Some? && id in TableOf(kind).rows && TableOf(kind).rows[id].owner == session.value
      ensures r.Ok? ==> r.value == TableOf(kind).rows[id]
      ensures session.None? ==> r == Err(Unauthorized)
      ensures session.Some? && r.Err? ==> r == Err(NotFound)
    {
      if session.None? then Err(Unauthorized)
      else
        match TableOf(kind).Find(id, session.value)
        case None => Err(NotFound)
        case Some(row) => Ok(row)
    }

    /**
     * `edit_income` / `edit_expense` on POST (app.py:156-164, 195-203): the
     * ownership lookup, then the amount parse, then the UPDATE of the four
     * fields of that row.
     */
    method EditEntry(kind: Kind, id: RowId, amount: Option<real>, category: string, date: CalDate, note: Option<string>)
      returns (r: Result<(), Error>)
      requires Valid()
      modifies TableOf(kind)
      ensures Valid()
      ensures old(session).None? ==> r == Err(Unauthorized)
      ensures old(session).Some? && old(TableOf(kind).Find(id, session.value)).None? ==> r == Err(NotFound)
      ensures old(session).Some? && old(TableOf(kind).Find(id, session.value)).Some? && amount.None? ==> r == Err(InvalidAmount)
      ensures r.Err? ==> unchanged(TableOf(kind))
      ensures r.Ok? <==> old(session).Some? && old(TableOf(kind).Find(id, session.value)).Some? && amount.Some?
      ensures r.Ok? ==> id in old(TableOf(kind).rows)
      ensures TableOf(kind).issued == old(TableOf(kind).issued) && TableOf(kind).lastId == old(TableOf(kind).lastId)
      ensures r.Ok? ==> TableOf(kind).rows == old(TableOf(kind).rows)[id := Row(session.value, amount.value, category, date, note.GetOr(""))]
      ensures r.Ok? ==> Foreign(TableOf(kind).rows, session.value) == Foreign(old(TableOf(kind).rows), session.value)
    {
      if session.None? {
        return Err(Unauthorized);
      }
      var t := TableOf(kind);
      if t.Find(id, session.value).None? {
        return Err(NotFound);
      }
      if amount.None? {
        return Err(InvalidAmount);
      }
      var row := Row(session.value, amount.value, category, date, note.GetOr(""));
      ReplaceKeepsForeign(t.rows, id, row, session.value);
      t.Update(id, amount.value, category, date, note.GetOr(""));
      r := Ok(());
    }

    /** `delete_income` / `delete_expense` (app.py:170-174, 209-213): whether a row of the user went. */
    method DeleteEntry(kind: Kind, id: RowId) returns (r: Result<bool, Error>)
      requires Valid()
      modifies TableOf(kind)
      ensures Valid()
      ensures old(session).None? ==> r == Err(Unauthorized) && unchanged(TableOf(kind))
      ensures old(session).Some? ==> r.Ok?
      ensures TableOf(kind).issued == old(TableOf(kind).issued) && TableOf(kind).lastId == old(TableOf(kind).lastId)
      ensures r.Ok? ==> (r.value <==> old(TableOf(kind).Find(id, session.value)).Some?)
      ensures r.Ok? ==> TableOf(kind).rows == if r.value then old(TableOf(kind).rows) - {id} else old(TableOf(kind).rows)
      ensures r.Ok? ==> Foreign(TableOf(kind).rows, session.value) == Foreign(old(TableOf(kind).rows), session.value)
    {
      if session.None? {
        return Err(Unauthorized);
      }
      var t := TableOf(kind);
      if t.Find(id, session.value).Some? {
        RemoveKeepsForeign(t.rows, id, session.value);
      }
      var removed := t.Delete(id, session.value);
      r := Ok(removed);
    }

    /**
     * `totals_and_monthly(user_id)` (app.py:97-117), with the bucket rule as
     * a parameter: the two totals, then the loop over i = 5 down to 0.
     */
    method TotalsAndMonthly(owner: UserId, today: CalDate, rule: BucketRule) returns (r: Result<Report, Error>)
      ensures r.Ok? <==> BucketsDefined(rule, today)
      ensures r.Err? ==> r.error == DateOverflow
      ensures r.Ok? ==> Describes(r.value, income.rows, expense.rows, owner, today, rule)
    {
      var totalIncome := Total(income.rows, owner, None);
      var totalExpense := Total(expense.rows, owner, None);
      var labels: seq<string> := [];
      var incomePoints: seq<real> := [];
      var expensePoints: seq<real> := [];
      var i := 5;
      while i >= 0
        invariant -1 <= i <= 5 && |labels| == 5 - i
        invariant Series(labels, incomePoints, expensePoints, income.rows, expense.rows, owner, today, rule)
        decreases i
      {
        var month := BucketMonth(rule, today, i);
        if month.None? {
          assert !BucketsDefined(rule, today);
          return Err(DateOverflow);
        }
        LabelsExtend(labels, today, rule);
        PointsExtend(incomePoints, income.rows, owner, today, rule);
        PointsExtend(expensePoints, expense.rows, owner, today, rule);
        labels := labels + [MonthLabel(month.value)];
        incomePoints := incomePoints + [Total(income.rows, owner, month)];
        expensePoints := expensePoints + [Total(expense.rows, owner, month)];
        i := i - 1;
      }
      forall n: nat | n < 6
        ensures BucketMonth(rule, today, n).Some?
      {
        var j := 5 - n;
        assert LabelAt(labels, today, rule, j);
      }
      r := Ok(Report(totalIncome, totalExpense, labels, incomePoints, expensePoints));
    }

    /**
     * `dashboard` (app.py:119-135): the user's rows of both tables, latest
     * first, the report, and the savings. app.py:109 as written is
     * `rule == ThirtyDaySteps`; `CalendarMonths` is the corrected dashboard.
     */
    method Dashboard(today: CalDate, rule: BucketRule) returns (r: Result<View, Error>)
      ensures session.None? ==> r == Err(Unauthorized)
      ensures session.Some? ==> (r.Ok? <==> BucketsDefined(rule, today))
      ensures r.Err? && session.Some? ==> r.error == DateOverflow
      ensures r.Ok? ==> session.Some?
      ensures r.Ok? ==> Enumerates(r.value.incomes, Owned(income.rows, session.value)) && SortedByDateDesc(r.value.incomes)
      ensures r.Ok? ==> Enumerates(r.value.expenses, Owned(expense.rows, session.value)) && SortedByDateDesc(r.value.expenses)
      ensures r.Ok? ==> Describes(r.value.report, income.rows, expense.rows, session.value, today, rule)
      ensures r.Ok? ==> r.value.savings == Savings(income.rows, expense.rows, session.value)
    {
      if session.None? {
        return Err(Unauthorized);
      }
      var uid := session.value;
      var incomes := Listing(Owned(income.rows, uid));
      var expenses := Listing(Owned(expense.rows, uid));
      var report := TotalsAndMonthly(uid, today, rule);
      if report.Err? {
        return Err(report.error);
      }
      var savings := report.value.totalIncome - report.value.totalExpense;
      r := Ok(View(incomes, expenses, report.value, savings));
    }
  }
}
