/** The monthly e-mail summary (`enviar_relatorio`): the revenue, expense
    and balance figures of the month before the current one. Building and
    sending the message is not modelled; whether delivery succeeded is a
    parameter. */
module MonthlyEmail {
  import opened Wrappers
  import opened Calendar
  import opened Records
  import opened Totals
  import opened Access

  /** The values the e-mail template receives. */
  datatype Summary = Summary(year: int, month: int, revenue: Cents, expenses: Cents, balance: Cents)

  /** The summary for the month before `today`'s, or None where Python's
      date arithmetic overflows and the route reports an error. */
  function MonthlySummary(today: Date, t: Tables): (r: Option<Summary>)
    requires Valid(today)
    ensures r.None? <==> today.month == 1 && today.year == MinYear
    ensures r.Some? ==> ReportMonth(today) == Some((r.value.year, r.value.month))
    ensures r.Some? ==> r.value.balance == r.value.revenue - r.value.expenses
  {
    match ReportMonth(today)
    case None => None
    case Some((y, m)) =>
      var s := Summarize(t, Month(y, m));
      Some(Summary(y, m, s.revenue, s.Expenses(), s.revenue - s.Expenses()))
  }

  /** The flash the route ends with: success only when the summary was
      computed and delivered. */
  datatype Outcome = Sent(summary: Summary) | NotSent

  function Deliver(today: Date, t: Tables, delivered: bool): Outcome
    requires Valid(today)
  {
    match MonthlySummary(today, t)
    case Some(s) => if delivered then Sent(s) else NotSent
    case None => NotSent
  }

  /** The whole route, behind `@login_required` and `@admin_required`.
      Every path that runs ends with a redirect to the home page. */
  function SendMonthlyReport(session: Session, today: Date, t: Tables, delivered: bool): (r: Response<Outcome>)
    requires Valid(today)
    ensures session.Anonymous? ==> r == Redirect(LoginView, LoginMessage)
    ensures session.SignedIn? && !IsAdmin(session) ==> r == Redirect(HomeView, DeniedMessage)
    ensures IsAdmin(session) ==> r.Ran?
    ensures r.Ran? && r.value.Sent? <==>
      IsAdmin(session) && delivered && !(today.month == 1 && today.year == MinYear)
    ensures r.Ran? && r.value.Sent? ==> Some(r.value.summary) == MonthlySummary(today, t)
  {
    LoginRequired(session, () => AdminRequired(session, () => Deliver(today, t, delivered)))
  }

  /** The e-mail reports the month before the current one, and its figures
      are those of the period report from the first to the last day of that
      month. */
  lemma MonthlySummaryMatchesReport(today: Date, t: Tables)
    requires Valid(today) && DatesValid(t)
    requires !(today.month == 1 && today.year == MinYear)
    ensures var r := MonthlySummary(today, t).value;
      var i := Interval(Date(r.year, r.month, 1), Date(r.year, r.month, DaysInMonth(r.year, r.month)));
      && (today.month > 1 ==> r.year == today.year && r.month == today.month - 1)
      && (today.month == 1 ==> r.year == today.year - 1 && r.month == 12)
      && r.revenue == Summarize(t, i).revenue
      && r.expenses == Summarize(t, i).Expenses()
      && r.balance == Summarize(t, i).Balance()
  {
    var r := MonthlySummary(today, t).value;
    MonthAsInterval(t, r.year, r.month);
  }
}
