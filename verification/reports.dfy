/** The report list of the reports page: creating a report from the form, its simulated
    generation (ten progress ticks), the status counts, clearing the list, deleting one
    report, and the two caption tables. */
module Reports {
  import opened Basics
  import opened Storage
  import opened Decimal
  import Lists
  import Text

  /** One entry of `hermes_reports`. `author` is `None` when the stored user has no name. */
  datatype Report = Report(
    id: string,
    title: string,
    period: string,
    kind: string,
    format: string,
    author: Option<string>,
    status: string,
    created: string,
    startDate: string,
    endDate: string,
    notes: string,
    size: string,
    progress: int)

  datatype ToastKind = InfoToast | SuccessToast | WarningToast

  /** A notification shown by the page. */
  datatype Toast = Toast(message: string, kind: ToastKind)

  /** The page's state: the in-memory list, the `hermes_reports` slot and the toasts shown. */
  datatype Page = Page(reports: seq<Report>, stored: Slot<seq<Report>>, toasts: seq<Toast>)

  /** The fields of the creation form. */
  datatype Form = Form(title: string, startDate: string, endDate: string, period: string,
                       kind: string, format: string, notes: string)

  /** `Date.now()` and `new Date().toISOString()` at the moment a report is created. */
  datatype Stamp = Stamp(now: nat, iso: string)

  // ---------------------------------------------------------------- caption tables

  const PeriodLabels: map<string, string> := map[
    "today" := "Сегодня", "yesterday" := "Вчера", "week" := "Неделя",
    "month" := "Месяц", "quarter" := "Квартал", "year" := "Год"]

  const TypeLabels: map<string, string> := map[
    "daily" := "Ежедневный", "weekly" := "Еженедельный", "monthly" := "Ежемесячный",
    "incident" := "По инцидентам", "sensor" := "По датчикам", "performance" := "Производительность"]

  const AnyPeriod := "Произвольный период"
  const GeneralType := "Общий"

  /** `getPeriodText`: the table caption, the formatted date range for `custom`, and the
      catch-all caption otherwise. Never empty, so the `||` fallback only applies to
      keys outside the table. `formatDate` is the locale date formatter. */
  function PeriodText(period: string, startDate: string, endDate: string, formatDate: string -> string): (text: string)
    ensures text != ""
    ensures period in PeriodLabels ==> text == PeriodLabels[period]
    ensures period == "custom" ==> text == formatDate(startDate) + " - " + formatDate(endDate)
    ensures period !in PeriodLabels && period != "custom" ==> text == AnyPeriod
  {
    if period == "custom" then
      var range := formatDate(startDate) + " - " + formatDate(endDate);
      assert range[|formatDate(startDate)| + 1] == '-';
      range
    else if period in PeriodLabels then PeriodLabels[period]
    else AnyPeriod
  }

  /** `getTypeText`: the table caption, or the general caption for any other key. */
  function TypeText(kind: string): (text: string)
    ensures text != ""
    ensures kind in TypeLabels ==> text == TypeLabels[kind]
    ensures kind !in TypeLabels ==> text == GeneralType
  {
    if kind in TypeLabels then TypeLabels[kind] else GeneralType
  }

  /** The catch-all period caption comes out exactly for the keys with no entry of their
      own: no table caption and no `custom` range (which holds a `-`) equals it. */
  lemma PeriodFallbackIffUnknown(period: string, startDate: string, endDate: string, formatDate: string -> string)
    ensures PeriodText(period, startDate, endDate, formatDate) == AnyPeriod <==> period !in PeriodLabels && period != "custom"
  {
    var text := PeriodText(period, startDate, endDate, formatDate);
    if period == "custom" {
      var k := |formatDate(startDate)| + 1;
      assert text[k] == '-';
      assert forall i :: 0 <= i < |AnyPeriod| ==> AnyPeriod[i] != '-';
    } else if period in PeriodLabels {
      assert period in {"today", "yesterday", "week", "month", "quarter", "year"};
    }
  }

  /** The general type caption comes out exactly for keys outside the table. */
  lemma TypeFallbackIffUnknown(kind: string)
    ensures TypeText(kind) == GeneralType <==> kind !in TypeLabels
  {
    if kind in TypeLabels {
      assert kind in {"daily", "weekly", "monthly", "incident", "sensor", "performance"};
    }
  }

  // ---------------------------------------------------------------- statistics

  predicate IsReady(r: Report) { r.status == "ready" }
  predicate IsProcessing(r: Report) { r.status == "processing" }
  predicate IsFailed(r: Report) { r.status == "failed" }

  datatype ReportStats = ReportStats(total: nat, ready: nat, pending: nat, failed: nat)

  /** `updateStatistics`: the list length and the number of reports per status. The three
      statuses are distinct, so the counts never exceed the total. */
  function Statistics(reports: seq<Report>): (s: ReportStats)
    ensures s.total == |reports|
    ensures s.ready + s.pending + s.failed <= s.total
  {
    Lists.CountExclusive(reports, IsReady, IsProcessing, IsFailed);
    ReportStats(|reports|, Lists.Count(reports, IsReady), Lists.Count(reports, IsProcessing),
                Lists.Count(reports, IsFailed))
  }

  /** Each count is the number of positions holding that status. */
  lemma StatisticsByPosition(reports: seq<Report>)
    ensures Statistics(reports).ready == |set i | 0 <= i < |reports| && reports[i].status == "ready"|
    ensures Statistics(reports).pending == |set i | 0 <= i < |reports| && reports[i].status == "processing"|
    ensures Statistics(reports).failed == |set i | 0 <= i < |reports| && reports[i].status == "failed"|
  {
    Lists.CountIsIndexSet(reports, IsReady);
    Lists.CountIsIndexSet(reports, IsProcessing);
    Lists.CountIsIndexSet(reports, IsFailed);
    assert Lists.IndicesWhere(reports, IsReady) == set i | 0 <= i < |reports| && reports[i].status == "ready";
    assert Lists.IndicesWhere(reports, IsProcessing) == set i | 0 <= i < |reports| && reports[i].status == "processing";
    assert Lists.IndicesWhere(reports, IsFailed) == set i | 0 <= i < |reports| && reports[i].status == "failed";
  }

  // ---------------------------------------------------------------- creation

  /** The form check of `generateReport`: a message when the title is blank after trimming
      or either date is empty, nothing when the form may be submitted. */
  function Validate(form: Form): (message: Option<string>)
    ensures message.None? <==> !Text.Blank(form.title) && form.startDate != "" && form.endDate != ""
    ensures Text.Blank(form.title) ==> message == Some("Введите название отчета")
    ensures !Text.Blank(form.title) && message.Some? ==> message == Some("Укажите период отчета")
  {
    Text.TrimEmptyIffBlank(form.title);
    if Text.Trim(form.title) == "" then Some("Введите название отчета")
    else if form.startDate == "" || form.endDate == "" then Some("Укажите период отчета")
    else None
  }

  /** The id given to a report created at `now` milliseconds. */
  function ReportId(now: nat): (id: string)
    ensures |id| > 7 && id[..7] == "report_"
    ensures forall i :: 7 <= i < |id| ==> '0' <= id[i] <= '9'
    ensures Text.NatValue(id[7..]) == now
  {
    Text.NatTextRoundTrip(now);
    var id := "report_" + Text.NatText(now);
    assert id[7..] == Text.NatText(now);
    id
  }

  /** Reports created at different milliseconds get different ids. */
  lemma ReportIdInjective(a: nat, b: nat)
    ensures ReportId(a) == ReportId(b) <==> a == b
  {
  }

  /** A generation job: the list position captured when it starts, and its progress. */
  datatype Job = Job(index: nat, progress: int)

  /** How `simulateReportGeneration` starts: the position of the first report with that id,
      or no job at all when there is none. */
  function StartJob(reports: seq<Report>, id: string): (job: Option<Job>)
    ensures job.None? <==> forall i :: 0 <= i < |reports| ==> reports[i].id != id
    ensures job.Some? ==> && job.value.progress == 0
                          && job.value.index < |reports| && reports[job.value.index].id == id
                          && forall i :: 0 <= i < job.value.index ==> reports[i].id != id
  {
    match Lists.FirstIndex(reports, (r: Report) => r.id == id)
    case None => None
    case Some(i) => Some(Job(i, 0))
  }

  datatype GenerateOutcome =
    | Rejected(message: string)       // the form check failed
    | ThrewOnUser                     // the stored user does not parse
    | Queued(report: Report, job: Job)

  /** The author `generateReport` records: `Оператор` when no user is stored, otherwise the
      stored user's name (absent when the record has none). */
  function Author(user: Slot<UserRecord>): Option<string>
    requires !user.Corrupt?
  {
    if user.Missing? then Some("Оператор") else user.value.name
  }

  /** The report built from a submitted form: status `processing`, progress 0, size `0 KB`,
      the title as typed (untrimmed) and the captions of the period and type keys. */
  function NewReport(form: Form, author: Option<string>, stamp: Stamp, formatDate: string -> string): (r: Report)
    ensures r.id == ReportId(stamp.now) && r.title == form.title && r.author == author
    ensures r.status == "processing" && r.progress == 0 && r.size == "0 KB"
    ensures r.period == PeriodText(form.period, form.startDate, form.endDate, formatDate)
    ensures r.kind == TypeText(form.kind)
  {
    Report(ReportId(stamp.now), form.title, PeriodText(form.period, form.startDate, form.endDate, formatDate),
           TypeText(form.kind), form.format, author, "processing", stamp.iso, form.startDate, form.endDate,
           form.notes, "0 KB", 0)
  }

  /** Puts a new report in front of the list, saves the whole list, shows the queued notice
      and starts the generation job, which finds the new report at position 0. */
  function Enqueue(page: Page, report: Report): (r: (Page, GenerateOutcome))
    ensures r.0.reports == [report] + page.reports
    ensures r.0.stored == Stored(r.0.reports)
    ensures r.0.toasts == page.toasts + [Toast("Отчет поставлен в очередь на генерацию", InfoToast)]
    ensures r.1 == Queued(report, Job(0, 0))
  {
    var reports := [report] + page.reports;
    var job := StartJob(reports, report.id).value;
    (Page(reports, Stored(reports), page.toasts + [Toast("Отчет поставлен в очередь на генерацию", InfoToast)]),
     Queued(report, job))
  }

  /** `generateReport`. A rejected form adds one warning and changes nothing else. A stored
      user that does not parse aborts before anything changes. Otherwise the report built
      from the form is queued. */
  function GenerateReport(page: Page, form: Form, user: Slot<UserRecord>, stamp: Stamp, formatDate: string -> string): (r: (Page, GenerateOutcome))
    ensures Validate(form).Some? ==> r == (page.(toasts := page.toasts + [Toast(Validate(form).value, WarningToast)]), Rejected(Validate(form).value))
    ensures Validate(form).None? && user.Corrupt? ==> r == (page, ThrewOnUser)
    ensures Validate(form).None? && !user.Corrupt? ==> r == Enqueue(page, NewReport(form, Author(user), stamp, formatDate))
  {
    match Validate(form)
    case Some(message) => (page.(toasts := page.toasts + [Toast(message, WarningToast)]), Rejected(message))
    case None =>
      if user.Corrupt? then (page, ThrewOnUser)
      else Enqueue(page, NewReport(form, Author(user), stamp, formatDate))
  }

  /** A queued report adds one to the total and to the pending count and leaves the ready
      and failed counts as they were. */
  lemma EnqueueAddsPending(page: Page, report: Report)
    requires report.status == "processing"
    ensures var before := Statistics(page.reports);
            var after := Statistics(Enqueue(page, report).0.reports);
            after == before.(total := before.total + 1, pending := before.pending + 1)
  {
    Lists.CountPrepend(report, page.reports, IsReady);
    Lists.CountPrepend(report, page.reports, IsProcessing);
    Lists.CountPrepend(report, page.reports, IsFailed);
  }

  /** A submitted form with a readable user puts exactly one new report in front, with
      status `processing`, progress 0 and size `0 KB`, keeps the older reports in their
      order behind it, and moves the counts by one pending report. */
  lemma GenerateQueuesOne(page: Page, form: Form, user: Slot<UserRecord>, stamp: Stamp, formatDate: string -> string)
    requires Validate(form).None? && !user.Corrupt?
    ensures var r := GenerateReport(page, form, user, stamp, formatDate);
            && r.1.Queued?
            && |r.0.reports| == |page.reports| + 1
            && r.0.reports[1..] == page.reports
            && r.0.reports[0] == r.1.report
            && r.1.report.status == "processing" && r.1.report.progress == 0 && r.1.report.size == "0 KB"
            && r.1.report.id == ReportId(stamp.now) && r.1.report.title == form.title
            && r.1.job == Job(0, 0)
            && Statistics(r.0.reports) == Statistics(page.reports).(total := |page.reports| + 1,
                                                                      pending := Statistics(page.reports).pending + 1)
  {
    var report := NewReport(form, Author(user), stamp, formatDate);
    EnqueueAddsPending(page, report);
  }

  // ---------------------------------------------------------------- generation

  datatype TickOutcome =
    | Running    // progress below 100: the interval keeps going
    | Finished   // the report is ready and the interval is cleared
    | Stopped    // the job has no report to work on and ends
    | TickThrew  // the captured position holds no report: the callback throws, the interval keeps going

  /** The size text of a finished report: one decimal of a draw scaled into [1, 6), in MB. */
  function ReadySize(u: Draw): (size: string)
    ensures |size| >= 3 && size[|size| - 3..] == " MB"
  {
    Fixed(u * 5.0 + 1.0, 1) + " MB"
  }

  /** The tenths behind the size text lie between 10 and 60: the size reads 1.0 to 6.0 MB. */
  lemma ReadySizeBounds(u: Draw)
    ensures 10 <= Nearest((u * 5.0 + 1.0) * 10.0) <= 60
  {
    var y := (u * 5.0 + 1.0) * 10.0;
    assert 10.0 <= y < 60.0;
  }

  /** The report entry after a tick whose progress is `p`. */
  function Advanced(rep: Report, p: int, u: Draw): Report
  {
    if p >= 100 then rep.(progress := 100, status := "ready", size := ReadySize(u))
    else rep.(progress := p)
  }

  /** One run of the interval callback of `simulateReportGeneration`, as written: it adds 10
      to the progress and writes to the position captured when the job started, whatever
      report is there now. */
  function Tick(page: Page, job: Job, u: Draw): (r: (Page, Job, TickOutcome))
    ensures r.1 == Job(job.index, job.progress + 10)
    ensures job.index >= |page.reports| ==> r.0 == page && r.2 == TickThrew
    ensures job.index < |page.reports| ==>
              && r.0.reports == page.reports[job.index := Advanced(page.reports[job.index], job.progress + 10, u)]
              && r.0.stored == Stored(r.0.reports)
              && (r.2 == Finished <==> job.progress + 10 >= 100)
              && (r.2 == Running <==> job.progress + 10 < 100)
              && r.0.toasts == page.toasts + (if r.2 == Finished then [Toast("Отчет успешно сгенерирован", SuccessToast)] else [])
  {
    var p := job.progress + 10;
    if job.index >= |page.reports| then (page, Job(job.index, p), TickThrew)
    else
      var reports := page.reports[job.index := Advanced(page.reports[job.index], p, u)];
      if p >= 100 then
        (Page(reports, Stored(reports), page.toasts + [Toast("Отчет успешно сгенерирован", SuccessToast)]), Job(job.index, p), Finished)
      else
        (page.(reports := reports, stored := Stored(reports)), Job(job.index, p), Running)
  }

  /** The callback run once per draw until it clears its interval. */
  function Ticks(page: Page, job: Job, us: seq<Draw>): (Page, Job, TickOutcome)
    decreases |us|
  {
    if |us| == 0 then (page, job, Running)
    else
      var t := Tick(page, job, us[0]);
      if t.2 == Finished || |us| == 1 then t else Ticks(t.0, t.1, us[1..])
  }

  /** While the progress stays below 100 before the last tick, `n` ticks add `10 n` to the
      progress, the status changes only on the tick that reaches 100, and no other report
      is touched. */
  lemma {:induction false} TicksReach(page: Page, job: Job, us: seq<Draw>)
    requires job.index < |page.reports|
    requires |us| >= 1
    requires job.progress + 10 * (|us| - 1) < 100
    ensures var r := Ticks(page, job, us);
            var p := job.progress + 10 * |us|;
            && r.1 == Job(job.index, p)
            && (r.2 == Finished <==> p >= 100)
            && (r.2 == Running <==> p < 100)
            && |r.0.reports| == |page.reports|
            && r.0.reports[job.index] == Advanced(page.reports[job.index], p, us[|us| - 1])
            && (forall j :: 0 <= j < |page.reports| && j != job.index ==> r.0.reports[j] == page.reports[j])
    decreases |us|
  {
    if |us| > 1 {
      var t := Tick(page, job, us[0]);
      TicksReach(t.0, t.1, us[1..]);
      assert us[1..][|us[1..]| - 1] == us[|us| - 1];
    }
  }

  /** A job started at progress 0 on a report that stays at its position is still running
      after nine ticks, with progress 90 and the status untouched, and the tenth tick makes
      the report `ready` with progress 100. */
  lemma TenTicks(page: Page, index: nat, us: seq<Draw>)
    requires index < |page.reports|
    requires |us| == 10
    ensures var nine := Ticks(page, Job(index, 0), us[..9]);
            && nine.2 == Running
            && |nine.0.reports| == |page.reports|
            && nine.0.reports[index] == page.reports[index].(progress := 90)
    ensures var ten := Ticks(page, Job(index, 0), us);
            && ten.2 == Finished
            && |ten.0.reports| == |page.reports|
            && ten.0.reports[index].status == "ready"
            && ten.0.reports[index].progress == 100
  {
    TicksReach(page, Job(index, 0), us[..9]);
    TicksReach(page, Job(index, 0), us);
  }

  /** The position a job captured is stale once a second report is queued: the first
      report's job then advances the second report, and after its ten ticks the first
      report is exactly as it was queued (still `processing`, progress 0). */
  lemma CapturedIndexHitsNewerReport(page: Page, a: Report, b: Report, us: seq<Draw>)
    requires |us| == 10
    ensures var (p1, queuedA) := Enqueue(page, a);
            var (p2, queuedB) := Enqueue(p1, b);
            var afterA := Ticks(p2, queuedA.job, us);
            && queuedA.job == queuedB.job
            && afterA.2 == Finished
            && |afterA.0.reports| == |page.reports| + 2
            && afterA.0.reports[1] == a
            && afterA.0.reports[0] == Advanced(b, 100, us[9])
  {
    var (p1, queuedA) := Enqueue(page, a);
    var (p2, queuedB) := Enqueue(p1, b);
    TicksReach(p2, Job(0, 0), us);
  }

  // ---------------------------------------------------------------- generation by id

  /** A generation job that remembers the report's id instead of its position. */
  datatype IdJob = IdJob(id: string, progress: int)

  /** Position `i` holds the first report with this id. */
  predicate FirstWithId(reports: seq<Report>, id: string, i: int)
  {
    0 <= i < |reports| && reports[i].id == id && forall j :: 0 <= j < i ==> reports[j].id != id
  }

  /** The position `FirstIndex` finds for an id is the only one holding the first report
      with it. */
  lemma FirstWithIdOnly(reports: seq<Report>, id: string, i: nat)
    requires Lists.FirstIndex(reports, (rep: Report) => rep.id == id) == Some(i)
    ensures forall k :: FirstWithId(reports, id, k) ==> k == i
  {
  }

  /** A tick of the report found by id at position `i`: the captured-index tick at `i`. */
  function TickFirst(page: Page, job: IdJob, i: nat, u: Draw): (r: (Page, IdJob, TickOutcome))
    requires FirstWithId(page.reports, job.id, i)
    ensures r.1 == IdJob(job.id, job.progress + 10)
    ensures r.0.reports == page.reports[i := Advanced(page.reports[i], job.progress + 10, u)]
    ensures r.0.stored == Stored(r.0.reports)
    ensures r.2 == Finished <==> job.progress + 10 >= 100
    ensures r.2 == Running <==> job.progress + 10 < 100
    ensures r.0.toasts == page.toasts + (if r.2 == Finished then [Toast("Отчет успешно сгенерирован", SuccessToast)] else [])
  {
    var t := Tick(page, Job(i, job.progress), u);
    (t.0, IdJob(job.id, job.progress + 10), t.2)
  }

  /** The callback as evidently intended: the report is looked up by id on every tick, so
      reports queued in the meantime do not move the target; a report that has gone stops
      the job. */
  function TickById(page: Page, job: IdJob, u: Draw): (r: (Page, IdJob, TickOutcome))
    ensures r.1 == IdJob(job.id, job.progress + 10)
    ensures (forall i :: 0 <= i < |page.reports| ==> page.reports[i].id != job.id) ==> r.0 == page && r.2 == Stopped
    ensures |r.0.reports| == |page.reports|
    ensures forall j :: 0 <= j < |page.reports| && page.reports[j].id != job.id ==> r.0.reports[j] == page.reports[j]
    ensures forall i :: FirstWithId(page.reports, job.id, i) ==>
              && r.0.reports == page.reports[i := Advanced(page.reports[i], job.progress + 10, u)]
              && r.0.stored == Stored(r.0.reports)
              && (r.2 == Finished <==> job.progress + 10 >= 100)
              && (r.2 == Running <==> job.progress + 10 < 100)
              && r.0.toasts == page.toasts + (if r.2 == Finished then [Toast("Отчет успешно сгенерирован", SuccessToast)] else [])
  {
    var p := job.progress + 10;
    match Lists.FirstIndex(page.reports, (rep: Report) => rep.id == job.id)
    case None => (page, IdJob(job.id, p), Stopped)
    case Some(i) =>
      FirstWithIdOnly(page.reports, job.id, i);
      TickFirst(page, job, i, u)
  }

  /** A tick at a position shifted past reports put in front does to the rest of the list
      what the unshifted tick does. */
  lemma TickShifted(page: Page, newer: seq<Report>, job: Job, u: Draw)
    requires job.index < |page.reports|
    ensures var before := Tick(page, job, u);
            var after := Tick(page.(reports := newer + page.reports), Job(|newer| + job.index, job.progress), u);
            && after.0.reports == newer + before.0.reports
            && after.2 == before.2
  {
    var i := job.index;
    var v := Advanced(page.reports[i], job.progress + 10, u);
    assert (newer + page.reports)[|newer| + i] == page.reports[i];
    assert (newer + page.reports)[|newer| + i := v] == newer + page.reports[i := v];
  }

  /** Reports with other ids put in front of the list do not change what a tick by id does
      to the rest of the list. */
  lemma TickByIdIgnoresNewer(page: Page, newer: seq<Report>, job: IdJob, u: Draw)
    requires forall i :: 0 <= i < |newer| ==> newer[i].id != job.id
    ensures var before := TickById(page, job, u);
            var after := TickById(page.(reports := newer + page.reports), job, u);
            && after.0.reports == newer + before.0.reports
            && after.2 == before.2
  {
    var p := (rep: Report) => rep.id == job.id;
    Lists.FirstIndexAfterPrefix(newer, page.reports, p);
    match Lists.FirstIndex(page.reports, p)
    case None =>
    case Some(i) =>
      TickShifted(page, newer, Job(i, job.progress), u);
  }

  /** With lookup by id, the first report's job advances the first report even after a
      second one, with another id, has been queued in front of it. */
  lemma IdJobFollowsItsReport(page: Page, a: Report, b: Report, u: Draw)
    requires a.id != b.id
    ensures var (p1, _) := Enqueue(page, a);
            var (p2, _) := Enqueue(p1, b);
            var afterA := TickById(p2, IdJob(a.id, 0), u);
            && afterA.2 == Running
            && |afterA.0.reports| == |page.reports| + 2
            && afterA.0.reports[0] == b
            && afterA.0.reports[1] == a.(progress := 10)
  {
    var (p1, _) := Enqueue(page, a);
    var (p2, _) := Enqueue(p1, b);
    var p := (rep: Report) => rep.id == a.id;
    assert p2.reports == [b] + ([a] + page.reports);
    Lists.FirstIndexAfterPrefix([b], [a] + page.reports, p);
  }

  // ---------------------------------------------------------------- clearing and deleting

  /** `clearAllReports`. An empty list only gets the "nothing to delete" notice; otherwise,
      once the user confirms, the list is emptied and the stored key removed. */
  function ClearAllReports(page: Page, confirmed: bool): (r: Page)
    ensures page.reports == [] ==> r == page.(toasts := page.toasts + [Toast("Нет отчетов для удаления", InfoToast)])
    ensures page.reports != [] && !confirmed ==> r == page
    ensures page.reports != [] && confirmed ==>
              r == Page([], Missing, page.toasts + [Toast("Все отчеты удалены", WarningToast)])
  {
    if |page.reports| == 0 then page.(toasts := page.toasts + [Toast("Нет отчетов для удаления", InfoToast)])
    else if confirmed then Page([], Missing, page.toasts + [Toast("Все отчеты удалены", WarningToast)])
    else page
  }

  /** Clearing leaves all counts at zero, and clearing again only reports that there is
      nothing to delete. */
  lemma ClearThenClear(page: Page, confirmed: bool)
    requires page.reports != []
    ensures Statistics(ClearAllReports(page, true).reports) == ReportStats(0, 0, 0, 0)
    ensures var once := ClearAllReports(page, true);
            var twice := ClearAllReports(once, confirmed);
            twice.reports == [] && twice.stored == Missing && twice.toasts[|twice.toasts| - 1].message == "Нет отчетов для удаления"
  {
  }

  predicate Keeps(id: string, r: Report) { r.id != id }

  /** How a call to `deleteReport` ends: the confirm dialog was declined, the delete went
      through, or the stored list did not parse and the call threw. */
  datatype DeleteOutcome = Declined | Deleted | ThrewOnStorage

  /** `deleteReport` (a global function). It works on the stored list, not the page's
      in-memory one: a missing key reads as the empty list, a stored value that does not
      parse throws before anything changes, and otherwise the reports with that id are
      filtered out and the rest saved. The in-memory list is not reloaded, because the
      reload function is local to the page script and not visible from here. */
  function DeleteReport(page: Page, id: string, confirmed: bool): (r: (Page, DeleteOutcome))
    ensures !confirmed <==> r.1 == Declined
    ensures r.1 == ThrewOnStorage <==> confirmed && page.stored.Corrupt?
    ensures r.1 != Deleted ==> r.0 == page
    ensures r.0.reports == page.reports && r.0.toasts == page.toasts
    ensures confirmed && page.stored.Missing? ==> r.0.stored == Stored([])
    ensures confirmed && page.stored.Stored? ==>
              && r.0.stored.Stored?
              && (forall x :: x in r.0.stored.value <==> x in page.stored.value && x.id != id)
              && |r.0.stored.value| == Lists.Count(page.stored.value, rep => Keeps(id, rep))
  {
    if !confirmed then (page, Declined)
    else match page.stored
      case Corrupt => (page, ThrewOnStorage)
      case Missing => (page.(stored := Stored([])), Deleted)
      case Stored(reports) =>
        var kept := Lists.Filter(reports, rep => Keeps(id, rep));
        forall x | x in reports && x.id != id ensures x in kept {
          Lists.FilterKeeps(reports, rep => Keeps(id, rep), x);
        }
        (page.(stored := Stored(kept)), Deleted)
  }

  /** Deleting keeps the survivors in their stored order: the part of the list before any
      position and the part after it are filtered separately and joined again. */
  lemma DeleteKeepsOrder(page: Page, id: string, k: nat)
    requires page.stored.Stored? && k <= |page.stored.value|
    ensures var reports := page.stored.value;
            DeleteReport(page, id, true).0.stored.value
              == DeleteReport(page.(stored := Stored(reports[..k])), id, true).0.stored.value
               + DeleteReport(page.(stored := Stored(reports[k..])), id, true).0.stored.value
  {
    var reports := page.stored.value;
    assert reports == reports[..k] + reports[k..];
    Lists.FilterConcat(reports[..k], reports[k..], rep => Keeps(id, rep));
  }

  /** Deleting the same id twice is the same as deleting it once. */
  lemma DeleteTwice(page: Page, id: string)
    ensures DeleteReport(DeleteReport(page, id, true).0, id, true) == DeleteReport(page, id, true)
  {
    if page.stored.Stored? {
      Lists.FilterIdempotent(page.stored.value, rep => Keeps(id, rep));
    }
  }
}
