/**
  One crawl job as the database and its worker see it (src/worker/tasks.py).

  A `Cell` is the committed rows of one job together with the worker run that holds it, if any.
  The run keeps its own copy of the job row in an ORM session: `base` is the row as it was when
  last loaded or committed, `job` the row with the worker's assignments. A commit writes exactly
  the columns in which the two differ, so a column the worker leaves alone keeps whatever the API
  committed meanwhile.

  Every event of `Step` is one database access of the worker, one committed API call on the job,
  a delivery by the queue, or a crash. Events of other parties may stand between any two events
  of the worker.
*/
module CrawlModel {
  import opened Wrappers
  import opened Numerals

  type JobId = string
  type RowId = string
  type UserId = string

  datatype Status = Queued | Running | Completed | Failed | Cancelled

  datatype Mode = Sitemap | LinkExtraction | Crawler | Scraper | Other(name: string)

  datatype Settings = Settings(
    linkExtractionStrategy: string, linkExtractionLimit: int, outputFormat: string, rest: string)

  // The columns no code updates after the insert.
  datatype JobSpec = JobSpec(
    userId: UserId, targetUrl: string, mode: Mode, settings: Settings, filters: Option<string>,
    seedUrls: Option<seq<string>>, createdAt: int, urlLimit: int)

  datatype Job = Job(
    spec: JobSpec, status: Status, error: Option<string>, startedAt: Option<int>, finishedAt: Option<int>,
    urlsDiscovered: nat, urlsScraped: nat)

  datatype DiscoveredRow = DiscoveredRow(id: RowId, url: string, discoveredAt: int)

  datatype ResultRow = ResultRow(id: RowId, url: string, body: string, format: string, extractedAt: int)

  datatype Level = Info | Warn | Error

  datatype LogLine = LogLine(timestamp: int, level: Level, message: string)

  // A job row and the rows that refer to it, as committed.
  datatype Record = Record(job: Job, discovered: seq<DiscoveredRow>, results: seq<ResultRow>, logs: seq<LogLine>)

  // What an engine yields, after URL decoding and summarising: a page, or an item on which those raise.
  datatype Item = Page(url: string, body: string) | Poison(error: string)

  datatype Session = Session(
    base: Job, job: Job, discovered: seq<DiscoveredRow>, results: seq<ResultRow>)

  // The database access, engine call or piece of straight-line code the run performs next.
  datatype Pc =
    | StartCommit
    | StartLog
    | Preparing
    | BadSettingsCommit
    | Streaming
    | Checking(item: Item)
    | Recording(item: Item)
    | ItemCommit
    | CancelLog
    | ShallowCommit
    | Leaving(cancelled: bool)
    | ScraperWarn
    | Returned(cancelled: bool)
    | Raised(message: string)
    | FinalCommit
    | HandlerCommit
    | LastLog(handled: bool)

  datatype Worker = Worker(pc: Pc, session: Session)

  // `removed` counts the rows delete_discovered_url took out; it is history, not a column.
  datatype Cell = Cell(record: Record, removed: nat, worker: Option<Worker>)

  // What a foreign call gives back: nothing in particular, an item, the end of a stream, an exception.
  datatype Outcome = Proceed | Yield(item: Item) | EndOfStream | Raise(message: string)

  // What recording a page draws besides the clock: the ids of its rows, and the clock once more.
  datatype Draw = Draw(discovered: RowId, result: RowId, extractedAt: int)

  datatype Event =
    | Cancel(now: int)
    | DeleteDiscovered(id: RowId)
    | Deliver(now: int)
    | Crash
    | Work(now: int, draw: Draw, outcome: Outcome)

  /** A step of the run that records no page. */
  function Plain(now: int, o: Outcome): Event { Work(now, Draw("", "", 0), o) }

  predicate Active(status: Status) { status == Queued || status == Running }

  predicate Shallow(spec: JobSpec)
  {
    spec.mode == LinkExtraction && spec.settings.linkExtractionStrategy == "shallow"
  }

  predicate ScrapesPages(mode: Mode) { mode == Crawler || mode == Scraper }

  // ---------------------------------------------------------------- session and commit

  /** The value a commit leaves in one column: the session's if it changed it, else the database's. */
  function Column<T(==)>(base: T, mine: T, theirs: T): T
  {
    if mine == base then theirs else mine
  }

  function WriteBack(db: Job, s: Session): Job
  {
    Job(db.spec,
        Column(s.base.status, s.job.status, db.status),
        Column(s.base.error, s.job.error, db.error),
        Column(s.base.startedAt, s.job.startedAt, db.startedAt),
        Column(s.base.finishedAt, s.job.finishedAt, db.finishedAt),
        Column(s.base.urlsDiscovered, s.job.urlsDiscovered, db.urlsDiscovered),
        Column(s.base.urlsScraped, s.job.urlsScraped, db.urlsScraped))
  }

  /** A commit that carries the log lines `lines` besides whatever is pending. */
  function Commit(r: Record, s: Session, lines: seq<LogLine>): Record
  {
    Record(WriteBack(r.job, s), r.discovered + s.discovered, r.results + s.results, r.logs + lines)
  }

  /** The session after a commit: nothing pending, and the row stays loaded. */
  function Flush(s: Session): Session
  {
    Session(s.job, s.job, [], [])
  }

  function Open(job: Job): Session { Session(job, job, [], []) }

  /** Adds the rows of one page and bumps the counters, without committing. */
  function AddPage(s: Session, url: string, body: string, now: int, draw: Draw): Session
  {
    var spec := s.job.spec;
    var counted := s.job.(urlsDiscovered := s.job.urlsDiscovered + 1);
    var seen := s.(job := counted, discovered := s.discovered + [DiscoveredRow(draw.discovered, url, now)]);
    if ScrapesPages(spec.mode) then
      seen.(job := counted.(urlsScraped := counted.urlsScraped + 1),
            results := s.results + [ResultRow(draw.result, url, body, spec.settings.outputFormat, draw.extractedAt)])
    else seen
  }

  function Begin(job: Job, now: int): Session
  {
    Session(job, job.(status := Running, startedAt := Some(now)), [], [])
  }

  function Fail(s: Session, error: string, now: int): Session
  {
    s.(job := s.job.(status := Failed, error := Some(error), finishedAt := Some(now)))
  }

  /** The assignments after a mode loop returned. */
  function Settle(s: Session, cancelled: bool, now: int): Session
  {
    if cancelled then s.(job := s.job.(status := Cancelled, finishedAt := Some(now)))
    else if s.job.urlsDiscovered == 0 then
      Fail(s, "No pages could be loaded from " + s.job.spec.targetUrl, now)
    else s.(job := s.job.(status := Completed, finishedAt := Some(now)))
  }

  function ModeName(mode: Mode): string
  {
    match mode
    case Sitemap => "sitemap"
    case LinkExtraction => "link_extraction"
    case Crawler => "crawler"
    case Scraper => "scraper"
    case Other(name) => name
  }

  function StatusName(status: Status): string
  {
    match status
    case Queued => "queued"
    case Running => "running"
    case Completed => "completed"
    case Failed => "failed"
    case Cancelled => "cancelled"
  }

  /** The URLs a scraper job hands to its engine. */
  function SeedList(spec: JobSpec): seq<string>
  {
    if spec.seedUrls.Some? && spec.seedUrls.value != [] then spec.seedUrls.value else [spec.targetUrl]
  }

  function FirstLine(spec: JobSpec, now: int): LogLine
  {
    LogLine(now, Info, "Starting " + ModeName(spec.mode) + " job for " + spec.targetUrl)
  }

  function NothingLine(spec: JobSpec, now: int): LogLine
  {
    LogLine(now, Warn, "Scraped nothing from " + Numeral(|SeedList(spec)|) + " URL(s)")
  }

  /** The line the run writes last. Outside the exception handler an empty error text counts as no error. */
  function LastLine(job: Job, handled: bool, now: int): LogLine
  {
    var error := if job.error.Some? then job.error.value else "";
    if handled then LogLine(now, Level.Error, "Job failed: " + error)
    else if error != "" then LogLine(now, Level.Error, error)
    else LogLine(now, Info, "Job " + StatusName(job.status))
  }

  // ---------------------------------------------------------------- transitions

  /** Where a mode loop goes when it stops: SiteMap has no context manager to leave. */
  function AfterLoop(s: Session, cancelled: bool): Pc
  {
    if s.job.spec.mode == Sitemap then Returned(cancelled) else Leaving(cancelled)
  }

  /** One step of the worker run: the committed rows and the run it leaves. */
  function Resume(r: Record, w: Worker, now: int, draw: Draw, o: Outcome): (Record, Option<Worker>)
  {
    var s := w.session;
    match w.pc
    case StartCommit =>
      (Commit(r, s, []), Some(Worker(StartLog, Flush(s))))
    case StartLog =>
      (Commit(r, s, [FirstLine(s.job.spec, now)]), Some(Worker(Preparing, Flush(s))))
    case Preparing =>
      (r, Some(if o.Raise? then Worker(BadSettingsCommit, Fail(s, "Invalid settings: " + o.message, now))
               else if s.job.spec.mode.Other? then Worker(Raised("Unknown crawl mode: " + s.job.spec.mode.name), s)
               else Worker(Streaming, s)))
    case BadSettingsCommit =>
      (Commit(r, s, []), Some(Worker(LastLog(false), Flush(s))))
    case Streaming =>
      (r, Some(match o
               case Yield(item) => Worker(Checking(item), s)
               case EndOfStream => Worker(if Shallow(s.job.spec) then ShallowCommit else AfterLoop(s, false), s)
               case Raise(message) => Worker(Raised(message), s)
               case Proceed => w))
    case Checking(item) =>
      (r, Some(Worker(if r.job.status == Cancelled then CancelLog else Recording(item), s)))
    case Recording(item) =>
      (r, Some(match item
               case Page(url, body) =>
                 Worker(if Shallow(s.job.spec) then Streaming else ItemCommit, AddPage(s, url, body, now, draw))
               case Poison(error) => Worker(Raised(error), s)))
    case ItemCommit =>
      (Commit(r, s, []), Some(Worker(Streaming, Flush(s))))
    case CancelLog =>
      (Commit(r, s, [LogLine(now, Warn, "Cancelled before completion")]), Some(Worker(AfterLoop(s, true), Flush(s))))
    case ShallowCommit =>
      (Commit(r, s, []), Some(Worker(AfterLoop(s, false), Flush(s))))
    case Leaving(cancelled) =>
      (r, Some(if o.Raise? then Worker(Raised(o.message), s)
               else if !cancelled && s.job.spec.mode == Scraper && s.job.urlsScraped == 0 then Worker(ScraperWarn, s)
               else Worker(Returned(cancelled), s)))
    case ScraperWarn =>
      (Commit(r, s, [NothingLine(s.job.spec, now)]), Some(Worker(Returned(false), Flush(s))))
    case Returned(cancelled) =>
      (r, Some(Worker(FinalCommit, Settle(s, cancelled, now))))
    case Raised(message) =>
      (r, Some(Worker(HandlerCommit, Fail(s, message, now))))
    case FinalCommit =>
      (Commit(r, s, []), Some(Worker(LastLog(false), Flush(s))))
    case HandlerCommit =>
      (Commit(r, s, []), Some(Worker(LastLog(true), Flush(s))))
    case LastLog(handled) =>
      (Commit(r, s, [LastLine(s.job, handled, now)]), None)
  }

  /** cancel_crawl on the committed rows. */
  function CancelRecord(r: Record, now: int): Record
  {
    if Active(r.job.status) then r.(job := r.job.(status := Cancelled, finishedAt := Some(now))) else r
  }

  /** The first position of a row with this id, or the number of rows. Ids are unique in the table. */
  function IndexOfRow(rows: seq<DiscoveredRow>, id: RowId): (i: nat)
    ensures i <= |rows|
    ensures i < |rows| ==> rows[i].id == id
    ensures forall k :: 0 <= k < i ==> rows[k].id != id
  {
    if rows == [] || rows[0].id == id then 0 else 1 + IndexOfRow(rows[1..], id)
  }

  function WithoutRow(rows: seq<DiscoveredRow>, id: RowId): seq<DiscoveredRow>
  {
    var i := IndexOfRow(rows, id);
    if i < |rows| then rows[..i] + rows[i + 1..] else rows
  }

  /** delete_discovered_url on the committed rows: the job row is left as it is. */
  function RemoveDiscovered(r: Record, id: RowId): Record
  {
    r.(discovered := WithoutRow(r.discovered, id))
  }

  function Step(c: Cell, e: Event): Cell
  {
    match e
    case Cancel(now) => c.(record := CancelRecord(c.record, now))
    case DeleteDiscovered(id) =>
      var r := RemoveDiscovered(c.record, id);
      c.(record := r, removed := c.removed + (|c.record.discovered| - |r.discovered|))
    case Deliver(now) =>
      if c.worker.None? && c.record.job.status != Cancelled
      then c.(worker := Some(Worker(StartCommit, Begin(c.record.job, now)))) else c
    case Crash => c.(worker := None)
    case Work(now, draw, o) =>
      if c.worker.None? then c
      else var (r, w) := Resume(c.record, c.worker.value, now, draw, o); c.(record := r, worker := w)
  }

  ghost predicate NoDelivery(es: seq<Event>) { forall e | e in es :: !e.Deliver? }

  ghost predicate NoCrash(es: seq<Event>) { forall e | e in es :: !e.Crash? }

  /** No foreign call raises. */
  ghost predicate NoException(es: seq<Event>)
  {
    forall e | e in es :: e.Work? ==> !e.outcome.Raise?
  }

  function Run(c: Cell, es: seq<Event>): Cell
    decreases es
  {
    if es == [] then c else Run(Step(c, es[0]), es[1..])
  }

  lemma {:induction false} RunAppend(c: Cell, es: seq<Event>, fs: seq<Event>)
    ensures Run(c, es + fs) == Run(Run(c, es), fs)
    decreases es
  {
    if es == [] {
      assert es + fs == fs;
    } else {
      assert (es + fs)[1..] == es[1..] + fs;
      RunAppend(Step(c, es[0]), es[1..], fs);
    }
  }

  lemma RunSnoc(c: Cell, es: seq<Event>, e: Event)
    ensures Run(c, es + [e]) == Step(Run(c, es), e)
  {
    RunAppend(c, es, [e]);
    assert Run(Run(c, es), [e]) == Step(Run(c, es), e) by { assert [e][1..] == []; }
  }
}
