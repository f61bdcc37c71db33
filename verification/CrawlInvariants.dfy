/**
  What every interleaving of a job's worker run with API calls, crashes and redeliveries keeps:
  the counters agree with the rows, the status moves only along fixed edges, and a run that is not
  cut short leaves the job settled.
*/
module CrawlInvariants {
  import opened Wrappers
  import opened CrawlModel
  import opened Numerals

  // ---------------------------------------------------------------- the invariant

  /** In crawler and scraper mode every page found is scraped; the other modes scrape nothing. */
  ghost predicate ModeCounts(job: Job)
  {
    if ScrapesPages(job.spec.mode) then job.urlsScraped == job.urlsDiscovered else job.urlsScraped == 0
  }

  ghost predicate Conserved(c: Cell)
  {
    var job := c.record.job;
    && |c.record.discovered| + c.removed == job.urlsDiscovered
    && |c.record.results| == job.urlsScraped
    && ModeCounts(job)
    && (job.status == Cancelled ==> job.finishedAt.Some?)
  }

  ghost predicate Terminal(status: Status) { !Active(status) }

  /** How an uncrashed run leaves its job. */
  ghost predicate Settled(job: Job)
  {
    && Terminal(job.status)
    && job.startedAt.Some?
    && job.finishedAt.Some?
    && (job.status == Completed ==> job.urlsDiscovered > 0)
    && (job.status == Failed ==> job.error.Some?)
  }

  /** The run has loaded and started the job and has not yet decided its final status. */
  ghost predicate InLoop(pc: Pc)
  {
    !pc.StartCommit? && !Deciding(pc) && !pc.LastLog?
  }

  /** The final status stands in the session and not yet in the database. */
  ghost predicate Deciding(pc: Pc)
  {
    pc.FinalCommit? || pc.HandlerCommit? || pc.BadSettingsCommit?
  }

  /** `is_cancelled` returned true and no exception came since. */
  ghost predicate SawCancel(w: Worker)
  {
    match w.pc
    case CancelLog => true
    case Leaving(cancelled) => cancelled
    case Returned(cancelled) => cancelled
    case FinalCommit => w.session.job.status == Cancelled
    case LastLog(_) => w.session.job.status == Cancelled
    case _ => false
  }

  /** The session has the counters of the database plus its pending rows. */
  ghost predicate SessionCounts(db: Job, s: Session)
  {
    && s.base.spec == s.job.spec == db.spec
    && s.base.urlsDiscovered == db.urlsDiscovered
    && s.base.urlsScraped == db.urlsScraped
    && s.job.urlsDiscovered == db.urlsDiscovered + |s.discovered|
    && s.job.urlsScraped == db.urlsScraped + |s.results|
    && ModeCounts(s.job)
  }

  /** The statuses of database, loaded row and session that can stand together at each point of the run. */
  ghost predicate Statuses(db: Job, w: Worker)
  {
    var s := w.session;
    if w.pc.StartCommit? then
      && s.job.status == Running && s.job.startedAt.Some?
      && s.base.status != Cancelled
      && (db.status == s.base.status || (db.status == Cancelled && Active(s.base.status)))
    else if w.pc.LastLog? then
      && s.base == s.job && db.status == s.job.status && Settled(db)
    else
      && s.base.status == Running && s.base.startedAt.Some?
      && (db.status == Running || db.status == Cancelled)
      && if Deciding(w.pc) then Settled(s.job) && (s.job.status == Cancelled ==> db.status == Cancelled)
         else s.job.status == Running && s.job.startedAt.Some?
  }

  ghost predicate WorkerInv(db: Job, w: Worker)
  {
    var s := w.session;
    && SessionCounts(db, s)
    && s.base.error == db.error && s.base.startedAt == db.startedAt
    && (s.base.finishedAt.Some? ==> db.finishedAt.Some? && s.job.finishedAt.Some?)
    && Statuses(db, w)
    && (SawCancel(w) ==> db.status == Cancelled)
  }

  ghost predicate Inv(c: Cell)
  {
    Conserved(c) && (c.worker.Some? ==> WorkerInv(c.record.job, c.worker.value))
  }

  /** A freshly inserted job: queued, unstarted, no rows. */
  ghost predicate Fresh(c: Cell)
  {
    && c.record.job == Job(c.record.job.spec, Queued, None, None, None, 0, 0)
    && c.record.discovered == [] && c.record.results == [] && c.record.logs == []
    && c.removed == 0 && c.worker.None?
  }

  /** A commit brings the database to the session's counters, error and times. */
  lemma CommitAgrees(c: Cell, lines: seq<LogLine>, pc: Pc)
    requires Inv(c) && c.worker.Some?
    requires !Deciding(c.worker.value.pc) && !c.worker.value.pc.LastLog?
    requires InLoop(pc)
    requires SawCancel(Worker(pc, Flush(c.worker.value.session))) ==> SawCancel(c.worker.value)
    ensures Inv(Cell(Commit(c.record, c.worker.value.session, lines), c.removed,
                     Some(Worker(pc, Flush(c.worker.value.session)))))
  {
  }

  /** The commit of the final status settles the job. */
  lemma FinalCommitSettles(c: Cell, handled: bool)
    requires Inv(c) && c.worker.Some? && Deciding(c.worker.value.pc)
    ensures Inv(Cell(Commit(c.record, c.worker.value.session, []), c.removed,
                     Some(Worker(LastLog(handled), Flush(c.worker.value.session)))))
  {
  }

  /** The points of the run at which it touches only its session. */
  ghost predicate Local(pc: Pc)
  {
    || pc.Preparing? || pc.Streaming? || pc.Checking? || pc.Recording?
    || pc.Leaving? || pc.Returned? || pc.Raised?
  }

  lemma AddPageKeepsCounts(db: Job, s: Session, url: string, body: string, now: int, draw: Draw)
    requires SessionCounts(db, s)
    ensures SessionCounts(db, AddPage(s, url, body, now, draw))
  {
  }

  lemma RecordingKeepsInv(c: Cell, now: int, draw: Draw, o: Outcome)
    requires Inv(c) && c.worker.Some? && c.worker.value.pc.Recording?
    ensures Inv(Step(c, Work(now, draw, o)))
  {
    var w := c.worker.value;
    if w.pc.item.Page? {
      AddPageKeepsCounts(c.record.job, w.session, w.pc.item.url, w.pc.item.body, now, draw);
    }
  }

  lemma FailSettles(db: Job, s: Session, error: string, now: int)
    requires SessionCounts(db, s) && s.job.startedAt.Some?
    ensures var t := Fail(s, error, now);
      SessionCounts(db, t) && Settled(t.job) && t.job.status == Failed && t.base == s.base
  {
  }

  lemma SettleSettles(db: Job, s: Session, cancelled: bool, now: int)
    requires SessionCounts(db, s) && s.job.startedAt.Some?
    ensures var t := Settle(s, cancelled, now);
      SessionCounts(db, t) && Settled(t.job) && (t.job.status == Cancelled <==> cancelled) && t.base == s.base
  {
    FailSettles(db, s, "No pages could be loaded from " + s.job.spec.targetUrl, now);
  }

  lemma DecisionKeepsInv(c: Cell, now: int, draw: Draw, o: Outcome)
    requires Inv(c) && c.worker.Some?
    requires c.worker.value.pc.Returned? || c.worker.value.pc.Raised? || (c.worker.value.pc.Preparing? && o.Raise?)
    ensures Inv(Step(c, Work(now, draw, o)))
  {
    var w := c.worker.value;
    if w.pc.Returned? {
      SettleSettles(c.record.job, w.session, w.pc.cancelled, now);
    } else if w.pc.Raised? {
      FailSettles(c.record.job, w.session, w.pc.message, now);
    } else {
      FailSettles(c.record.job, w.session, "Invalid settings: " + o.message, now);
    }
  }

  lemma MoveKeepsInv(c: Cell, now: int, draw: Draw, o: Outcome)
    requires Inv(c) && c.worker.Some?
    requires
      var pc := c.worker.value.pc;
      pc.Streaming? || pc.Checking? || pc.Leaving? || (pc.Preparing? && !o.Raise?)
    ensures Inv(Step(c, Work(now, draw, o)))
  {
    assert Step(c, Work(now, draw, o)).record == c.record;
    assert Step(c, Work(now, draw, o)).worker.value.session == c.worker.value.session;
  }

  lemma LocalStepKeepsInv(c: Cell, now: int, draw: Draw, o: Outcome)
    requires Inv(c) && c.worker.Some? && Local(c.worker.value.pc)
    ensures Inv(Step(c, Work(now, draw, o)))
  {
    var pc := c.worker.value.pc;
    if pc.Recording? {
      RecordingKeepsInv(c, now, draw, o);
    } else if pc.Returned? || pc.Raised? || (pc.Preparing? && o.Raise?) {
      DecisionKeepsInv(c, now, draw, o);
    } else {
      MoveKeepsInv(c, now, draw, o);
    }
  }

  /** The lines that a commit of the run carries. */
  function CommitLines(w: Worker, now: int): seq<LogLine>
  {
    var spec := w.session.job.spec;
    match w.pc
    case StartLog => [FirstLine(spec, now)]
    case CancelLog => [LogLine(now, Warn, "Cancelled before completion")]
    case ScraperWarn => [NothingLine(spec, now)]
    case _ => []
  }

  /** Where the run goes on after a commit. */
  function AfterCommit(w: Worker): Pc
  {
    match w.pc
    case StartCommit => StartLog
    case StartLog => Preparing
    case ItemCommit => Streaming
    case CancelLog => AfterLoop(w.session, true)
    case ShallowCommit => AfterLoop(w.session, false)
    case ScraperWarn => Returned(false)
    case _ => LastLog(w.pc.HandlerCommit?)
  }

  lemma CommitStep(c: Cell, now: int, draw: Draw, o: Outcome)
    requires c.worker.Some? && !Local(c.worker.value.pc) && !c.worker.value.pc.LastLog?
    ensures var w := c.worker.value;
      Step(c, Work(now, draw, o)) ==
        Cell(Commit(c.record, w.session, CommitLines(w, now)), c.removed,
             Some(Worker(AfterCommit(w), Flush(w.session))))
  {
  }

  lemma LastStepKeepsInv(c: Cell, now: int, draw: Draw, o: Outcome)
    requires Inv(c) && c.worker.Some? && c.worker.value.pc.LastLog?
    ensures Inv(Step(c, Work(now, draw, o)))
  {
  }

  lemma CommitStepKeepsInv(c: Cell, now: int, draw: Draw, o: Outcome)
    requires Inv(c) && c.worker.Some? && !Local(c.worker.value.pc)
    ensures Inv(Step(c, Work(now, draw, o)))
  {
    var w := c.worker.value;
    if w.pc.LastLog? {
      LastStepKeepsInv(c, now, draw, o);
    } else {
      CommitStep(c, now, draw, o);
      if Deciding(w.pc) {
        FinalCommitSettles(c, w.pc.HandlerCommit?);
      } else {
        CommitAgrees(c, CommitLines(w, now), AfterCommit(w));
      }
    }
  }

  /** Every event keeps the invariant. */
  lemma StepKeepsInv(c: Cell, e: Event)
    requires Inv(c)
    ensures Inv(Step(c, e))
    ensures Step(c, e).record.job.spec == c.record.job.spec
  {
    if e.Work? && c.worker.Some? {
      if Local(c.worker.value.pc) {
        LocalStepKeepsInv(c, e.now, e.draw, e.outcome);
      } else {
        CommitStepKeepsInv(c, e.now, e.draw, e.outcome);
      }
    }
  }

  lemma {:induction false} RunKeepsInv(c: Cell, es: seq<Event>)
    requires Inv(c)
    ensures Inv(Run(c, es))
    ensures Run(c, es).record.job.spec == c.record.job.spec
    decreases es
  {
    if es != [] {
      StepKeepsInv(c, es[0]);
      RunKeepsInv(Step(c, es[0]), es[1..]);
    }
  }

  /** Conservation over whole runs: counters equal rows, whatever was interleaved, crashed or redelivered. */
  lemma CountersMatchRows(c: Cell, es: seq<Event>)
    requires Fresh(c)
    ensures var d := Run(c, es);
      && d.record.job.urlsDiscovered == |d.record.discovered| + d.removed
      && d.record.job.urlsScraped == |d.record.results|
      && d.record.job.urlsScraped ==
         (if ScrapesPages(c.record.job.spec.mode) then d.record.job.urlsDiscovered else 0)
  {
    RunKeepsInv(c, es);
  }

  // ---------------------------------------------------------------- status edges

  ghost predicate StatusEdge(a: Status, b: Status)
  {
    || a == b
    || (a == Queued && (b == Running || b == Cancelled))
    || (a == Running && Terminal(b))
    || (Terminal(a) && b == Running)
    || (a == Cancelled && (b == Completed || b == Failed))
  }

  /** The worker writes that can take a job out of CANCELLED. */
  ghost predicate OverwritesCancel(w: Worker)
  {
    || (w.pc.StartCommit? && w.session.base.status == Queued)
    || (Deciding(w.pc) && w.session.job.status != Cancelled)
  }

  /** A step of the run leaves the job row as it is or writes the session's changes into it. */
  lemma WorkWrites(c: Cell, e: Event)
    requires e.Work? && c.worker.Some?
    ensures var w := c.worker.value;
      Step(c, e).record.job == if Local(w.pc) then c.record.job else WriteBack(c.record.job, w.session)
  {
    if !Local(c.worker.value.pc) && !c.worker.value.pc.LastLog? {
      CommitStep(c, e.now, e.draw, e.outcome);
    }
  }

  /** Committed status changes stay on the edges, and only the worker writes named above leave CANCELLED. */
  lemma StatusMovesAlongEdges(c: Cell, e: Event)
    requires Inv(c)
    ensures StatusEdge(c.record.job.status, Step(c, e).record.job.status)
    ensures c.record.job.status == Cancelled ==>
      (Step(c, e).record.job.status != Cancelled <==>
        e.Work? && c.worker.Some? && OverwritesCancel(c.worker.value))
  {
    if e.Work? && c.worker.Some? {
      WorkWrites(c, e);
    }
  }

  /** The same over whole runs from the insert. */
  lemma StatusHistory(c: Cell, es: seq<Event>, e: Event)
    requires Fresh(c)
    ensures StatusEdge(Run(c, es).record.job.status, Run(c, es + [e]).record.job.status)
    ensures Run(c, es).record.job.status == Cancelled ==>
      (Run(c, es + [e]).record.job.status != Cancelled <==>
        e.Work? && Run(c, es).worker.Some? && OverwritesCancel(Run(c, es).worker.value))
  {
    RunKeepsInv(c, es);
    RunSnoc(c, es, e);
    StatusMovesAlongEdges(Run(c, es), e);
  }

  /** A cancel is lost: committed between load and start write of a queued job, it is overwritten. */
  lemma CancelCanBeLost(c: Cell)
    requires Fresh(c)
    ensures var es := [Deliver(0), Cancel(1), Plain(2, Proceed)];
      && Run(c, es[..2]).record.job.status == Cancelled
      && Run(c, es).record.job.status == Running
  {
    var es := [Deliver(0), Cancel(1), Plain(2, Proceed)];
    var c1 := Step(c, es[0]);
    var c2 := Step(c1, es[1]);
    assert es[..2] == [es[0], es[1]] && es[1..] == [es[1], es[2]] && es[1..][1..] == [es[2]];
    assert es[..2][1..] == [es[1]] && es[..2][1..][1..] == [];
    assert Run(c, es[..2]) == Run(c1, [es[1]]) == Run(c2, []);
    assert Run(c, es) == Run(c1, es[1..]) == Run(c2, [es[2]]);
    assert [es[2]][1..] == [];
    assert Run(c2, [es[2]]) == Run(Step(c2, es[2]), []);
  }

  /** A run that goes away other than by a crash leaves its job settled. */
  lemma FinishedRunIsSettled(c: Cell, e: Event)
    requires Inv(c) && c.worker.Some? && Step(c, e).worker.None?
    ensures e.Crash? || (Settled(Step(c, e).record.job) && c.worker.value.pc.LastLog?)
  {
  }

  /** A set finished_at is never unset, and the start time neither. */
  lemma TimesStaySet(c: Cell, e: Event)
    requires Inv(c)
    ensures c.record.job.finishedAt.Some? ==> Step(c, e).record.job.finishedAt.Some?
    ensures c.record.job.startedAt.Some? ==> Step(c, e).record.job.startedAt.Some?
  {
    if e.Work? && c.worker.Some? {
      WorkWrites(c, e);
      var w := c.worker.value;
      assert w.session.base.finishedAt.Some? ==> w.session.job.finishedAt.Some?;
      assert w.session.base.startedAt.Some? ==> w.session.job.startedAt.Some?;
    }
  }

  // ---------------------------------------------------------------- the log

  /** The last line of a run: the exception, else the job's error if it has one, else its status. */
  ghost predicate EndLine(line: LogLine, job: Job, handled: bool)
  {
    var error := if job.error.Some? then job.error.value else "";
    if handled then line.level == Level.Error && line.message == "Job failed: " + error
    else if error != "" then line.level == Level.Error && line.message == error
    else
      line.level == Info && line.message ==
        match job.status
        case Completed => "Job completed"
        case Cancelled => "Job cancelled"
        case Failed => "Job failed"
        case Running => "Job running"
        case Queued => "Job queued"
  }

  ghost predicate StartLine(line: LogLine, spec: JobSpec)
  {
    var mode := match spec.mode
                case Sitemap => "sitemap"
                case LinkExtraction => "link_extraction"
                case Crawler => "crawler"
                case Scraper => "scraper"
                case Other(name) => name;
    line.level == Info && line.message == "Starting " + mode + " job for " + spec.targetUrl
  }

  /** The line a step of the run writes, if it stands where one is written. */
  ghost predicate WritesLine(w: Worker, line: LogLine)
  {
    var spec := w.session.job.spec;
    match w.pc
    case StartLog => StartLine(line, spec)
    case CancelLog => line.level == Warn && line.message == "Cancelled before completion"
    case ScraperWarn =>
      line.level == Warn && exists n: string ::
        IntegerOf(n) == Some(|SeedList(spec)|) && line.message == "Scraped nothing from " + n + " URL(s)"
    case LastLog(handled) => EndLine(line, w.session.job, handled)
    case _ => false
  }

  ghost predicate Logs(pc: Pc)
  {
    pc.StartLog? || pc.CancelLog? || pc.ScraperWarn? || pc.LastLog?
  }

  lemma FirstLineTells(spec: JobSpec, now: int)
    ensures StartLine(FirstLine(spec, now), spec)
  {
  }

  lemma LastLineTells(job: Job, handled: bool, now: int)
    ensures EndLine(LastLine(job, handled, now), job, handled)
  {
  }

  /** Only the run writes to the log, one line at its start, on a cancel, on an empty scrape and at its end. */
  lemma StepLogs(c: Cell, e: Event)
    ensures var logs := Step(c, e).record.logs;
      if e.Work? && c.worker.Some? && Logs(c.worker.value.pc) then
        && |logs| == |c.record.logs| + 1 && logs[..|c.record.logs|] == c.record.logs
        && logs[|c.record.logs|].timestamp == e.now && WritesLine(c.worker.value, logs[|c.record.logs|])
      else logs == c.record.logs
  {
    if e.Work? && c.worker.Some? {
      var w := c.worker.value;
      match w.pc
      case StartLog => FirstLineTells(w.session.job.spec, e.now);
      case LastLog(handled) => LastLineTells(w.session.job, handled, e.now);
      case ScraperWarn =>
        var n := |SeedList(w.session.job.spec)|;
        assert IntegerOf(Numeral(n)) == Some(n);
      case _ =>
    }
  }

  /** The warning comes exactly when a scraper's loop ran to its end and nothing was ever scraped. */
  lemma WarnsOfNothingExactly(c: Cell, e: Event)
    requires Inv(c) && c.worker.Some? && !c.worker.value.pc.ScraperWarn?
    ensures Step(c, e).worker.Some? && Step(c, e).worker.value.pc.ScraperWarn? <==>
      && e.Work? && !e.outcome.Raise? && c.worker.value.pc == Leaving(false)
      && c.record.job.spec.mode == Scraper
      && |c.record.results| + |c.worker.value.session.results| == 0
  {
    if e.Work? && !Local(c.worker.value.pc) && !c.worker.value.pc.LastLog? {
      CommitStep(c, e.now, e.draw, e.outcome);
    }
  }

  // ---------------------------------------------------------------- what only grows

  lemma StepGrows(c: Cell, e: Event)
    requires Inv(c)
    ensures c.record.results <= Step(c, e).record.results
    ensures c.record.job.urlsDiscovered <= Step(c, e).record.job.urlsDiscovered
    ensures c.record.job.urlsScraped <= Step(c, e).record.job.urlsScraped
    ensures c.removed <= Step(c, e).removed
  {
    if e.Work? && c.worker.Some? {
      WorkWrites(c, e);
      if !Local(c.worker.value.pc) && !c.worker.value.pc.LastLog? {
        CommitStep(c, e.now, e.draw, e.outcome);
      }
    }
  }

  /** Over every run the result rows and both counters only grow. */
  lemma {:induction false} RunGrows(c: Cell, es: seq<Event>)
    requires Inv(c)
    ensures c.record.results <= Run(c, es).record.results
    ensures c.record.job.urlsDiscovered <= Run(c, es).record.job.urlsDiscovered
    ensures c.record.job.urlsScraped <= Run(c, es).record.job.urlsScraped
    ensures c.removed <= Run(c, es).removed
    decreases es
  {
    if es != [] {
      StepGrows(c, es[0]);
      StepKeepsInv(c, es[0]);
      RunGrows(Step(c, es[0]), es[1..]);
    }
  }
}
