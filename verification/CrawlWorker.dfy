/**
  The worker of src/worker/tasks.py in its own form: methods that loop over an engine's stream, add
  rows, bump counters, assign the status and commit, with API calls landing at every await.

  Each method is proved to perform a run of the state machine of CrawlModel: `trace` collects the
  events it and the API performed, and `At` says that the machine run over that trace stands exactly
  where the program stands. What is proved of all runs of the machine thus holds of the program.
*/
module CrawlWorker {
  import opened Wrappers
  import opened CrawlModel
  import opened CrawlInvariants
  import opened CrawlRows
  import opened CrawlTimes

  // An engine as the run sees it: what it yields, how its stream stops, and whether leaving it raises.
  datatype Engine = Engine(items: seq<Item>, failure: Option<string>, exitFailure: Option<string>)

  // What an engine is run on.
  datatype Source = Target(url: string) | Urls(urls: seq<string>)

  type Engines = Source -> Engine

  /** What the engine of a job is run on. */
  function Input(spec: JobSpec): Source
  {
    if spec.mode == Scraper then Urls(SeedList(spec)) else Target(spec.targetUrl)
  }

  // How a mode loop is left: by return or by an exception.
  datatype Exit = Return(cancelled: bool) | Throw(message: string)

  function YieldOf(e: Event): seq<Item>
  {
    if e.Work? && e.outcome.Yield? then [e.outcome.item] else []
  }

  /** The items that engines yielded. */
  function Yielded(es: seq<Event>): seq<Item>
  {
    if es == [] then [] else Yielded(es[..|es| - 1]) + YieldOf(es[|es| - 1])
  }

  // The items that engines yielded and the pages that were recorded, so far.
  datatype Progress = Progress(yielded: seq<Item>, recorded: seq<Item>)

  function ProgressOf(c: Cell, es: seq<Event>): Progress
  {
    Progress(Yielded(es), Pages(c, es))
  }

  /** The progress after one more event. */
  function Advance(p: Progress, w: Option<Worker>, e: Event): Progress
  {
    var q := if YieldOf(e) != [] then p.(yielded := p.yielded + YieldOf(e)) else p;
    if PageOf(w, e) != [] then q.(recorded := q.recorded + PageOf(w, e)) else q
  }

  lemma ProgressSnoc(c: Cell, es: seq<Event>, e: Event)
    ensures ProgressOf(c, es + [e]) == Advance(ProgressOf(c, es), Run(c, es).worker, e)
  {
    assert (es + [e])[..|es|] == es;
    assert Yielded(es) + [] == Yielded(es) && Pages(c, es) + [] == Pages(c, es);
  }

  predicate Given(urls: Option<seq<string>>) { urls.Some? && urls.value != [] }

  /** The committed rows of one job, and the API calls that land between the worker's accesses. */
  class JobStore {
    var record: Record
    ghost var removed: nat
    ghost var trace: seq<Event>
    ghost var progress: Progress
    ghost const start: Cell

    constructor (c: Cell)
      requires c.worker.None?
      ensures record == c.record && removed == c.removed && start == c && trace == []
      ensures At(None)
    {
      record, removed, trace, progress, start := c.record, c.removed, [], Progress([], []), c;
    }

    ghost predicate At(w: Option<Worker>)
      reads this
    {
      && Run(start, trace) == Cell(record, removed, w)
      && progress == ProgressOf(start, trace) && NoCrash(trace)
    }

    /** The last event was the step `e` of the run `w`. */
    ghost predicate EndsWith(w: Worker, e: Event)
      reads this
    {
      && trace != [] && trace[|trace| - 1] == e
      && Run(start, trace[..|trace| - 1]).worker == Some(w)
    }

    /** The run has ended by itself and left the job settled. */
    ghost predicate Done()
      reads this
    {
      At(None) && Settled(record.job) && TimesOf(start, trace).ended
    }

    /** Records an event that the program has just carried out. */
    ghost method Note(e: Event, before: Cell, w: Option<Worker>)
      requires Run(start, trace) == before
      requires Step(before, e) == Cell(record, removed, w) && !e.Crash?
      requires progress == ProgressOf(start, trace) && NoCrash(trace)
      modifies this`trace, this`progress
      ensures trace == old(trace) + [e] && At(w)
      ensures progress == Advance(old(progress), before.worker, e)
    {
      RunSnoc(start, trace, e);
      ProgressSnoc(start, trace, e);
      trace, progress := trace + [e], Advance(progress, before.worker, e);
    }

    method CancelCrawl(now: int, ghost w: Option<Worker>)
      requires At(w)
      modifies this`record, this`trace, this`progress
      ensures At(w) && record == CancelRecord(old(record), now)
      ensures old(record).job.status == Queued || old(record).job.status == Running ==>
        record == old(record).(job := old(record).job.(status := Cancelled, finishedAt := Some(now)))
      ensures old(record).job.status != Queued && old(record).job.status != Running ==> record == old(record)
      ensures progress == old(progress)
    {
      ghost var before := Cell(record, removed, w);
      if record.job.status == Queued || record.job.status == Running {
        record := record.(job := record.job.(status := Cancelled, finishedAt := Some(now)));
      }
      Note(Cancel(now), before, w);
    }

    method DeleteDiscoveredUrl(id: RowId, ghost w: Option<Worker>) returns (found: bool)
      requires At(w)
      modifies this
      ensures At(w) && record == RemoveDiscovered(old(record), id)
      ensures RowDeleted(old(record), id, record, found)
      ensures progress == old(progress)
    {
      ghost var before := Cell(record, removed, w);
      var rows := record.discovered;
      var i := IndexOfRow(rows, id);
      found := i < |rows|;
      DeletionStep(before, id);
      DeletionAnswers(record, id);
      if found {
        record := record.(discovered := rows[..i] + rows[i + 1..]);
        removed := removed + 1;
      }
      Note(DeleteDiscovered(id), before, w);
    }

    /** The event loop runs while the worker awaits: any number of API calls on the job commit. */
    method Interfere(ghost w: Option<Worker>)
      requires At(w)
      modifies this
      ensures At(w) && progress == old(progress)
    {
      var calls: nat := *;
      while calls > 0
        invariant At(w) && progress == old(progress)
      {
        var now: int := *;
        var id: RowId := *;
        var cancel: bool := *;
        if cancel {
          CancelCrawl(now, w);
        } else {
          var _ := DeleteDiscoveredUrl(id, w);
        }
        calls := calls - 1;
      }
    }
  }

  /** The ORM session of one run: the loaded row, its baseline, and the rows added since the last commit. */
  class OrmSession {
    var base: Job
    var job: Job
    var discovered: seq<DiscoveredRow>
    var results: seq<ResultRow>

    constructor (loaded: Job)
      ensures Value() == Open(loaded)
    {
      base, job, discovered, results := loaded, loaded, [], [];
    }

    ghost function Value(): Session
      reads this
    {
      Session(base, job, discovered, results)
    }

    /** `db.commit()`: UPDATE the changed columns, INSERT the pending rows, keep the row loaded. */
    method Commit(db: JobStore, lines: seq<LogLine>)
      modifies this, db`record
      ensures db.record == CrawlModel.Commit(old(db.record), old(Value()), lines)
      ensures var was, row := old(db.record).job, db.record.job;
        && row.spec == was.spec
        && row.status == (if old(job.status) != old(base.status) then old(job.status) else was.status)
        && row.error == (if old(job.error) != old(base.error) then old(job.error) else was.error)
        && row.startedAt == (if old(job.startedAt) != old(base.startedAt) then old(job.startedAt) else was.startedAt)
        && row.finishedAt ==
           (if old(job.finishedAt) != old(base.finishedAt) then old(job.finishedAt) else was.finishedAt)
      ensures Value() == Flush(old(Value()))
    {
      var row := db.record.job;
      if job.status != base.status { row := row.(status := job.status); }
      if job.error != base.error { row := row.(error := job.error); }
      if job.startedAt != base.startedAt { row := row.(startedAt := job.startedAt); }
      if job.finishedAt != base.finishedAt { row := row.(finishedAt := job.finishedAt); }
      if job.urlsDiscovered != base.urlsDiscovered { row := row.(urlsDiscovered := job.urlsDiscovered); }
      if job.urlsScraped != base.urlsScraped { row := row.(urlsScraped := job.urlsScraped); }
      db.record := Record(row, db.record.discovered + discovered, db.record.results + results, db.record.logs + lines);
      base, discovered, results := job, [], [];
    }

    /** Adds the rows of one page and bumps the counters, as the body of every mode loop does. */
    method AddPage(url: string, body: string, now: int, draw: Draw)
      modifies this
      ensures Value() == CrawlModel.AddPage(old(Value()), url, body, now, draw)
    {
      discovered := discovered + [DiscoveredRow(draw.discovered, url, now)];
      job := job.(urlsDiscovered := job.urlsDiscovered + 1);
      if job.spec.mode == Crawler || job.spec.mode == Scraper {
        results := results + [ResultRow(draw.result, url, body, job.spec.settings.outputFormat, draw.extractedAt)];
        job := job.(urlsScraped := job.urlsScraped + 1);
      }
    }

    /** Assigns the final status after a mode function returned. */
    method Settle(cancelled: bool, now: int)
      modifies this
      ensures Value() == CrawlModel.Settle(old(Value()), cancelled, now)
    {
      if cancelled {
        job := job.(status := Cancelled);
      } else if job.urlsDiscovered == 0 {
        job := job.(status := Failed, error := Some("No pages could be loaded from " + job.spec.targetUrl));
      } else {
        job := job.(status := Completed);
      }
      job := job.(finishedAt := Some(now));
    }
  }

  /** Awaits a commit that takes the run from `w` to `next`, with API calls landing before it. */
  method AwaitCommit(db: JobStore, s: OrmSession, lines: seq<LogLine>,
                     ghost w: Worker, ghost e: Event, ghost next: Option<Worker>)
    requires db.At(Some(w)) && w.session == s.Value() && e.Work?
    requires forall r: Record :: Resume(r, w, e.now, e.draw, e.outcome) == (Commit(r, w.session, lines), next)
    modifies db, s
    ensures db.At(next) && s.Value() == Flush(w.session)
    ensures db.EndsWith(w, e)
    ensures db.progress == Advance(old(db.progress), Some(w), e)
  {
    db.Interfere(Some(w));
    ghost var before := Cell(db.record, db.removed, Some(w));
    ghost var earlier := db.trace;
    s.Commit(db, lines);
    assert Resume(before.record, w, e.now, e.draw, e.outcome) == (db.record, next);
    db.Note(e, before, next);
    assert db.trace[..|db.trace| - 1] == earlier;
  }

  /** A step of the run that touches no rows: an engine call, a read, or code between two awaits. */
  method AwaitOther(db: JobStore, ghost w: Worker, ghost e: Event, ghost next: Worker)
    requires db.At(Some(w)) && e.Work?
    requires forall r: Record :: Resume(r, w, e.now, e.draw, e.outcome) == (r, Some(next))
    modifies db
    ensures db.At(Some(next))
    ensures db.progress == Advance(old(db.progress), Some(w), e)
  {
    db.Interfere(Some(w));
    ghost var before := Cell(db.record, db.removed, Some(w));
    assert Resume(before.record, w, e.now, e.draw, e.outcome) == (db.record, Some(next));
    db.Note(e, before, Some(next));
  }

  method NowMs() returns (now: int) { now := *; }

  method FreshId() returns (id: RowId) { id := *; }

  /** `is_cancelled`: reads the committed status, not the loaded one. */
  method IsCancelled(db: JobStore, s: OrmSession, item: Item) returns (cancelled: bool)
    requires db.At(Some(Worker(Checking(item), s.Value())))
    modifies db
    ensures db.At(Some(Worker(if cancelled then CancelLog else Recording(item), s.Value())))
    ensures db.progress == old(db.progress)
  {
    ghost var w := Worker(Checking(item), s.Value());
    db.Interfere(Some(w));
    cancelled := db.record.job.status == Cancelled;
    db.Note(Plain(0, Proceed), Cell(db.record, db.removed, Some(w)),
            Some(Worker(if cancelled then CancelLog else Recording(item), s.Value())));
  }

  /** The progress after an item was taken, and recorded or not. */
  function After(p: Progress, item: Item, recorded: bool): Progress
  {
    Progress(p.yielded + [item], if recorded then p.recorded + [item] else p.recorded)
  }

  /** Takes one item of the stream and checks for a cancel. */
  method TakeItem(db: JobStore, s: OrmSession, item: Item) returns (cancelled: bool)
    requires db.At(Some(Worker(Streaming, s.Value())))
    modifies db
    ensures db.At(Some(Worker(if cancelled then CancelLog else Recording(item), s.Value())))
    ensures db.progress == After(old(db.progress), item, false)
  {
    AwaitOther(db, Worker(Streaming, s.Value()), Plain(0, Yield(item)), Worker(Checking(item), s.Value()));
    cancelled := IsCancelled(db, s, item);
  }

  /** One iteration of a mode loop. `None` lets the loop go on. */
  method Iterate(db: JobStore, s: OrmSession, item: Item) returns (x: Option<Exit>)
    requires db.At(Some(Worker(Streaming, s.Value())))
    modifies db, s
    ensures s.job.spec == old(s.job.spec)
    ensures db.At(Some(Worker(
              match x
              case None => Streaming
              case Some(Return(_)) => AfterLoop(s.Value(), true)
              case Some(Throw(message)) => Raised(message), s.Value())))
    ensures x.Some? && x.value.Return? ==> x.value.cancelled
    ensures x.Some? && x.value.Throw? ==> item == Poison(x.value.message)
    ensures x.None? ==> item.Page?
    ensures db.progress == After(old(db.progress), item, x.None?)
  {
    var cancelled := TakeItem(db, s, item);
    if cancelled {
      LogCancelled(db, s);
      return Some(Return(true));
    }
    if item.Poison? {
      AwaitOther(db, Worker(Recording(item), s.Value()), Plain(0, Proceed), Worker(Raised(item.error), s.Value()));
      return Some(Throw(item.error));
    }
    RecordPage(db, s, item);
    x := None;
  }

  /** Logs that a cancel was seen; the commit carries whatever is pending. */
  method LogCancelled(db: JobStore, s: OrmSession)
    requires db.At(Some(Worker(CancelLog, s.Value())))
    modifies db, s
    ensures s.job.spec == old(s.job.spec)
    ensures db.At(Some(Worker(AfterLoop(s.Value(), true), s.Value()))) && db.progress == old(db.progress)
  {
    var now := NowMs();
    AwaitCommit(db, s, [LogLine(now, Warn, "Cancelled before completion")], Worker(CancelLog, s.Value()),
                Plain(now, Proceed), Some(Worker(AfterLoop(s.Value(), true), Flush(s.Value()))));
  }

  /** Adds a page, and commits it unless the loop commits once at its end. */
  method RecordPage(db: JobStore, s: OrmSession, item: Item)
    requires item.Page? && db.At(Some(Worker(Recording(item), s.Value())))
    modifies db, s
    ensures s.job.spec == old(s.job.spec)
    ensures db.At(Some(Worker(Streaming, s.Value())))
    ensures db.progress == old(db.progress).(recorded := old(db.progress).recorded + [item])
  {
    ghost var w := Worker(Recording(item), s.Value());
    var now := NowMs();
    var discoveredId := FreshId();
    var resultId := FreshId();
    var extractedAt := NowMs();
    var draw := Draw(discoveredId, resultId, extractedAt);
    var shallow := s.job.spec.mode == LinkExtraction && s.job.spec.settings.linkExtractionStrategy == "shallow";
    ghost var t := CrawlModel.AddPage(s.Value(), item.url, item.body, now, draw);
    AwaitOther(db, w, Work(now, draw, Proceed), Worker(if shallow then Streaming else ItemCommit, t));
    s.AddPage(item.url, item.body, now, draw);
    if !shallow {
      AwaitCommit(db, s, [], Worker(ItemCommit, s.Value()), Plain(0, Proceed),
                  Some(Worker(Streaming, Flush(s.Value()))));
    }
  }

  /** How a mode function that took the first `taken` items of its engine may end. */
  ghost predicate Explained(mode: Mode, engine: Engine, filterFailure: Option<string>, taken: nat, x: Exit)
  {
    && taken <= |engine.items|
    && match x
       case Return(true) => taken > 0
       case Return(false) => taken == |engine.items| && engine.failure.None?
       case Throw(message) =>
         || (taken > 0 && engine.items[taken - 1] == Poison(message))
         || (taken == |engine.items| && engine.failure == Some(message))
         || (mode != Sitemap && engine.exitFailure == Some(message))
         || (mode == Crawler && taken == 0 && filterFailure == Some(message))
  }

  /**
    What became of the first `taken` items of the engine. All were yielded; all were pages and recorded,
    but perhaps the last one, at which a cancel was seen or which raised.
  */
  ghost predicate Took(engine: Engine, taken: nat, x: Exit, before: Progress, after: Progress)
  {
    && taken <= |engine.items|
    && after.yielded == before.yielded + engine.items[..taken]
    && match x
       case Return(true) => taken > 0 && Kept(engine, taken - 1, before, after)
       case Return(false) => Kept(engine, taken, before, after)
       case Throw(_) =>
         if taken > 0 && engine.items[taken - 1].Poison? then Kept(engine, taken - 1, before, after)
         else
           || Kept(engine, taken, before, after)
           || (taken > 0 && engine.exitFailure.Some? && Kept(engine, taken - 1, before, after))
  }

  /** The first `n` items were pages, and they were recorded in order. */
  ghost predicate Kept(engine: Engine, n: nat, before: Progress, after: Progress)
    requires n <= |engine.items|
  {
    && after.recorded == before.recorded + engine.items[..n]
    && forall i :: 0 <= i < n ==> engine.items[i].Page?
  }

  /** The stream is over, or raises instead of yielding. */
  method EndStream(db: JobStore, s: OrmSession, engine: Engine) returns (x: Exit)
    requires db.At(Some(Worker(Streaming, s.Value())))
    modifies db
    ensures x == match engine.failure case None => Return(false) case Some(error) => Throw(error)
    ensures db.At(Some(Worker(
              match x
              case Return(_) => if Shallow(s.job.spec) then ShallowCommit else AfterLoop(s.Value(), false)
              case Throw(message) => Raised(message), s.Value())))
    ensures db.progress == old(db.progress)
  {
    ghost var w := Worker(Streaming, s.Value());
    if engine.failure.Some? {
      AwaitOther(db, w, Plain(0, Raise(engine.failure.value)), Worker(Raised(engine.failure.value), s.Value()));
      return Throw(engine.failure.value);
    }
    AwaitOther(db, w, Plain(0, EndOfStream),
               Worker(if Shallow(s.job.spec) then ShallowCommit else AfterLoop(s.Value(), false), s.Value()));
    x := Return(false);
  }

  /** One more item taken by the loop, all before it having been recorded. */
  lemma TookOne(mode: Mode, engine: Engine, i: nat, before: Progress, p: Progress, left: Option<Exit>)
    requires i < |engine.items| && Took(engine, i, Return(false), before, p)
    requires match left
             case None => engine.items[i].Page?
             case Some(Return(cancelled)) => cancelled
             case Some(Throw(message)) => engine.items[i] == Poison(message)
    ensures var q := After(p, engine.items[i], left.None?);
      && (left.None? ==> Took(engine, i + 1, Return(false), before, q))
      && (left.Some? ==> Took(engine, i + 1, left.value, before, q) && Explained(mode, engine, None, i + 1, left.value))
  {
    assert engine.items[..i + 1] == engine.items[..i] + [engine.items[i]];
  }

  lemma TookNone(engine: Engine, p: Progress)
    ensures Took(engine, 0, Return(false), p, p)
  {
    assert engine.items[..0] == [] && p.yielded + [] == p.yielded && p.recorded + [] == p.recorded;
  }

  /** Once all items are taken, the stream may end either way. */
  lemma TookAll(mode: Mode, engine: Engine, before: Progress, p: Progress)
    requires Took(engine, |engine.items|, Return(false), before, p)
    ensures var x := match engine.failure case None => Return(false) case Some(error) => Throw(error);
      Took(engine, |engine.items|, x, before, p) && Explained(mode, engine, None, |engine.items|, x)
  {
  }

  /** One iteration, on item `i` of the engine. */
  method IterateAt(db: JobStore, s: OrmSession, engine: Engine, i: nat, ghost before: Progress)
    returns (x: Option<Exit>)
    requires i < |engine.items| && Took(engine, i, Return(false), before, db.progress)
    requires db.At(Some(Worker(Streaming, s.Value())))
    modifies db, s
    ensures s.job.spec == old(s.job.spec)
    ensures db.At(Some(Worker(
              match x
              case None => Streaming
              case Some(Return(_)) => AfterLoop(s.Value(), true)
              case Some(Throw(message)) => Raised(message), s.Value())))
    ensures x.Some? && x.value.Return? ==> x.value.cancelled
    ensures x.None? ==> Took(engine, i + 1, Return(false), before, db.progress)
    ensures x.Some? ==>
      && Took(engine, i + 1, x.value, before, db.progress)
      && Explained(s.job.spec.mode, engine, None, i + 1, x.value)
  {
    ghost var p := db.progress;
    x := Iterate(db, s, engine.items[i]);
    TookOne(s.job.spec.mode, engine, i, before, p, x);
  }

  /** The loop over the engine's items. `None` says that all were taken. */
  method TakeItems(db: JobStore, s: OrmSession, engine: Engine) returns (left: Option<Exit>, ghost taken: nat)
    requires db.At(Some(Worker(Streaming, s.Value())))
    modifies db, s
    ensures s.job.spec == old(s.job.spec)
    ensures db.At(Some(Worker(
              match left
              case None => Streaming
              case Some(Return(_)) => AfterLoop(s.Value(), true)
              case Some(Throw(message)) => Raised(message), s.Value())))
    ensures left.Some? && left.value.Return? ==> left.value.cancelled
    ensures left.None? ==> Took(engine, |engine.items|, Return(false), old(db.progress), db.progress)
    ensures left.Some? ==>
      && Took(engine, taken, left.value, old(db.progress), db.progress)
      && Explained(s.job.spec.mode, engine, None, taken, left.value)
  {
    ghost var before := db.progress;
    TookNone(engine, before);
    var i := 0;
    while i < |engine.items|
      invariant i <= |engine.items|
      invariant Took(engine, i, Return(false), before, db.progress)
      invariant s.job.spec == old(s.job.spec)
      invariant db.At(Some(Worker(Streaming, s.Value())))
    {
      left := IterateAt(db, s, engine, i, before);
      i := i + 1;
      if left.Some? {
        return left, i;
      }
    }
    left, taken := None, i;
  }

  /** Consumes the stream of an engine. On return the run stands right after the loop. */
  method Consume(db: JobStore, s: OrmSession, engine: Engine) returns (x: Exit, ghost taken: nat)
    requires db.At(Some(Worker(Streaming, s.Value())))
    modifies db, s
    ensures s.job.spec == old(s.job.spec)
    ensures db.At(Some(Worker(
              match x
              case Return(true) => AfterLoop(s.Value(), true)
              case Return(false) => if Shallow(s.job.spec) then ShallowCommit else AfterLoop(s.Value(), false)
              case Throw(message) => Raised(message), s.Value())))
    ensures Explained(s.job.spec.mode, engine, None, taken, x)
    ensures Took(engine, taken, x, old(db.progress), db.progress)
  {
    var left: Option<Exit>;
    left, taken := TakeItems(db, s, engine);
    if left.Some? {
      return left.value, taken;
    }
    TookAll(s.job.spec.mode, engine, old(db.progress), db.progress);
    x := EndStream(db, s, engine);
    taken := |engine.items|;
  }

  method RunSitemap(db: JobStore, s: OrmSession, engines: Engines) returns (x: Exit, ghost taken: nat)
    requires s.job.spec.mode == Sitemap
    requires db.At(Some(Worker(Streaming, s.Value())))
    modifies db, s
    ensures Left(db, s, x)
    ensures s.job.spec == old(s.job.spec) && Explained(s.job.spec.mode, engines(Input(s.job.spec)), None, taken, x)
    ensures Took(engines(Input(s.job.spec)), taken, x, old(db.progress), db.progress)
  {
    var engine := engines(Target(s.job.spec.targetUrl));
    x, taken := Consume(db, s, engine);
  }

  /** Where a mode function leaves the run. */
  ghost predicate Left(db: JobStore, s: OrmSession, x: Exit)
    reads db, s
  {
    var pc := match x case Return(cancelled) => Returned(cancelled) case Throw(message) => Raised(message);
    db.At(Some(Worker(pc, s.Value())))
  }

  /** `__aexit__` of the engine, which may raise. */
  method LeaveEngine(db: JobStore, s: OrmSession, engine: Engine, cancelled: bool) returns (x: Exit)
    requires db.At(Some(Worker(Leaving(cancelled), s.Value())))
    modifies db
    ensures x == match engine.exitFailure case None => Return(cancelled) case Some(error) => Throw(error)
    ensures db.progress == old(db.progress)
    ensures x.Throw? ==> Left(db, s, x)
    ensures x.Return? ==>
      var warns := !cancelled && s.job.spec.mode == Scraper && s.job.urlsScraped == 0;
      db.At(Some(Worker(if warns then ScraperWarn else Returned(cancelled), s.Value())))
  {
    ghost var w := Worker(Leaving(cancelled), s.Value());
    if engine.exitFailure.Some? {
      AwaitOther(db, w, Plain(0, Raise(engine.exitFailure.value)), Worker(Raised(engine.exitFailure.value), s.Value()));
      return Throw(engine.exitFailure.value);
    }
    ghost var warns := !cancelled && s.job.spec.mode == Scraper && s.job.urlsScraped == 0;
    AwaitOther(db, w, Plain(0, Proceed), Worker(if warns then ScraperWarn else Returned(cancelled), s.Value()));
    x := Return(cancelled);
  }

  method RunLinkExtraction(db: JobStore, s: OrmSession, engines: Engines) returns (x: Exit, ghost taken: nat)
    requires s.job.spec.mode == LinkExtraction
    requires db.At(Some(Worker(Streaming, s.Value())))
    modifies db, s
    ensures Left(db, s, x)
    ensures s.job.spec == old(s.job.spec) && Explained(s.job.spec.mode, engines(Input(s.job.spec)), None, taken, x)
    ensures Took(engines(Input(s.job.spec)), taken, x, old(db.progress), db.progress)
  {
    var engine := engines(Target(s.job.spec.targetUrl));
    x, taken := Consume(db, s, engine);
    if x.Return? {
      if !x.cancelled && s.job.spec.settings.linkExtractionStrategy == "shallow" {
        AwaitCommit(db, s, [], Worker(ShallowCommit, s.Value()), Plain(0, Proceed),
                    Some(Worker(Leaving(false), Flush(s.Value()))));
      }
      x := LeaveEngine(db, s, engine, x.cancelled);
    }
  }

  method RunCrawler(db: JobStore, s: OrmSession, engines: Engines) returns (x: Exit, ghost taken: nat)
    requires s.job.spec.mode == Crawler
    requires db.At(Some(Worker(Streaming, s.Value())))
    modifies db, s
    ensures Left(db, s, x)
    ensures s.job.spec == old(s.job.spec) && Explained(s.job.spec.mode, engines(Input(s.job.spec)), None, taken, x)
    ensures Took(engines(Input(s.job.spec)), taken, x, old(db.progress), db.progress)
  {
    var engine := engines(Target(s.job.spec.targetUrl));
    x, taken := Consume(db, s, engine);
    if x.Return? {
      x := LeaveEngine(db, s, engine, x.cancelled);
    }
  }

  method LogNothing(db: JobStore, s: OrmSession)
    requires db.At(Some(Worker(ScraperWarn, s.Value())))
    modifies db, s
    ensures s.job.spec == old(s.job.spec)
    ensures db.At(Some(Worker(Returned(false), s.Value()))) && db.progress == old(db.progress)
  {
    var now := NowMs();
    AwaitCommit(db, s, [NothingLine(s.job.spec, now)], Worker(ScraperWarn, s.Value()),
                Plain(now, Proceed), Some(Worker(Returned(false), Flush(s.Value()))));
  }

  method RunScraper(db: JobStore, s: OrmSession, engines: Engines) returns (x: Exit, ghost taken: nat)
    requires s.job.spec.mode == Scraper
    requires db.At(Some(Worker(Streaming, s.Value())))
    modifies db, s
    ensures Left(db, s, x)
    ensures s.job.spec == old(s.job.spec) && Explained(s.job.spec.mode, engines(Input(s.job.spec)), None, taken, x)
    ensures Took(engines(Input(s.job.spec)), taken, x, old(db.progress), db.progress)
  {
    var urls := if Given(s.job.spec.seedUrls) then s.job.spec.seedUrls.value else [s.job.spec.targetUrl];
    var engine := engines(Urls(urls));
    x, taken := Consume(db, s, engine);
    if x.Return? {
      x := LeaveEngine(db, s, engine, x.cancelled);
      if x.Return? && !x.cancelled && s.job.urlsScraped == 0 {
        LogNothing(db, s);
      }
    }
  }

  /** The mode dispatch, run inside the `try` of run_crawl_job. */
  method RunMode(db: JobStore, s: OrmSession, engines: Engines, filterFailure: Option<string>)
    returns (x: Exit, ghost taken: nat)
    requires !s.job.spec.mode.Other?
    requires db.At(Some(Worker(Streaming, s.Value())))
    modifies db, s
    ensures Left(db, s, x)
    ensures s.job.spec == old(s.job.spec)
    ensures Explained(s.job.spec.mode, engines(Input(s.job.spec)), filterFailure, taken, x)
    ensures Took(engines(Input(s.job.spec)), taken, x, old(db.progress), db.progress)
    ensures x.Return? && s.job.spec.mode == Crawler ==> filterFailure.None?
  {
    match s.job.spec.mode
    case Sitemap => x, taken := RunSitemap(db, s, engines);
    case LinkExtraction => x, taken := RunLinkExtraction(db, s, engines);
    case Crawler =>
      if filterFailure.Some? {
        AwaitOther(db, Worker(Streaming, s.Value()), Plain(0, Raise(filterFailure.value)),
                   Worker(Raised(filterFailure.value), s.Value()));
        x, taken := Throw(filterFailure.value), 0;
      } else {
        x, taken := RunCrawler(db, s, engines);
      }
    case Scraper => x, taken := RunScraper(db, s, engines);
  }

  /** Assigns the final status after a mode function returned. */
  method Decide(db: JobStore, s: OrmSession, cancelled: bool)
    requires db.At(Some(Worker(Returned(cancelled), s.Value())))
    modifies db, s
    ensures db.At(Some(Worker(FinalCommit, s.Value()))) && db.progress == old(db.progress)
    ensures exists now :: s.Value() == CrawlModel.Settle(old(s.Value()), cancelled, now)
  {
    var now := NowMs();
    ghost var w := Worker(Returned(cancelled), s.Value());
    AwaitOther(db, w, Plain(now, Proceed), Worker(FinalCommit, CrawlModel.Settle(s.Value(), cancelled, now)));
    s.Settle(cancelled, now);
  }

  /** The final status after a mode function returned, its commit and the last log line. */
  method Finish(db: JobStore, s: OrmSession, cancelled: bool)
    requires Inv(db.start)
    requires db.At(Some(Worker(Returned(cancelled), s.Value())))
    modifies db, s
    ensures db.Done()
    ensures db.progress == old(db.progress) && db.record.job.spec == old(s.job.spec)
    ensures db.record.job.status == Cancelled <==> cancelled
    ensures db.record.job.status == Failed ==>
      db.record.job.urlsDiscovered == 0
      && db.record.job.error == Some("No pages could be loaded from " + db.record.job.spec.targetUrl)
  {
    Decide(db, s, cancelled);
    CommitDecision(db, s, FinalCommit, false);
  }

  /** The exception handler around the mode dispatch. */
  method HandleException(db: JobStore, s: OrmSession, message: string)
    requires Inv(db.start)
    requires db.At(Some(Worker(Raised(message), s.Value())))
    modifies db, s
    ensures db.Done()
    ensures db.progress == old(db.progress) && db.record.job.spec == old(s.job.spec)
    ensures db.record.job.status == Failed && db.record.job.error == Some(message)
  {
    var now := NowMs();
    AwaitOther(db, Worker(Raised(message), s.Value()), Plain(now, Proceed),
               Worker(HandlerCommit, Fail(s.Value(), message, now)));
    s.job := s.job.(status := Failed, error := Some(message), finishedAt := Some(now));
    CommitDecision(db, s, HandlerCommit, true);
  }

  /** Commits the final status and logs it. */
  method CommitDecision(db: JobStore, s: OrmSession, ghost pc: Pc, handled: bool)
    requires Inv(db.start) && Deciding(pc) && handled == pc.HandlerCommit?
    requires db.At(Some(Worker(pc, s.Value())))
    modifies db, s
    ensures db.Done()
    ensures db.progress == old(db.progress) && db.record.job.spec == old(s.job.spec)
    ensures db.record.job.status == old(s.job.status) && db.record.job.error == old(s.job.error)
    ensures db.record.job.urlsDiscovered == old(s.job.urlsDiscovered)
  {
    AwaitCommit(db, s, [], Worker(pc, s.Value()), Plain(0, Proceed), Some(Worker(LastLog(handled), Flush(s.Value()))));
    LogLast(db, s, handled);
  }

  method LogLast(db: JobStore, s: OrmSession, handled: bool)
    requires Inv(db.start)
    requires db.At(Some(Worker(LastLog(handled), s.Value())))
    modifies db, s
    ensures db.Done()
    ensures db.progress == old(db.progress) && db.record.job.spec == old(s.job.spec)
    ensures db.record.job.status == old(s.job.status) && db.record.job.error == old(s.job.error)
    ensures db.record.job.urlsDiscovered == old(s.job.urlsDiscovered)
  {
    var now := NowMs();
    ghost var w := Worker(LastLog(handled), s.Value());
    AwaitCommit(db, s, [LastLine(s.job, handled, now)], w, Plain(now, Proceed), None);
    LastStepSettles(db.start, db.trace, w);
  }

  /** At the end of a run the committed columns are the session's, whatever calls landed in between. */
  lemma LastStepSettles(c: Cell, trace: seq<Event>, w: Worker)
    requires Inv(c) && trace != [] && trace[|trace| - 1].Work?
    requires Run(c, trace[..|trace| - 1]).worker == Some(w) && w.pc.LastLog? && Run(c, trace).worker.None?
    ensures var job := Run(c, trace).record.job;
      && Settled(job) && job.spec == w.session.job.spec
      && job.status == w.session.job.status && job.error == w.session.job.error
      && job.urlsDiscovered == w.session.job.urlsDiscovered
    ensures TimesOf(c, trace).ended
  {
    var es, e := trace[..|trace| - 1], trace[|trace| - 1];
    RunKeepsInv(c, es);
    assert es + [e] == trace;
    RunSnoc(c, es, e);
    WorkWrites(Run(c, es), e);
    FinishedRunIsSettled(Run(c, es), e);
    TimesSnoc(c, es, e);
  }

  /** The way a mode function was left, as the final status tells. */
  function ExitOf(status: Status): Exit
  {
    match status
    case Completed => Return(false)
    case Cancelled => Return(true)
    case _ => Throw("")
  }

  /** Why a run that took the first `taken` items of its engine ended as it did. */
  ghost predicate Justified(job: Job, settingsFailure: Option<string>, filterFailure: Option<string>,
                            engine: Engine, taken: nat)
  {
    var mode := job.spec.mode;
    && taken <= |engine.items|
    && (job.status == Failed || (settingsFailure.None? && !mode.Other? && (mode == Crawler ==> filterFailure.None?)))
    && match job.status
       case Completed => taken == |engine.items| && engine.failure.None?
       case Cancelled => taken > 0
       case Failed =>
         && job.error.Some?
         && (match settingsFailure
            case Some(error) => taken == 0 && job.error.value == "Invalid settings: " + error
            case None =>
              if mode.Other? then taken == 0 && job.error.value == "Unknown crawl mode: " + mode.name
              else
                || Explained(mode, engine, filterFailure, taken, Throw(job.error.value))
                || (&& Explained(mode, engine, filterFailure, taken, Return(false)) && job.urlsDiscovered == 0
                    && job.error.value == "No pages could be loaded from " + job.spec.targetUrl))
       case _ => false
  }

  /** Settings that cannot be built fail the job at once. */
  method RejectSettings(db: JobStore, s: OrmSession, message: string)
    requires Inv(db.start) && db.At(Some(Worker(Preparing, s.Value())))
    modifies db, s
    ensures db.Done()
    ensures db.progress == old(db.progress) && db.record.job.spec == old(s.job.spec)
    ensures db.record.job.status == Failed && db.record.job.error == Some("Invalid settings: " + message)
  {
    ghost var w := Worker(Preparing, s.Value());
    var now := NowMs();
    var error := "Invalid settings: " + message;
    AwaitOther(db, w, Plain(now, Raise(message)), Worker(BadSettingsCommit, Fail(s.Value(), error, now)));
    s.job := s.job.(status := Failed, error := Some(error), finishedAt := Some(now));
    CommitDecision(db, s, BadSettingsCommit, false);
  }

  /** The part of run_crawl_job after the start write and its log line. */
  method Execute(db: JobStore, s: OrmSession, settingsFailure: Option<string>, filterFailure: Option<string>,
                 engines: Engines)
    returns (ghost taken: nat)
    requires Inv(db.start) && db.At(Some(Worker(Preparing, s.Value())))
    modifies db, s
    ensures db.Done()
    ensures Justified(db.record.job, settingsFailure, filterFailure, engines(Input(db.record.job.spec)), taken)
    ensures Took(engines(Input(db.record.job.spec)), taken, ExitOf(db.record.job.status), old(db.progress), db.progress)
  {
    if settingsFailure.Some? {
      RejectSettings(db, s, settingsFailure.value);
      taken := 0;
    } else {
      taken := TryMode(db, s, filterFailure, engines);
    }
  }

  /** What the mode function for the job's mode does, or the exception for an unknown mode. */
  method Dispatch(db: JobStore, s: OrmSession, filterFailure: Option<string>, engines: Engines)
    returns (x: Exit, ghost taken: nat)
    requires db.At(Some(Worker(Preparing, s.Value())))
    modifies db, s
    ensures Left(db, s, x) && s.job.spec == old(s.job.spec)
    ensures Took(engines(Input(s.job.spec)), taken, x, old(db.progress), db.progress)
    ensures var mode := s.job.spec.mode;
      if mode.Other? then taken == 0 && x == Throw("Unknown crawl mode: " + mode.name)
      else
        && Explained(mode, engines(Input(s.job.spec)), filterFailure, taken, x)
        && (x.Return? && mode == Crawler ==> filterFailure.None?)
  {
    ghost var w := Worker(Preparing, s.Value());
    if s.job.spec.mode.Other? {
      x, taken := Throw("Unknown crawl mode: " + s.job.spec.mode.name), 0;
      AwaitOther(db, w, Plain(0, Proceed), Worker(Raised(x.message), s.Value()));
    } else {
      AwaitOther(db, w, Plain(0, Proceed), Worker(Streaming, s.Value()));
      x, taken := RunMode(db, s, engines, filterFailure);
    }
  }

  /** The `try` block around the mode functions, and its handler. */
  method TryMode(db: JobStore, s: OrmSession, filterFailure: Option<string>, engines: Engines)
    returns (ghost taken: nat)
    requires Inv(db.start) && db.At(Some(Worker(Preparing, s.Value())))
    modifies db, s
    ensures db.Done()
    ensures Justified(db.record.job, None, filterFailure, engines(Input(db.record.job.spec)), taken)
    ensures Took(engines(Input(db.record.job.spec)), taken, ExitOf(db.record.job.status), old(db.progress), db.progress)
  {
    var x: Exit;
    x, taken := Dispatch(db, s, filterFailure, engines);
    Conclude(db, s, x);
  }

  /** Sets the final status that follows from how the mode function was left. */
  method Conclude(db: JobStore, s: OrmSession, x: Exit)
    requires Inv(db.start) && Left(db, s, x)
    modifies db, s
    ensures db.Done()
    ensures db.progress == old(db.progress) && db.record.job.spec == old(s.job.spec)
    ensures db.record.job.status == Cancelled <==> x == Return(true)
    ensures db.record.job.status == Completed ==> x == Return(false)
    ensures db.record.job.status == Failed ==>
      if x.Throw? then db.record.job.error == Some(x.message)
      else
        db.record.job.urlsDiscovered == 0
        && db.record.job.error == Some("No pages could be loaded from " + db.record.job.spec.targetUrl)
  {
    match x {
      case Return(cancelled) => Finish(db, s, cancelled);
      case Throw(message) => HandleException(db, s, message);
    }
  }

  /** Loads the job row of a delivered job. */
  method Load(db: JobStore) returns (job: Job, now: int)
    requires db.At(None)
    modifies db
    ensures job == db.record.job && db.progress == old(db.progress)
    ensures db.At(if job.status != Cancelled then Some(Worker(StartCommit, Begin(job, now))) else None)
  {
    db.Interfere(None);
    now := NowMs();
    job := db.record.job;
    db.Note(Deliver(now), Cell(db.record, db.removed, None),
            if job.status != Cancelled then Some(Worker(StartCommit, Begin(job, now))) else None);
  }

  /** The start write and its log line, for a job just loaded. */
  method Start(db: JobStore, job: Job, now: int) returns (s: OrmSession)
    requires db.At(Some(Worker(StartCommit, Begin(job, now))))
    modifies db
    ensures fresh(s) && db.At(Some(Worker(Preparing, s.Value()))) && db.progress == old(db.progress)
  {
    s := new OrmSession(job);
    s.job := s.job.(status := Running, startedAt := Some(now));
    AwaitCommit(db, s, [], Worker(StartCommit, s.Value()), Plain(0, Proceed),
                Some(Worker(StartLog, Flush(s.Value()))));
    var later := NowMs();
    AwaitCommit(db, s, [FirstLine(s.job.spec, later)], Worker(StartLog, s.Value()),
                Plain(later, Proceed), Some(Worker(Preparing, Flush(s.Value()))));
  }

  /**
    run_crawl_job on a job row that exists. `settingsFailure` and `filterFailure` are what the
    foreign settings and filter builders raise, if anything.

    The program performs a run of the state machine from delivery to the end, and unless it finds
    the job cancelled at once it leaves the job settled, whatever calls landed in between, with the
    rows of exactly the pages it recorded, less deleted ones.
  */
  method RunCrawlJob(db: JobStore, settingsFailure: Option<string>, filterFailure: Option<string>, engines: Engines)
    returns (entered: bool, ghost taken: nat, ghost engine: Engine)
    requires Inv(db.start) && db.start.worker.None? && db.At(None)
    modifies db
    ensures db.At(None)
    ensures var spec := db.record.job.spec;
      engine == engines(
        if spec.mode != Scraper then Target(spec.targetUrl)
        else if spec.seedUrls == None || spec.seedUrls == Some([]) then Urls([spec.targetUrl])
        else Urls(spec.seedUrls.value))
    ensures entered ==> db.Done() && Justified(db.record.job, settingsFailure, filterFailure, engine, taken)
    ensures entered ==>
      TimesOf(db.start, db.trace).ended && HasItsTimes(db.record.job, TimesOf(db.start, db.trace))
    ensures entered ==> Took(engine, taken, ExitOf(db.record.job.status), old(db.progress), db.progress)
    ensures !entered ==> db.progress == old(db.progress)
    ensures Stored(db)
    ensures !entered ==> db.record.job.status == Cancelled
    ensures Inv(Cell(db.record, db.removed, None))
  {
    entered, taken := Perform(db, settingsFailure, filterFailure, engines);
    engine := engines(Input(db.record.job.spec));
    AllIsStored(db);
    TimesAreKept(db);
  }

  /** From the delivery to the end of the run. */
  method Perform(db: JobStore, settingsFailure: Option<string>, filterFailure: Option<string>, engines: Engines)
    returns (entered: bool, ghost taken: nat)
    requires Inv(db.start) && db.At(None)
    modifies db
    ensures db.At(None)
    ensures entered ==> db.Done()
    ensures entered ==>
      Justified(db.record.job, settingsFailure, filterFailure, engines(Input(db.record.job.spec)), taken)
    ensures entered ==>
      Took(engines(Input(db.record.job.spec)), taken, ExitOf(db.record.job.status), old(db.progress), db.progress)
    ensures !entered ==> db.progress == old(db.progress) && db.record.job.status == Cancelled
  {
    taken := 0;
    var job, now := Load(db);
    entered := job.status != Cancelled;
    if entered {
      var s := Start(db, job, now);
      taken := Execute(db, s, settingsFailure, filterFailure, engines);
    }
  }

  /**
    What the tables of a job hold between runs, given the pages recorded so far: the discovered rows are
    those it had and one for each page, with its URL, in order, up to the deleted ones; the results are
    those it had and, where pages are scraped, one for each page.
  */
  ghost predicate Stored(db: JobStore)
    reads db
  {
    var rows, results := Inserted(db.start, db.trace), InsertedResults(db.start, db.trace);
    && RowsOfPages(rows, db.progress.recorded)
    && Subsequence(db.record.discovered, db.start.record.discovered + rows)
    && |db.record.discovered| + db.removed == |db.start.record.discovered + rows| + db.start.removed
    && db.record.results == db.start.record.results + results
    && (if ScrapesPages(db.record.job.spec.mode) then ResultsOfPages(results, db.progress.recorded) else results == [])
    && db.record.job.urlsDiscovered == db.start.record.job.urlsDiscovered + |db.progress.recorded|
  }

  /** It started at the reading of its delivery and finished at that of its decision, or kept a cancel's. */
  ghost predicate HasItsTimes(job: Job, t: Times)
  {
    && job.startedAt == t.delivered && t.decided.Some?
    && (job.finishedAt == t.decided || (t.decided == t.loaded && job.finishedAt == t.cancelled))
  }

  lemma TimesAreKept(db: JobStore)
    requires Inv(db.start) && db.start.worker.None? && db.At(None)
    ensures TimesOf(db.start, db.trace).ended ==> HasItsTimes(db.record.job, TimesOf(db.start, db.trace))
  {
    if TimesOf(db.start, db.trace).ended { EndedRunHasItsTimes(db.start, db.trace); }
  }

  lemma AllIsStored(db: JobStore)
    requires Inv(db.start) && db.start.worker.None? && db.At(None)
    ensures Stored(db) && Inv(Cell(db.record, db.removed, None))
  {
    var c, es := db.start, db.trace;
    RunKeepsInv(c, es);
    RunKeepsRows(c, es);
    UncrashedRunKeepsAll(c, es);
    InsertedArePages(c, es);
    assert Rows(c) == c.record.discovered && Results(c) == c.record.results;
    assert Rows(Run(c, es)) == db.record.discovered && Results(Run(c, es)) == db.record.results;
  }
}
