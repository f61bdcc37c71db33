/**
  Link extraction has two loops: the "shallow" one keeps all rows pending and commits once, the
  other commits after every page. They are told apart by nothing once the loop is over: for any
  stream, any moment at which a cancel lands, and any exception, the run of the first is matched
  by a run of the second that leaves the same rows, counters, status and return value.
*/
module ShallowRefinement {
  import opened Wrappers
  import opened CrawlModel
  import opened CrawlInvariants

  /** The two jobs differ in the link extraction strategy alone. */
  ghost predicate Pair(a: JobSpec, b: JobSpec)
  {
    && Shallow(a)
    && b.mode == LinkExtraction && !Shallow(b)
    && a.(settings := a.settings.(linkExtractionStrategy := b.settings.linkExtractionStrategy)) == b
  }

  ghost predicate SameColumns(a: Job, b: Job) { a.(spec := b.spec) == b }

  ghost predicate SameUpToCounts(a: Job, b: Job)
  {
    SameColumns(a.(urlsDiscovered := b.urlsDiscovered, urlsScraped := b.urlsScraped), b)
  }

  /** The committed state is the same, row for row. */
  ghost predicate SameRecord(a: Record, b: Record)
  {
    && SameColumns(a.job, b.job)
    && a.discovered == b.discovered && a.results == b.results && a.logs == b.logs
  }

  /** The shallow run has committed everything it recorded: its loop is over. */
  ghost predicate Published(pc: Pc)
  {
    pc.Leaving? || pc.Returned? || pc.FinalCommit? || pc.LastLog?
  }

  ghost predicate SamePlace(shallow: Pc, streaming: Pc)
  {
    && (streaming == shallow || (shallow.ShallowCommit? && streaming.Streaming?))
    && !streaming.ShallowCommit? && !shallow.ItemCommit?
  }

  ghost predicate Related(c: Cell, d: Cell)
  {
    Inv(c) && Inv(d) && Matched(c, d)
  }

  ghost predicate Matched(c: Cell, d: Cell)
  {
    && Pair(c.record.job.spec, d.record.job.spec)
    && c.removed == d.removed
    && match (c.worker, d.worker)
       case (None, None) => SameRecord(c.record, d.record)
       case (Some(w), Some(v)) => RelatedRuns(c.record, w, d.record, v)
       case (_, _) => false
  }

  ghost predicate RelatedRuns(r: Record, w: Worker, q: Record, v: Worker)
  {
    && SamePlace(w.pc, v.pc)
    && SameColumns(w.session.job, v.session.job)
    && SameUpToCounts(w.session.base, v.session.base)
    && (InLoop(w.pc) ==> SameUpToCounts(w.session.base, w.session.job))
    && SameUpToCounts(r.job, q.job)
    && r.logs == q.logs && r.results == q.results == [] && w.session.results == v.session.results == []
    && r.discovered + w.session.discovered == q.discovered
    && v.session.discovered == []
    && (Published(w.pc) || w.pc.StartCommit? ==> w.session.discovered == [])
  }

  /**
    Where a crash or a row deletion does the same to both branches: a crash while nothing is pending, a
    deletion of anything but a pending row. No client knows the id of a row before it is committed.
  */
  ghost predicate Harmless(c: Cell, e: Event)
  {
    match e
    case Crash => c.worker.Some? ==> c.worker.value.session.discovered == []
    case DeleteDiscovered(id) =>
      c.worker.Some? && HasRow(c.worker.value.session.discovered, id) ==> HasRow(c.record.discovered, id)
    case _ => true
  }

  predicate HasRow(rows: seq<DiscoveredRow>, id: RowId) { IndexOfRow(rows, id) < |rows| }

  /** All crashes and deletions of a run of the shallow branch are harmless. */
  ghost predicate Undisturbed(c: Cell, es: seq<Event>)
    decreases es
  {
    es == [] || (Harmless(c, es[0]) && Undisturbed(Step(c, es[0]), es[1..]))
  }

  /** The events of the committing branch that match one event of the shallow branch. */
  function MirrorEvent(c: Cell, e: Event): seq<Event>
  {
    if e.Work? && c.worker.Some? then
      match c.worker.value.pc
      case Recording(Page(_, _)) => [e, Work(e.now, e.draw, Proceed)]
      case Streaming => if e.outcome.EndOfStream? then [] else [e]
      case ShallowCommit => [Work(e.now, e.draw, EndOfStream)]
      case _ => [e]
    else [e]
  }

  function Mirror(c: Cell, es: seq<Event>): seq<Event>
    decreases es
  {
    if es == [] then [] else MirrorEvent(c, es[0]) + Mirror(Step(c, es[0]), es[1..])
  }

  lemma OneStep(c: Cell, e: Event)
    ensures Run(c, [e]) == Step(c, e)
  {
    assert [e][1..] == [];
  }

  lemma RecordingIsMatched(c: Cell, d: Cell, e: Event)
    requires Related(c, d) && e.Work? && c.worker.Some? && c.worker.value.pc.Recording?
    requires c.worker.value.pc.item.Page?
    ensures Matched(Step(c, e), Run(d, MirrorEvent(c, e)))
  {
    var commit := Work(e.now, e.draw, Proceed);
    assert MirrorEvent(c, e) == [e] + [commit];
    RunSnoc(d, [e], commit);
    OneStep(d, e);
    var w, v := c.worker.value, d.worker.value;
    RecordedRuns(c.record, w, d.record, v, e);
  }

  /** A page added in the one branch, added and committed in the other. */
  lemma RecordedRuns(r: Record, w: Worker, q: Record, v: Worker, e: Event)
    requires RelatedRuns(r, w, q, v) && WorkerInv(r.job, w) && WorkerInv(q.job, v) && Pair(r.job.spec, q.job.spec)
    requires w.pc.Recording? && w.pc.item.Page? && e.Work?
    ensures var t := AddPage(w.session, w.pc.item.url, w.pc.item.body, e.now, e.draw);
      var u := AddPage(v.session, w.pc.item.url, w.pc.item.body, e.now, e.draw);
      RelatedRuns(r, Worker(Streaming, t), Commit(q, u, []), Worker(Streaming, Flush(u)))
  {
    var row := DiscoveredRow(e.draw.discovered, w.pc.item.url, e.now);
    assert r.discovered + (w.session.discovered + [row]) == q.discovered + [row];
    assert v.session.discovered + [row] == [row];
    assert q.logs + [] == q.logs && q.results + [] == q.results;
  }

  /** Moving both runs to the same place, sessions untouched. */
  lemma MovedRuns(r: Record, w: Worker, q: Record, v: Worker, pc: Pc)
    requires RelatedRuns(r, w, q, v) && SamePlace(pc, pc)
    requires InLoop(pc) ==> InLoop(w.pc)
    requires Published(pc) ==> Published(w.pc)
    requires pc.StartCommit? ==> w.pc.StartCommit?
    ensures RelatedRuns(r, Worker(pc, w.session), q, Worker(pc, v.session))
  {
  }

  /** Both branches move on without touching their sessions. */
  lemma MoveIsMatched(c: Cell, d: Cell, e: Event)
    requires Related(c, d) && e.Work? && c.worker.Some?
    requires
      var pc := c.worker.value.pc;
      || pc.Checking? || pc.Leaving? || (pc.Recording? && pc.item.Poison?)
      || (pc.Streaming? && !e.outcome.EndOfStream?) || (pc.Preparing? && !e.outcome.Raise?)
    ensures Matched(Step(c, e), Step(d, e))
  {
    var pc := Step(c, e).worker.value.pc;
    assert Step(c, e).record == c.record && Step(d, e).record == d.record;
    assert Step(c, e).worker == Some(Worker(pc, c.worker.value.session));
    assert Step(d, e).worker == Some(Worker(pc, d.worker.value.session));
    MovedRuns(c.record, c.worker.value, d.record, d.worker.value, pc);
  }

  lemma DecidedRuns(r: Record, w: Worker, q: Record, v: Worker, e: Event)
    requires RelatedRuns(r, w, q, v) && r.job.spec.targetUrl == q.job.spec.targetUrl && e.Work?
    requires w.session.job.spec == r.job.spec && v.session.job.spec == q.job.spec
    requires w.pc.Returned? || w.pc.Raised? || (w.pc.Preparing? && e.outcome.Raise?)
    ensures var next := Resume(r, w, e.now, e.draw, e.outcome).1.value;
      RelatedRuns(r, next, q, Resume(q, v, e.now, e.draw, e.outcome).1.value)
  {
  }

  /** Both branches decide on the same final columns. */
  lemma DecisionIsMatched(c: Cell, d: Cell, e: Event)
    requires Related(c, d) && e.Work? && c.worker.Some?
    requires
      var pc := c.worker.value.pc;
      pc.Returned? || pc.Raised? || (pc.Preparing? && e.outcome.Raise?)
    ensures Matched(Step(c, e), Step(d, e))
  {
    DecidedRuns(c.record, c.worker.value, d.record, d.worker.value, e);
  }

  lemma CommitIsRelated(r: Record, w: Worker, q: Record, v: Worker, lines: seq<LogLine>)
    requires WorkerInv(r.job, w) && WorkerInv(q.job, v)
    requires RelatedRuns(r, w, q, v)
    ensures SameRecord(Commit(r, w.session, lines), Commit(q, v.session, lines))
    ensures SameColumns(Flush(w.session).job, Flush(v.session).job)
    ensures SameColumns(Flush(w.session).base, Flush(v.session).base)
  {
    assert q.discovered + [] == q.discovered;
  }

  /** The commit that ends the run. */
  lemma LastStepIsMatched(c: Cell, d: Cell, e: Event)
    requires Related(c, d) && e.Work? && c.worker.Some? && c.worker.value.pc.LastLog?
    ensures Matched(Step(c, e), Step(d, e))
  {
    var w, v := c.worker.value, d.worker.value;
    CommitIsRelated(c.record, w, d.record, v, [LastLine(w.session.job, w.pc.handled, e.now)]);
  }

  /** A commit at the same place in both branches, after which the run goes on. */
  lemma CommitStepIsMatched(c: Cell, d: Cell, e: Event)
    requires Related(c, d) && e.Work? && c.worker.Some? && !Local(c.worker.value.pc)
    requires !c.worker.value.pc.ShallowCommit? && !c.worker.value.pc.LastLog?
    ensures Matched(Step(c, e), Step(d, e))
  {
    var w, v := c.worker.value, d.worker.value;
    CommitStep(c, e.now, e.draw, e.outcome);
    CommitStep(d, e.now, e.draw, e.outcome);
    assert CommitLines(w, e.now) == CommitLines(v, e.now);
    CommitIsRelated(c.record, w, d.record, v, CommitLines(w, e.now));
    assert c.record.results + w.session.results == [];
    FlushedRunsAreMatched(Step(c, e), Step(d, e));
  }

  /** Runs with nothing pending, at the same place over the same committed state. */
  lemma FlushedRunsAreMatched(c: Cell, d: Cell)
    requires Pair(c.record.job.spec, d.record.job.spec) && c.removed == d.removed
    requires c.worker.Some? && d.worker.Some? && SameRecord(c.record, d.record) && c.record.results == []
    requires SamePlace(c.worker.value.pc, d.worker.value.pc)
    requires c.worker.value.session == Flush(c.worker.value.session)
    requires d.worker.value.session == Flush(d.worker.value.session)
    requires SameColumns(c.worker.value.session.job, d.worker.value.session.job)
    ensures Matched(c, d)
  {
    assert c.record.discovered + [] == c.record.discovered;
  }

  /** The shallow commit matches the end of the stream in the other branch. */
  lemma ShallowCommitIsMatched(c: Cell, d: Cell, e: Event)
    requires Related(c, d) && e.Work? && c.worker.Some? && c.worker.value.pc.ShallowCommit?
    ensures Matched(Step(c, e), Step(d, Work(e.now, e.draw, EndOfStream)))
  {
    CommitStep(c, e.now, e.draw, e.outcome);
    CommitIsRelated(c.record, c.worker.value, d.record, d.worker.value, []);
    assert d.record.logs + [] == d.record.logs && d.record.results + [] == d.record.results;
    assert d.record.discovered + [] == d.record.discovered;
  }

  lemma WorkIsMatched(c: Cell, d: Cell, e: Event)
    requires Related(c, d) && e.Work? && c.worker.Some?
    ensures Matched(Step(c, e), Run(d, MirrorEvent(c, e)))
  {
    var w := c.worker.value;
    if w.pc.Recording? && w.pc.item.Page? {
      RecordingIsMatched(c, d, e);
    } else if w.pc.Streaming? && e.outcome.EndOfStream? {
      assert Step(c, e) == c.(worker := Some(Worker(ShallowCommit, w.session)));
    } else if w.pc.ShallowCommit? {
      OneStep(d, Work(e.now, e.draw, EndOfStream));
      ShallowCommitIsMatched(c, d, e);
    } else {
      OneStep(d, e);
      if w.pc.Returned? || w.pc.Raised? || (w.pc.Preparing? && e.outcome.Raise?) {
        DecisionIsMatched(c, d, e);
      } else if w.pc.LastLog? {
        LastStepIsMatched(c, d, e);
      } else if Local(w.pc) {
        MoveIsMatched(c, d, e);
      } else {
        CommitStepIsMatched(c, d, e);
      }
    }
  }

  // ---------------------------------------------------------------- crashes and deletions

  lemma {:induction false} IndexInConcat(a: seq<DiscoveredRow>, b: seq<DiscoveredRow>, id: RowId)
    ensures IndexOfRow(a + b, id) ==
      if IndexOfRow(a, id) < |a| then IndexOfRow(a, id) else |a| + IndexOfRow(b, id)
  {
    if a == [] {
      assert a + b == b;
    } else if a[0].id != id {
      assert (a + b)[1..] == a[1..] + b;
      IndexInConcat(a[1..], b, id);
    }
  }

  /** Without pending rows, both branches have the same committed state and columns. */
  lemma FlushedIsSame(c: Cell, d: Cell)
    requires Related(c, d) && (c.worker.Some? ==> c.worker.value.session.discovered == [])
    ensures SameRecord(c.record, d.record)
  {
    if c.worker.Some? {
      assert c.record.discovered + [] == c.record.discovered;
    }
  }

  /** A crash does the same to both branches exactly if nothing is pending. */
  lemma CrashIsMatched(c: Cell, d: Cell)
    requires Related(c, d)
    ensures Matched(Step(c, Crash), Step(d, Crash)) <==> Harmless(c, Crash)
  {
    if Harmless(c, Crash) {
      FlushedIsSame(c, d);
    }
  }

  lemma CutFirst<T>(a: seq<T>, b: seq<T>, i: nat)
    requires i < |a|
    ensures (a + b)[..i] + (a + b)[i + 1..] == a[..i] + a[i + 1..] + b
  {
  }

  /** What a deletion does to committed rows, and to the same rows with the pending ones behind them. */
  lemma DeletedFromBoth(rows: seq<DiscoveredRow>, pending: seq<DiscoveredRow>, id: RowId)
    ensures var r, q := WithoutRow(rows, id), WithoutRow(rows + pending, id);
      if HasRow(rows, id) then |r| == |rows| - 1 && q == r + pending
      else r == rows && (if HasRow(pending, id) then |q| == |rows + pending| - 1 else q == rows + pending)
  {
    IndexInConcat(rows, pending, id);
    if HasRow(rows, id) {
      CutFirst(rows, pending, IndexOfRow(rows, id));
    } else if HasRow(pending, id) {
      CutLength(rows + pending, |rows| + IndexOfRow(pending, id));
    }
  }

  lemma CutLength<T>(s: seq<T>, i: nat)
    requires i < |s|
    ensures |s[..i] + s[i + 1..]| == |s| - 1
  {
  }

  /** A deletion does the same to both branches exactly if it does not name a pending row. */
  lemma DeletionIsMatched(c: Cell, d: Cell, id: RowId)
    requires Related(c, d)
    ensures Matched(Step(c, DeleteDiscovered(id)), Step(d, DeleteDiscovered(id))) <==> Harmless(c, DeleteDiscovered(id))
  {
    if c.worker.Some? {
      DeletedRuns(c.record, c.worker.value, d.record, d.worker.value, id);
    }
  }

  lemma DeletedRuns(r: Record, w: Worker, q: Record, v: Worker, id: RowId)
    requires RelatedRuns(r, w, q, v)
    ensures var r', q' := RemoveDiscovered(r, id), RemoveDiscovered(q, id);
      if HasRow(w.session.discovered, id) && !HasRow(r.discovered, id)
      then |r.discovered| - |r'.discovered| < |q.discovered| - |q'.discovered|
      else |r.discovered| - |r'.discovered| == |q.discovered| - |q'.discovered| && RelatedRuns(r', w, q', v)
  {
    DeletedFromBoth(r.discovered, w.session.discovered, id);
  }

  // ---------------------------------------------------------------- the simulation

  lemma StepIsMatched(c: Cell, d: Cell, e: Event)
    requires Related(c, d) && Harmless(c, e)
    ensures Matched(Step(c, e), Run(d, MirrorEvent(c, e)))
  {
    if e.Work? && c.worker.Some? {
      WorkIsMatched(c, d, e);
    } else {
      OneStep(d, e);
      match e
      case Crash => CrashIsMatched(c, d);
      case DeleteDiscovered(id) => DeletionIsMatched(c, d, id);
      case _ =>
    }
  }

  lemma StepIsRelated(c: Cell, d: Cell, e: Event)
    requires Related(c, d) && Harmless(c, e)
    ensures Related(Step(c, e), Run(d, MirrorEvent(c, e)))
  {
    StepIsMatched(c, d, e);
    StepKeepsInv(c, e);
    RunKeepsInv(d, MirrorEvent(c, e));
  }

  /** The simulation: every run of the shallow branch is matched by its mirror in the other. */
  lemma {:induction false} ShallowIsSimulated(c: Cell, d: Cell, es: seq<Event>)
    requires Related(c, d) && Undisturbed(c, es)
    ensures Related(Run(c, es), Run(d, Mirror(c, es)))
    decreases es
  {
    if es != [] {
      StepIsRelated(c, d, es[0]);
      var d1 := Run(d, MirrorEvent(c, es[0]));
      ShallowIsSimulated(Step(c, es[0]), d1, es[1..]);
      RunAppend(d, MirrorEvent(c, es[0]), Mirror(Step(c, es[0]), es[1..]));
    }
  }

  /**
    From two fresh jobs that differ in the strategy alone: whenever the shallow run is past its loop
    or over, the mirrored run stands at the same place with the same committed rows and columns.
  */
  lemma ShallowRefinesStreaming(c: Cell, d: Cell, es: seq<Event>)
    requires Fresh(c) && Fresh(d) && Pair(c.record.job.spec, d.record.job.spec) && Undisturbed(c, es)
    ensures var f, g := Run(c, es), Run(d, Mirror(c, es));
      && (f.worker.None? <==> g.worker.None?)
      && (f.worker.None? || Published(f.worker.value.pc) ==> SameRecord(f.record, g.record))
      && (f.worker.Some? && Published(f.worker.value.pc) ==> f.worker.value.pc == g.worker.value.pc)
  {
    ShallowIsSimulated(c, d, es);
    var f, g := Run(c, es), Run(d, Mirror(c, es));
    if f.worker.Some? && Published(f.worker.value.pc) {
      FlushedIsSame(f, g);
    }
  }

  /** The mirror makes the same API calls, in the same order, and redelivers when the original does. */
  lemma {:induction false} MirrorKeepsCalls(c: Cell, es: seq<Event>)
    ensures Calls(Mirror(c, es)) == Calls(es)
    decreases es
  {
    if es != [] {
      MirrorKeepsCalls(Step(c, es[0]), es[1..]);
      CallsAppend(MirrorEvent(c, es[0]), Mirror(Step(c, es[0]), es[1..]));
      CallsAppend([es[0]], es[1..]);
      assert [es[0]] + es[1..] == es;
      MirrorEventKeepsCalls(c, es[0]);
    }
  }

  function Calls(es: seq<Event>): seq<Event>
    decreases es
  {
    if es == [] then [] else (if es[0].Work? then [] else [es[0]]) + Calls(es[1..])
  }

  lemma {:induction false} CallsAppend(es: seq<Event>, fs: seq<Event>)
    ensures Calls(es + fs) == Calls(es) + Calls(fs)
    decreases es
  {
    if es == [] {
      assert es + fs == fs;
    } else {
      assert (es + fs)[1..] == es[1..] + fs;
      CallsAppend(es[1..], fs);
    }
  }

  lemma MirrorEventKeepsCalls(c: Cell, e: Event)
    ensures Calls(MirrorEvent(c, e)) == Calls([e])
  {
    var m := MirrorEvent(c, e);
    assert [e][1..] == [];
    if |m| == 2 {
      assert m[1..] == [m[1]] && m[1..][1..] == [];
    } else if |m| == 1 {
      assert m[1..] == [];
    }
  }
}
