/**
  What a cancel guarantees once the worker has made its start write: at most one more page is
  recorded, and if the engine yields again the run records nothing more and ends CANCELLED.
*/
module CrawlCancellation {
  import opened Wrappers
  import opened CrawlModel
  import opened CrawlInvariants

  /** Pages recorded so far: counted by the session while a run holds the job, else by the database. */
  function PagesRecorded(c: Cell): nat
  {
    if c.worker.Some? then c.worker.value.session.job.urlsDiscovered else c.record.job.urlsDiscovered
  }

  /** One page is past the cancel check and not yet added. */
  function InFlight(w: Worker): nat
  {
    if w.pc.Recording? then 1 else 0
  }

  // ---------------------------------------------------------------- at most one more page

  /** A bound on the pages recorded from a cancel on. */
  ghost predicate CancelBound(c: Cell, bound: nat)
  {
    Inv(c) && Bounded(c, bound)
  }

  ghost predicate Bounded(c: Cell, bound: nat)
  {
    && c.record.job.urlsDiscovered <= bound
    && (c.worker.Some? ==>
          var w := c.worker.value;
          && !w.pc.StartCommit?
          && w.session.job.urlsDiscovered + InFlight(w) <= bound
          && (InLoop(w.pc) ==> c.record.job.status == Cancelled))
  }

  lemma WorkKeepsBound(c: Cell, e: Event, bound: nat)
    requires CancelBound(c, bound) && e.Work? && c.worker.Some?
    ensures Bounded(Step(c, e), bound)
  {
    WorkWrites(c, e);
    if !Local(c.worker.value.pc) && !c.worker.value.pc.LastLog? {
      CommitStep(c, e.now, e.draw, e.outcome);
    }
  }

  lemma StepKeepsCancelBound(c: Cell, e: Event, bound: nat)
    requires CancelBound(c, bound) && !e.Deliver?
    ensures CancelBound(Step(c, e), bound)
  {
    StepKeepsInv(c, e);
    if e.Work? && c.worker.Some? {
      WorkKeepsBound(c, e, bound);
    }
  }

  lemma {:induction false} RunKeepsCancelBound(c: Cell, es: seq<Event>, bound: nat)
    requires CancelBound(c, bound) && NoDelivery(es)
    ensures CancelBound(Run(c, es), bound)
    decreases es
  {
    if es != [] {
      StepKeepsCancelBound(c, es[0], bound);
      RunKeepsCancelBound(Step(c, es[0]), es[1..], bound);
    }
  }

  /**
    A cancel committed after the start write lets at most one further page be recorded by the run,
    in every mode and whatever else happens until the run is over.
  */
  lemma CancelAllowsOneMorePage(c: Cell, now: int, es: seq<Event>)
    requires Inv(c) && c.worker.Some? && InLoop(c.worker.value.pc) && NoDelivery(es)
    ensures PagesRecorded(Run(c, [Cancel(now)] + es)) <= PagesRecorded(c) + InFlight(c.worker.value)
  {
    var bound := PagesRecorded(c) + InFlight(c.worker.value);
    var d := Step(c, Cancel(now));
    StepKeepsInv(c, Cancel(now));
    assert ([Cancel(now)] + es)[1..] == es;
    RunKeepsCancelBound(d, es, bound);
  }

  /** The bound is met: a page past its check when the cancel commits is recorded all the same. */
  lemma LateCancelMissesOnePage(c: Cell, now: int, e: Event)
    requires Inv(c) && c.worker.Some? && e.Work?
    requires c.worker.value.pc.Recording? && c.worker.value.pc.item.Page?
    ensures PagesRecorded(Run(c, [Cancel(now), e])) == PagesRecorded(c) + 1
  {
    var d := Step(c, Cancel(now));
    assert [Cancel(now), e][1..] == [e];
    assert [e][1..] == [];
    assert Run(c, [Cancel(now), e]) == Run(d, [e]) == Run(Step(d, e), []);
  }

  // ---------------------------------------------------------------- a yield after the cancel

  /** The run is bound to end CANCELLED, having recorded `pages` pages. */
  ghost predicate Doomed(c: Cell, pages: nat)
  {
    && Inv(c)
    && c.record.job.status == Cancelled
    && match c.worker
       case None => c.record.job.finishedAt.Some? && c.record.job.urlsDiscovered <= pages
       case Some(w) =>
         && (w.pc.Checking? || SawCancel(w))
         && w.session.job.urlsDiscovered == pages
  }

  lemma WorkKeepsDoomed(c: Cell, e: Event, pages: nat)
    requires Doomed(c, pages) && c.record.job.finishedAt.Some?
    requires e.Work? && c.worker.Some? && !e.outcome.Raise?
    ensures Doomed(Step(c, e), pages)
    ensures Step(c, e).record.job.finishedAt.Some?
    ensures Step(c, e).worker.None? ==> Step(c, e).record.job.urlsDiscovered == pages
  {
    StepKeepsInv(c, e);
    TimesStaySet(c, e);
    StatusMovesAlongEdges(c, e);
  }

  lemma StepKeepsDoomed(c: Cell, e: Event, pages: nat)
    requires Doomed(c, pages) && c.record.job.finishedAt.Some? && (e.Work? ==> !e.outcome.Raise?)
    ensures Doomed(Step(c, e), pages)
    ensures Step(c, e).record.job.finishedAt.Some?
    ensures !e.Crash? ==> PagesRecorded(Step(c, e)) == PagesRecorded(c)
  {
    if e.Work? && c.worker.Some? {
      WorkKeepsDoomed(c, e, pages);
    } else {
      StepKeepsInv(c, e);
      TimesStaySet(c, e);
    }
  }

  lemma {:induction false} RunKeepsDoomed(c: Cell, es: seq<Event>, pages: nat)
    requires Doomed(c, pages) && c.record.job.finishedAt.Some? && NoException(es)
    ensures Doomed(Run(c, es), pages)
    ensures NoCrash(es) ==> PagesRecorded(Run(c, es)) == PagesRecorded(c)
    decreases es
  {
    if es != [] {
      StepKeepsDoomed(c, es[0], pages);
      RunKeepsDoomed(Step(c, es[0]), es[1..], pages);
    }
  }

  /** Once `is_cancelled` returned true the job stays CANCELLED, redeliveries included, barring an exception. */
  lemma ObservedCancelSticks(c: Cell, es: seq<Event>)
    requires Inv(c) && c.worker.Some? && SawCancel(c.worker.value)
    requires NoException(es)
    ensures Run(c, es).record.job.status == Cancelled
    ensures PagesRecorded(Run(c, es)) <= PagesRecorded(c)
    ensures NoCrash(es) ==> PagesRecorded(Run(c, es)) == PagesRecorded(c)
  {
    RunKeepsDoomed(c, es, PagesRecorded(c));
  }

  lemma {:induction false} RunKeepsFinished(c: Cell, es: seq<Event>)
    requires Inv(c) && c.record.job.finishedAt.Some?
    ensures Run(c, es).record.job.finishedAt.Some?
    decreases es
  {
    if es != [] {
      StepKeepsInv(c, es[0]);
      TimesStaySet(c, es[0]);
      RunKeepsFinished(Step(c, es[0]), es[1..]);
    }
  }

  /**
    If the engine yields again after a cancel, then from that yield on the run records nothing and
    the job stays CANCELLED to the end, barring an exception.
  */
  lemma YieldAfterCancelEndsCancelled(c: Cell, now: int, before: seq<Event>, yielded: Event, after: seq<Event>)
    requires Inv(c) && c.worker.Some? && InLoop(c.worker.value.pc) && Active(c.record.job.status)
    requires NoDelivery(before)
    requires var d := Run(Step(c, Cancel(now)), before); d.worker.Some? && d.worker.value.pc == Streaming
    requires yielded.Work? && yielded.outcome.Yield?
    requires NoException(after)
    ensures var d := Run(Step(c, Cancel(now)), before);
      var f := Run(Step(d, yielded), after);
      && f.record.job.status == Cancelled
      && f.record.job.finishedAt.Some?
      && PagesRecorded(f) <= PagesRecorded(d)
      && (NoCrash(after) ==> PagesRecorded(f) == PagesRecorded(d))
  {
    var b := Step(c, Cancel(now));
    StepKeepsInv(c, Cancel(now));
    RunKeepsCancelBound(b, before, PagesRecorded(c) + 1);
    RunKeepsFinished(b, before);
    var d := Run(b, before);
    var y := Step(d, yielded);
    StepKeepsInv(d, yielded);
    RunKeepsDoomed(y, after, PagesRecorded(d));
    RunKeepsFinished(y, after);
  }

  // ---------------------------------------------------------------- exactly when a cancel survives

  /** The run checks for a cancel at some step of `es`. */
  ghost predicate CheckRuns(c: Cell, es: seq<Event>)
    decreases es
  {
    es != [] && (IsCheck(c, es[0]) || CheckRuns(Step(c, es[0]), es[1..]))
  }

  ghost predicate IsCheck(c: Cell, e: Event)
  {
    e.Work? && c.worker.Some? && c.worker.value.pc.Checking?
  }

  /** Leaving the engine raises at some step of `es`. */
  ghost predicate LeavingRaises(c: Cell, es: seq<Event>)
    decreases es
  {
    es != [] && (RaisesHere(c, es[0]) || LeavingRaises(Step(c, es[0]), es[1..]))
  }

  ghost predicate RaisesHere(c: Cell, e: Event)
  {
    e.Work? && c.worker.Some? && c.worker.value.pc.Leaving? && e.outcome.Raise?
  }

  /** The points behind the mode loop: the run checks no more. */
  ghost predicate BehindLoop(pc: Pc)
  {
    || pc.CancelLog? || pc.ShallowCommit? || pc.Leaving? || pc.ScraperWarn? || pc.Returned? || pc.Raised?
    || Deciding(pc) || pc.LastLog?
  }

  /** The run is bound to end in a status other than CANCELLED. */
  ghost predicate Lost(w: Worker)
  {
    BehindLoop(w.pc) && !SawCancel(w) && (Deciding(w.pc) ==> w.session.job.status != Cancelled)
  }

  /** A cancel stands in the database and the run has not seen it. */
  ghost predicate Unseen(c: Cell)
  {
    c.worker.Some? && InLoop(c.worker.value.pc) && !SawCancel(c.worker.value) && c.record.job.status == Cancelled
  }

  lemma StepBehindLoop(c: Cell, e: Event)
    requires Inv(c) && (c.worker.Some? ==> BehindLoop(c.worker.value.pc)) && !e.Deliver?
    ensures !IsCheck(c, e)
    ensures Step(c, e).worker.Some? ==> BehindLoop(Step(c, e).worker.value.pc)
  {
  }

  lemma {:induction false} NoCheckBehindLoop(c: Cell, es: seq<Event>)
    requires Inv(c) && (c.worker.Some? ==> BehindLoop(c.worker.value.pc)) && NoDelivery(es)
    ensures !CheckRuns(c, es)
    decreases es
  {
    if es != [] {
      StepKeepsInv(c, es[0]);
      StepBehindLoop(c, es[0]);
      NoCheckBehindLoop(Step(c, es[0]), es[1..]);
    }
  }

  /** A finished run's status stays: no call changes a terminal one. */
  lemma {:induction false} FinishedStays(c: Cell, es: seq<Event>)
    requires c.worker.None? && Terminal(c.record.job.status) && NoDelivery(es)
    ensures Run(c, es).record.job.status == c.record.job.status
    decreases es
  {
    if es != [] {
      FinishedStays(Step(c, es[0]), es[1..]);
    }
  }

  lemma StepKeepsLost(c: Cell, e: Event)
    requires Inv(c) && c.worker.Some? && Lost(c.worker.value) && !e.Deliver? && !e.Crash?
    ensures var d := Step(c, e);
      if d.worker.Some? then Lost(d.worker.value)
      else Terminal(d.record.job.status) && d.record.job.status != Cancelled
  {
    if e.Work? { WorkWrites(c, e); }
  }

  lemma {:induction false} LostEndsOtherwise(c: Cell, es: seq<Event>)
    requires Inv(c) && c.worker.Some? && Lost(c.worker.value)
    requires NoDelivery(es) && NoCrash(es) && Run(c, es).worker.None?
    ensures Run(c, es).record.job.status != Cancelled
    decreases es
  {
    if es != [] {
      var d := Step(c, es[0]);
      StepKeepsInv(c, es[0]);
      StepKeepsLost(c, es[0]);
      if d.worker.Some? {
        LostEndsOtherwise(d, es[1..]);
      } else {
        FinishedStays(d, es[1..]);
      }
    }
  }

  lemma StepKeepsSeen(c: Cell, e: Event)
    requires Inv(c) && c.worker.Some? && SawCancel(c.worker.value) && !e.Deliver? && !e.Crash?
    ensures var d := Step(c, e);
      if RaisesHere(c, e) then d.worker.Some? && Lost(d.worker.value)
      else d.record.job.status == Cancelled && (d.worker.Some? ==> SawCancel(d.worker.value))
  {
    if e.Work? { StatusMovesAlongEdges(c, e); }
  }

  lemma {:induction false} SeenSurvives(c: Cell, es: seq<Event>)
    requires Inv(c) && c.worker.Some? && SawCancel(c.worker.value)
    requires NoDelivery(es) && NoCrash(es) && Run(c, es).worker.None?
    ensures Run(c, es).record.job.status == Cancelled <==> !LeavingRaises(c, es)
    decreases es
  {
    if es != [] {
      var d := Step(c, es[0]);
      StepKeepsInv(c, es[0]);
      StepKeepsSeen(c, es[0]);
      if RaisesHere(c, es[0]) {
        LostEndsOtherwise(d, es[1..]);
      } else if d.worker.Some? {
        SeenSurvives(d, es[1..]);
      } else {
        FinishedStays(d, es[1..]);
        NoRaiseWithoutRun(d, es[1..]);
      }
    }
  }

  lemma {:induction false} NoRaiseWithoutRun(c: Cell, es: seq<Event>)
    requires c.worker.None? && NoDelivery(es)
    ensures !LeavingRaises(c, es)
    decreases es
  {
    if es != [] {
      NoRaiseWithoutRun(Step(c, es[0]), es[1..]);
    }
  }

  lemma StepFromUnseen(c: Cell, e: Event)
    requires Inv(c) && Unseen(c) && !e.Deliver? && !e.Crash?
    ensures var d := Step(c, e);
      && d.worker.Some?
      && (IsCheck(c, e) ==> SawCancel(d.worker.value) && !RaisesHere(c, e))
      && (!IsCheck(c, e) ==> Unseen(d) || Lost(d.worker.value))
      && (RaisesHere(c, e) ==> Lost(d.worker.value) && BehindLoop(c.worker.value.pc))
  {
    if e.Work? { WorkWrites(c, e); }
  }

  lemma {:induction false} UnseenSurvives(c: Cell, es: seq<Event>)
    requires Inv(c) && Unseen(c)
    requires NoDelivery(es) && NoCrash(es) && Run(c, es).worker.None?
    ensures Run(c, es).record.job.status == Cancelled <==> CheckRuns(c, es) && !LeavingRaises(c, es)
    decreases es
  {
    if es != [] {
      var d := Step(c, es[0]);
      StepKeepsInv(c, es[0]);
      StepFromUnseen(c, es[0]);
      if IsCheck(c, es[0]) {
        SeenSurvives(d, es[1..]);
      } else if Lost(d.worker.value) {
        LostEndsOtherwise(d, es[1..]);
        NoCheckBehindLoop(d, es[1..]);
      } else {
        UnseenSurvives(d, es[1..]);
      }
    }
  }

  /**
    A cancel committed while the run is between its start write and its final decision is the status the
    uncrashed run ends in exactly if the run checks once more and leaving the engine does not raise.
  */
  lemma CancelSurvivesExactly(c: Cell, now: int, es: seq<Event>)
    requires Inv(c) && c.worker.Some? && InLoop(c.worker.value.pc) && Active(c.record.job.status)
    requires var b := Step(c, Cancel(now)); NoDelivery(es) && NoCrash(es) && Run(b, es).worker.None?
    ensures var b := Step(c, Cancel(now));
      Run(b, es).record.job.status == Cancelled <==> CheckRuns(b, es) && !LeavingRaises(b, es)
  {
    StepKeepsInv(c, Cancel(now));
    UnseenSurvives(Step(c, Cancel(now)), es);
  }

  // ---------------------------------------------------------------- a run whose final write wins

  lemma FourSteps(c: Cell, e: Event, f: Event, g: Event, h: Event)
    ensures Run(c, [e, f, g, h]) == Step(Step(Step(Step(c, e), f), g), h)
  {
    assert [e, f, g, h][1..] == [f, g, h] && [f, g, h][1..] == [g, h] && [g, h][1..] == [h] && [h][1..] == [];
    assert Run(Step(c, e), [f, g, h]) == Run(Step(Step(c, e), f), [g, h]);
    assert Run(Step(Step(c, e), f), [g, h]) == Run(Step(Step(Step(c, e), f), g), [h]);
    assert Run(Step(Step(Step(c, e), f), g), [h]) == Run(Step(Step(Step(Step(c, e), f), g), h), []);
  }

  /** A sitemap job is delivered, started, and its settings are built. */
  function Starting(): seq<Event> { [Deliver(0), Plain(1, Proceed), Plain(2, Proceed), Plain(3, Proceed)] }

  /** It records one page. */
  function OnePage(): seq<Event>
  {
    [Plain(4, Yield(Page("url", "body"))), Plain(5, Proceed), Plain(6, Proceed), Plain(7, Proceed)]
  }

  /** A cancel commits, the stream is over, and the run decides and commits. */
  function LateCancel(): seq<Event> { [Cancel(8), Plain(9, EndOfStream), Plain(10, Proceed), Plain(11, Proceed)] }

  /** A run of the job in its loop, with nothing pending and `n` pages committed. */
  ghost predicate InLoopWith(c: Cell, n: nat)
  {
    && c.worker == Some(Worker(Streaming, Open(c.record.job)))
    && c.record.job.spec.mode == Sitemap && c.record.job.status == Running && c.record.job.urlsDiscovered == n
  }

  lemma Starts(c: Cell)
    requires Fresh(c) && c.record.job.spec.mode == Sitemap
    ensures InLoopWith(Run(c, Starting()), 0)
  {
    FourSteps(c, Deliver(0), Plain(1, Proceed), Plain(2, Proceed), Plain(3, Proceed));
  }

  lemma RecordsOnePage(c: Cell)
    requires InLoopWith(c, 0)
    ensures InLoopWith(Run(c, OnePage()), 1)
  {
    FourSteps(c, Plain(4, Yield(Page("url", "body"))), Plain(5, Proceed), Plain(6, Proceed), Plain(7, Proceed));
  }

  lemma CancelIsOverwritten(c: Cell)
    requires InLoopWith(c, 1)
    ensures Step(c, LateCancel()[0]).record.job.status == Cancelled
    ensures Run(c, LateCancel()).record.job.status == Completed
  {
    FourSteps(c, Cancel(8), Plain(9, EndOfStream), Plain(10, Proceed), Plain(11, Proceed));
  }

  /** A cancel is lost: committed after the last check, it is overwritten with COMPLETED. */
  lemma FinalWriteOverwritesCancel(c: Cell)
    requires Fresh(c) && c.record.job.spec.mode == Sitemap
    ensures var d := Run(c, Starting() + OnePage());
      && Step(d, LateCancel()[0]).record.job.status == Cancelled
      && Run(d, LateCancel()).record.job.status == Completed
  {
    Starts(c);
    RecordsOnePage(Run(c, Starting()));
    RunAppend(c, Starting(), OnePage());
    CancelIsOverwritten(Run(c, Starting() + OnePage()));
  }
}
