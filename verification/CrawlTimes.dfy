/**
  Which clock readings stand in a job after a run: when it started and when it finished.
*/
module CrawlTimes {
  import opened Wrappers
  import opened CrawlModel
  import opened CrawlInvariants

  // What the events of a run say of its times: the reading of the last delivery and the finish time
  // loaded then, the readings of the run's final decision and of the last cancel of an active job
  // since, and whether the run has ended by itself.
  datatype Times = Times(
    delivered: Option<int>, loaded: Option<int>, decided: Option<int>, cancelled: Option<int>, ended: bool)

  /** The steps at which a run decides how it ends: a mode loop has returned or raised, or the settings were bad. */
  predicate Decides(pc: Pc, o: Outcome)
  {
    pc.Returned? || pc.Raised? || (pc.Preparing? && o.Raise?)
  }

  function NextTimes(t: Times, c: Cell, e: Event): Times
  {
    var status := c.record.job.status;
    match e
    case Deliver(now) =>
      if c.worker.None? && status != Cancelled then Times(Some(now), c.record.job.finishedAt, None, None, false) else t
    case Cancel(now) => if status == Queued || status == Running then t.(cancelled := Some(now)) else t
    case Work(now, _, o) =>
      if c.worker.None? then t
      else if Decides(c.worker.value.pc, o) then t.(decided := Some(now))
      else if c.worker.value.pc.LastLog? then t.(ended := true)
      else t
    case _ => t
  }

  function TimesOf(c: Cell, es: seq<Event>): Times
  {
    if es == [] then Times(None, None, None, None, false)
    else NextTimes(TimesOf(c, es[..|es| - 1]), Run(c, es[..|es| - 1]), es[|es| - 1])
  }

  /**
    The finish time a run leaves: the reading of its decision. Only where that equals the finish time it
    loaded is nothing written, and a cancel that came meanwhile keeps its own.
  */
  function FinishTime(t: Times): Option<int>
  {
    if t.decided == t.loaded && t.cancelled.Some? then t.cancelled else t.decided
  }

  ghost predicate EndedAt(job: Job, t: Times)
  {
    && Terminal(job.status) && t.delivered.Some? && t.decided.Some?
    && job.startedAt == t.delivered && job.finishedAt == FinishTime(t)
  }

  /** The finish time in the database while a run has written none. */
  function Unwritten(t: Times): Option<int>
  {
    if t.cancelled.Some? then t.cancelled else t.loaded
  }

  ghost predicate RunTimed(db: Job, w: Worker, t: Times)
  {
    var s := w.session;
    && !t.ended && t.delivered.Some? && s.job.startedAt == t.delivered
    && (!w.pc.StartCommit? ==> db.startedAt == t.delivered)
    && if w.pc.LastLog? then EndedAt(db, t)
       else
         && s.base.finishedAt == t.loaded && db.finishedAt == Unwritten(t)
         && if Deciding(w.pc) then t.decided.Some? && s.job.finishedAt == t.decided
            else t.decided.None? && s.job.finishedAt == t.loaded
  }

  ghost predicate Timed(c: Cell, t: Times)
  {
    match c.worker
    case None => t.ended ==> EndedAt(c.record.job, t)
    case Some(w) => RunTimed(c.record.job, w, t)
  }

  lemma CallKeepsTimes(c: Cell, e: Event, t: Times)
    requires Inv(c) && Timed(c, t) && !e.Work?
    ensures Timed(Step(c, e), NextTimes(t, c, e))
  {
  }

  lemma DecisionKeepsTimes(c: Cell, e: Event, t: Times)
    requires Inv(c) && Timed(c, t) && e.Work? && c.worker.Some? && Decides(c.worker.value.pc, e.outcome)
    ensures Timed(Step(c, e), NextTimes(t, c, e))
  {
    assert Step(c, e).record == c.record;
  }

  lemma LocalStepKeepsTimes(c: Cell, e: Event, t: Times)
    requires Inv(c) && Timed(c, t) && e.Work? && c.worker.Some?
    requires Local(c.worker.value.pc) && !Decides(c.worker.value.pc, e.outcome)
    ensures Timed(Step(c, e), NextTimes(t, c, e))
  {
    assert Step(c, e).record == c.record;
  }

  lemma CommitStepKeepsTimes(c: Cell, e: Event, t: Times)
    requires Inv(c) && Timed(c, t) && e.Work? && c.worker.Some? && !Local(c.worker.value.pc)
    ensures Timed(Step(c, e), NextTimes(t, c, e))
  {
    WorkWrites(c, e);
    if !c.worker.value.pc.LastLog? {
      CommitStep(c, e.now, e.draw, e.outcome);
    }
  }

  lemma StepKeepsTimes(c: Cell, e: Event, t: Times)
    requires Inv(c) && Timed(c, t)
    ensures Timed(Step(c, e), NextTimes(t, c, e))
  {
    if !e.Work? {
      CallKeepsTimes(c, e, t);
    } else if c.worker.Some? {
      if Decides(c.worker.value.pc, e.outcome) {
        DecisionKeepsTimes(c, e, t);
      } else if Local(c.worker.value.pc) {
        LocalStepKeepsTimes(c, e, t);
      } else {
        CommitStepKeepsTimes(c, e, t);
      }
    }
  }

  lemma TimesSnoc(c: Cell, es: seq<Event>, e: Event)
    ensures TimesOf(c, es + [e]) == NextTimes(TimesOf(c, es), Run(c, es), e)
  {
    assert (es + [e])[..|es|] == es;
  }

  lemma {:induction false} RunKeepsTimes(c: Cell, es: seq<Event>)
    requires Inv(c) && c.worker.None?
    ensures Timed(Run(c, es), TimesOf(c, es))
    decreases |es|
  {
    if es != [] {
      var front, e := es[..|es| - 1], es[|es| - 1];
      assert es == front + [e];
      RunKeepsTimes(c, front);
      RunKeepsInv(c, front);
      RunSnoc(c, front, e);
      TimesSnoc(c, front, e);
      StepKeepsTimes(Run(c, front), e, TimesOf(c, front));
    }
  }

  /**
    After a run that ended by itself, `started_at` is the reading of its delivery, and `finished_at` that
    of its own final decision, or of a cancel where the decision fell on the finish time it had loaded.
  */
  lemma EndedRunHasItsTimes(c: Cell, es: seq<Event>)
    requires Inv(c) && c.worker.None? && Run(c, es).worker.None? && TimesOf(c, es).ended
    ensures var job, t := Run(c, es).record.job, TimesOf(c, es);
      && t.delivered.Some? && t.decided.Some?
      && job.startedAt == t.delivered
      && (job.finishedAt == t.decided || (t.decided == t.loaded && job.finishedAt == t.cancelled))
      && (t.decided != t.loaded || t.cancelled.None? ==> job.finishedAt == t.decided)
      && (t.decided == t.loaded && t.cancelled.Some? ==> job.finishedAt == t.cancelled)
  {
    RunKeepsTimes(c, es);
  }

  /** A run that goes away other than by a crash has ended by itself. */
  lemma UncrashedRunHasEnded(c: Cell, es: seq<Event>, e: Event)
    requires Inv(c) && Run(c, es).worker.Some? && Run(c, es + [e]).worker.None? && !e.Crash?
    ensures TimesOf(c, es + [e]).ended
  {
    RunSnoc(c, es, e);
    RunKeepsInv(c, es);
    FinishedRunIsSettled(Run(c, es), e);
    TimesSnoc(c, es, e);
  }
}
