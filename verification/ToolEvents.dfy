/**
  Tool calls that report to a shared queue (EventToolbox.call in src/agent/tools.py): one event when
  a call starts, one when it returns or raises, and none when it is killed by task cancellation. Any
  number of calls run at once; each is two atomic pieces, before and after the inner call.
*/
module ToolEvents {
  import opened Json

  // A Python object that json.dumps accepts (with default=str), or one on which it raises.
  datatype Payload = Dumpable(value: Value) | Undumpable(error: Text)

  datatype ToolEvent =
    | ToolCall(name: Text, args: Payload)
    | ToolResult(name: Text, result: Payload)
    | ToolError(name: Text, error: Text)

  // How the inner call ends.
  datatype Inner = Returns(result: Payload) | Raises(error: Text) | Killed

  datatype CallState = Waiting(name: Text, args: Payload) | Ended(name: Text, args: Payload, outcome: Inner)

  datatype Logged = Logged(id: nat, event: ToolEvent)

  // ---------------------------------------------------------------- logs

  /** The events of one call. */
  function Project(log: seq<Logged>, id: nat): seq<ToolEvent>
  {
    if log == [] then []
    else Project(log[..|log| - 1], id) + (if log[|log| - 1].id == id then [log[|log| - 1].event] else [])
  }

  function Events(log: seq<Logged>): seq<ToolEvent>
  {
    seq(|log|, i requires 0 <= i < |log| => log[i].event)
  }

  /** Nothing; a start; or a start and one outcome, under the same name. */
  ghost predicate StartThenOutcome(es: seq<ToolEvent>)
  {
    || es == []
    || (|es| == 1 && es[0].ToolCall?)
    || (|es| == 2 && es[0].ToolCall? && !es[1].ToolCall? && es[1].name == es[0].name)
  }

  ghost predicate WellFormed(log: seq<Logged>)
  {
    forall id {:trigger Project(log, id)} :: StartThenOutcome(Project(log, id))
  }

  function Starts(log: seq<Logged>, name: Text): nat
  {
    if log == [] then 0
    else
      var e := log[|log| - 1].event;
      Starts(log[..|log| - 1], name) + (if e.ToolCall? && e.name == name then 1 else 0)
  }

  function Outcomes(log: seq<Logged>, name: Text): nat
  {
    if log == [] then 0
    else
      var e := log[|log| - 1].event;
      Outcomes(log[..|log| - 1], name) + (if !e.ToolCall? && e.name == name then 1 else 0)
  }

  /** The calls of a name that have started and not reported an outcome. */
  ghost function OpenCalls(log: seq<Logged>, name: Text): set<nat>
  {
    set i | 0 <= i < |log| && |Project(log, log[i].id)| == 1 && Project(log, log[i].id)[0].name == name :: log[i].id
  }

  lemma {:induction false} ProjectPrefix(log: seq<Logged>, n: nat, id: nat)
    requires n <= |log|
    ensures Project(log[..n], id) <= Project(log, id)
  {
    if n < |log| {
      var front := log[..|log| - 1];
      ProjectPrefix(front, n, id);
      assert front[..n] == log[..n];
    } else {
      assert log[..n] == log;
    }
  }

  /** What holds of a log holds of its prefixes: at any time, a call has started before its outcome is there. */
  lemma PrefixIsWellFormed(log: seq<Logged>, n: nat)
    requires WellFormed(log) && n <= |log|
    ensures WellFormed(log[..n])
  {
    forall id
      ensures StartThenOutcome(Project(log[..n], id))
    {
      ProjectPrefix(log, n, id);
      assert StartThenOutcome(Project(log, id));
    }
  }

  lemma {:induction false} ProjectEmpty(log: seq<Logged>, id: nat)
    ensures Project(log, id) == [] <==> forall i :: 0 <= i < |log| ==> log[i].id != id
  {
    if log != [] {
      var front := log[..|log| - 1];
      ProjectEmpty(front, id);
      assert log == front + [log[|log| - 1]];
    }
  }

  lemma OpenCallsAre(log: seq<Logged>, name: Text, id: nat)
    ensures id in OpenCalls(log, name) <==> |Project(log, id)| == 1 && Project(log, id)[0].name == name
  {
    ProjectEmpty(log, id);
  }

  /** A start opens its call, an outcome closes it, and nothing else changes. */
  lemma OpenCallsStep(log: seq<Logged>, name: Text)
    requires WellFormed(log) && log != []
    ensures var last := log[|log| - 1];
      var before, after := OpenCalls(log[..|log| - 1], name), OpenCalls(log, name);
      if last.event.name != name then after == before
      else if last.event.ToolCall? then last.id !in before && after == before + {last.id}
      else last.id !in after && before == after + {last.id}
  {
    var front, last := log[..|log| - 1], log[|log| - 1];
    PrefixIsWellFormed(log, |log| - 1);
    var before, after := OpenCalls(front, name), OpenCalls(log, name);
    assert StartThenOutcome(Project(log, last.id)) && StartThenOutcome(Project(front, last.id));
    forall id: nat
      ensures id != last.id ==> (id in after <==> id in before)
    {
      OpenCallsAre(log, name, id);
      OpenCallsAre(front, name, id);
    }
    OpenCallsAre(log, name, last.id);
    OpenCallsAre(front, name, last.id);
  }

  lemma {:induction false} StartsAreOutcomesPlusOpen(log: seq<Logged>, name: Text)
    requires WellFormed(log)
    ensures Starts(log, name) == Outcomes(log, name) + |OpenCalls(log, name)|
  {
    if log != [] {
      PrefixIsWellFormed(log, |log| - 1);
      StartsAreOutcomesPlusOpen(log[..|log| - 1], name);
      OpenCallsStep(log, name);
    }
  }

  /** In every prefix of the queue a name has no more outcome events than start events. */
  lemma OutcomesNeverExceedStarts(log: seq<Logged>, n: nat, name: Text)
    requires WellFormed(log) && n <= |log|
    ensures Outcomes(log[..n], name) <= Starts(log[..n], name)
  {
    PrefixIsWellFormed(log, n);
    StartsAreOutcomesPlusOpen(log[..n], name);
  }

  // ---------------------------------------------------------------- the toolbox

  /** The events a call has put. */
  function EventsOf(c: CallState): seq<ToolEvent>
  {
    match c
    case Waiting(name, args) => [ToolCall(name, args)]
    case Ended(name, args, outcome) =>
      [ToolCall(name, args)] +
      (match outcome
       case Returns(result) => [ToolResult(name, result)]
       case Raises(error) => [ToolError(name, error)]
       case Killed => [])
  }

  /** The log holds, for each call, exactly what the call has put, in that order. */
  ghost predicate Reports(log: seq<Logged>, calls: map<nat, CallState>, streaming: bool)
  {
    forall id: nat {:trigger Project(log, id)} ::
      Project(log, id) == if streaming && id in calls then EventsOf(calls[id]) else []
  }

  lemma LogAppend(log: seq<Logged>, last: Logged)
    ensures Events(log + [last]) == Events(log) + [last.event]
    ensures forall id :: Project(log + [last], id) == Project(log, id) + if last.id == id then [last.event] else []
  {
    assert (log + [last])[..|log|] == log;
  }

  /** A call that puts one more event. */
  lemma ReportsMore(log: seq<Logged>, calls: map<nat, CallState>, id: nat, event: ToolEvent, after: CallState)
    requires Reports(log, calls, true)
    requires EventsOf(after) == (if id in calls then EventsOf(calls[id]) else []) + [event]
    ensures Reports(log + [Logged(id, event)], calls[id := after], true)
  {
    LogAppend(log, Logged(id, event));
    forall other: nat
      ensures Project(log + [Logged(id, event)], other) ==
        if other in calls[id := after] then EventsOf(calls[id := after][other]) else []
    {
      assert Project(log, other) == if other in calls then EventsOf(calls[other]) else [];
    }
  }

  /** A call that puts none. */
  lemma ReportsSame(log: seq<Logged>, calls: map<nat, CallState>, streaming: bool, id: nat, after: CallState)
    requires Reports(log, calls, streaming)
    requires streaming ==> id in calls && EventsOf(after) == EventsOf(calls[id])
    ensures Reports(log, calls[id := after], streaming)
  {
    forall other: nat
      ensures Project(log, other) ==
        if streaming && other in calls[id := after] then EventsOf(calls[id := after][other]) else []
    {
      assert Project(log, other) == if streaming && other in calls then EventsOf(calls[other]) else [];
    }
  }

  class Toolbox {
    // Whether the request carries a queue; without one a call is just the inner call.
    const streaming: bool
    var queue: seq<ToolEvent>
    var calls: map<nat, CallState>
    ghost var log: seq<Logged>

    constructor (streaming: bool)
      ensures Valid() && this.streaming == streaming && queue == [] && calls == map[]
    {
      this.streaming := streaming;
      queue, calls, log := [], map[], [];
    }

    ghost predicate Valid()
      reads this
    {
      queue == Events(log) && Reports(log, calls, streaming)
    }

    /** `call` up to the inner call. */
    method Begin(id: nat, name: Text, args: Payload)
      requires Valid() && id !in calls
      modifies this
      ensures Valid()
      ensures calls == old(calls)[id := Waiting(name, args)]
      ensures queue == old(queue) + if streaming then [ToolCall(name, args)] else []
    {
      if streaming {
        ReportsMore(log, calls, id, ToolCall(name, args), Waiting(name, args));
        LogAppend(log, Logged(id, ToolCall(name, args)));
        queue := queue + [ToolCall(name, args)];
        log := log + [Logged(id, ToolCall(name, args))];
      } else {
        ReportsSame(log, calls, streaming, id, Waiting(name, args));
      }
      calls := calls[id := Waiting(name, args)];
    }

    /** `call` from the inner call's end on: reports the outcome and passes it on unchanged. */
    method Finish(id: nat, outcome: Inner) returns (reply: Inner)
      requires Valid() && id in calls && calls[id].Waiting?
      modifies this
      ensures Valid()
      ensures reply == outcome
      ensures calls == old(calls)[id := Ended(old(calls)[id].name, old(calls)[id].args, outcome)]
      ensures queue == old(queue) + (
        if !streaming then []
        else match outcome
             case Returns(result) => [ToolResult(old(calls)[id].name, result)]
             case Raises(error) => [ToolError(old(calls)[id].name, error)]
             case Killed => [])
    {
      var name, args := calls[id].name, calls[id].args;
      var after := Ended(name, args, outcome);
      if streaming && !outcome.Killed? {
        var event := if outcome.Raises? then ToolError(name, outcome.error) else ToolResult(name, outcome.result);
        ReportsMore(log, calls, id, event, after);
        LogAppend(log, Logged(id, event));
        queue := queue + [event];
        log := log + [Logged(id, event)];
      } else {
        ReportsSame(log, calls, streaming, id, after);
      }
      calls := calls[id := after];
      reply := outcome;
    }
  }

  /**
    In every state the toolbox can reach: in each prefix of the queue a name has at most as many
    outcomes as starts, and when all calls have ended and none was killed, exactly as many.
  */
  lemma QueueIsBalanced(t: Toolbox, n: nat, name: Text)
    requires t.Valid() && n <= |t.log|
    ensures WellFormed(t.log[..n])
    ensures Outcomes(t.log[..n], name) <= Starts(t.log[..n], name)
    ensures (forall id :: id in t.calls ==> t.calls[id].Ended? && !t.calls[id].outcome.Killed?) ==>
      Outcomes(t.log, name) == Starts(t.log, name)
  {
    forall id: nat
      ensures StartThenOutcome(Project(t.log, id))
    {
    }
    PrefixIsWellFormed(t.log, n);
    OutcomesNeverExceedStarts(t.log, n, name);
    StartsAreOutcomesPlusOpen(t.log, name);
    if forall id :: id in t.calls ==> t.calls[id].Ended? && !t.calls[id].outcome.Killed? {
      forall id: nat
        ensures id !in OpenCalls(t.log, name)
      {
        OpenCallsAre(t.log, name, id);
      }
      assert OpenCalls(t.log, name) == {};
    }
  }
}
