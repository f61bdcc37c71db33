/**
  Which rows a run leaves: the committed and pending rows of a job are those it had and those of the
  pages recorded since, in the order of recording, without the ones a crash dropped or the API deleted.
*/
module CrawlRows {
  import opened Wrappers
  import opened CrawlModel
  import opened CrawlInvariants

  // ---------------------------------------------------------------- subsequences

  /** `a` is `b` with elements left out. */
  ghost predicate Subsequence<T>(a: seq<T>, b: seq<T>)
    decreases |b|
  {
    || a == []
    || (b != [] && Subsequence(a, b[..|b| - 1]))
    || (b != [] && a[|a| - 1] == b[|b| - 1] && Subsequence(a[..|a| - 1], b[..|b| - 1]))
  }

  lemma SubsequenceSnoc<T>(a: seq<T>, b: seq<T>, x: T)
    requires Subsequence(a, b)
    ensures Subsequence(a, b + [x]) && Subsequence(a + [x], b + [x])
  {
    assert (b + [x])[..|b|] == b && (a + [x])[..|a|] == a;
  }

  lemma {:induction false} SubsequenceConcat<T>(a: seq<T>, b: seq<T>, t: seq<T>)
    requires Subsequence(a, b)
    ensures Subsequence(a + t, b + t)
    decreases |t|
  {
    if t == [] {
      assert a + t == a && b + t == b;
    } else {
      var front, x := t[..|t| - 1], t[|t| - 1];
      SubsequenceConcat(a, b, front);
      SubsequenceSnoc(a + front, b + front, x);
      assert a + t == a + front + [x] && b + t == b + front + [x];
    }
  }

  lemma {:induction false} SubsequenceSelf<T>(a: seq<T>)
    ensures Subsequence(a, a)
  {
    if a != [] { SubsequenceSelf(a[..|a| - 1]); }
  }

  /** One element less is still a subsequence. */
  lemma {:induction false} SubsequenceCut<T>(a: seq<T>, i: nat, b: seq<T>)
    requires Subsequence(a, b) && i < |a|
    ensures Subsequence(a[..i] + a[i + 1..], b)
    decreases |b|
  {
    var front, bs := a[..|a| - 1], b[..|b| - 1];
    var cut := a[..i] + a[i + 1..];
    if Subsequence(a, bs) {
      SubsequenceCut(a, i, bs);
    } else if i == |a| - 1 {
      assert cut == front;
    } else {
      SubsequenceCut(front, i, bs);
      assert cut[..|cut| - 1] == front[..i] + front[i + 1..];
    }
  }

  lemma {:induction false} SubsequencePrefix<T>(a: seq<T>, n: nat, b: seq<T>)
    requires n <= |a| && Subsequence(a, b)
    ensures Subsequence(a[..n], b)
    decreases |a|
  {
    if n < |a| {
      SubsequenceCut(a, |a| - 1, b);
      var front := a[..|a| - 1];
      assert a[..|a| - 1] + a[|a|..] == front && front[..n] == a[..n];
      SubsequencePrefix(front, n, b);
    } else {
      assert a[..n] == a;
    }
  }

  lemma Concat3<T>(a: seq<T>, b: seq<T>, x: seq<T>)
    ensures a + (b + x) == a + b + x
  {
  }

  // ---------------------------------------------------------------- what a deletion leaves

  /** The primary key. */
  ghost predicate UniqueIds(rows: seq<DiscoveredRow>)
  {
    forall i, j :: 0 <= i < j < |rows| ==> rows[i].id != rows[j].id
  }

  /** The rows with another id, in their order. */
  function Others(rows: seq<DiscoveredRow>, id: RowId): seq<DiscoveredRow>
  {
    if rows == [] then [] else (if rows[0].id == id then [] else [rows[0]]) + Others(rows[1..], id)
  }

  /** Exactly the rows with another id, and all rows if none has this one. */
  lemma {:induction false} OthersAre(rows: seq<DiscoveredRow>, id: RowId)
    ensures forall row :: row in Others(rows, id) <==> row in rows && row.id != id
    ensures (forall row :: row in rows ==> row.id != id) ==> Others(rows, id) == rows
  {
    if rows != [] { OthersAre(rows[1..], id); }
  }

  lemma {:induction false} OthersConcat(a: seq<DiscoveredRow>, b: seq<DiscoveredRow>, id: RowId)
    ensures Others(a + b, id) == Others(a, id) + Others(b, id)
  {
    if a == [] {
      assert a + b == b;
    } else {
      var rest := a[1..];
      assert (a + b)[0] == a[0] && (a + b)[1..] == rest + b;
      OthersConcat(rest, b, id);
      Concat3(if a[0].id == id then [] else [a[0]], Others(rest, id), Others(b, id));
    }
  }

  lemma RowIsFound(rows: seq<DiscoveredRow>, id: RowId)
    ensures IndexOfRow(rows, id) < |rows| <==> exists row :: row in rows && row.id == id
  {
    var i := IndexOfRow(rows, id);
    if i < |rows| { assert rows[i] in rows; }
  }

  lemma Around<T>(s: seq<T>, i: nat)
    requires i < |s|
    ensures s == s[..i] + [s[i]] + s[i + 1..]
  {
  }

  lemma NoneBehind(rows: seq<DiscoveredRow>, i: nat)
    requires UniqueIds(rows) && i < |rows|
    ensures var behind := rows[i + 1..]; forall k :: 0 <= k < |behind| ==> behind[k].id != rows[i].id
  {
  }

  /** With unique ids a deletion takes out the row with the id and leaves all others in their order. */
  lemma DeletionLeavesOthers(rows: seq<DiscoveredRow>, id: RowId)
    requires UniqueIds(rows)
    ensures WithoutRow(rows, id) == Others(rows, id)
  {
    var i := IndexOfRow(rows, id);
    if i < |rows| {
      NoneBehind(rows, i);
      OthersAround(rows[..i], rows[i], rows[i + 1..], id);
      Around(rows, i);
    } else {
      OthersAre(rows, id);
    }
  }

  lemma OthersAround(a: seq<DiscoveredRow>, row: DiscoveredRow, b: seq<DiscoveredRow>, id: RowId)
    requires row.id == id
    requires forall k :: 0 <= k < |a| ==> a[k].id != id
    requires forall k :: 0 <= k < |b| ==> b[k].id != id
    ensures Others(a + [row] + b, id) == a + b
  {
    OthersConcat(a + [row], b, id);
    OthersConcat(a, [row], id);
    OthersAre(a, id);
    OthersAre(b, id);
    assert [row][1..] == [];
    assert Others([row], id) == [];
    assert a + [] == a;
  }

  /**
    What a deletion by id leaves of a job: with unique ids exactly the rows with another id, in their
    order, and everything else as it was; without such a row nothing changes.
  */
  ghost predicate RowDeleted(before: Record, id: RowId, after: Record, found: bool)
  {
    && (found <==> exists row :: row in before.discovered && row.id == id)
    && after == before.(discovered := after.discovered)
    && (if found then |after.discovered| == |before.discovered| - 1 else after == before)
    && (UniqueIds(before.discovered) ==>
          && after.discovered == Others(before.discovered, id)
          && forall row :: row in after.discovered <==> row in before.discovered && row.id != id)
  }

  lemma DeletionAnswers(r: Record, id: RowId)
    ensures RowDeleted(r, id, RemoveDiscovered(r, id), IndexOfRow(r.discovered, id) < |r.discovered|)
  {
    RowIsFound(r.discovered, id);
    OthersAre(r.discovered, id);
    if UniqueIds(r.discovered) { DeletionLeavesOthers(r.discovered, id); }
  }

  /** What a deletion does to a job: one row less if there is one with the id, and nothing else. */
  lemma DeletionStep(c: Cell, id: RowId)
    ensures var i := IndexOfRow(c.record.discovered, id);
      Step(c, DeleteDiscovered(id)) ==
        if i == |c.record.discovered| then c
        else c.(record := RemoveDiscovered(c.record, id), removed := c.removed + 1)
  {
  }

  // ---------------------------------------------------------------- what a run records

  /** The page that a step of the run `w` records. */
  function PageOf(w: Option<Worker>, e: Event): seq<Item>
  {
    if e.Work? && w.Some? && w.value.pc.Recording? && w.value.pc.item.Page? then [w.value.pc.item] else []
  }

  function RowOf(w: Option<Worker>, e: Event): seq<DiscoveredRow>
  {
    if PageOf(w, e) == [] then [] else [DiscoveredRow(e.draw.discovered, w.value.pc.item.url, e.now)]
  }

  function ResultOf(w: Option<Worker>, e: Event): seq<ResultRow>
  {
    if PageOf(w, e) == [] || !ScrapesPages(w.value.session.job.spec.mode) then []
    else
      var item, settings := w.value.pc.item, w.value.session.job.spec.settings;
      [ResultRow(e.draw.result, item.url, item.body, settings.outputFormat, e.draw.extractedAt)]
  }

  /** The pages recorded over a run, and the rows inserted for them. */
  function Pages(c: Cell, es: seq<Event>): seq<Item>
  {
    if es == [] then [] else Pages(c, es[..|es| - 1]) + PageOf(Run(c, es[..|es| - 1]).worker, es[|es| - 1])
  }

  function Inserted(c: Cell, es: seq<Event>): seq<DiscoveredRow>
  {
    if es == [] then [] else Inserted(c, es[..|es| - 1]) + RowOf(Run(c, es[..|es| - 1]).worker, es[|es| - 1])
  }

  function InsertedResults(c: Cell, es: seq<Event>): seq<ResultRow>
  {
    if es == [] then [] else InsertedResults(c, es[..|es| - 1]) + ResultOf(Run(c, es[..|es| - 1]).worker, es[|es| - 1])
  }

  lemma Snoc(c: Cell, es: seq<Event>, e: Event)
    ensures var w := Run(c, es).worker;
      && Pages(c, es + [e]) == Pages(c, es) + PageOf(w, e)
      && Inserted(c, es + [e]) == Inserted(c, es) + RowOf(w, e)
      && InsertedResults(c, es + [e]) == InsertedResults(c, es) + ResultOf(w, e)
  {
    assert (es + [e])[..|es|] == es;
  }

  /** The rows of a job, pending ones included. */
  function Rows(c: Cell): seq<DiscoveredRow>
  {
    c.record.discovered + if c.worker.Some? then c.worker.value.session.discovered else []
  }

  function Results(c: Cell): seq<ResultRow>
  {
    c.record.results + if c.worker.Some? then c.worker.value.session.results else []
  }

  /** A step adds the rows of the page it records, and only a crash or a deletion takes rows away. */
  lemma StepRows(c: Cell, e: Event)
    requires !e.Crash? && !e.DeleteDiscovered?
    ensures Rows(Step(c, e)) == Rows(c) + RowOf(c.worker, e)
    ensures Results(Step(c, e)) == Results(c) + ResultOf(c.worker, e)
    ensures Step(c, e).removed == c.removed
  {
    if e.Work? && c.worker.Some? && !Local(c.worker.value.pc) && !c.worker.value.pc.LastLog? {
      CommitStep(c, e.now, e.draw, e.outcome);
    }
  }

  /** A page past its check adds one row, with its URL, id and time, and where pages are scraped one result. */
  lemma RecordingAddsRows(c: Cell, e: Event)
    requires Inv(c) && e.Work? && c.worker.Some? && c.worker.value.pc.Recording? && c.worker.value.pc.item.Page?
    ensures var item, spec := c.worker.value.pc.item, c.record.job.spec;
      && Rows(Step(c, e)) == Rows(c) + [DiscoveredRow(e.draw.discovered, item.url, e.now)]
      && Results(Step(c, e)) == Results(c) + (
           if spec.mode != Crawler && spec.mode != Scraper then []
           else [ResultRow(e.draw.result, item.url, item.body, spec.settings.outputFormat, e.draw.extractedAt)])
  {
    StepRows(c, e);
  }

  lemma DeletionRows(c: Cell, id: RowId)
    ensures var d := Step(c, DeleteDiscovered(id));
      && Results(d) == Results(c)
      && |Rows(d)| + d.removed == |Rows(c)| + c.removed
      && (Rows(d) == Rows(c) || exists i :: 0 <= i < |Rows(c)| && Rows(d) == Rows(c)[..i] + Rows(c)[i + 1..])
  {
    var rows := c.record.discovered;
    var i := IndexOfRow(rows, id);
    if i < |rows| {
      var d := Step(c, DeleteDiscovered(id));
      assert Rows(d) == Rows(c)[..i] + Rows(c)[i + 1..];
    }
  }

  lemma CrashRows(c: Cell)
    ensures Rows(Step(c, Crash)) <= Rows(c) && Results(Step(c, Crash)) <= Results(c)
  {
  }

  lemma StepKeepsSubsequence(c: Cell, e: Event, all: seq<DiscoveredRow>)
    requires Subsequence(Rows(c), all) && (e.Crash? || e.DeleteDiscovered?)
    ensures Subsequence(Rows(Step(c, e)), all)
  {
    var rows, left := Rows(c), Rows(Step(c, e));
    if e.Crash? {
      CrashRows(c);
      SubsequencePrefix(rows, |left|, all);
      assert left == rows[..|left|];
    } else {
      DeletionRows(c, e.id);
      if left != rows {
        var i :| 0 <= i < |rows| && left == rows[..i] + rows[i + 1..];
        SubsequenceCut(rows, i, all);
      }
    }
  }

  /** The rows after one more event are still among those had and inserted. */
  lemma StepKeepsRows(c: Cell, e: Event, all: seq<DiscoveredRow>)
    requires Subsequence(Rows(c), all)
    ensures Subsequence(Rows(Step(c, e)), all + RowOf(c.worker, e))
  {
    if e.Crash? || e.DeleteDiscovered? {
      StepKeepsSubsequence(c, e, all);
      assert all + [] == all;
    } else {
      StepRows(c, e);
      SubsequenceConcat(Rows(c), all, RowOf(c.worker, e));
    }
  }

  /** Over every run, crashes included: the rows are among those had before and those inserted, in order. */
  lemma {:induction false} RunKeepsRows(c: Cell, es: seq<Event>)
    ensures Subsequence(Rows(Run(c, es)), Rows(c) + Inserted(c, es))
    decreases |es|
  {
    if es == [] {
      SubsequenceSelf(Rows(c));
      assert Rows(c) + [] == Rows(c);
    } else {
      var front, e := es[..|es| - 1], es[|es| - 1];
      RunKeepsRows(c, front);
      assert es == front + [e];
      RunSnoc(c, front, e);
      Snoc(c, front, e);
      StepKeepsRows(Run(c, front), e, Rows(c) + Inserted(c, front));
      Concat3(Rows(c), Inserted(c, front), RowOf(Run(c, front).worker, e));
    }
  }

  lemma StepCounts(c: Cell, e: Event)
    requires !e.Crash?
    ensures |Rows(Step(c, e))| + Step(c, e).removed == |Rows(c)| + c.removed + |RowOf(c.worker, e)|
    ensures Results(Step(c, e)) == Results(c) + ResultOf(c.worker, e)
  {
    if e.DeleteDiscovered? { DeletionRows(c, e.id); } else { StepRows(c, e); }
  }

  /** Without a crash nothing recorded is lost: all results stay, and all rows but the deleted ones. */
  lemma {:induction false} UncrashedRunKeepsAll(c: Cell, es: seq<Event>)
    requires NoCrash(es)
    ensures Results(Run(c, es)) == Results(c) + InsertedResults(c, es)
    ensures |Rows(Run(c, es))| + Run(c, es).removed == |Rows(c)| + c.removed + |Inserted(c, es)|
    decreases |es|
  {
    if es == [] {
      assert Results(c) + [] == Results(c);
    } else {
      var front, e := es[..|es| - 1], es[|es| - 1];
      UncrashedRunKeepsAll(c, front);
      assert es == front + [e];
      RunSnoc(c, front, e);
      Snoc(c, front, e);
      StepCounts(Run(c, front), e);
      Concat3(Results(c), InsertedResults(c, front), ResultOf(Run(c, front).worker, e));
    }
  }

  /** One row for each page, with its URL. */
  ghost predicate RowsOfPages(rows: seq<DiscoveredRow>, pages: seq<Item>)
  {
    |rows| == |pages| && forall i :: 0 <= i < |pages| ==> pages[i].Page? && rows[i].url == pages[i].url
  }

  ghost predicate ResultsOfPages(results: seq<ResultRow>, pages: seq<Item>)
  {
    && |results| == |pages|
    && forall i :: 0 <= i < |pages| ==>
         pages[i].Page? && results[i].url == pages[i].url && results[i].body == pages[i].body
  }

  /** The rows inserted over a run are those of the pages it recorded, with a result each where pages are scraped. */
  lemma {:induction false} InsertedArePages(c: Cell, es: seq<Event>)
    requires Inv(c)
    ensures RowsOfPages(Inserted(c, es), Pages(c, es))
    ensures if ScrapesPages(c.record.job.spec.mode) then ResultsOfPages(InsertedResults(c, es), Pages(c, es))
            else InsertedResults(c, es) == []
    decreases |es|
  {
    if es != [] {
      var front, e := es[..|es| - 1], es[|es| - 1];
      InsertedArePages(c, front);
      RunKeepsInv(c, front);
      assert es == front + [e];
      Snoc(c, front, e);
      var d := Run(c, front);
      StepInsertsPage(d, e);
      RowsOfPagesConcat(Inserted(c, front), Pages(c, front), RowOf(d.worker, e), PageOf(d.worker, e));
      if ScrapesPages(c.record.job.spec.mode) {
        ResultsOfPagesConcat(InsertedResults(c, front), Pages(c, front), ResultOf(d.worker, e), PageOf(d.worker, e));
      }
    }
  }

  lemma RowsOfPagesConcat(rows: seq<DiscoveredRow>, pages: seq<Item>, row: seq<DiscoveredRow>, page: seq<Item>)
    requires RowsOfPages(rows, pages) && RowsOfPages(row, page)
    ensures RowsOfPages(rows + row, pages + page)
  {
  }

  lemma ResultsOfPagesConcat(results: seq<ResultRow>, pages: seq<Item>, result: seq<ResultRow>, page: seq<Item>)
    requires ResultsOfPages(results, pages) && ResultsOfPages(result, page)
    ensures ResultsOfPages(results + result, pages + page)
  {
  }

  lemma StepInsertsPage(c: Cell, e: Event)
    requires Inv(c)
    ensures RowsOfPages(RowOf(c.worker, e), PageOf(c.worker, e))
    ensures if ScrapesPages(c.record.job.spec.mode) then ResultsOfPages(ResultOf(c.worker, e), PageOf(c.worker, e))
            else ResultOf(c.worker, e) == []
  {
  }
}
