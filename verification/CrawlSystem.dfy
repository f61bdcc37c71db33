/**
  All crawl jobs and the API handlers over them (src/api/v1/crawler/router.py). A call names its
  user; a job of another user answers 404. Job ids are uuid4 values and never repeat.

  `lineage` remembers every job ever inserted, also deleted ones: its columns, and those of the job
  at the root of the chain of retries that led to it. It is history, not a table.
*/
module CrawlSystem {
  import opened Wrappers
  import opened CrawlModel
  import opened CrawlInvariants

  datatype Lineage = Lineage(spec: JobSpec, root: JobId, rootSpec: JobSpec)

  datatype Sys = Sys(cells: map<JobId, Cell>, lineage: map<JobId, Lineage>)

  datatype Reply = Created(id: JobId) | Job(job: CrawlModel.Job) | NoContent | NotFound | Conflict | BadRequest

  datatype Call =
    | CreateCrawl(user: UserId, id: JobId, targetUrl: string, mode: Mode, settings: Settings,
                  filters: Option<string>, now: int)
    | CancelCrawl(user: UserId, id: JobId, now: int)
    | RetryCrawl(user: UserId, source: JobId, id: JobId, now: int)
    | ScrapeDiscovered(user: UserId, source: JobId, id: JobId, settings: Settings,
                       fetched: seq<DiscoveredRow>, now: int)
    | DeleteCrawl(user: UserId, id: JobId)
    | DeleteDiscoveredUrl(user: UserId, id: JobId, rowId: RowId)
    | Background(id: JobId, event: Event)

  // What a call does to the tables.
  datatype Effect = Nothing | Insert(id: JobId, line: Lineage) | Update(id: JobId, event: Event) | Drop(id: JobId)

  const EMPTY := Sys(map[], map[])

  predicate Owns(s: Sys, user: UserId, id: JobId)
  {
    id in s.cells && s.cells[id].record.job.spec.userId == user
  }

  function NewCell(spec: JobSpec): Cell
  {
    Cell(Record(CrawlModel.Job(spec, Queued, None, None, None, 0, 0), [], [], []), 0, None)
  }

  // ---------------------------------------------------------------- the seed list

  function Urls(rows: seq<DiscoveredRow>): seq<string>
  {
    seq(|rows|, i requires 0 <= i < |rows| => rows[i].url)
  }

  /** `list(dict.fromkeys(urls))`. */
  function FirstOccurrences(urls: seq<string>): seq<string>
  {
    if urls == [] then [] else
      var rest := FirstOccurrences(urls[..|urls| - 1]);
      var url := urls[|urls| - 1];
      if url in rest then rest else rest + [url]
  }

  ghost predicate NoDuplicates(urls: seq<string>)
  {
    forall i, j :: 0 <= i < j < |urls| ==> urls[i] != urls[j]
  }

  /** `k` is where `url` first stands in `urls`. */
  ghost predicate FirstAt(urls: seq<string>, url: string, k: nat)
  {
    k < |urls| && urls[k] == url && forall i :: 0 <= i < k ==> urls[i] != url
  }

  /** The list without duplicates has the same URLs, in the order in which they first occur. */
  lemma {:induction false} FirstOccurrencesAreOrdered(urls: seq<string>)
    ensures var r := FirstOccurrences(urls);
      && NoDuplicates(r)
      && (forall url :: url in r <==> url in urls)
      && (forall i, j, k, l :: 0 <= i < j < |r| && FirstAt(urls, r[i], k) && FirstAt(urls, r[j], l) ==> k < l)
  {
    if urls != [] {
      var n := |urls| - 1;
      var front := urls[..n];
      FirstOccurrencesAreOrdered(front);
      var r := FirstOccurrences(urls);
      assert urls == front + [urls[n]];
      forall i, j, k: nat, l: nat | 0 <= i < j < |r| && FirstAt(urls, r[i], k) && FirstAt(urls, r[j], l)
        ensures k < l
      {
        assert r[i] in front;
        var k' :| 0 <= k' < |front| && front[k'] == r[i];
        assert k < n by { assert urls[k'] == r[i]; }
        assert FirstAt(front, r[i], k);
        if l < n {
          assert FirstAt(front, r[j], l);
          assert urls[l] == r[j] && r[j] in front;
        }
      }
    }
  }

  /** What `ORDER BY discovered_at` may return: the rows in some order that respects the times. */
  ghost predicate OrderedFetch(fetched: seq<DiscoveredRow>, rows: seq<DiscoveredRow>)
  {
    && multiset(fetched) == multiset(rows)
    && forall i, j :: 0 <= i < j < |fetched| ==> fetched[i].discoveredAt <= fetched[j].discoveredAt
  }

  // ---------------------------------------------------------------- transitions

  /** What the world cannot do: reuse an id, fetch out of order, delete a job under a live run. */
  ghost predicate Possible(s: Sys, c: Call)
  {
    match c
    case CreateCrawl(_, id, _, mode, _, _, _) => id !in s.lineage && !mode.Other?
    case RetryCrawl(_, _, id, _) => id !in s.lineage
    case ScrapeDiscovered(_, source, id, _, fetched, _) =>
      id !in s.lineage && (source in s.cells ==> OrderedFetch(fetched, s.cells[source].record.discovered))
    case DeleteCrawl(_, id) => id in s.cells ==> s.cells[id].worker.None?
    case Background(id, event) => id in s.cells && (event.Deliver? || event.Crash? || event.Work?)
    case _ => true
  }

  function Decide(s: Sys, c: Call): (Effect, Reply)
    requires s.cells.Keys <= s.lineage.Keys
  {
    match c
    case CreateCrawl(user, id, targetUrl, mode, settings, filters, now) =>
      var spec := JobSpec(user, targetUrl, mode, settings, filters, None, now, settings.linkExtractionLimit);
      (Insert(id, Lineage(spec, id, spec)), Created(id))
    case CancelCrawl(user, id, now) =>
      if !Owns(s, user, id) then (Nothing, NotFound)
      else (Update(id, Cancel(now)), Reply.Job(CancelRecord(s.cells[id].record, now).job))
    case RetryCrawl(user, source, id, now) =>
      if !Owns(s, user, source) then (Nothing, NotFound)
      else
        var job := s.cells[source].record.job;
        if job.status != Failed && job.status != Cancelled then (Nothing, Conflict)
        else
          var line := s.lineage[source];
          (Insert(id, Lineage(job.spec.(createdAt := now), line.root, line.rootSpec)), Created(id))
    case ScrapeDiscovered(user, source, id, settings, fetched, now) =>
      if !Owns(s, user, source) then (Nothing, NotFound)
      else
        var urls := FirstOccurrences(Urls(fetched));
        if urls == [] then (Nothing, BadRequest)
        else
          var origin := s.cells[source].record.job.spec;
          var spec := JobSpec(origin.userId, origin.targetUrl, Scraper, settings, None, Some(urls), now, |urls|);
          (Insert(id, Lineage(spec, id, spec)), Created(id))
    case DeleteCrawl(user, id) =>
      if !Owns(s, user, id) then (Nothing, NotFound)
      else if Active(s.cells[id].record.job.status) then (Nothing, Conflict)
      else (Drop(id), NoContent)
    case DeleteDiscoveredUrl(user, id, rowId) =>
      if !Owns(s, user, id) || IndexOfRow(s.cells[id].record.discovered, rowId) == |s.cells[id].record.discovered|
      then (Nothing, NotFound)
      else (Update(id, DeleteDiscovered(rowId)), NoContent)
    case Background(id, event) => (Update(id, event), NoContent)
  }

  function Apply(s: Sys, effect: Effect): Sys
    requires (effect.Update? || effect.Drop?) ==> effect.id in s.cells
  {
    match effect
    case Nothing => s
    case Insert(id, line) => Sys(s.cells[id := NewCell(line.spec)], s.lineage[id := line])
    case Update(id, event) => s.(cells := s.cells[id := Step(s.cells[id], event)])
    case Drop(id) => s.(cells := s.cells - {id})
  }

  function SysStep(s: Sys, c: Call): (Sys, Reply)
    requires s.cells.Keys <= s.lineage.Keys
    requires c.Background? ==> c.id in s.cells
  {
    var (effect, reply) := Decide(s, c);
    (Apply(s, effect), reply)
  }

  // ---------------------------------------------------------------- invariants

  ghost predicate SameUpToCreation(a: JobSpec, b: JobSpec) { a.(createdAt := b.createdAt) == b }

  /** A seed list belongs to a scraper job, is duplicate-free and not empty, and as long as the limit says. */
  ghost predicate SoundSeeds(spec: JobSpec)
  {
    spec.seedUrls.Some? ==>
      && spec.mode == Scraper
      && NoDuplicates(spec.seedUrls.value) && spec.seedUrls.value != []
      && spec.urlLimit == |spec.seedUrls.value|
  }

  /** A job has the columns of its root, which is remembered even when its row is gone. */
  ghost predicate SoundLineage(s: Sys, id: JobId)
    requires id in s.lineage
  {
    var line := s.lineage[id];
    && SameUpToCreation(line.spec, line.rootSpec) && SoundSeeds(line.rootSpec)
    && line.root in s.lineage && s.lineage[line.root].spec == line.rootSpec
  }

  ghost predicate SoundCell(s: Sys, id: JobId)
    requires id in s.cells
  {
    id in s.lineage && s.cells[id].record.job.spec == s.lineage[id].spec && Inv(s.cells[id])
  }

  ghost predicate SoundCells(s: Sys)
  {
    forall id {:trigger SoundCell(s, id)} :: id in s.cells ==> SoundCell(s, id)
  }

  ghost predicate SoundLineages(s: Sys)
  {
    forall id {:trigger SoundLineage(s, id)} :: id in s.lineage ==> SoundLineage(s, id)
  }

  ghost predicate SysInv(s: Sys)
  {
    && s.cells.Keys <= s.lineage.Keys
    && SoundCells(s)
    && SoundLineages(s)
  }

  /** History only grows. */
  ghost predicate Extends(t: Sys, s: Sys)
  {
    forall id :: id in s.lineage ==> id in t.lineage && t.lineage[id] == s.lineage[id]
  }

  ghost function After(s: Sys, c: Call): (t: Sys)
    requires SysInv(s) && Possible(s, c)
    ensures SysInv(t) && Extends(t, s)
  {
    SysStepKeepsInv(s, c);
    SysStep(s, c).0
  }

  /** A run: the calls that are possible when their turn comes; the others do not happen. */
  ghost function SysRun(s: Sys, calls: seq<Call>): Sys
    requires SysInv(s)
    decreases calls
  {
    if calls == [] then s
    else if Possible(s, calls[0]) then SysRun(After(s, calls[0]), calls[1..])
    else SysRun(s, calls[1..])
  }

  ghost predicate SoundEffect(s: Sys, effect: Effect)
  {
    match effect
    case Nothing => true
    case Insert(id, line) => id !in s.lineage && SoundLineage(s.(lineage := s.lineage[id := line]), id)
    case Update(id, _) => id in s.cells
    case Drop(id) => id in s.cells
  }

  lemma DecisionsAreSound(s: Sys, c: Call)
    requires SysInv(s) && Possible(s, c)
    ensures SoundEffect(s, Decide(s, c).0)
  {
    if c.ScrapeDiscovered? {
      FirstOccurrencesAreOrdered(Urls(c.fetched));
    } else if c.RetryCrawl? && c.source in s.cells {
      assert SoundCell(s, c.source) && SoundLineage(s, c.source);
    }
  }

  lemma NewCellIsFresh(spec: JobSpec)
    ensures Fresh(NewCell(spec)) && Inv(NewCell(spec))
  {
  }

  lemma ApplyKeepsCell(s: Sys, effect: Effect, id: JobId)
    requires SysInv(s) && SoundEffect(s, effect) && id in Apply(s, effect).cells
    ensures SoundCell(Apply(s, effect), id)
  {
    if effect.Insert? && effect.id == id {
      NewCellIsFresh(effect.line.spec);
    } else {
      assert SoundCell(s, id);
      if effect.Update? && effect.id == id {
        StepKeepsInv(s.cells[id], effect.event);
      }
    }
  }

  lemma ApplyKeepsLineage(s: Sys, effect: Effect, id: JobId)
    requires SysInv(s) && SoundEffect(s, effect) && id in Apply(s, effect).lineage
    ensures SoundLineage(Apply(s, effect), id)
  {
    if id in s.lineage {
      assert SoundLineage(s, id);
    }
  }

  lemma SysStepKeepsInv(s: Sys, c: Call)
    requires SysInv(s) && Possible(s, c)
    ensures SysInv(SysStep(s, c).0) && Extends(SysStep(s, c).0, s)
  {
    DecisionsAreSound(s, c);
    ApplyKeepsInv(s, Decide(s, c).0);
  }

  lemma ApplyKeepsCells(s: Sys, effect: Effect)
    requires SysInv(s) && SoundEffect(s, effect)
    ensures SoundCells(Apply(s, effect))
  {
    var t := Apply(s, effect);
    forall id | id in t.cells
      ensures SoundCell(t, id)
    {
      ApplyKeepsCell(s, effect, id);
    }
  }

  lemma ApplyKeepsLineages(s: Sys, effect: Effect)
    requires SysInv(s) && SoundEffect(s, effect)
    ensures SoundLineages(Apply(s, effect))
  {
    var t := Apply(s, effect);
    forall id | id in t.lineage
      ensures SoundLineage(t, id)
    {
      ApplyKeepsLineage(s, effect, id);
    }
  }

  lemma ApplyKeepsInv(s: Sys, effect: Effect)
    requires SysInv(s) && SoundEffect(s, effect)
    ensures SysInv(Apply(s, effect)) && Extends(Apply(s, effect), s)
  {
    ApplyKeepsCells(s, effect);
    ApplyKeepsLineages(s, effect);
    var t := Apply(s, effect);
    assert t.cells.Keys <= t.lineage.Keys;
  }

  lemma {:induction false} SysRunKeepsInv(s: Sys, calls: seq<Call>)
    requires SysInv(s)
    ensures SysInv(SysRun(s, calls)) && Extends(SysRun(s, calls), s)
    decreases calls
  {
    if calls != [] {
      if Possible(s, calls[0]) {
        SysRunKeepsInv(After(s, calls[0]), calls[1..]);
      } else {
        SysRunKeepsInv(s, calls[1..]);
      }
    }
  }

  // ---------------------------------------------------------------- theorems over all runs

  /** In every reachable state the counters of every existing job agree with its rows. */
  lemma EveryJobIsConserved(calls: seq<Call>, id: JobId)
    requires id in SysRun(EMPTY, calls).cells
    ensures var c := SysRun(EMPTY, calls).cells[id];
      && c.record.job.urlsDiscovered == |c.record.discovered| + c.removed
      && c.record.job.urlsScraped == |c.record.results|
      && c.record.job.urlsScraped ==
         (if ScrapesPages(c.record.job.spec.mode) then c.record.job.urlsDiscovered else 0)
  {
    SysRunKeepsInv(EMPTY, calls);
    assert SoundCell(SysRun(EMPTY, calls), id);
  }

  /** In every reachable state, a call moves the status of a job along the fixed edges only. */
  lemma EveryStatusFollowsEdges(s: Sys, c: Call, id: JobId)
    requires SysInv(s) && Possible(s, c) && id in s.cells && id in SysStep(s, c).0.cells
    ensures StatusEdge(s.cells[id].record.job.status, SysStep(s, c).0.cells[id].record.job.status)
  {
    DecisionsAreSound(s, c);
    var effect := Decide(s, c).0;
    assert SoundCell(s, id);
    if effect.Update? && effect.id == id {
      StatusMovesAlongEdges(s.cells[id], effect.event);
    }
  }

  /** A user's call leaves the jobs of all other users as they are. */
  lemma CallsStayWithTheirOwner(s: Sys, c: Call, id: JobId)
    requires SysInv(s) && Possible(s, c) && !c.Background?
    requires id in s.cells && s.cells[id].record.job.spec.userId != c.user
    ensures id in SysStep(s, c).0.cells && SysStep(s, c).0.cells[id] == s.cells[id]
  {
    DecisionsAreSound(s, c);
  }

  /** A retry of a job of one's own that failed or was cancelled continues its lineage. */
  lemma RetryContinuesLineage(s: Sys, c: Call)
    requires SysInv(s) && c.RetryCrawl? && Possible(s, c)
    ensures var (t, reply) := SysStep(s, c);
      && (reply.Created? <==>
            Owns(s, c.user, c.source) &&
            (s.cells[c.source].record.job.status == Failed || s.cells[c.source].record.job.status == Cancelled))
      && (reply.Created? ==>
            && c.id in t.cells && Fresh(t.cells[c.id])
            && t.lineage[c.id].root == s.lineage[c.source].root
            && SameUpToCreation(t.cells[c.id].record.job.spec, s.cells[c.source].record.job.spec))
      && (!reply.Created? ==> t == s)
  {
    if Owns(s, c.user, c.source) {
      assert SoundCell(s, c.source);
    }
  }

  /** A scrape takes all discovered URLs once each, in first-seen order. */
  lemma ScrapeSeedsAllDiscovered(s: Sys, c: Call)
    requires SysInv(s) && c.ScrapeDiscovered? && Possible(s, c) && SysStep(s, c).1.Created?
    ensures var origin := s.cells[c.source].record;
      var spec := SysStep(s, c).0.lineage[c.id].rootSpec;
      && SysStep(s, c).0.lineage[c.id].root == c.id
      && SeedList(spec) == FirstOccurrences(Urls(c.fetched))
      && (forall url :: url in SeedList(spec) <==> exists row :: row in origin.discovered && row.url == url)
      && spec.userId == origin.job.spec.userId == c.user && spec.targetUrl == origin.job.spec.targetUrl
      && spec.mode == Scraper && spec.settings == c.settings && spec.filters == None
  {
    FirstOccurrencesAreOrdered(Urls(c.fetched));
    UrlsOfFetch(c.fetched, s.cells[c.source].record.discovered);
  }

  /**
    Every job in any chain of retries of a scrape, at any later time, scrapes that same list, for the
    same owner and target, with the same settings; the list has no duplicates and is as long as the limit.
  */
  lemma RetriesScrapeTheSameList(s: Sys, c: Call, later: seq<Call>, id: JobId)
    requires SysInv(s) && c.ScrapeDiscovered? && Possible(s, c) && SysStep(s, c).1.Created?
    requires var u := SysRun(After(s, c), later);
      id in u.cells && id in u.lineage && u.lineage[id].root == c.id
    ensures var origin := s.cells[c.source].record;
      var spec := SysRun(After(s, c), later).cells[id].record.job.spec;
      && SeedList(spec) == FirstOccurrences(Urls(c.fetched))
      && NoDuplicates(SeedList(spec)) && spec.urlLimit == |SeedList(spec)|
      && (forall url :: url in SeedList(spec) <==> exists row :: row in origin.discovered && row.url == url)
      && spec.userId == origin.job.spec.userId == c.user && spec.targetUrl == origin.job.spec.targetUrl
      && spec.mode == Scraper && spec.settings == c.settings && spec.filters == None
  {
    var t := After(s, c);
    var u := SysRun(t, later);
    SysRunKeepsInv(t, later);
    ScrapeSeedsAllDiscovered(s, c);
    assert SoundCell(u, id) && SoundLineage(u, id);
    assert c.id in t.lineage && u.lineage[c.id] == t.lineage[c.id];
  }

  lemma UrlsOfFetch(fetched: seq<DiscoveredRow>, rows: seq<DiscoveredRow>)
    requires OrderedFetch(fetched, rows)
    ensures forall url :: url in Urls(fetched) <==> exists row :: row in rows && row.url == url
  {
    forall url
      ensures url in Urls(fetched) <==> exists row :: row in rows && row.url == url
    {
      if url in Urls(fetched) {
        var i :| 0 <= i < |fetched| && fetched[i].url == url;
        assert fetched[i] in multiset(fetched);
        assert fetched[i] in rows;
      }
      if exists row :: row in rows && row.url == url {
        var row :| row in rows && row.url == url;
        assert row in multiset(rows);
        assert row in fetched;
        var i :| 0 <= i < |fetched| && fetched[i] == row;
        assert Urls(fetched)[i] == url;
      }
    }
  }
}
