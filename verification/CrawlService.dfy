/**
  The handlers of src/api/v1/crawler/router.py over the tables they share. Each checks the owner,
  then its own conditions, then inserts, updates or deletes. A new job's id is a uuid4 value that no
  job ever had; `fetched` is what the query over the source job's discovered rows returned.
*/
module CrawlService {
  import opened Wrappers
  import opened CrawlModel
  import opened CrawlInvariants
  import opened CrawlRows
  import opened CrawlSystem

  /** A job as inserted: queued, with these columns, and nothing else yet. */
  ghost predicate Inserts(before: map<JobId, Cell>, after: map<JobId, Cell>, id: JobId, spec: JobSpec)
  {
    && after.Keys == before.Keys + {id}
    && after[id].record.job == CrawlModel.Job(spec, Queued, None, None, None, 0, 0)
    && after[id].record.discovered == [] && after[id].record.results == [] && after[id].record.logs == []
    && after[id].removed == 0 && after[id].worker == None
    && OthersSame(before, after, id)
  }

  ghost predicate OthersSame(before: map<JobId, Cell>, after: map<JobId, Cell>, id: JobId)
  {
    forall other :: other in before && other != id ==> other in after && after[other] == before[other]
  }

  ghost predicate OwnedBy(cells: map<JobId, Cell>, user: UserId, id: JobId)
  {
    id in cells && cells[id].record.job.spec.userId == user
  }

  class Service {
    var cells: map<JobId, Cell>
    ghost var lineage: map<JobId, Lineage>

    constructor ()
      ensures State() == EMPTY && Valid()
    {
      cells, lineage := map[], map[];
    }

    ghost function State(): Sys
      reads this
    {
      Sys(cells, lineage)
    }

    ghost predicate Valid()
      reads this
    {
      SysInv(State())
    }

    method CreateCrawl(user: UserId, id: JobId, targetUrl: string, mode: Mode, settings: Settings,
                       filters: Option<string>, now: int)
      returns (reply: Reply)
      requires Valid() && id !in lineage && !mode.Other?
      modifies this
      ensures Valid() && reply == Created(id)
      ensures State() == SysStep(old(State()), Call.CreateCrawl(user, id, targetUrl, mode, settings, filters, now)).0
      ensures id in cells && Fresh(cells[id]) && cells[id].record.job.spec.userId == user
      ensures Inserts(old(cells), cells, id,
                JobSpec(user, targetUrl, mode, settings, filters, None, now, settings.linkExtractionLimit))
    {
      ghost var call := Call.CreateCrawl(user, id, targetUrl, mode, settings, filters, now);
      SysStepKeepsInv(State(), call);
      var spec := JobSpec(user, targetUrl, mode, settings, filters, None, now, settings.linkExtractionLimit);
      cells := cells[id := NewCell(spec)];
      lineage := lineage[id := Lineage(spec, id, spec)];
      reply := Created(id);
    }

    method CancelCrawl(user: UserId, id: JobId, now: int) returns (reply: Reply)
      requires Valid()
      modifies this
      ensures Valid()
      ensures (State(), reply) == SysStep(old(State()), Call.CancelCrawl(user, id, now))
      ensures reply.Job? <==> OwnedBy(old(cells), user, id)
      ensures !reply.Job? ==> reply == NotFound && cells == old(cells)
      ensures reply.Job? ==>
        var job := old(cells)[id].record.job;
        && cells.Keys == old(cells).Keys && OthersSame(old(cells), cells, id)
        && reply.job == cells[id].record.job
        && cells[id] == old(cells)[id].(record := old(cells)[id].record.(job := reply.job))
        && reply.job == if job.status == Queued || job.status == Running
                        then job.(status := Cancelled, finishedAt := Some(now)) else job
    {
      ghost var call := Call.CancelCrawl(user, id, now);
      SysStepKeepsInv(State(), call);
      if id !in cells || cells[id].record.job.spec.userId != user {
        return NotFound;
      }
      var cell := cells[id];
      var job := cell.record.job;
      if job.status == Queued || job.status == Running {
        job := job.(status := Cancelled, finishedAt := Some(now));
      }
      cells := cells[id := cell.(record := cell.record.(job := job))];
      reply := Reply.Job(job);
    }

    method RetryCrawl(user: UserId, source: JobId, id: JobId, now: int) returns (reply: Reply)
      requires Valid() && id !in lineage
      modifies this
      ensures Valid()
      ensures (State(), reply) == SysStep(old(State()), Call.RetryCrawl(user, source, id, now))
      ensures reply == NotFound <==> !OwnedBy(old(cells), user, source)
      ensures reply == Conflict <==>
        && OwnedBy(old(cells), user, source)
        && old(cells)[source].record.job.status in {Queued, Running, Completed}
      ensures reply != NotFound && reply != Conflict ==>
        && reply == Created(id)
        && Inserts(old(cells), cells, id, old(cells)[source].record.job.spec.(createdAt := now))
        && SeedList(cells[id].record.job.spec) == SeedList(old(cells)[source].record.job.spec)
      ensures !reply.Created? ==> State() == old(State())
    {
      ghost var call := Call.RetryCrawl(user, source, id, now);
      SysStepKeepsInv(State(), call);
      if source !in cells || cells[source].record.job.spec.userId != user {
        return NotFound;
      }
      var job := cells[source].record.job;
      if job.status != Failed && job.status != Cancelled {
        return Conflict;
      }
      ghost var line := lineage[source];
      var spec := JobSpec(job.spec.userId, job.spec.targetUrl, job.spec.mode, job.spec.settings, job.spec.filters,
                          job.spec.seedUrls, now, job.spec.urlLimit);
      cells := cells[id := NewCell(spec)];
      lineage := lineage[id := Lineage(spec, line.root, line.rootSpec)];
      reply := Created(id);
    }

    method ScrapeDiscoveredUrls(user: UserId, source: JobId, id: JobId, settings: Settings,
                                fetched: seq<DiscoveredRow>, now: int)
      returns (reply: Reply)
      requires Valid() && id !in lineage
      requires source in cells ==> OrderedFetch(fetched, cells[source].record.discovered)
      modifies this
      ensures Valid()
      ensures (State(), reply) == SysStep(old(State()), Call.ScrapeDiscovered(user, source, id, settings, fetched, now))
      ensures reply == NotFound <==> !OwnedBy(old(cells), user, source)
      ensures reply == BadRequest <==> OwnedBy(old(cells), user, source) && old(cells)[source].record.discovered == []
      ensures reply != NotFound && reply != BadRequest ==>
        var origin := old(cells)[source].record.job.spec;
        var urls := FirstOccurrences(Urls(fetched));
        && reply == Created(id)
        && Inserts(old(cells), cells, id,
             JobSpec(origin.userId, origin.targetUrl, Scraper, settings, None, Some(urls), now, |urls|))
      ensures !reply.Created? ==> State() == old(State())
    {
      ghost var call := Call.ScrapeDiscovered(user, source, id, settings, fetched, now);
      SysStepKeepsInv(State(), call);
      if source !in cells || cells[source].record.job.spec.userId != user {
        return NotFound;
      }
      var urls := FirstOccurrences(Urls(fetched));
      if urls == [] {
        FirstOccurrencesAreOrdered(Urls(fetched));
        assert |Urls(fetched)| == |fetched| == 0 by {
          assert forall url :: url in Urls(fetched) <==> url in urls;
        }
        assert |multiset(cells[source].record.discovered)| == 0;
        return BadRequest;
      }
      var origin := cells[source].record.job.spec;
      var spec := JobSpec(origin.userId, origin.targetUrl, Scraper, settings, None, Some(urls), now, |urls|);
      cells := cells[id := NewCell(spec)];
      lineage := lineage[id := Lineage(spec, id, spec)];
      reply := Created(id);
    }

    method DeleteCrawl(user: UserId, id: JobId) returns (reply: Reply)
      requires Valid()
      requires id in cells ==> cells[id].worker.None?
      modifies this
      ensures Valid()
      ensures (State(), reply) == SysStep(old(State()), Call.DeleteCrawl(user, id))
      ensures lineage == old(lineage)
      ensures reply == NotFound <==> !OwnedBy(old(cells), user, id)
      ensures reply == Conflict <==>
        OwnedBy(old(cells), user, id) && old(cells)[id].record.job.status in {Queued, Running}
      ensures reply != NotFound && reply != Conflict ==> reply == NoContent && cells == old(cells) - {id}
      ensures !reply.NoContent? ==> cells == old(cells)
    {
      ghost var call := Call.DeleteCrawl(user, id);
      SysStepKeepsInv(State(), call);
      if id !in cells || cells[id].record.job.spec.userId != user {
        return NotFound;
      }
      var status := cells[id].record.job.status;
      if status == Queued || status == Running {
        return Conflict;
      }
      cells := cells - {id};
      reply := NoContent;
    }

    method DeleteDiscoveredUrl(user: UserId, id: JobId, rowId: RowId) returns (reply: Reply)
      requires Valid()
      modifies this
      ensures Valid()
      ensures (State(), reply) == SysStep(old(State()), Call.DeleteDiscoveredUrl(user, id, rowId))
      ensures reply == NoContent || reply == NotFound
      ensures cells.Keys == old(cells).Keys && OthersSame(old(cells), cells, id)
      ensures !OwnedBy(old(cells), user, id) ==> reply == NotFound && cells == old(cells)
      ensures OwnedBy(old(cells), user, id) ==>
        && RowDeleted(old(cells)[id].record, rowId, cells[id].record, reply == NoContent)
        && cells[id].worker == old(cells)[id].worker
    {
      ghost var call := Call.DeleteDiscoveredUrl(user, id, rowId);
      SysStepKeepsInv(State(), call);
      if id !in cells || cells[id].record.job.spec.userId != user {
        return NotFound;
      }
      var cell := cells[id];
      var rows := cell.record.discovered;
      var i := IndexOfRow(rows, rowId);
      DeletionAnswers(cell.record, rowId);
      if i == |rows| {
        return NotFound;
      }
      var left := cell.record.(discovered := rows[..i] + rows[i + 1..]);
      assert left == RemoveDiscovered(cell.record, rowId);
      cells := cells[id := cell.(record := left, removed := cell.removed + 1)];
      reply := NoContent;
    }
  }
}
