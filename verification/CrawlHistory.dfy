/**
  The two histograms of get_crawl (src/api/v1/crawler/router.py): pages scraped per second, and the
  running count of URLs discovered. Both count timestamps in milliseconds by whole seconds; `/` is
  floor division here as there, the divisor being positive.
*/
module CrawlHistory {
  import opened CrawlModel
  import opened CrawlInvariants

  datatype Point = Point(t: int, count: nat)

  // ---------------------------------------------------------------- direct counting

  function Second(ms: int): int { ms / 1000 }

  /** How many of the times fall into the given second. */
  function CountIn(times: seq<int>, second: int): nat
  {
    if times == [] then 0
    else CountIn(times[..|times| - 1], second) + (if Second(times[|times| - 1]) == second then 1 else 0)
  }

  /** How many of the times fall into the given second or an earlier one. */
  function CountUpTo(times: seq<int>, second: int): nat
  {
    if times == [] then 0
    else CountUpTo(times[..|times| - 1], second) + (if Second(times[|times| - 1]) <= second then 1 else 0)
  }

  /** The positions of the times from `from` on and before `to`. */
  ghost function Between(times: seq<int>, from: int, to: int): set<nat>
  {
    set k: nat | k < |times| && from <= times[k] < to
  }

  ghost function Before(times: seq<int>, to: int): set<nat>
  {
    set k: nat | k < |times| && times[k] < to
  }

  /** The count of a second is the number of times in its thousand milliseconds. */
  lemma {:induction false} CountInIs(times: seq<int>, second: int)
    ensures CountIn(times, second) == |Between(times, second * 1000, second * 1000 + 1000)|
  {
    if times != [] {
      var n := |times| - 1;
      var front, before := times[..n], Between(times[..n], second * 1000, second * 1000 + 1000);
      CountInIs(front, second);
      if second * 1000 <= times[n] < second * 1000 + 1000 {
        assert Between(times, second * 1000, second * 1000 + 1000) == before + {n};
      } else {
        assert Between(times, second * 1000, second * 1000 + 1000) == before;
      }
    }
  }

  /** The running count is the number of times before the end of the second. */
  lemma {:induction false} CountUpToIs(times: seq<int>, second: int)
    ensures CountUpTo(times, second) == |Before(times, second * 1000 + 1000)|
  {
    if times != [] {
      var n := |times| - 1;
      var front, before := times[..n], Before(times[..n], second * 1000 + 1000);
      CountUpToIs(front, second);
      if times[n] < second * 1000 + 1000 {
        assert Before(times, second * 1000 + 1000) == before + {n};
      } else {
        assert Before(times, second * 1000 + 1000) == before;
      }
    }
  }

  function Total(points: seq<Point>): nat
  {
    if points == [] then 0 else Total(points[..|points| - 1]) + points[|points| - 1].count
  }

  ghost predicate Increasing(s: seq<int>)
  {
    forall i, j :: 0 <= i < j < |s| ==> s[i] < s[j]
  }

  /** The buckets hold exactly the seconds that occur, each with its count. */
  ghost predicate Counts(buckets: map<int, nat>, times: seq<int>)
  {
    && (forall second :: second in buckets ==> buckets[second] == CountIn(times, second) > 0)
    && (forall k :: 0 <= k < |times| ==> Second(times[k]) in buckets)
  }

  /** The points are strictly increasing multiples of 1000. */
  ghost predicate OnSeconds(points: seq<Point>)
  {
    && (forall i :: 0 <= i < |points| ==> points[i].t % 1000 == 0)
    && (forall i, j :: 0 <= i < j < |points| ==> points[i].t < points[j].t)
  }

  ghost predicate HasPoint(points: seq<Point>, time: int)
  {
    exists i :: 0 <= i < |points| && Second(points[i].t) == Second(time)
  }

  /** Every second that occurs has a point. */
  ghost predicate Covers(points: seq<Point>, times: seq<int>)
  {
    forall k :: 0 <= k < |times| ==> HasPoint(points, times[k])
  }

  lemma {:induction false} NoneIn(times: seq<int>, second: int)
    requires forall k :: 0 <= k < |times| ==> Second(times[k]) != second
    ensures CountIn(times, second) == 0
  {
    if times != [] { NoneIn(times[..|times| - 1], second); }
  }

  /** Between two neighbouring seconds that occur, the running count grows by the later one's count. */
  lemma {:induction false} CountUpToNext(times: seq<int>, earlier: int, later: int)
    requires earlier < later
    requires forall k :: 0 <= k < |times| ==> Second(times[k]) <= earlier || Second(times[k]) >= later
    ensures CountUpTo(times, later) == CountUpTo(times, earlier) + CountIn(times, later)
  {
    if times != [] { CountUpToNext(times[..|times| - 1], earlier, later); }
  }

  /** Up to the first second that occurs, the running count is that second's count. */
  lemma {:induction false} CountUpToFirst(times: seq<int>, first: int)
    requires forall k :: 0 <= k < |times| ==> Second(times[k]) >= first
    ensures CountUpTo(times, first) == CountIn(times, first)
  {
    if times != [] { CountUpToFirst(times[..|times| - 1], first); }
  }

  /** From the last second that occurs on, the running count is the number of times. */
  lemma {:induction false} CountUpToLast(times: seq<int>, last: int)
    requires forall k :: 0 <= k < |times| ==> Second(times[k]) <= last
    ensures CountUpTo(times, last) == |times|
  {
    if times != [] { CountUpToLast(times[..|times| - 1], last); }
  }

  // ---------------------------------------------------------------- the loops

  /** `buckets[second] = buckets.get(second, 0) + 1` over all times. */
  method Bucket(times: seq<int>) returns (buckets: map<int, nat>)
    ensures Counts(buckets, times)
  {
    buckets := map[];
    for i := 0 to |times|
      invariant Counts(buckets, times[..i])
    {
      var second := Second(times[i]);
      var seen := if second in buckets then buckets[second] else 0;
      assert times[..i + 1][..i] == times[..i];
      if second !in buckets {
        NoneIn(times[..i], second);
      }
      buckets := buckets[second := seen + 1];
    }
    assert times[..|times|] == times;
  }

  lemma HasElement(s: set<int>)
    requires s != {}
    ensures exists x :: x in s
  {
    assert (forall x :: x !in s) ==> s == {};
  }

  lemma {:induction false} LeastExists(s: set<int>)
    requires s != {}
    ensures exists m :: m in s && forall x :: x in s ==> m <= x
  {
    HasElement(s);
    var y :| y in s;
    if s != {y} {
      var rest := s - {y};
      assert s == rest + {y};
      LeastExists(rest);
      var m :| m in rest && forall x :: x in rest ==> m <= x;
      var least := if m < y then m else y;
      assert least in s && forall x :: x in s ==> least <= x;
    }
  }

  /** `sorted` on the keys of a dictionary. */
  function Sorted(s: set<int>): (r: seq<int>)
    ensures Increasing(r)
    ensures forall x :: x in r <==> x in s
    decreases s
  {
    if s == {} then [] else
      LeastExists(s);
      var least :| least in s && forall x :: x in s ==> least <= x;
      [least] + Sorted(s - {least})
  }

  /** One point per second, at its beginning. */
  ghost predicate AtSeconds(points: seq<Point>, seconds: seq<int>)
  {
    |points| == |seconds| && forall k :: 0 <= k < |points| ==> points[k].t == seconds[k] * 1000
  }

  lemma SecondOfPoint(second: int)
    ensures Second(second * 1000) == second && (second * 1000) % 1000 == 0
  {
  }

  lemma PointsStandAtSeconds(points: seq<Point>, seconds: seq<int>, times: seq<int>)
    requires AtSeconds(points, seconds) && Increasing(seconds)
    requires forall k :: 0 <= k < |times| ==> Second(times[k]) in seconds
    ensures OnSeconds(points) && Covers(points, times)
    ensures forall k :: 0 <= k < |points| ==> Second(points[k].t) == seconds[k]
  {
    forall k | 0 <= k < |points|
      ensures Second(points[k].t) == seconds[k] && points[k].t % 1000 == 0
    {
      SecondOfPoint(seconds[k]);
    }
    forall k | 0 <= k < |times|
      ensures HasPoint(points, times[k])
    {
      var i :| 0 <= i < |seconds| && seconds[i] == Second(times[k]);
      assert Second(points[i].t) == Second(times[k]);
    }
  }

  /** One point for each second, with the count of its bucket. */
  method BucketPoints(seconds: seq<int>, buckets: map<int, nat>) returns (points: seq<Point>)
    requires forall k :: 0 <= k < |seconds| ==> seconds[k] in buckets
    ensures AtSeconds(points, seconds)
    ensures forall k :: 0 <= k < |points| ==> points[k].count == buckets[seconds[k]]
  {
    points := [];
    for i := 0 to |seconds|
      invariant |points| == i
      invariant forall k :: 0 <= k < i ==> points[k].t == seconds[k] * 1000
      invariant forall k :: 0 <= k < i ==> points[k].count == buckets[seconds[k]]
    {
      points := points + [Point(seconds[i] * 1000, buckets[seconds[i]])];
    }
  }

  /** A point counts its bucket on top of the point before it. */
  ghost predicate AddsUp(points: seq<Point>, seconds: seq<int>, buckets: map<int, nat>, k: nat)
    requires k < |points| && k < |seconds| && seconds[k] in buckets
  {
    points[k].count == (if k == 0 then 0 else points[k - 1].count) + buckets[seconds[k]]
  }

  /** One point for each second, with the buckets added up so far. */
  method CumulativePoints(seconds: seq<int>, buckets: map<int, nat>) returns (points: seq<Point>)
    requires forall k :: 0 <= k < |seconds| ==> seconds[k] in buckets
    ensures AtSeconds(points, seconds)
    ensures forall k :: 0 <= k < |points| ==> AddsUp(points, seconds, buckets, k)
  {
    points := [];
    var cumulative := 0;
    for i := 0 to |seconds|
      invariant |points| == i
      invariant forall k :: 0 <= k < i ==> points[k].t == seconds[k] * 1000
      invariant forall k :: 0 <= k < i ==> AddsUp(points, seconds, buckets, k)
      invariant cumulative == if i == 0 then 0 else points[i - 1].count
    {
      cumulative := cumulative + buckets[seconds[i]];
      ghost var before := points;
      points := points + [Point(seconds[i] * 1000, cumulative)];
      forall k | 0 <= k <= i
        ensures AddsUp(points, seconds, buckets, k)
      {
        assert k < i ==> AddsUp(before, seconds, buckets, k);
      }
    }
  }

  /** Each point has the number of times in its second. */
  ghost predicate CountsEach(points: seq<Point>, times: seq<int>)
  {
    forall i :: 0 <= i < |points| ==> points[i].count == |Between(times, points[i].t, points[i].t + 1000)|
  }

  /** Each point has the number of times up to the end of its second. */
  ghost predicate CountsAllBefore(points: seq<Point>, times: seq<int>)
  {
    forall i :: 0 <= i < |points| ==> points[i].count == |Before(times, points[i].t + 1000)|
  }

  lemma PointsCount(points: seq<Point>, times: seq<int>)
    requires OnSeconds(points)
    requires forall i :: 0 <= i < |points| ==> points[i].count == CountIn(times, Second(points[i].t))
    ensures CountsEach(points, times)
  {
    forall i | 0 <= i < |points|
      ensures points[i].count == |Between(times, points[i].t, points[i].t + 1000)|
    {
      CountInIs(times, Second(points[i].t));
      assert Second(points[i].t) * 1000 == points[i].t;
    }
  }

  lemma RunningPointsCount(points: seq<Point>, times: seq<int>)
    requires OnSeconds(points)
    requires forall i :: 0 <= i < |points| ==> points[i].count == CountUpTo(times, Second(points[i].t))
    ensures CountsAllBefore(points, times)
  {
    forall i | 0 <= i < |points|
      ensures points[i].count == |Before(times, points[i].t + 1000)|
    {
      CountUpToIs(times, Second(points[i].t));
      assert Second(points[i].t) * 1000 == points[i].t;
    }
  }

  method ThroughputHistory(times: seq<int>) returns (points: seq<Point>)
    ensures OnSeconds(points) && Covers(points, times)
    ensures forall i :: 0 <= i < |points| ==> points[i].count == CountIn(times, Second(points[i].t)) > 0
    ensures CountsEach(points, times)
  {
    var buckets := Bucket(times);
    var seconds := Sorted(buckets.Keys);
    assert forall k :: 0 <= k < |seconds| ==> seconds[k] in seconds;
    points := BucketPoints(seconds, buckets);
    PointsStandAtSeconds(points, seconds, times);
    PointsCount(points, times);
  }

  lemma DiscoveryHolds(points: seq<Point>, seconds: seq<int>, buckets: map<int, nat>, times: seq<int>)
    requires AtSeconds(points, seconds) && Increasing(seconds) && Counts(buckets, times)
    requires forall k :: 0 <= k < |seconds| ==> seconds[k] in buckets
    requires forall k :: 0 <= k < |times| ==> Second(times[k]) in seconds
    requires forall k :: 0 <= k < |points| ==> AddsUp(points, seconds, buckets, k)
    ensures OnSeconds(points) && Covers(points, times)
    ensures forall i :: 0 <= i < |points| ==> points[i].count == CountUpTo(times, Second(points[i].t))
    ensures CountsAllBefore(points, times)
    ensures points != [] ==> points[|points| - 1].count == |times|
    ensures points == [] <==> times == []
  {
    PointsCountUpTo(points, seconds, buckets, times);
    DiscoveryEnds(points, seconds, times);
    RunningPointsCount(points, times);
  }

  method DiscoveryHistory(times: seq<int>) returns (points: seq<Point>)
    ensures OnSeconds(points) && Covers(points, times)
    ensures forall i :: 0 <= i < |points| ==> points[i].count == CountUpTo(times, Second(points[i].t))
    ensures CountsAllBefore(points, times)
    ensures points != [] ==> points[|points| - 1].count == |times|
    ensures points == [] <==> times == []
  {
    var buckets := Bucket(times);
    var seconds := Sorted(buckets.Keys);
    assert forall k :: 0 <= k < |seconds| ==> seconds[k] in seconds;
    points := CumulativePoints(seconds, buckets);
    DiscoveryHolds(points, seconds, buckets, times);
  }

  /** The sums of the buckets are the running counts. */
  lemma PointsCountUpTo(points: seq<Point>, seconds: seq<int>, buckets: map<int, nat>, times: seq<int>)
    requires AtSeconds(points, seconds) && Increasing(seconds) && Counts(buckets, times)
    requires forall k :: 0 <= k < |seconds| ==> seconds[k] in buckets
    requires forall k :: 0 <= k < |times| ==> Second(times[k]) in seconds
    requires forall k :: 0 <= k < |points| ==> AddsUp(points, seconds, buckets, k)
    ensures forall k :: 0 <= k < |points| ==> points[k].count == CountUpTo(times, seconds[k])
  {
    for i := 0 to |points|
      invariant forall k :: 0 <= k < i ==> points[k].count == CountUpTo(times, seconds[k])
    {
      assert AddsUp(points, seconds, buckets, i);
      SecondsInOrder(times, seconds, i);
    }
  }

  lemma DiscoveryEnds(points: seq<Point>, seconds: seq<int>, times: seq<int>)
    requires AtSeconds(points, seconds) && Increasing(seconds)
    requires forall k :: 0 <= k < |points| ==> points[k].count == CountUpTo(times, seconds[k])
    requires forall k :: 0 <= k < |times| ==> Second(times[k]) in seconds
    ensures OnSeconds(points) && Covers(points, times)
    ensures forall k :: 0 <= k < |points| ==> points[k].count == CountUpTo(times, Second(points[k].t))
    ensures points != [] ==> points[|points| - 1].count == |times|
    ensures points == [] ==> times == []
  {
    PointsStandAtSeconds(points, seconds, times);
    if seconds != [] {
      SecondsAreBounded(times, seconds);
      CountUpToLast(times, seconds[|seconds| - 1]);
    }
    assert times != [] ==> HasPoint(points, times[0]);
  }

  /** Adding the count of the next second gives the running count up to it. */
  lemma SecondsInOrder(times: seq<int>, seconds: seq<int>, i: nat)
    requires i < |seconds| && Increasing(seconds)
    requires forall k :: 0 <= k < |times| ==> Second(times[k]) in seconds
    ensures CountUpTo(times, seconds[i]) ==
      (if i == 0 then 0 else CountUpTo(times, seconds[i - 1])) + CountIn(times, seconds[i])
  {
    forall k | 0 <= k < |times|
      ensures Second(times[k]) >= seconds[i] || (i > 0 && Second(times[k]) <= seconds[i - 1])
    {
      var p :| 0 <= p < |seconds| && seconds[p] == Second(times[k]);
    }
    if i == 0 {
      CountUpToFirst(times, seconds[0]);
    } else {
      CountUpToNext(times, seconds[i - 1], seconds[i]);
    }
  }

  lemma SecondsAreBounded(times: seq<int>, seconds: seq<int>)
    requires seconds != [] && Increasing(seconds)
    requires forall k :: 0 <= k < |times| ==> Second(times[k]) in seconds
    ensures forall k :: 0 <= k < |times| ==> Second(times[k]) <= seconds[|seconds| - 1]
  {
    forall k | 0 <= k < |times|
      ensures Second(times[k]) <= seconds[|seconds| - 1]
    {
      var p :| 0 <= p < |seconds| && seconds[p] == Second(times[k]);
    }
  }

  // ---------------------------------------------------------------- totals

  /** A point per second that occurs, each with its count, adds up to the number of times. */
  lemma {:induction false} TotalUpTo(points: seq<Point>, times: seq<int>, i: nat)
    requires i < |points|
    requires OnSeconds(points) && Covers(points, times)
    requires forall k :: 0 <= k < |points| ==> points[k].count == CountIn(times, Second(points[k].t))
    ensures Total(points[..i + 1]) == CountUpTo(times, Second(points[i].t))
  {
    assert points[..i + 1][..i] == points[..i];
    PointsInOrder(points, times, i);
    if i > 0 {
      TotalUpTo(points, times, i - 1);
    } else {
      assert points[..0] == [];
    }
  }

  lemma PointsInOrder(points: seq<Point>, times: seq<int>, i: nat)
    requires i < |points| && OnSeconds(points) && Covers(points, times)
    ensures CountUpTo(times, Second(points[i].t)) ==
      (if i == 0 then 0 else CountUpTo(times, Second(points[i - 1].t))) + CountIn(times, Second(points[i].t))
  {
    var seconds := SecondsOf(points);
    forall k | 0 <= k < |times|
      ensures Second(times[k]) in seconds
    {
      var p :| 0 <= p < |points| && Second(points[p].t) == Second(times[k]);
      assert seconds[p] == Second(times[k]);
    }
    SecondsInOrder(times, seconds, i);
  }

  function SecondsOf(points: seq<Point>): (seconds: seq<int>)
    ensures |seconds| == |points|
    ensures forall k :: 0 <= k < |points| ==> seconds[k] == Second(points[k].t)
  {
    seq(|points|, k requires 0 <= k < |points| => Second(points[k].t))
  }

  lemma TotalIsLength(points: seq<Point>, times: seq<int>)
    requires OnSeconds(points) && Covers(points, times)
    requires forall k :: 0 <= k < |points| ==> points[k].count == CountIn(times, Second(points[k].t))
    ensures Total(points) == |times|
  {
    if points != [] {
      var last := |points| - 1;
      TotalUpTo(points, times, last);
      assert points[..last + 1] == points;
      forall k | 0 <= k < |times|
        ensures Second(times[k]) <= Second(points[last].t)
      {
        var p :| 0 <= p < |points| && Second(points[p].t) == Second(times[k]);
      }
      CountUpToLast(times, Second(points[last].t));
    }
    assert times != [] ==> HasPoint(points, times[0]);
  }

  function ExtractedTimes(r: Record): seq<int>
  {
    seq(|r.results|, i requires 0 <= i < |r.results| => r.results[i].extractedAt)
  }

  function DiscoveredTimes(r: Record): seq<int>
  {
    seq(|r.discovered|, i requires 0 <= i < |r.discovered| => r.discovered[i].discoveredAt)
  }

  /**
    get_crawl: three queries, between which any events may happen. `c` is the job when its row is read,
    `d` when its results are, `e` when its discovered rows are.

    The throughput adds up to the `urls_scraped` of its own moment, and so to no less than the value read
    before; the last discovery point with the rows deleted is the `urls_discovered` of its moment.
  */
  method GetCrawl(c: Cell, d: Cell, e: Cell, ghost between: seq<Event>, ghost after: seq<Event>)
    returns (throughput: seq<Point>, discovery: seq<Point>)
    requires Inv(c) && d == Run(c, between) && e == Run(d, after)
    ensures OnSeconds(throughput) && OnSeconds(discovery)
    ensures CountsEach(throughput, ExtractedTimes(d.record)) && CountsAllBefore(discovery, DiscoveredTimes(e.record))
    ensures Total(throughput) == d.record.job.urlsScraped >= c.record.job.urlsScraped
    ensures Total(throughput) == c.record.job.urlsScraped <==> d.record.results == c.record.results
    ensures var last := if discovery == [] then 0 else discovery[|discovery| - 1].count;
      last + e.removed == e.record.job.urlsDiscovered >= c.record.job.urlsDiscovered
  {
    RunKeepsInv(c, between);
    RunKeepsInv(d, after);
    RunGrows(c, between);
    RunGrows(d, after);
    throughput := ThroughputHistory(ExtractedTimes(d.record));
    TotalIsLength(throughput, ExtractedTimes(d.record));
    discovery := DiscoveryHistory(DiscoveredTimes(e.record));
  }
}
