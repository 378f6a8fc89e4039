/**
  ParallelCrawler: the crawl driver. It computes one deadline, creates fresh shared state,
  runs one root task per starting URL and reports the top words and the number of visited URLs.
 */
module ParallelCrawler {
  import opened Pages
  import opened SharedState
  import opened CrawlTasks
  import CrawlModel

  /** The ordering of the final counts into at most `limit` popular words; its definition is not part of this model. */
  type Sorter = (map<Word, nat>, nat) -> seq<(Word, nat)>

  datatype CrawlResult = CrawlResult(wordCounts: seq<(Word, nat)>, urlsVisited: nat)

  class ParallelWebCrawler {
    const clock: Clock
    const parser: Parser
    const maxDepth: nat
    const ignoredUrls: seq<Pattern>
    const timeout: int
    const popularWordCount: nat
    const sort: Sorter

    constructor (clock: Clock, parser: Parser, maxDepth: nat, ignoredUrls: seq<Pattern>,
                 timeout: int, popularWordCount: nat, sort: Sorter)
      ensures this.clock == clock && this.parser == parser && this.maxDepth == maxDepth
      ensures this.ignoredUrls == ignoredUrls && this.timeout == timeout
      ensures this.popularWordCount == popularWordCount && this.sort == sort
    {
      this.clock := clock;
      this.parser := parser;
      this.maxDepth := maxDepth;
      this.ignoredUrls := ignoredUrls;
      this.timeout := timeout;
      this.popularWordCount := popularWordCount;
      this.sort := sort;
    }

    ghost function Config(): CrawlModel.Config
    {
      CrawlModel.Config(parser, ignoredUrls, maxDepth, timeout, clock.readings)
    }

    /** One root task per starting URL, each with the configured depth, the one deadline and the fresh shared state. */
    method NewRootTasks(startingUrls: seq<Url>, deadline: int, counts: WordCountMap, visitedUrls: UrlSet)
      returns (tasks: seq<CrawlTask>)
      ensures |tasks| == |startingUrls|
      ensures forall i :: 0 <= i < |startingUrls| ==>
        && tasks[i].url == startingUrls[i] && tasks[i].maxDepth == maxDepth && tasks[i].deadline == deadline
        && tasks[i].parser == parser && tasks[i].ignoredUrls == ignoredUrls && tasks[i].clock == clock
        && tasks[i].counts == counts && tasks[i].visitedUrls == visitedUrls
    {
      tasks := [];
      for i := 0 to |startingUrls|
        invariant |tasks| == i
        invariant forall k :: 0 <= k < i ==>
          && tasks[k].url == startingUrls[k] && tasks[k].maxDepth == maxDepth && tasks[k].deadline == deadline
          && tasks[k].parser == parser && tasks[k].ignoredUrls == ignoredUrls && tasks[k].clock == clock
          && tasks[k].counts == counts && tasks[k].visitedUrls == visitedUrls
      {
        var task := new CrawlTask(startingUrls[i], maxDepth, deadline, parser, counts, visitedUrls, ignoredUrls, clock);
        tasks := tasks + [task];
      }
    }

    /**
      A crawl from `startingUrls`: the result holds the sorted final counts and, as the number
      of visited URLs, the size of the final visited set.
     */
    method Crawl(startingUrls: seq<Url>) returns (result: CrawlResult)
      modifies clock
      ensures var s := CrawlModel.Crawl(Config(), startingUrls, old(clock.ticks));
        && result == CrawlResult(sort(s.counts, popularWordCount), |s.visited|)
        && clock.ticks == s.ticks
    {
      var now := clock.Instant();
      var deadline := now + timeout;
      var counts := new WordCountMap();
      var visitedUrls := new UrlSet();
      var tasks := NewRootTasks(startingUrls, deadline, counts, visitedUrls);
      ghost var env := CrawlModel.RootEnv(Config(), old(clock.ticks));
      ghost var start := CrawlModel.State({}, [], map[], clock.ticks);
      for i := 0 to |tasks|
        invariant CrawlModel.State(visitedUrls.elems, visitedUrls.history, counts.m, clock.ticks)
          == CrawlModel.Tasks(env, startingUrls[..i], maxDepth, start)
      {
        assert startingUrls[..i + 1][..i] == startingUrls[..i];
        tasks[i].Compute();
      }
      assert startingUrls[..|tasks|] == startingUrls;
      var sortedCounts := sort(counts.m, popularWordCount);
      result := CrawlResult(sortedCounts, |visitedUrls.elems|);
    }
  }
}
