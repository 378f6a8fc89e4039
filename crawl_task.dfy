/**
  CrawlTasks: one crawl task for one URL at one remaining depth. It checks the early exits,
  marks its URL visited, merges the page's word counts into the shared map and runs one child
  task per link. The children run one after the other, in link order.
 */
module CrawlTasks {
  import opened Pages
  import opened SharedState
  import CrawlModel

  class CrawlTask {
    const url: Url
    const maxDepth: nat
    const deadline: int
    const parser: Parser
    const counts: WordCountMap
    const visitedUrls: UrlSet
    const ignoredUrls: seq<Pattern>
    const clock: Clock

    constructor (url: Url, maxDepth: nat, deadline: int, parser: Parser, counts: WordCountMap,
                 visitedUrls: UrlSet, ignoredUrls: seq<Pattern>, clock: Clock)
      ensures this.url == url && this.maxDepth == maxDepth && this.deadline == deadline
      ensures this.parser == parser && this.counts == counts && this.visitedUrls == visitedUrls
      ensures this.ignoredUrls == ignoredUrls && this.clock == clock
    {
      this.url := url;
      this.maxDepth := maxDepth;
      this.deadline := deadline;
      this.parser := parser;
      this.ignoredUrls := ignoredUrls;
      this.counts := counts;
      this.visitedUrls := visitedUrls;
      this.clock := clock;
    }

    /** What this task shares, unchanged, with every other task of its crawl. */
    ghost function Env(): CrawlModel.Env
    {
      CrawlModel.Env(parser, ignoredUrls, deadline, clock.readings)
    }

    /** The current value of the shared mutable state. */
    ghost function Shared(): CrawlModel.State
      reads visitedUrls, counts, clock
    {
      CrawlModel.State(visitedUrls.elems, visitedUrls.history, counts.m, clock.ticks)
    }

    /** `other` holds the same deadline, parser, patterns, clock and shared containers as this task. */
    ghost predicate SharesWith(other: CrawlTask)
    {
      && other.deadline == deadline && other.parser == parser && other.ignoredUrls == ignoredUrls
      && other.counts == counts && other.visitedUrls == visitedUrls && other.clock == clock
    }

    /** Runs the task and, before it returns, every task below it. */
    method Compute()
      modifies visitedUrls, counts, clock
      decreases maxDepth, 1
      ensures Shared() == CrawlModel.Task(Env(), url, maxDepth, old(Shared()))
    {
      ghost var s := Shared();
      CrawlModel.TaskEarlyExits(Env(), url, maxDepth, s);
      if maxDepth == 0 {
        return;
      }
      var now := clock.Instant();
      if now > deadline {
        return;
      }
      var ignored := MatchesIgnoredPattern();
      if ignored {
        return;
      }
      var added := visitedUrls.Add(url);
      if !added {
        return;
      }
      CrawlModel.TaskPasses(Env(), url, maxDepth, s);
      var result := Parse(parser, url);
      MergeWordCounts(result.wordCounts);
      assert Shared() == CrawlModel.Visit(s.(ticks := s.ticks + 1), url, result);
      var subtasks := NewSubtasks(result.links);
      InvokeAll(subtasks, result.links);
    }

    /** Runs the child tasks one after the other, in link order, each to completion. */
    method InvokeAll(subtasks: seq<CrawlTask>, links: seq<Url>)
      requires maxDepth > 0 && |subtasks| == |links|
      requires forall i :: 0 <= i < |links| ==>
        subtasks[i].url == links[i] && subtasks[i].maxDepth == maxDepth - 1 && SharesWith(subtasks[i])
      modifies visitedUrls, counts, clock
      decreases maxDepth, 0
      ensures Shared() == CrawlModel.Tasks(Env(), links, maxDepth - 1, old(Shared()))
    {
      for i := 0 to |subtasks|
        invariant Shared() == CrawlModel.Tasks(Env(), links[..i], maxDepth - 1, old(Shared()))
      {
        assert links[..i + 1][..i] == links[..i];
        subtasks[i].Compute();
      }
      assert links[..|subtasks|] == links;
    }

    /** Whether some ignored pattern fully matches this task's URL; the patterns are tried in order. */
    method MatchesIgnoredPattern() returns (ignored: bool)
      ensures ignored <==> CrawlModel.Ignored(ignoredUrls, url)
    {
      for i := 0 to |ignoredUrls|
        invariant forall j :: 0 <= j < i ==> !ignoredUrls[j](url)
      {
        if ignoredUrls[i](url) {
          return true;
        }
      }
      return false;
    }

    /** Merges every entry of a page's word counts into the shared map, in no particular order. */
    method MergeWordCounts(wordCounts: map<Word, nat>)
      modifies counts
      ensures counts.m == MergeCounts(old(counts.m), wordCounts)
    {
      var pending := wordCounts.Keys;
      while pending != {}
        invariant pending <= wordCounts.Keys
        invariant counts.m.Keys == old(counts.m).Keys + (wordCounts.Keys - pending)
        invariant forall w :: w in counts.m ==>
          counts.m[w] == Get(old(counts.m), w) + (if w in pending then 0 else Get(wordCounts, w))
        decreases pending
      {
        var w :| w in pending;
        counts.Merge(w, wordCounts[w]);
        pending := pending - {w};
      }
    }

    /** One new task per link, in link order, each one level shallower and sharing everything else with this one. */
    method NewSubtasks(links: seq<Url>) returns (subtasks: seq<CrawlTask>)
      requires maxDepth > 0
      ensures |subtasks| == |links|
      ensures forall i :: 0 <= i < |links| ==>
        subtasks[i].url == links[i] && subtasks[i].maxDepth == maxDepth - 1 && SharesWith(subtasks[i])
    {
      subtasks := [];
      for i := 0 to |links|
        invariant |subtasks| == i
        invariant forall k :: 0 <= k < i ==>
          subtasks[k].url == links[k] && subtasks[k].maxDepth == maxDepth - 1 && SharesWith(subtasks[k])
      {
        var child := new CrawlTask(links[i], maxDepth - 1, deadline, parser, counts, visitedUrls, ignoredUrls, clock);
        subtasks := subtasks + [child];
      }
    }
  }
}
