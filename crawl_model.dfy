/**
  CrawlModel: the crawl as a sequential recursive traversal, stated as functions over the
  shared state (visited set, count map and the number of clock readings taken so far),
  and the properties of that traversal.
 */
module CrawlModel {
  import opened Pages

  /** What every task of one crawl shares and never changes. */
  datatype Env = Env(parser: Parser, ignoredUrls: seq<Pattern>, deadline: int, clock: Readings)

  /**
    The shared mutable state: `visited` is the visited-URL set, `history` the order in which URLs
    were added to it, `counts` the word-count map and `ticks` the clock readings taken so far.
   */
  datatype State = State(visited: set<Url>, history: seq<Url>, counts: map<Word, nat>, ticks: nat)

  /** The crawler's configuration. */
  datatype Config = Config(parser: Parser, ignoredUrls: seq<Pattern>, maxDepth: nat, timeout: int, clock: Readings)

  predicate Distinct(s: seq<Url>)
  {
    forall i, j :: 0 <= i < j < |s| ==> s[i] != s[j]
  }

  /** Some pattern fully matches `url`. */
  predicate Ignored(patterns: seq<Pattern>, url: Url)
  {
    exists i :: 0 <= i < |patterns| && patterns[i](url)
  }

  /** `url` is added to the visited set and its page's counts are merged. */
  function Visit(s: State, url: Url, page: Page): State
  {
    s.(visited := s.visited + {url}, history := s.history + [url], counts := MergeCounts(s.counts, page.wordCounts))
  }

  /** One task for `url` with `depth` levels left, run on state `s`. */
  function Task(env: Env, url: Url, depth: nat, s: State): State
    decreases depth, 0, 0
  {
    if depth == 0 then s
    else
      var now := env.clock(s.ticks);
      var s1 := s.(ticks := s.ticks + 1);
      if now > env.deadline || Ignored(env.ignoredUrls, url) || url in s.visited then s1
      else
        var page := Parse(env.parser, url);
        Tasks(env, page.links, depth - 1, Visit(s1, url, page))
  }

  /** The tasks for `links`, all with `depth` levels left, run one after the other in link order. */
  function Tasks(env: Env, links: seq<Url>, depth: nat, s: State): State
    decreases depth, 1, |links|
  {
    if links == [] then s
    else Task(env, links[|links| - 1], depth, Tasks(env, links[..|links| - 1], depth, s))
  }

  /** The environment of every root task of a crawl whose first clock reading is reading `t0`. */
  function RootEnv(cfg: Config, t0: nat): Env
  {
    Env(cfg.parser, cfg.ignoredUrls, cfg.clock(t0) + cfg.timeout, cfg.clock)
  }

  /** A crawl: one deadline, fresh empty state, one root task per starting URL. */
  function Crawl(cfg: Config, startingUrls: seq<Url>, t0: nat): State
  {
    Tasks(RootEnv(cfg, t0), startingUrls, cfg.maxDepth, State({}, [], map[], t0 + 1))
  }

  /**
    The invariant of the shared state: every URL was added to the visited set once, and the
    count map is the merge of exactly the pages of the visited URLs.
   */
  ghost predicate Inv(parser: Parser, s: State)
  {
    && Distinct(s.history)
    && (forall u :: u in s.visited <==> u in s.history)
    && s.counts == Tally(parser, s.history)
  }

  /** `s'` extends `s`: the visited set only grows, and the visit order only gets longer. */
  predicate Extends(s: State, s': State)
  {
    && s.visited <= s'.visited
    && |s.history| <= |s'.history|
    && s'.history[..|s.history|] == s.history
    && s.ticks <= s'.ticks
  }

  /** The visited set, the visit order and the counts of `s'` are those of `s`. */
  predicate SameShared(s: State, s': State)
  {
    s'.visited == s.visited && s'.history == s.history && s'.counts == s.counts
  }

  // ---------------------------------------------------------------- early exits

  /**
    The early exits of a task, in order: depth 0 changes nothing and reads no clock; a reading
    strictly after the deadline, an ignored URL, or an already visited URL only take the one
    clock reading (a reading equal to the deadline is covered by `TaskVisitsFirst`).
   */
  lemma TaskEarlyExits(env: Env, url: Url, depth: nat, s: State)
    ensures depth == 0 ==> Task(env, url, depth, s) == s
    ensures depth > 0 && env.clock(s.ticks) > env.deadline ==> Task(env, url, depth, s) == s.(ticks := s.ticks + 1)
    ensures depth > 0 && Ignored(env.ignoredUrls, url) ==> Task(env, url, depth, s) == s.(ticks := s.ticks + 1)
    ensures depth > 0 && url in s.visited ==> Task(env, url, depth, s) == s.(ticks := s.ticks + 1)
  {
  }

  /**
    A task that passes every check adds its URL to the visited set, and adds it before any URL
    reached through its links: it is the first new entry of the visit order.
   */
  lemma TaskVisitsFirst(env: Env, url: Url, depth: nat, s: State)
    requires depth > 0 && env.clock(s.ticks) <= env.deadline
    requires !Ignored(env.ignoredUrls, url) && url !in s.visited
    ensures var s' := Task(env, url, depth, s);
      url in s'.visited && |s.history| < |s'.history| && s'.history[|s.history|] == url
  {
    var page := Parse(env.parser, url);
    var v := Visit(s.(ticks := s.ticks + 1), url, page);
    TasksExtends(env, page.links, depth - 1, v);
    var s' := Tasks(env, page.links, depth - 1, v);
    assert s'.history[..|v.history|][|s.history|] == url;
  }

  // ---------------------------------------------------------------- growth

  /** A task never removes a URL from the visited set, never rewrites the visit order, and never turns back the clock. */
  lemma {:induction false} TaskExtends(env: Env, url: Url, depth: nat, s: State)
    ensures Extends(s, Task(env, url, depth, s))
    decreases depth, 0, 0
  {
    if depth > 0 {
      var s1 := s.(ticks := s.ticks + 1);
      if !(env.clock(s.ticks) > env.deadline || Ignored(env.ignoredUrls, url) || url in s.visited) {
        var page := Parse(env.parser, url);
        var v := Visit(s1, url, page);
        TasksExtends(env, page.links, depth - 1, v);
        ExtendsTrans(s, v, Task(env, url, depth, s));
      }
    }
  }

  lemma {:induction false} TasksExtends(env: Env, links: seq<Url>, depth: nat, s: State)
    ensures Extends(s, Tasks(env, links, depth, s))
    decreases depth, 1, |links|
  {
    if links != [] {
      var mid := Tasks(env, links[..|links| - 1], depth, s);
      TasksExtends(env, links[..|links| - 1], depth, s);
      TaskExtends(env, links[|links| - 1], depth, mid);
      ExtendsTrans(s, mid, Tasks(env, links, depth, s));
    }
  }

  lemma ExtendsTrans(a: State, b: State, c: State)
    requires Extends(a, b) && Extends(b, c)
    ensures Extends(a, c)
  {
    assert c.history[..|a.history|] == c.history[..|b.history|][..|a.history|];
  }

  /** Merged counts only grow. */
  lemma {:induction false} TaskCountsGrow(env: Env, url: Url, depth: nat, s: State, w: Word)
    ensures Get(s.counts, w) <= Get(Task(env, url, depth, s).counts, w)
    decreases depth, 0, 0
  {
    if depth > 0 {
      var s1 := s.(ticks := s.ticks + 1);
      if !(env.clock(s.ticks) > env.deadline || Ignored(env.ignoredUrls, url) || url in s.visited) {
        var page := Parse(env.parser, url);
        TasksCountsGrow(env, page.links, depth - 1, Visit(s1, url, page), w);
      }
    }
  }

  lemma {:induction false} TasksCountsGrow(env: Env, links: seq<Url>, depth: nat, s: State, w: Word)
    ensures Get(s.counts, w) <= Get(Tasks(env, links, depth, s).counts, w)
    decreases depth, 1, |links|
  {
    if links != [] {
      var mid := Tasks(env, links[..|links| - 1], depth, s);
      TasksCountsGrow(env, links[..|links| - 1], depth, s, w);
      TaskCountsGrow(env, links[|links| - 1], depth, mid, w);
    }
  }

  // ---------------------------------------------------------------- the global invariant

  /** A visit of a URL not yet visited keeps the invariant. */
  lemma VisitInv(parser: Parser, s: State, url: Url)
    requires Inv(parser, s) && url !in s.visited
    ensures Inv(parser, Visit(s, url, Parse(parser, url)))
  {
    var h := s.history + [url];
    assert h[..|h| - 1] == s.history;
    forall i, j | 0 <= i < j < |h|
      ensures h[i] != h[j]
    {
      if j == |h| - 1 {
        assert h[i] == s.history[i];
      }
    }
  }

  /** Each task keeps the invariant: a URL is parsed at most once, and the counts are the merge of the visited pages. */
  lemma {:induction false} TaskInv(env: Env, url: Url, depth: nat, s: State)
    requires Inv(env.parser, s)
    ensures Inv(env.parser, Task(env, url, depth, s))
    decreases depth, 0, 0
  {
    if depth > 0 {
      var s1 := s.(ticks := s.ticks + 1);
      if !(env.clock(s.ticks) > env.deadline || Ignored(env.ignoredUrls, url) || url in s.visited) {
        var page := Parse(env.parser, url);
        VisitInv(env.parser, s1, url);
        TasksInv(env, page.links, depth - 1, Visit(s1, url, page));
      }
    }
  }

  lemma {:induction false} TasksInv(env: Env, links: seq<Url>, depth: nat, s: State)
    requires Inv(env.parser, s)
    ensures Inv(env.parser, Tasks(env, links, depth, s))
    decreases depth, 1, |links|
  {
    if links != [] {
      TasksInv(env, links[..|links| - 1], depth, s);
      TaskInv(env, links[|links| - 1], depth, Tasks(env, links[..|links| - 1], depth, s));
    }
  }

  /** A sequence without repetitions has as many elements as the set of its elements. */
  lemma {:induction false} DistinctCard(h: seq<Url>, visited: set<Url>)
    requires Distinct(h) && forall u :: u in visited <==> u in h
    ensures |visited| == |h|
  {
    if h != [] {
      var last := h[|h| - 1];
      var prefix := h[..|h| - 1];
      forall u | u in visited - {last}
        ensures u in prefix
      {
        var i :| 0 <= i < |h| && h[i] == u;
        assert i < |h| - 1;
        assert prefix[i] == u;
      }
      forall u | u in prefix
        ensures u in visited - {last}
      {
        var i :| 0 <= i < |prefix| && prefix[i] == u;
        assert h[i] == u;
      }
      DistinctCard(prefix, visited - {last});
    }
  }

  // ---------------------------------------------------------------- the deadline

  /** Once every remaining clock reading is after the deadline, tasks take readings but visit and merge nothing. */
  lemma {:induction false} TaskAfterDeadline(env: Env, url: Url, depth: nat, s: State)
    requires forall i :: s.ticks <= i ==> env.clock(i) > env.deadline
    ensures SameShared(s, Task(env, url, depth, s))
    ensures Task(env, url, depth, s).ticks >= s.ticks
    decreases depth, 0, 0
  {
  }

  lemma {:induction false} TasksAfterDeadline(env: Env, links: seq<Url>, depth: nat, s: State)
    requires forall i :: s.ticks <= i ==> env.clock(i) > env.deadline
    ensures SameShared(s, Tasks(env, links, depth, s))
    ensures Tasks(env, links, depth, s).ticks >= s.ticks
    decreases depth, 1, |links|
  {
    if links != [] {
      var mid := Tasks(env, links[..|links| - 1], depth, s);
      TasksAfterDeadline(env, links[..|links| - 1], depth, s);
      TaskAfterDeadline(env, links[|links| - 1], depth, mid);
    }
  }

  /** Tasks with no depth left do nothing, however many there are. */
  lemma {:induction false} TasksDepthZero(env: Env, links: seq<Url>, s: State)
    ensures Tasks(env, links, 0, s) == s
  {
    if links != [] {
      TasksDepthZero(env, links[..|links| - 1], s);
    }
  }

  // ---------------------------------------------------------------- the crawl

  /**
    After a crawl, each URL is in the visit order at most once, the number of visited URLs is
    the length of the visit order, and the count of every word is the sum of its page counts
    over exactly the visited URLs (so a starting URL listed twice is counted and merged once).
   */
  lemma CrawlCountsVisitedPages(cfg: Config, startingUrls: seq<Url>, t0: nat, w: Word)
    ensures var s := Crawl(cfg, startingUrls, t0);
      && Distinct(s.history)
      && (forall u :: u in s.visited <==> u in s.history)
      && |s.visited| == |s.history|
      && Get(s.counts, w) == SumCount(cfg.parser, s.history, w)
  {
    var s0 := State({}, [], map[], t0 + 1);
    TasksInv(RootEnv(cfg, t0), startingUrls, cfg.maxDepth, s0);
    var s := Crawl(cfg, startingUrls, t0);
    DistinctCard(s.history, s.visited);
    TallyIsSum(cfg.parser, s.history, w);
  }

  /** With no depth, nothing is visited and no word is counted. */
  lemma CrawlDepthZero(cfg: Config, startingUrls: seq<Url>, t0: nat)
    requires cfg.maxDepth == 0
    ensures |Crawl(cfg, startingUrls, t0).visited| == 0 && Crawl(cfg, startingUrls, t0).counts == map[]
  {
    TasksDepthZero(RootEnv(cfg, t0), startingUrls, State({}, [], map[], t0 + 1));
  }

  /** With no starting URL, nothing is visited and no word is counted. */
  lemma CrawlNoStartingUrls(cfg: Config, t0: nat)
    ensures |Crawl(cfg, [], t0).visited| == 0 && Crawl(cfg, [], t0).counts == map[]
  {
  }

  /**
    A clock that never goes back and whose second reading (the first a root task takes) is
    already after the deadline: nothing is visited and no word is counted.
   */
  lemma CrawlPastDeadline(cfg: Config, startingUrls: seq<Url>, t0: nat)
    requires forall i, j :: t0 <= i <= j ==> cfg.clock(i) <= cfg.clock(j)
    requires cfg.clock(t0 + 1) > cfg.clock(t0) + cfg.timeout
    ensures |Crawl(cfg, startingUrls, t0).visited| == 0 && Crawl(cfg, startingUrls, t0).counts == map[]
  {
    var env := RootEnv(cfg, t0);
    forall i | t0 + 1 <= i
      ensures env.clock(i) > env.deadline
    {
      assert cfg.clock(t0 + 1) <= cfg.clock(i);
    }
    TasksAfterDeadline(env, startingUrls, cfg.maxDepth, State({}, [], map[], t0 + 1));
  }

  /** A single starting URL that an ignored pattern matches: nothing is visited, even though it has links. */
  lemma CrawlIgnoredStart(cfg: Config, url: Url, t0: nat)
    requires Ignored(cfg.ignoredUrls, url)
    ensures |Crawl(cfg, [url], t0).visited| == 0 && Crawl(cfg, [url], t0).counts == map[]
  {
    var env := RootEnv(cfg, t0);
    var s0 := State({}, [], map[], t0 + 1);
    assert [url][..0] == [];
    assert Tasks(env, [url], cfg.maxDepth, s0) == Task(env, url, cfg.maxDepth, s0);
    TaskEarlyExits(env, url, cfg.maxDepth, s0);
  }

  /** Unfolding a task that passes every check: mark visited, merge, then the children one level shallower. */
  lemma TaskPasses(env: Env, url: Url, depth: nat, s: State)
    requires depth > 0 && env.clock(s.ticks) <= env.deadline
    requires !Ignored(env.ignoredUrls, url) && url !in s.visited
    ensures Task(env, url, depth, s)
      == Tasks(env, Parse(env.parser, url).links, depth - 1, Visit(s.(ticks := s.ticks + 1), url, Parse(env.parser, url)))
  {
  }

  lemma TasksOne(env: Env, a: Url, depth: nat, s: State)
    ensures Tasks(env, [a], depth, s) == Task(env, a, depth, s)
  {
    assert [a][..0] == [];
  }

  lemma TasksTwo(env: Env, a: Url, b: Url, depth: nat, s: State)
    ensures Tasks(env, [a, b], depth, s) == Task(env, b, depth, Task(env, a, depth, s))
  {
    assert [a, b][..1] == [a];
    TasksOne(env, a, depth, s);
  }

  /**
    With a clock that never goes back, a starting URL listed twice visits and merges exactly
    what listing it once does: the second root task finds the URL visited, or exits early for
    the same reason as the first.
   */
  lemma CrawlDuplicateStart(cfg: Config, url: Url, t0: nat)
    requires forall i, j :: t0 <= i <= j ==> cfg.clock(i) <= cfg.clock(j)
    ensures SameShared(Crawl(cfg, [url], t0), Crawl(cfg, [url, url], t0))
  {
    var env := RootEnv(cfg, t0);
    var s0 := State({}, [], map[], t0 + 1);
    var s1 := Task(env, url, cfg.maxDepth, s0);
    TasksOne(env, url, cfg.maxDepth, s0);
    TasksTwo(env, url, url, cfg.maxDepth, s0);
    if cfg.maxDepth > 0 && url !in s1.visited {
      if env.clock(s0.ticks) <= env.deadline && !Ignored(env.ignoredUrls, url) {
        TaskVisitsFirst(env, url, cfg.maxDepth, s0);
      }
      assert cfg.clock(t0 + 1) <= cfg.clock(t0 + 2);
    }
  }

  /** Pages A -> [B] and B -> [], where A holds x twice and B holds x three times and y once. */
  function ChainParser(): Parser
  {
    map["A" := Page(map["x" := 2], ["B"]), "B" := Page(map["x" := 3, "y" := 1], [])]
  }

  /** The task for B at depth 1, after A's visit: B is visited and its counts are added to A's. */
  lemma ChainBelowA(env: Env, a: State)
    requires env.parser == ChainParser() && env.ignoredUrls == []
    requires env.clock(a.ticks) <= env.deadline
    requires a.visited == {"A"} && a.counts == map["x" := 2]
    ensures var b := Task(env, "B", 1, a);
      b.visited == {"A", "B"} && b.counts == map["x" := 5, "y" := 1]
  {
    var pb := Page(map["x" := 3, "y" := 1], []);
    assert Parse(env.parser, "B") == pb;
    TaskPasses(env, "B", 1, a);
    var b := Visit(a.(ticks := a.ticks + 1), "B", pb);
    TasksDepthZero(env, [], b);
    assert b.counts == map["x" := 5, "y" := 1];
  }

  /**
    A crawl of the pages A -> [B] and B -> [] from A, with depth 2, no ignored pattern and a
    clock that never passes the deadline: both pages are visited, x is counted five times and y once.
   */
  lemma CrawlAggregationExample(cfg: Config, t0: nat)
    requires cfg.parser == ChainParser() && cfg.maxDepth == 2 && cfg.ignoredUrls == []
    requires forall i :: t0 < i ==> cfg.clock(i) <= cfg.clock(t0) + cfg.timeout
    ensures Crawl(cfg, ["A"], t0).counts == map["x" := 5, "y" := 1]
    ensures |Crawl(cfg, ["A"], t0).visited| == 2
  {
    var env := RootEnv(cfg, t0);
    var s0 := State({}, [], map[], t0 + 1);
    var pa := Page(map["x" := 2], ["B"]);
    assert Parse(env.parser, "A") == pa;
    assert env.clock(t0 + 1) <= env.deadline && env.clock(t0 + 2) <= env.deadline;
    TasksOne(env, "A", 2, s0);
    TaskPasses(env, "A", 2, s0);
    var a := Visit(s0.(ticks := t0 + 2), "A", pa);
    TasksOne(env, "B", 1, a);
    assert a.counts == map["x" := 2];
    ChainBelowA(env, a);
    assert |{"A", "B"}| == 2;
  }

  /** The diamond graph A -> [B, C], B -> [D], C -> [D], D -> [], where only D holds a word. */
  function DiamondParser(): Parser
  {
    map["A" := Page(map[], ["B", "C"]), "B" := Page(map[], ["D"]), "C" := Page(map[], ["D"]), "D" := Page(map["z" := 1], [])]
  }

  /** The subtree below B at depth 2: B, then D; afterwards the visit order is A, B, D. */
  lemma DiamondBelowB(env: Env, a: State)
    requires env.parser == DiamondParser() && env.ignoredUrls == []
    requires forall i :: a.ticks <= i ==> env.clock(i) <= env.deadline
    requires a.visited == {"A"} && a.history == ["A"] && a.counts == map[]
    ensures var d := Task(env, "B", 2, a);
      d.visited == {"A", "B", "D"} && d.history == ["A", "B", "D"] && d.counts == map["z" := 1] && d.ticks == a.ticks + 2
  {
    assert Parse(env.parser, "B") == Page(map[], ["D"]);
    assert Parse(env.parser, "D") == Page(map["z" := 1], []);
    assert env.clock(a.ticks) <= env.deadline && env.clock(a.ticks + 1) <= env.deadline;
    TaskPasses(env, "B", 2, a);
    var b := Visit(a.(ticks := a.ticks + 1), "B", Page(map[], ["D"]));
    TasksOne(env, "D", 1, b);
    TaskPasses(env, "D", 1, b);
    TasksDepthZero(env, [], Visit(b.(ticks := b.ticks + 1), "D", Page(map["z" := 1], [])));
  }

  /** The subtree below C at depth 2, after B's: C is visited and D is found already visited. */
  lemma DiamondBelowC(env: Env, d: State)
    requires env.parser == DiamondParser() && env.ignoredUrls == []
    requires forall i :: d.ticks <= i ==> env.clock(i) <= env.deadline
    requires d.visited == {"A", "B", "D"} && d.history == ["A", "B", "D"] && d.counts == map["z" := 1]
    ensures var c := Task(env, "C", 2, d);
      c.visited == {"A", "B", "C", "D"} && c.history == ["A", "B", "D", "C"] && c.counts == map["z" := 1]
  {
    assert Parse(env.parser, "C") == Page(map[], ["D"]);
    assert env.clock(d.ticks) <= env.deadline;
    TaskPasses(env, "C", 2, d);
    var c := Visit(d.(ticks := d.ticks + 1), "C", Page(map[], ["D"]));
    TasksOne(env, "D", 1, c);
    TaskEarlyExits(env, "D", 1, c);
  }

  /** The task for A at depth 3 on empty state: B's subtree, then C's. */
  lemma DiamondFromA(env: Env, s0: State)
    requires env.parser == DiamondParser() && env.ignoredUrls == []
    requires forall i :: s0.ticks <= i ==> env.clock(i) <= env.deadline
    requires s0.visited == {} && s0.history == [] && s0.counts == map[]
    ensures var c := Task(env, "A", 3, s0);
      c.visited == {"A", "B", "C", "D"} && c.history == ["A", "B", "D", "C"] && c.counts == map["z" := 1]
  {
    assert Parse(env.parser, "A") == Page(map[], ["B", "C"]);
    assert env.clock(s0.ticks) <= env.deadline;
    TaskPasses(env, "A", 3, s0);
    var a := State({"A"}, ["A"], map[], s0.ticks + 1);
    assert MergeCounts(map[], map[]) == map[];
    assert Visit(s0.(ticks := s0.ticks + 1), "A", Page(map[], ["B", "C"])) == a;
    assert Task(env, "A", 3, s0) == Tasks(env, ["B", "C"], 2, a);
    TasksTwo(env, "B", "C", 2, a);
    DiamondBelowB(env, a);
    DiamondBelowC(env, Task(env, "B", 2, a));
  }

  /**
    A crawl of the diamond from A with depth 3, no ignored pattern and a clock that never passes
    the deadline: D is reached twice but visited once, so four URLs are visited and D's words
    are merged once.
   */
  lemma CrawlDiamond(cfg: Config, t0: nat)
    requires cfg.parser == DiamondParser() && cfg.maxDepth == 3 && cfg.ignoredUrls == []
    requires forall i :: t0 < i ==> cfg.clock(i) <= cfg.clock(t0) + cfg.timeout
    ensures Crawl(cfg, ["A"], t0).history == ["A", "B", "D", "C"]
    ensures |Crawl(cfg, ["A"], t0).visited| == 4
    ensures Crawl(cfg, ["A"], t0).counts == map["z" := 1]
  {
    var env := RootEnv(cfg, t0);
    var s0 := State({}, [], map[], t0 + 1);
    TasksOne(env, "A", 3, s0);
    DiamondFromA(env, s0);
    assert |{"A", "B", "C", "D"}| == 4;
  }
}
