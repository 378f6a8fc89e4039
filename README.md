# Crawl engine of the parallel web crawler, in Dafny

This project models the core of a web crawler (package `com.udacity.webcrawler`). The core is
the crawl task `CrawlTask.compute` and the driver `ParallelWebCrawler.crawl`.

A crawl starts from a list of URLs. It computes one deadline from the injected clock and creates
an empty shared visited-URL set and an empty shared word-count map. It then runs one root task
per starting URL. A task for a URL at remaining depth `maxDepth` stops early when any of these hold:

- the depth is 0;
- the clock's instant is strictly after the deadline;
- an ignored pattern fully matches the URL;
- `visitedUrls.add(url)` reports that the URL was already present.

Otherwise the task parses the page and merges the page's word counts into the shared map by
addition. It then runs one child task per link on the page, each with `maxDepth - 1`. The
crawl result holds the sorted top words and, as `urlsVisited`, the final size of the visited set.

The model is sequential: the child tasks of `invokeAll` run one after the other, in link order.

- `pages.dfy` (module `Pages`): URLs, words and parse results; ignored patterns and clock
  readings as function values; the parser as a fixed map; the
  additive merge of word counts; `Tally`, the count map after merging a sequence of pages, and
  `SumCount`, the sum of one word's page counts.
- `crawl_model.dfy` (module `CrawlModel`): the crawl as functions. `Task` is one task on a
  shared state value (visited set, the order of insertion into it, counts, clock readings
  taken). `Tasks` runs a list of tasks in order. `Crawl` is the whole crawl. The lemmas about
  them include the global invariant (`Inv`): every visited URL was parsed exactly once, and the
  count map is the merge of exactly the visited pages.
- `shared_state.dfy` (module `SharedState`): the objects every task holds a reference to and
  updates in place. These are the clock (an oracle of readings with a counter), the visited set
  (`add` returns whether the URL was new) and the count map (`merge` with `Integer::sum`).
- `crawl_task.dfy` (module `CrawlTasks`): class `CrawlTask`. Its `Compute` method is recursive,
  with `maxDepth` as the decreasing measure. It is proved to leave the shared objects in exactly
  the state `CrawlModel.Task` gives.
- `parallel_web_crawler.dfy` (module `ParallelCrawler`): class `ParallelWebCrawler`. `Crawl`
  builds the shared objects, runs the root tasks and returns the result. It is proved equal to
  `CrawlModel.Crawl`.

The external collaborators are parameters:

- The page parser is a map from URL to page; a URL the map does not hold parses to a page with
  no words and no links.
- Each compiled ignored pattern is its whole-string match predicate `Url -> bool`.
- The clock is a function from the number of readings taken so far to an instant (an integer).
- `WordCounts.sort` is an injected function value of type `Sorter`.

## Model

| member | source | states |
|---|---|---|
| Pages.MergeCounts | src/main/java/com/udacity/webcrawler/CrawlTask.java:78-80 | the merged map's keys are the old keys plus the page's words; a word on the page gets old count plus page count when present and the page count when absent; every other key keeps its count |
| Pages.MergeCommutes | src/main/java/com/udacity/webcrawler/CrawlTask.java:78-80 | merging two pages gives the same map in either order, so the order of merges does not matter |
| Pages.MergeZero | src/main/java/com/udacity/webcrawler/CrawlTask.java:79 | merging zero counts changes no word's count, but does add the words as keys |
| Pages.TallyIsSum | src/main/java/com/udacity/webcrawler/CrawlTask.java:75-80 | after merging a sequence of pages, each word's count is the sum of its counts on those pages, and a word is a key iff one of those pages holds it |
| Pages.Parse | src/main/java/com/udacity/webcrawler/CrawlTask.java:75 | definition: the parse result of a URL, an empty page for a URL the parser map does not hold; `CrawlTask.Compute` uses it where `parserFactory.get(url).parse()` stands |
| Pages.Tally | src/main/java/com/udacity/webcrawler/CrawlTask.java:75-80 | definition: the count map after merging, in order, the pages of a sequence of URLs into an empty map; `CrawlModel.Inv` equates the shared counts with it, and `Pages.TallyIsSum` proves it equal to the sum `SumCount` |
| Pages.SumCount | src/main/java/com/udacity/webcrawler/CrawlTask.java:78-80 | definition: the sum of one word's page counts over a sequence of URLs, the independent reference for `Tally` (`Pages.TallyIsSum`) |
| CrawlModel.Ignored | src/main/java/com/udacity/webcrawler/CrawlTask.java:63-67 | definition: some pattern in the list fully matches the URL; `CrawlTask.MatchesIgnoredPattern` is proved to return exactly it |
| CrawlModel.Visit | src/main/java/com/udacity/webcrawler/CrawlTask.java:70-80 | definition: the URL is added to the visited set and to the insertion order, and the page's counts are merged; `CrawlModel.VisitInv` proves it keeps the invariant |
| CrawlModel.Task | src/main/java/com/udacity/webcrawler/CrawlTask.java:56-88 | definition of one task on the shared state: the four early exits in source order, then the visit and the children at depth - 1; `CrawlTask.Compute` is proved equal to it, and the `Task...` lemmas state its properties |
| CrawlModel.Tasks | src/main/java/com/udacity/webcrawler/CrawlTask.java:83-87 | definition: the tasks of a link list run one after the other in link order; `CrawlTask.InvokeAll` is proved equal to it |
| CrawlModel.RootEnv | src/main/java/com/udacity/webcrawler/ParallelWebCrawler.java:56 | definition: the environment of every root task, with the one deadline equal to the first clock reading plus the timeout |
| CrawlModel.Crawl | src/main/java/com/udacity/webcrawler/ParallelWebCrawler.java:55-70 | definition of a crawl: one deadline, an empty state, one root task per starting URL at the configured depth; `ParallelWebCrawler.Crawl` is proved equal to it, and the `Crawl...` lemmas state its properties |
| CrawlModel.TaskEarlyExits | src/main/java/com/udacity/webcrawler/CrawlTask.java:58-72 | depth 0 changes nothing and takes no clock reading; a reading strictly after the deadline, an ignored URL or an already visited URL take one reading and change neither the visited set nor the counts |
| CrawlModel.TaskVisitsFirst | src/main/java/com/udacity/webcrawler/CrawlTask.java:58-75 | a task that passes every check (a reading equal to the deadline included) adds its URL to the visited set, as the first URL added during that task |
| CrawlModel.TaskExtends | src/main/java/com/udacity/webcrawler/CrawlTask.java:70-87 | over a whole task tree the visited set never shrinks, the insertion order is only extended and the clock is never turned back |
| CrawlModel.TasksExtends | src/main/java/com/udacity/webcrawler/CrawlTask.java:83-87 | the same for a list of child tasks run in link order |
| CrawlModel.TaskCountsGrow | src/main/java/com/udacity/webcrawler/CrawlTask.java:78-80 | no word's count decreases over a whole task tree |
| CrawlModel.TasksCountsGrow | src/main/java/com/udacity/webcrawler/CrawlTask.java:83-87 | the same for a list of child tasks |
| CrawlModel.VisitInv | src/main/java/com/udacity/webcrawler/CrawlTask.java:70-80 | adding a new URL and merging its page keeps the invariant: each visited URL was inserted once, and the counts are the merge of exactly the visited pages |
| CrawlModel.TaskInv | src/main/java/com/udacity/webcrawler/CrawlTask.java:56-88 | a whole task tree keeps that invariant: each URL is parsed at most once and the counts are the merge of the visited pages |
| CrawlModel.TasksInv | src/main/java/com/udacity/webcrawler/CrawlTask.java:83-87 | a list of child tasks keeps that invariant |
| CrawlModel.DistinctCard | src/main/java/com/udacity/webcrawler/ParallelWebCrawler.java:70 | when no URL was inserted twice, the size of the visited set is the number of insertions |
| CrawlModel.TaskAfterDeadline | src/main/java/com/udacity/webcrawler/CrawlTask.java:58-60 | when every remaining clock reading is after the deadline, a task visits and merges nothing |
| CrawlModel.TasksAfterDeadline | src/main/java/com/udacity/webcrawler/CrawlTask.java:58-60 | the same for a list of tasks, however deep |
| CrawlModel.TasksDepthZero | src/main/java/com/udacity/webcrawler/CrawlTask.java:58-60 | any list of tasks at depth 0 changes nothing |
| CrawlModel.TasksOne | src/main/java/com/udacity/webcrawler/CrawlTask.java:83-87 | a one-link list runs exactly the task for that link |
| CrawlModel.TasksTwo | src/main/java/com/udacity/webcrawler/CrawlTask.java:83-87 | a two-link list runs the first link's task, then the second's on the state it leaves |
| CrawlModel.CrawlCountsVisitedPages | src/main/java/com/udacity/webcrawler/ParallelWebCrawler.java:56-70 | after a crawl no URL was inserted twice, `urlsVisited` equals the number of parsed pages, and each word's count is the sum of its page counts over exactly the visited URLs |
| CrawlModel.CrawlDepthZero | src/main/java/com/udacity/webcrawler/ParallelWebCrawler.java:57-70 | with `maxDepth` 0 the visited set and the count map stay empty |
| CrawlModel.CrawlNoStartingUrls | src/main/java/com/udacity/webcrawler/ParallelWebCrawler.java:57-70 | with no starting URL the visited set and the count map stay empty |
| CrawlModel.CrawlPastDeadline | src/main/java/com/udacity/webcrawler/ParallelWebCrawler.java:56-64 | with a clock that never goes back and is already after the deadline at the first task's reading, nothing is visited or counted |
| CrawlModel.CrawlIgnoredStart | src/main/java/com/udacity/webcrawler/CrawlTask.java:63-67 | a single starting URL that an ignored pattern matches yields no visited URL and no counts, whatever its links |
| CrawlModel.CrawlDuplicateStart | src/main/java/com/udacity/webcrawler/ParallelWebCrawler.java:58-64 | listing a starting URL twice visits, inserts and merges exactly what listing it once does |
| CrawlModel.CrawlAggregationExample | src/main/java/com/udacity/webcrawler/CrawlTask.java:70-87 | pages A -> [B] with {x: 2} and B -> [] with {x: 3, y: 1}, crawled from A at depth 2, give counts {x: 5, y: 1} and two visited URLs |
| CrawlModel.CrawlDiamond | src/main/java/com/udacity/webcrawler/CrawlTask.java:70-87 | in the diamond A -> [B, C], B -> [D], C -> [D] at depth 3, D is visited once: the insertion order is A, B, D, C, four URLs are visited and D's words are merged once |
| SharedState.Clock.constructor | src/main/java/com/udacity/webcrawler/ParallelWebCrawler.java:38-45 | the injected clock holds the given readings and none has been taken yet |
| SharedState.Clock.Instant | src/main/java/com/udacity/webcrawler/CrawlTask.java:58 | returns the next reading of the oracle and advances to the one after |
| SharedState.UrlSet.constructor | src/main/java/com/udacity/webcrawler/ParallelWebCrawler.java:58 | a fresh visited set is empty |
| SharedState.UrlSet.Add | src/main/java/com/udacity/webcrawler/CrawlTask.java:70 | `add` returns true iff the URL was absent; the URL is in the set afterwards, and the insertion order grows by it exactly when it was new |
| SharedState.WordCountMap.constructor | src/main/java/com/udacity/webcrawler/ParallelWebCrawler.java:57 | a fresh count map is empty |
| SharedState.WordCountMap.Merge | src/main/java/com/udacity/webcrawler/CrawlTask.java:79 | the word's count becomes old count plus the new count, or the new count if absent; other keys unchanged |
| CrawlTasks.CrawlTask.constructor | src/main/java/com/udacity/webcrawler/CrawlTask.java:42-53 | the task holds exactly the given URL, depth, deadline, parser, shared containers, patterns and clock |
| CrawlTasks.CrawlTask.Compute | src/main/java/com/udacity/webcrawler/CrawlTask.java:56-88 | running a task leaves the visited set, its insertion order, the counts and the clock exactly as `CrawlModel.Task` says; it terminates because `maxDepth` decreases |
| CrawlTasks.CrawlTask.InvokeAll | src/main/java/com/udacity/webcrawler/CrawlTask.java:87 | the children run in link order and leave the state `CrawlModel.Tasks` gives |
| CrawlTasks.CrawlTask.MatchesIgnoredPattern | src/main/java/com/udacity/webcrawler/CrawlTask.java:63-67 | the loop over the patterns reports true iff some pattern fully matches the URL |
| CrawlTasks.CrawlTask.MergeWordCounts | src/main/java/com/udacity/webcrawler/CrawlTask.java:78-80 | merging the page's entries one by one, in any order, leaves the count map that `MergeCounts` gives |
| CrawlTasks.CrawlTask.NewSubtasks | src/main/java/com/udacity/webcrawler/CrawlTask.java:83-86 | exactly one child per link, in link order, each with `maxDepth - 1` and the same deadline, parser, patterns, clock and shared containers |
| ParallelCrawler.ParallelWebCrawler.constructor | src/main/java/com/udacity/webcrawler/ParallelWebCrawler.java:37-52 | the crawler holds exactly the given clock, parser, depth, patterns, timeout, popular-word count and sorter |
| ParallelCrawler.ParallelWebCrawler.NewRootTasks | src/main/java/com/udacity/webcrawler/ParallelWebCrawler.java:61-63 | exactly one root task per starting URL, in order, each with the configured `maxDepth`, the one deadline and the fresh shared containers |
| ParallelCrawler.ParallelWebCrawler.Crawl | src/main/java/com/udacity/webcrawler/ParallelWebCrawler.java:55-72 | the deadline is the first clock reading plus the timeout, the state starts empty, and the result is the sorted final counts with `urlsVisited` equal to the final size of the visited set, as `CrawlModel.Crawl` gives |

## Left out

- Fork/join concurrency (`RecursiveAction`, `invokeAll`, the concurrent map and set). Tasks run sequentially: children in link order, roots in starting-URL order. Interleavings and the thread safety of the containers are not modelled. The source's result does depend on the schedule: the visited check ignores the remaining depth, so the depth at which a URL is first reached decides how far below it the crawl goes. With A -> [B, D], B -> [D] and D -> [E] at depth 3, E is visited only when D is first reached from A; a parallel run can therefore report other `urlsVisited` and counts than the link-order run of the model.
- Page fetching and HTML parsing (`PageParserFactory.get(url).parse()`). These are a fixed map from URL to page. A URL missing from the map stands for a page that yields no words and no links. `CrawlTask` itself catches no parse error, and the model has no exception path.
- Regular-expression semantics. Each pattern is given as a whole-string match predicate.
- Real time. `Clock`, `Instant` and `Duration` become an integer-valued oracle indexed by the number of readings taken. The timeout is an integer added to the first reading.
- `WordCounts.sort` is not part of this model. It is an injected function value, so the result's word list is whatever that function returns for the final counts.
- `CrawlResult.Builder` is not modelled; the result is a plain pair.
- Java `Integer` overflow in `Integer::sum`. Counts are unbounded naturals.
- `getMaxParallelism` and the constructor's unused `threadCount` argument. They have no effect on the crawl.
- Negative `maxDepth`. The source does not guard against it, and depths are naturals here.
- The profiler and the configuration loader. They are reflection, timing and file I/O outside the crawl engine.
- The deadline test is `isAfter`: a task stops only at an instant strictly after the deadline, and an instant equal to the deadline lets it run. A stop at or after the deadline is not modelled.
- Merging a page whose counts are zero adds those words as keys with count 0, because `merge` inserts absent keys. It does not leave the map literally unchanged; only the counts are unchanged (`Pages.MergeZero`).
- CrawlModel.CrawlDuplicateStart: needs a clock that never goes back. With an arbitrary oracle, the first root task can stop at the deadline while the second one runs. In every case the URL is still parsed at most once; `CrawlModel.CrawlCountsVisitedPages` states that without any assumption on the clock.
- CrawlModel.CrawlPastDeadline: needs a clock that never goes back. Otherwise a later reading could fall before the deadline again.
