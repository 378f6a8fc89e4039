/**
  Pages: what the crawl engine sees of the web. A page parser is a fixed map from
  a URL to its parse result (the word counts of that page and the links it holds);
  word counts are merged into the shared count map by addition.
 */
module Pages {

  type Url = string
  type Word = string

  /** The result of parsing one page: how often each word occurs, and the links in page order. */
  datatype Page = Page(wordCounts: map<Word, nat>, links: seq<Url>)

  /** A compiled ignored-URL pattern, given by whether it matches a whole URL. */
  type Pattern = Url -> bool

  /** The clock as an oracle: the n-th reading (counting from 0) returns `readings(n)`. */
  type Readings = nat -> int

  /** The page parser, as a fixed map. A URL it does not know parses to a page with no words and no links. */
  type Parser = map<Url, Page>

  function Parse(parser: Parser, url: Url): Page
  {
    if url in parser then parser[url] else Page(map[], [])
  }

  /** The count of `w` in `m`, where an absent key counts as zero. */
  function Get(m: map<Word, nat>, w: Word): nat
  {
    if w in m then m[w] else 0
  }

  /**
    `counts.merge(word, count, Integer::sum)` for every entry of `wordCounts`:
    a word already present gets the sum, a new word gets the page count, and every other key is kept.
   */
  function MergeCounts(counts: map<Word, nat>, wordCounts: map<Word, nat>): (r: map<Word, nat>)
    ensures r.Keys == counts.Keys + wordCounts.Keys
    ensures forall w :: w in wordCounts && w in counts ==> r[w] == counts[w] + wordCounts[w]
    ensures forall w :: w in wordCounts && w !in counts ==> r[w] == wordCounts[w]
    ensures forall w :: w in counts && w !in wordCounts ==> r[w] == counts[w]
  {
    map w | w in counts.Keys + wordCounts.Keys :: Get(counts, w) + Get(wordCounts, w)
  }

  /** Merging is order-independent: two pages merged in either order give the same map. */
  lemma MergeCommutes(counts: map<Word, nat>, a: map<Word, nat>, b: map<Word, nat>)
    ensures MergeCounts(MergeCounts(counts, a), b) == MergeCounts(MergeCounts(counts, b), a)
  {
    var l := MergeCounts(MergeCounts(counts, a), b);
    var r := MergeCounts(MergeCounts(counts, b), a);
    forall w | w in l.Keys
      ensures l[w] == r[w]
    {
      assert l[w] == Get(counts, w) + Get(a, w) + Get(b, w);
    }
  }

  /**
    Merging a page whose every count is zero adds its words as keys with value zero (the Java
    `merge` does put an absent key) but changes no word's count.
   */
  lemma MergeZero(counts: map<Word, nat>, zeros: map<Word, nat>, w: Word)
    requires forall x :: x in zeros ==> zeros[x] == 0
    ensures Get(MergeCounts(counts, zeros), w) == Get(counts, w)
    ensures MergeCounts(counts, zeros).Keys == counts.Keys + zeros.Keys
  {
  }

  /** The count map after merging, in order, the pages of the URLs in `parsed`, starting from an empty map. */
  function Tally(parser: Parser, parsed: seq<Url>): map<Word, nat>
  {
    if parsed == [] then map[]
    else MergeCounts(Tally(parser, parsed[..|parsed| - 1]), Parse(parser, parsed[|parsed| - 1]).wordCounts)
  }

  /** The sum, over the URLs in `parsed`, of the count of `w` on each URL's page. */
  function SumCount(parser: Parser, parsed: seq<Url>, w: Word): nat
  {
    if parsed == [] then 0
    else SumCount(parser, parsed[..|parsed| - 1], w) + Get(Parse(parser, parsed[|parsed| - 1]).wordCounts, w)
  }

  /** The merged count of every word is the sum of its page counts; a word is a key iff some parsed page has it. */
  lemma {:induction false} TallyIsSum(parser: Parser, parsed: seq<Url>, w: Word)
    ensures Get(Tally(parser, parsed), w) == SumCount(parser, parsed, w)
    ensures w in Tally(parser, parsed) <==> exists i :: 0 <= i < |parsed| && w in Parse(parser, parsed[i]).wordCounts
  {
    if parsed != [] {
      var prefix := parsed[..|parsed| - 1];
      TallyIsSum(parser, prefix, w);
      if w in Tally(parser, prefix) {
        var i :| 0 <= i < |prefix| && w in Parse(parser, prefix[i]).wordCounts;
        assert parsed[i] == prefix[i];
      }
      if exists i :: 0 <= i < |parsed| && w in Parse(parser, parsed[i]).wordCounts {
        var i :| 0 <= i < |parsed| && w in Parse(parser, parsed[i]).wordCounts;
        if i < |prefix| {
          assert prefix[i] == parsed[i];
        }
      }
    }
  }
}
