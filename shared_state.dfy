/**
  SharedState: the objects every task of one crawl holds a reference to and updates in place:
  the clock, the visited-URL set and the word-count map.
 */
module SharedState {
  import opened Pages

  /** The injected clock, as an oracle: the n-th call of `Instant` (counting from 0) returns `readings(n)`. */
  class Clock {
    const readings: Readings
    var ticks: nat

    constructor (readings: Readings)
      ensures this.readings == readings && ticks == 0
    {
      this.readings := readings;
      ticks := 0;
    }

    method Instant() returns (now: int)
      modifies this
      ensures now == readings(old(ticks)) && ticks == old(ticks) + 1
    {
      now := readings(ticks);
      ticks := ticks + 1;
    }
  }

  /** The visited-URL set; `history` records the order in which URLs were added. */
  class UrlSet {
    var elems: set<Url>
    ghost var history: seq<Url>

    constructor ()
      ensures elems == {} && history == []
    {
      elems := {};
      history := [];
    }

    /** `Set.add`: inserts `url` and says whether it was absent. */
    method Add(url: Url) returns (added: bool)
      modifies this
      ensures added <==> url !in old(elems)
      ensures elems == old(elems) + {url}
      ensures history == if added then old(history) + [url] else old(history)
    {
      added := url !in elems;
      if added {
        elems := elems + {url};
        history := history + [url];
      }
    }
  }

  /** The word-count map. */
  class WordCountMap {
    var m: map<Word, nat>

    constructor ()
      ensures m == map[]
    {
      m := map[];
    }

    /** `counts.merge(word, count, Integer::sum)`. */
    method Merge(word: Word, count: nat)
      modifies this
      ensures m == old(m)[word := if word in old(m) then old(m)[word] + count else count]
    {
      m := m[word := if word in m then m[word] + count else count];
    }
  }
}
