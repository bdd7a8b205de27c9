/** The crawl statistics: the `STATS` dictionary of the crawl loop, with
    a URL count, a count per status code and a total page size. */
module Stats {
  import opened Options
  import opened Webpages

  /** `status_count` is keyed by the status of the task, which is `None`
      for a task that failed before any status was set. */
  datatype Stats = Stats(urlCount: nat, statusCount: map<Option<nat>, nat>, totalSize: nat)

  /** The dictionary the crawl starts with: counters for 200, 403 and
      404, all zero. */
  const INITIAL: Stats := Stats(0, map[Some(200) := 0, Some(403) := 0, Some(404) := 0], 0)

  /** `m.get(k, 0)` */
  function Get(m: map<Option<nat>, nat>, k: Option<nat>): nat {
    if k in m then m[k] else 0
  }

  /** The update for one task that was not skipped: one more URL, one
      more in the bucket of its status (a bucket that does not exist yet
      is created from 0, also for `None`), and its size added when it is
      set and not zero. */
  function Record(s: Stats, page: Webpage): Stats {
    Stats(s.urlCount + 1,
          s.statusCount[page.pageStatus := Get(s.statusCount, page.pageStatus) + 1],
          if page.pageSize.Some? && page.pageSize.value != 0 then s.totalSize + page.pageSize.value
          else s.totalSize)
  }

  /** The statistics after recording `pages` in order, from the start. */
  function Tally(pages: seq<Webpage>): Stats {
    if pages == [] then INITIAL else Record(Tally(pages[..|pages| - 1]), pages[|pages| - 1])
  }

  /** How many of `pages` have status `k`. */
  function CountStatus(pages: seq<Webpage>, k: Option<nat>): nat {
    if pages == [] then 0
    else CountStatus(pages[..|pages| - 1], k) + if pages[|pages| - 1].pageStatus == k then 1 else 0
  }

  /** The sum of the sizes that are set. */
  function SizeSum(pages: seq<Webpage>): nat {
    if pages == [] then 0
    else SizeSum(pages[..|pages| - 1]) + match pages[|pages| - 1].pageSize
                                         case None => 0
                                         case Some(n) => n
  }

  /** The statuses that occur among `pages`. */
  ghost function StatusesOf(pages: seq<Webpage>): set<Option<nat>> {
    set i | 0 <= i < |pages| :: pages[i].pageStatus
  }

  /** What the accumulated dictionary holds: the number of pages recorded,
      for every status the number of pages with that status, buckets for
      exactly the three initial codes and the statuses that occurred, and
      the sum of the sizes that were set. */
  lemma {:induction false} TallyCounts(pages: seq<Webpage>)
    ensures Tally(pages).urlCount == |pages|
    ensures forall k :: Get(Tally(pages).statusCount, k) == CountStatus(pages, k)
    ensures Tally(pages).statusCount.Keys == INITIAL.statusCount.Keys + StatusesOf(pages)
    ensures Tally(pages).totalSize == SizeSum(pages)
    decreases |pages|
  {
    if pages != [] {
      var init, last := pages[..|pages| - 1], pages[|pages| - 1];
      TallyCounts(init);
      assert StatusesOf(pages) == StatusesOf(init) + {last.pageStatus} by {
        forall k | k in StatusesOf(pages) ensures k in StatusesOf(init) + {last.pageStatus} {
          var i :| 0 <= i < |pages| && pages[i].pageStatus == k;
          if i < |pages| - 1 {
            assert init[i] == pages[i];
          }
        }
        forall k | k in StatusesOf(init) ensures k in StatusesOf(pages) {
          var i :| 0 <= i < |init| && init[i].pageStatus == k;
          assert pages[i] == init[i];
        }
      }
    }
  }
}
