# A verified model of the crawler's scheduling and politeness core

`crawler.py` is a breadth-first web crawler restricted to `.nz` domains.
It keeps a frontier of crawl tasks (`Webpage` objects) in a `heapq`
min-heap ordered by `(depth, priority)`. It also keeps two global seen-sets,
`url_seen` and `domain_seen`, and a `STATS` dictionary. A task popped from
the frontier goes through three gates: the `.nz` domain test, the
Content-Type test and the site's robots.txt exclusion list. When it passes,
the page's links are enqueued one level deeper: priority 1 for a domain not
seen before, priority 2 otherwise. The task is then recorded in the
statistics.

This project models that core in Dafny:

- `text.dfy`, modules `Options` and `Text`:
  - the Python string operations the crawler uses: `strip`, `startswith`,
    the `in` substring test, `split('\n')` and its inverse `join`.
- `urls.dfy`, module `Urls`:
  - the part of `urllib.parse.urlparse` that a task keeps, namely the
    scheme and the network location, as CPython 3.11.4 and later compute
    them;
  - the clean-up `urlsplit` does first: leading C0 control characters and
    spaces are stripped, and every tab, carriage return and line feed is
    deleted;
  - the splitting rule, and the round trip with the `scheme://domain`
    formatting the crawler uses.
- `webpage.dfy`, module `Webpages`:
  - the task record;
  - its ordering `__lt__`.
- `heapq.dfy`, module `Heapq`:
  - `heappush` and `heappop` on a list-backed binary heap.
- `robots.dfy`, module `Robots`:
  - the `Disallow:` line parser of `check_robot_txt`;
  - the substring test of `check_if_allowed`.
- `links.dfy`, module `Links`:
  - the link loop of `read_webpage` as a function of the hrefs and the two
    seen-sets;
  - what it pushes and how it changes the seen-sets.
- `stats.dfy`, module `Stats`:
  - the `STATS` dictionary and its per-task update.
- `crawler.dfy`, module `Crawl`:
  - the global crawl state as a class `Crawler`;
  - the seeding loop, `read_webpage`, one iteration of the main loop, the
    main loop, and the whole run from the seed file's text;
  - a ghost record (`Ledger`) of every task pushed, popped and recorded.
    The invariant `Consistent` ties that record to the state: the frontier
    is a heap holding exactly the pushed tasks that were not popped yet
    (counted as multisets), and the seen-sets are exactly the URLs and
    domains pushed so far. The push history also satisfies these:
    - the seeds come first;
    - every later task is one level below the task whose page it was found on;
    - no such URL was pushed before;
    - its priority is 1 exactly when its domain was new.

    Finally, the statistics are the tally of the recorded tasks.
  - a `State` value (frontier, seen-sets, statistics) and the predicate
    `Iteration`, which says what one pass of the main loop does to the
    state for a given network reply. The main loop and the whole run
    return a ghost trace of states, with one `Iteration` per visit.

The network is an input. Each popped task comes with a `PageReply`, which
is one of two things:
- the page fetch failed with an `HTTPError` code or another exception;
- the page was served, with:
  - a Content-Type (empty when the header is missing);
  - a status and a body size;
  - the page's links, already resolved;
  - the outcome of the robots.txt fetch (its lines, or a failure).

The time budget is an input too. Each iteration comes with the elapsed time
seen by the loop test.

Three behaviours of the code are easy to misread:
- **Star paths.** A `Disallow: private*` line yields
  `scheme://domainprivate`. The path is appended to the domain with no
  separator and only the star is removed. A `/privat` entry is not produced
  (`Robots.TrailingStarExample`).
- **Status buckets.** The status counters are not a closed set of `200`,
  `403` and `404`. `dict.get(key, 0)` creates a bucket for any other status,
  including `None` (`Stats.TallyCounts`).
- **Robots errors.** A robots.txt fetch that raises an `HTTPError` is not an
  error-log case. The `except HTTPError` clause of the main loop catches it,
  so the task's status becomes that error's code (`Crawl.Fetched`).

## Model

| member | source | states |
|---|---|---|
| Webpages.LessIsStrictWeakOrder | crawler.py:23-26 | `__lt__` is irreflexive and transitive, and incomparability is transitive and means equal depth and priority, so a heap can be built on it and ties are unordered |
| Webpages.DepthDominates | crawler.py:23-26 | a shallower task always comes first whatever the priorities; at equal depth the lower priority number comes first |
| Webpages.Less | crawler.py:23-26 | `__lt__`: by depth, then by priority; its properties are stated by `Webpages.LessIsStrictWeakOrder` and `Webpages.DepthDominates` |
| Webpages.NewWebpage | crawler.py:12-21 | a new task keeps the URL, depth and priority it is given, takes its scheme and domain from `Urls.Parse` and has no size or status yet |
| Heapq.HeapTopIsMinimal | crawler.py:157 | no element of a heap is smaller than its first element |
| Heapq.HeapPush | crawler.py:94 | `heappush` keeps the heap invariant and adds exactly the pushed task to the multiset of pending tasks |
| Heapq.HeapPop | crawler.py:157 | `heappop` returns a pending task that no pending task precedes, removes exactly that one occurrence, leaves every other pending task in place and keeps the heap invariant |
| Heapq.SiftDown | crawler.py:157 | restoring the heap after the last element replaced the top only rearranges the elements and re-establishes the heap invariant |
| Heapq.SmallerChild | crawler.py:157 | the child that sift-down compares with is not larger than any other child of the same node |
| Text.TrimStartSpec | crawler.py:50 | `lstrip` removes exactly the longest whitespace prefix |
| Text.TrimEndSpec | crawler.py:50 | `rstrip` removes exactly the longest whitespace suffix |
| Text.StripSpec | crawler.py:50 | `strip` keeps the slice that neither starts nor ends with whitespace and has only whitespace around it |
| Text.StripUnpadded | crawler.py:52 | text without surrounding whitespace is its own strip |
| Text.Contains | crawler.py:64 | `pat in s` holds exactly when `pat` occurs somewhere in `s`, at any position |
| Text.Split | crawler.py:124 | `split` yields at least one part; no part contains the separator; joining the parts back with it gives the text |
| Text.SplitJoin | crawler.py:124 | splitting a join of separator-free parts gives the parts back |
| Text.SplitTrailingSeparator | crawler.py:124 | a text ending in a newline splits with a last, empty part |
| Urls.ParseSpec | crawler.py:13-18 | after the clean-up, the scheme is the lower-cased text before a first colon that ends a non-empty run of scheme characters starting with a letter, and the network location is looked for after it; with no such colon the scheme is empty |
| Urls.Parse | crawler.py:13 | `urlparse`, cut down to the scheme and the network location: the cleaned URL, split; stated by `Urls.ParseSpec` |
| Urls.Domain | crawler.py:17 | the network location of the parsed URL, which is the task's domain |
| Urls.CleanSpec | crawler.py:13 | the cleaned URL has no tab or line break and does not start with a control character or space; a URL that is already so is left as it is, so cleaning is idempotent |
| Urls.RemoveUnsafeAppend | crawler.py:13 | tabs and line breaks are deleted one character at a time: deleting from two pieces and joining gives the deletion from the whole |
| Urls.ParseCleaned | crawler.py:13 | parsing a URL is parsing its cleaned form |
| Urls.CleanedDomain | crawler.py:13-18 | `scheme://host` followed by a newline, or preceded by a space, still parses to that scheme and host |
| Urls.SchemeIsScheme | crawler.py:18 | a split-off scheme is non-empty, starts with a letter, and is lower-case scheme characters |
| Urls.ParseFormatted | crawler.py:46 | parsing `scheme://host` followed by a path, query or fragment gives back exactly that scheme and host, when neither holds a tab or a line break |
| Robots.DropTrailingStar | crawler.py:56-57 | exactly one trailing `*` is removed, and a path without one is unchanged |
| Robots.DirectiveEntry | crawler.py:50-58 | the entry one robots.txt line contributes, if any; stated by `Robots.DisallowLine` and the examples |
| Robots.Exclusions | crawler.py:49-58 | the exclusion list of a robots.txt, each line's entry in line order; stated by `Robots.ExclusionsMember`, `Robots.ExclusionsAppend` and `Robots.ExclusionsStartWithSite` |
| Robots.CheckRobotsTxt | crawler.py:49-58 | the loop over the robots lines builds exactly the line-by-line list of entries `Exclusions` |
| Robots.ExclusionsMember | crawler.py:49-58 | a string is an exclusion entry exactly when some line contributes it |
| Robots.ExclusionsAppend | crawler.py:49-58 | every line contributes on its own and entries keep line order |
| Robots.ExclusionsStartWithSite | crawler.py:58 | every exclusion entry starts with `scheme://domain` |
| Robots.DisallowLine | crawler.py:50-58 | a `Disallow: p` line contributes nothing when `p` starts with `/`, and otherwise `scheme://domain` directly followed by `p` without one trailing `*` |
| Robots.RootPathExample | crawler.py:54-55 | `Disallow: /private` contributes nothing |
| Robots.TrailingStarExample | crawler.py:56-58 | `Disallow: private*` contributes `scheme://domainprivate` |
| Robots.DoubleStarExample | crawler.py:56-57 | `Disallow: a**` keeps one star |
| Robots.BareStarExample | crawler.py:56-58 | `Disallow: *` contributes the bare `scheme://domain` |
| Robots.SkippedLineExamples | crawler.py:51-53 | an empty path contributes nothing, and a lower-case `disallow:` is not a directive |
| Robots.CheckIfAllowed | crawler.py:62-66 | the verdict is false exactly when some entry is a substring of the URL, anywhere in it, and true for an empty list |
| Robots.StarExcludesSite | crawler.py:62-66 | after a `Disallow: *` line every URL containing `scheme://domain` is refused |
| Robots.RootPathsExcludeNothing | crawler.py:54-55 | a robots.txt whose directives all have `/` paths excludes nothing, so every URL is allowed |
| Links.LinkTurn | crawler.py:85-94 | one turn of the link loop: a seen href changes nothing, any other is marked seen with its domain and its task is pushed |
| Links.Child | crawler.py:88-93 | the task for a new href: one level below the page, priority 1 for an unseen domain and 2 otherwise; stated by `Links.EnqueueLinksPriority` |
| Links.EnqueueLinks | crawler.py:85-94 | the link loop as a function of the hrefs and the seen-sets; stated by `Links.EnqueueLinksSeen`, `Links.EnqueueLinksFresh` and `Links.EnqueueLinksPriority` |
| Links.EnqueueLinksSeen | crawler.py:85-91 | after the link loop every href is a seen URL, and exactly the domains of the pushed tasks have been added; both sets only grow |
| Links.EnqueueLinksFresh | crawler.py:85-94 | the pushed tasks are exactly the hrefs not seen before, each once: distinct URLs, none seen before |
| Links.EnqueueLinksPriority | crawler.py:88-93 | every pushed task is a new task one level below the page, with priority 1 exactly when its domain was seen neither before nor for an earlier link, and 2 otherwise |
| Stats.TallyCounts | crawler.py:166-169 | after recording tasks from the initial dictionary: the URL count is their number; each status bucket counts the tasks with that status; there are buckets for `200`, `403`, `404` and every status that occurred (`None` included); the total size is the sum of the sizes that were set |
| Stats.Record | crawler.py:166-169 | the statistics update for one recorded task; stated by `Stats.TallyCounts` |
| Stats.Tally | crawler.py:136-169 | the statistics after recording tasks in order from the initial dictionary; stated by `Stats.TallyCounts` |
| Crawl.Outcome | crawler.py:70-75 | a task is read exactly when its domain contains `.nz`, the page is served with a `text/html` Content-Type, robots.txt is served and no entry occurs in the URL; it raises exactly when its domain contains `.nz` and either the page fetch fails, or the page is `text/html` and the robots.txt fetch fails; a non-`.nz` domain is skipped before any fetch; a raise carries the page's or the robots fetch's exception |
| Crawl.EmptySeedSkipped | crawler.py:36-37 | the empty seed from a trailing newline fails the `.nz` test |
| Crawl.Discovered | crawler.py:81-94 | what the link loop pushes and how it changes the seen-sets for a popped task: nothing unless the page is read, `Links.EnqueueLinks` when it is |
| Crawl.Fetched | crawler.py:76-78 | the recorded task keeps its URL, depth, priority, domain and scheme; a read page gets its size and status, an `HTTPError` gets its code as status, anything else leaves both unset |
| Crawl.SeedTasksAt | crawler.py:146-150 | seeding makes one depth-0, priority-1 task per seed line, in order, repeated and empty lines included |
| Crawl.HistoryExtend | crawler.py:81-94 | pushing what the link loop finds keeps the push history, and the seen-sets it leaves are the URLs and domains of the extended history |
| Crawl.HistoryAppend | crawler.py:85-94 | appending new tasks one level below a page, with fresh distinct URLs and the link loop's priorities, keeps the push history |
| Crawl.SeedsAreShallowest | crawler.py:88 | a pushed task has depth 0 exactly when it is a seed, and a task found on a page is one level below that page |
| Crawl.NoUrlPushedTwice | crawler.py:85-88 | no task found on a page has the URL of any earlier pushed task |
| Crawl.InitialConsistent | crawler.py:132-144 | the empty state with the initial statistics satisfies the crawl invariant |
| Crawl.SeedPushed | crawler.py:146-150 | pushing one seed keeps the crawl invariant, including the balance of pending, pushed and popped tasks |
| Crawl.Stepped | crawler.py:155-169 | one iteration of the main loop keeps the crawl invariant: the popped task joins the popped list and the tasks found join the pushed list, so the frontier stays their difference |
| Crawl.Iteration | crawler.py:156-169 | one pass of the main loop on the state for a given reply: a minimal pending task is popped, the link loop's tasks are pushed, the seen-sets become the loop's, and the task is recorded unless skipped |
| Crawl.Crawler.constructor | crawler.py:132-144 | the crawl starts with nothing seen, an empty frontier and the initial statistics |
| Crawl.Crawler.SeedFrontier | crawler.py:146-150 | every seed line is pushed in order as a depth-0, priority-1 task: the frontier gains exactly these tasks and stays a heap, the seen URLs gain every line and the seen domains gain their domains; the invariant holds |
| Crawl.Crawler.PushSeed | crawler.py:147-150 | one seed line is marked seen, the domain of its task is marked seen, and its task is pushed onto the heap; the invariant holds |
| Crawl.Crawler.ReadWebpage | crawler.py:69-95 | the gates run in order; a skipped or raising task leaves the seen-sets, the frontier and the task unchanged; a read page gets its size and status, and the link loop does what `EnqueueLinks` says |
| Crawl.Crawler.EnqueueLinksLoop | crawler.py:81-94 | the in-place link loop leaves the seen-sets `EnqueueLinks` gives and pushes exactly its tasks onto the heap |
| Crawl.Crawler.EnqueueLink | crawler.py:85-94 | an unseen href is marked seen, its domain is marked seen, and its task, with priority 2 for a known domain, is pushed |
| Crawl.Crawler.Visit | crawler.py:156-169 | one iteration pops a task that no pending task precedes, reads it as `Outcome` and `Fetched` say, pushes what the link loop finds, and records the task unless it was skipped |
| Crawl.Crawler.Step | crawler.py:156-169 | one iteration, as `Iteration` states it: the task leaves the frontier as a minimal pending task, the link loop's tasks join it, and the seen-sets and statistics change accordingly; the invariant holds and the record of pushed, popped and recorded tasks is extended |
| Crawl.Crawler.Crawl | crawler.py:155-169 | the loop runs while the frontier is non-empty and the elapsed time is under 18000 seconds; it stops on an empty frontier or a spent budget; the trace it returns has one `Iteration` per step, driven by that visit's reply, from the state before the loop to the state after it |
| Crawl.Run | crawler.py:123-169 | the seed text is split at newlines; after seeding, the frontier is a heap of exactly one task per line and every line and its domain are seen; then each iteration of the main loop is an `Iteration` on the reply of its visit |

## Left out

- **Network I/O is not modelled.** This covers `urlopen` of pages and of
  robots.txt, timeouts, reading the body and UTF-8 decoding. Their results
  arrive as a `PageReply`.
- **`splitlines` of robots.txt is not modelled.** The robots file arrives
  as its lines.
- **Link resolution is left out.** BeautifulSoup link extraction, the
  `http://`/`https://` test and `urljoin` resolution are library work. The
  page's hrefs arrive already resolved.
- **Only part of `urlparse` is modelled.** The model covers the clean-up,
  the scheme rule and the network location rule of CPython 3.11.4 and
  later. Older versions behave differently: they do not strip leading
  blanks, and before 3.9.5 they keep tabs and line breaks. The model does
  not cover other validity checks `urlsplit` performs, such as its bracket
  and port checks, which raise `ValueError`.
- **No logging or output.** File logging (`store_webpage_metadata`,
  `store_error_logs`, `store_stats`), the log headers, `datetime` formatting
  and `print` are not modelled.
- **No wall clock.** Time is replaced by the elapsed times in the sequence
  of visits. The `TraceEnded` ending, when that sequence runs out, has no
  counterpart in the source.
- **Mid-read exceptions are not modelled.** An exception raised while
  reading the body or inside the link loop, after some links were pushed,
  is left out.
- **Some task fields are not modelled.** `__eq__` is unused by `heapq`,
  which only calls `__lt__`. `content_type` is never read, and
  `parsed_url` is not read after construction.
- **Tasks are values.** A task is updated by value, and the pending copy of
  a task is never aliased by the one being changed.
- Heapq.HeapPop: the model states which task may come out, but not
  `heapq`'s exact rearrangement among tasks with equal keys. `heapq`'s
  `_siftup`/`_siftdown` are replaced by a textbook sift-down with the same
  ordering.
