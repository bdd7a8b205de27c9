/** The crawl itself: the global crawl state (seen URLs, seen domains,
    the frontier heap and the statistics), the seeding loop, the gates and
    link loop of `read_webpage`, one iteration of the main loop and the
    main loop. Everything the crawl learns from the network arrives as a
    `PageReply` per popped task; the time budget arrives as the elapsed
    time observed at the top of each iteration. */
module Crawl {
  import opened Options
  import opened Text
  import opened Webpages
  import opened Heapq
  import opened Robots
  import opened Links
  import opened Stats

  /** An exception out of a fetch: an `HTTPError` with its code, or any
      other exception. */
  datatype Failure = HttpError(code: nat) | OtherError

  /** What fetching a site's robots.txt gives: its lines, or a failure. */
  datatype RobotsReply = RobotsServed(lines: seq<string>) | RobotsFailed(failure: Failure)

  /** What the network does for one popped task: the page fetch fails, or
      it answers with a Content-Type (empty when the header is missing),
      a status, a body size, the links of the body with their targets
      resolved, and the answer to the robots.txt fetch of the site. */
  datatype PageReply =
    | PageFailed(failure: Failure)
    | PageServed(contentType: string, status: nat, size: nat, hrefs: seq<string>, robots: RobotsReply)

  /** How `read_webpage` ends: a gate returned false, it returned true,
      or it raised. */
  datatype ReadOutcome = Skipped | Read | Raised(failure: Failure)

  /** One iteration of the main loop: the seconds elapsed since the start
      when the loop condition is tested, and the network's reply for the
      task that is then popped. */
  datatype Visit = Visit(elapsed: real, reply: PageReply)

  /** Why the main loop stopped: the frontier is empty, the time budget
      is spent, or the given visits ran out. */
  datatype Ending = Drained | TimedOut | TraceEnded

  /** The crawl's time budget in seconds. */
  const CRAWL_BUDGET: real := 18000.0

  /** How `read_webpage` ends for `task`: a domain without `.nz` is
      skipped before any fetch; then a failing page fetch raises; a page
      whose Content-Type does not contain `text/html` is skipped; a
      failing robots.txt fetch raises; a URL refused by the site's
      exclusion list is skipped; otherwise the page is read. */
  function Outcome(task: Webpage, reply: PageReply): (r: ReadOutcome)
    ensures r == Read <==>
              Contains(task.domain, ".nz") && reply.PageServed? && Contains(reply.contentType, "text/html")
              && reply.robots.RobotsServed?
              && Allowed(task.url, Exclusions(reply.robots.lines, task.scheme, task.domain))
    ensures !Contains(task.domain, ".nz") ==> r == Skipped
    ensures r.Raised? <==>
              Contains(task.domain, ".nz")
              && (reply.PageFailed? || (Contains(reply.contentType, "text/html") && reply.robots.RobotsFailed?))
    ensures r.Raised? ==> (reply.PageFailed? && r.failure == reply.failure)
                          || (reply.PageServed? && reply.robots.RobotsFailed? && r.failure == reply.robots.failure)
  {
    if !Contains(task.domain, ".nz") then Skipped
    else match reply
      case PageFailed(f) => Raised(f)
      case PageServed(contentType, _, _, _, robots) =>
        if !Contains(contentType, "text/html") then Skipped
        else match robots
          case RobotsFailed(f) => Raised(f)
          case RobotsServed(lines) =>
            if Allowed(task.url, Exclusions(lines, task.scheme, task.domain)) then Read else Skipped
  }

  /** The empty seed that a trailing newline of the seed file gives has
      no domain, so it fails the `.nz` test and is skipped. */
  lemma EmptySeedSkipped(reply: PageReply)
    ensures Outcome(NewWebpage("", 0, 1), reply) == Skipped
  {
    assert NewWebpage("", 0, 1).domain == "";
    assert !Contains("", ".nz") by {
      assert forall i :: !OccursAt("", ".nz", i);
    }
  }

  /** What the link loop does for `task`: nothing unless the page is read,
      and then `EnqueueLinks` on the links of the page. */
  function Discovered(task: Webpage, reply: PageReply, urlSeen: set<string>, domainSeen: set<string>): Discovery {
    if Outcome(task, reply) == Read then EnqueueLinks(task.depth, reply.hrefs, urlSeen, domainSeen)
    else Discovery(urlSeen, domainSeen, [])
  }

  /** The task as the main loop records it: a page that was read has its
      body size and status; after an `HTTPError` the status is the error
      code and the size is unset; after any other exception both stay
      unset. */
  function Fetched(task: Webpage, reply: PageReply): (page: Webpage)
    ensures page.url == task.url && page.depth == task.depth && page.priority == task.priority
    ensures page.domain == task.domain && page.scheme == task.scheme
    ensures page.pageSize == if Outcome(task, reply) == Read then Some(reply.size) else task.pageSize
    ensures page.pageStatus == match Outcome(task, reply)
                               case Read => Some(reply.status)
                               case Raised(HttpError(c)) => Some(c)
                               case _ => task.pageStatus
  {
    match Outcome(task, reply)
    case Read => task.(pageSize := Some(reply.size), pageStatus := Some(reply.status))
    case Raised(HttpError(c)) => task.(pageStatus := Some(c))
    case _ => task
  }

  /** Task `j` of the push history, pushed while reading the page of task
      `parentOf[j]`: a new task one level below its parent, whose URL was
      never pushed before, with priority 1 exactly when no earlier task had
      its domain and priority 2 otherwise. */
  ghost predicate ChildAt(pushed: seq<Webpage>, parentOf: seq<nat>, j: nat)
    requires j < |pushed| == |parentOf|
  {
    parentOf[j] < j
    && pushed[j] == NewWebpage(pushed[j].url, pushed[parentOf[j]].depth + 1, pushed[j].priority)
    && pushed[j].url !in UrlsOf(pushed[..j])
    && (pushed[j].priority == 1 <==> pushed[j].domain !in DomainsOf(pushed[..j]))
    && (pushed[j].priority == 1 || pushed[j].priority == 2)
  }

  /** Task `j` of the push history is a seed: a new task at depth 0 with
      priority 1. */
  ghost predicate SeedAt(pushed: seq<Webpage>, j: nat)
    requires j < |pushed|
  {
    pushed[j] == NewWebpage(pushed[j].url, 0, 1)
  }

  /** Every task ever pushed, in push order: first `seedCount` seeds
      (repeated seeds included), and then tasks found on pages. */
  ghost predicate History(pushed: seq<Webpage>, seedCount: nat, parentOf: seq<nat>) {
    seedCount <= |pushed| && |parentOf| == |pushed|
    && (forall j :: 0 <= j < seedCount ==> SeedAt(pushed, j))
    && (forall j :: seedCount <= j < |pushed| ==> ChildAt(pushed, parentOf, j))
  }

  /** Pushing one more seed keeps the history. */
  lemma SeedExtend(pushed: seq<Webpage>, seedCount: nat, parentOf: seq<nat>, seed: string)
    requires History(pushed, seedCount, parentOf) && seedCount == |pushed|
    ensures History(pushed + [NewWebpage(seed, 0, 1)], seedCount + 1, parentOf + [0])
  {
    var pushed' := pushed + [NewWebpage(seed, 0, 1)];
    forall j | 0 <= j < seedCount + 1 ensures SeedAt(pushed', j) {
      if j < seedCount {
        assert SeedAt(pushed, j);
        assert pushed'[j] == pushed[j];
      }
    }
  }

  /** The tasks the seeding loop pushes for `seeds`, in order. */
  function SeedTasks(seeds: seq<string>): seq<Webpage> {
    if seeds == [] then [] else SeedTasks(seeds[..|seeds| - 1]) + [NewWebpage(seeds[|seeds| - 1], 0, 1)]
  }

  /** One task per seed line, in line order, each a new task for that
      line at depth 0 with priority 1; repeated and empty lines are not
      dropped. */
  lemma {:induction false} SeedTasksAt(seeds: seq<string>)
    ensures |SeedTasks(seeds)| == |seeds|
    ensures forall k :: 0 <= k < |seeds| ==> SeedTasks(seeds)[k] == NewWebpage(seeds[k], 0, 1)
    decreases |seeds|
  {
    if seeds != [] {
      var init := seeds[..|seeds| - 1];
      SeedTasksAt(init);
      assert forall k :: 0 <= k < |init| ==> init[k] == seeds[k];
    }
  }

  /** The seed tasks of one more line: that line's task appended. */
  lemma SeedTasksNext(seeds: seq<string>, i: nat)
    requires i < |seeds|
    ensures var t := NewWebpage(seeds[i], 0, 1);
            SeedTasks(seeds[..i + 1]) == SeedTasks(seeds[..i]) + [t]
            && Elems(seeds[..i + 1]) == Elems(seeds[..i]) + {seeds[i]}
  {
    var t := NewWebpage(seeds[i], 0, 1);
    assert seeds[..i + 1] == seeds[..i] + [seeds[i]] && seeds[..i + 1][..i] == seeds[..i];
  }

  /** Appending one task after two lists of tasks. */
  lemma AppendOne(a: seq<Webpage>, b: seq<Webpage>, t: Webpage)
    ensures (a + b) + [t] == a + (b + [t])
  {
  }

  /** `n` copies of `x`. */
  function Repeat(x: nat, n: nat): (r: seq<nat>)
    ensures |r| == n && forall k :: 0 <= k < n ==> r[k] == x
  {
    if n == 0 then [] else Repeat(x, n - 1) + [x]
  }

  /** Pushing what the link loop finds on the page of an earlier task
      keeps the history, and the seen sets the loop leaves are exactly the
      URLs and the domains of the extended history. */
  lemma HistoryExtend(pushed: seq<Webpage>, seedCount: nat, parentOf: seq<nat>, p: nat, hrefs: seq<string>)
    requires History(pushed, seedCount, parentOf) && p < |pushed|
    ensures var d := EnqueueLinks(pushed[p].depth, hrefs, UrlsOf(pushed), DomainsOf(pushed));
            History(pushed + d.children, seedCount, parentOf + Repeat(p, |d.children|))
            && d.urlSeen == UrlsOf(pushed + d.children)
            && d.domainSeen == DomainsOf(pushed + d.children)
  {
    var depth := pushed[p].depth;
    var d := EnqueueLinks(depth, hrefs, UrlsOf(pushed), DomainsOf(pushed));
    EnqueueLinksSeen(depth, hrefs, UrlsOf(pushed), DomainsOf(pushed));
    EnqueueLinksFresh(depth, hrefs, UrlsOf(pushed), DomainsOf(pushed));
    EnqueueLinksPriority(depth, hrefs, UrlsOf(pushed), DomainsOf(pushed));
    UrlsDomainsOfAppend(pushed, d.children);
    HistoryAppend(pushed, seedCount, parentOf, p, d.children);
  }

  /** Appending tasks found on the page of task `p` keeps the history
      when they are new tasks one level below it, with distinct URLs none
      of which was pushed before, and with the priorities the link loop
      gives. */
  lemma HistoryAppend(pushed: seq<Webpage>, seedCount: nat, parentOf: seq<nat>, p: nat, cs: seq<Webpage>)
    requires History(pushed, seedCount, parentOf) && p < |pushed|
    requires DistinctUrls(cs) && UrlsOf(cs) !! UrlsOf(pushed)
    requires DiscoveredAt(cs, pushed[p].depth + 1, DomainsOf(pushed))
    ensures History(pushed + cs, seedCount, parentOf + Repeat(p, |cs|))
  {
    var pushed' := pushed + cs;
    var parentOf' := parentOf + Repeat(p, |cs|);
    forall j | 0 <= j < seedCount ensures SeedAt(pushed', j) {
      assert SeedAt(pushed, j);
      assert pushed'[j] == pushed[j];
    }
    forall j | seedCount <= j < |pushed'| ensures ChildAt(pushed', parentOf', j) {
      if j < |pushed| {
        EarlierChildKept(pushed, parentOf, cs, Repeat(p, |cs|), j);
      } else {
        LaterChildAdded(pushed, parentOf, cs, Repeat(p, |cs|), p, j);
      }
    }
  }

  /** Appending to the history does not change what holds of an earlier
      task found on a page. */
  lemma EarlierChildKept(pushed: seq<Webpage>, parentOf: seq<nat>, cs: seq<Webpage>, ps: seq<nat>, j: nat)
    requires j < |pushed| == |parentOf| && |cs| == |ps| && ChildAt(pushed, parentOf, j)
    ensures ChildAt(pushed + cs, parentOf + ps, j)
  {
    var pushed' := pushed + cs;
    assert pushed'[..j] == pushed[..j];
    assert pushed'[j] == pushed[j] && (parentOf + ps)[j] == parentOf[j];
    assert pushed'[parentOf[j]] == pushed[parentOf[j]];
  }

  /** Task `j` of the history `pushed` extended by the tasks `cs` the
      link loop found on the page of task `p`, when it is one of `cs`: a
      new task one level below task `p`, not among the URLs before it,
      and with priority 1 exactly when its domain is not among the domains
      before it. */
  lemma LaterChildAdded(pushed: seq<Webpage>, parentOf: seq<nat>, cs: seq<Webpage>, ps: seq<nat>, p: nat, j: nat)
    requires p < |pushed| == |parentOf| && |pushed| <= j < |pushed| + |cs| && |cs| == |ps| && ps[j - |pushed|] == p
    requires DistinctUrls(cs) && UrlsOf(cs) !! UrlsOf(pushed)
    requires DiscoveredAt(cs, pushed[p].depth + 1, DomainsOf(pushed))
    ensures ChildAt(pushed + cs, parentOf + ps, j)
  {
    var pushed' := pushed + cs;
    var k := j - |pushed|;
    assert pushed'[j] == cs[k] && (parentOf + ps)[j] == p && pushed'[p] == pushed[p];
    assert pushed'[..j] == pushed + cs[..k];
    SeenBeforeChild(pushed, cs, k);
  }

  /** What was seen before child `k` of `cs`: its URL is not among the
      earlier URLs, and the earlier domains are those of the history and
      of the earlier children. */
  lemma SeenBeforeChild(pushed: seq<Webpage>, cs: seq<Webpage>, k: nat)
    requires k < |cs| && DistinctUrls(cs) && UrlsOf(cs) !! UrlsOf(pushed)
    ensures cs[k].url !in UrlsOf(pushed + cs[..k])
    ensures DomainsOf(pushed + cs[..k]) == DomainsOf(pushed) + DomainsOf(cs[..k])
  {
    UrlsDomainsOfAppend(pushed, cs[..k]);
    assert cs[k].url in UrlsOf(cs);
    forall i | 0 <= i < k ensures cs[..k][i].url != cs[k].url {
      assert cs[..k][i] == cs[i];
    }
  }

  /** The depth of a pushed task is 0 exactly for the seeds, and a task
      found on a page is one level below that page. */
  lemma SeedsAreShallowest(pushed: seq<Webpage>, seedCount: nat, parentOf: seq<nat>, j: nat)
    requires History(pushed, seedCount, parentOf) && j < |pushed|
    ensures pushed[j].depth == 0 <==> j < seedCount
    ensures j >= seedCount ==> parentOf[j] < j && pushed[j].depth == pushed[parentOf[j]].depth + 1
  {
    if j >= seedCount {
      assert ChildAt(pushed, parentOf, j);
    } else {
      assert SeedAt(pushed, j);
    }
  }

  /** No URL found on a page is pushed twice, nor pushed again after a
      seed with the same URL. */
  lemma NoUrlPushedTwice(pushed: seq<Webpage>, seedCount: nat, parentOf: seq<nat>, i: nat, j: nat)
    requires History(pushed, seedCount, parentOf) && i < j < |pushed| && j >= seedCount
    ensures pushed[i].url != pushed[j].url
  {
    assert ChildAt(pushed, parentOf, j);
    assert pushed[..j][i] == pushed[i];
  }

  /** What the crawl has done so far, kept for the proofs: every task
      pushed, in push order, of which the first `seedCount` are seeds; for
      each task found on a page, the index in `pushed` of the task whose
      page it was found on; every task popped, in pop order; and every
      task recorded in the statistics, in order. */
  datatype Ledger = Ledger(pushed: seq<Webpage>, seedCount: nat, parentOf: seq<nat>,
                           popped: seq<Webpage>, recorded: seq<Webpage>)

  /** The crawl invariant: the frontier is a heap holding exactly the
      tasks pushed and not yet popped (as multisets, so a task pushed twice
      and popped once is pending once); the seen sets are the URLs and the
      domains of all pushed tasks; the push history is well formed; and the
      statistics are the tally of the recorded tasks. */
  ghost predicate Consistent(urls: seq<Webpage>, urlSeen: set<string>, domainSeen: set<string>, stats: Stats, l: Ledger) {
    IsHeap(urls)
    && multiset(urls) + multiset(l.popped) == multiset(l.pushed)
    && urlSeen == UrlsOf(l.pushed) && domainSeen == DomainsOf(l.pushed)
    && History(l.pushed, l.seedCount, l.parentOf)
    && stats == Tally(l.recorded)
  }

  /** The state before seeding is consistent. */
  lemma InitialConsistent()
    ensures Consistent([], {}, {}, INITIAL, Ledger([], 0, [], [], []))
  {
  }

  /** One pass of the seeding loop keeps the invariant: the seed is
      marked seen, its domain is marked seen and its task is pushed. */
  lemma SeedPushed(urls: seq<Webpage>, urls': seq<Webpage>, urlSeen: set<string>, domainSeen: set<string>,
                   stats: Stats, l: Ledger, seed: string)
    requires Consistent(urls, urlSeen, domainSeen, stats, l) && l.seedCount == |l.pushed|
    requires IsHeap(urls') && multiset(urls') == multiset(urls) + multiset{NewWebpage(seed, 0, 1)}
    ensures var task := NewWebpage(seed, 0, 1);
            Consistent(urls', urlSeen + {seed}, domainSeen + {task.domain}, stats,
                       l.(pushed := l.pushed + [task], seedCount := l.seedCount + 1, parentOf := l.parentOf + [0]))
  {
    var task := NewWebpage(seed, 0, 1);
    assert multiset(l.pushed + [task]) == multiset(l.pushed) + multiset{task};
    SeedExtend(l.pushed, l.seedCount, l.parentOf, seed);
    UrlsDomainsOfCons(task, []);
    UrlsDomainsOfAppend(l.pushed, [task]);
  }

  /** One iteration of the main loop keeps the invariant: a task of the
      frontier (pushed as task `p`) is popped, the link loop pushes what
      `Discovered` says, and unless the task was skipped it is recorded as
      `Fetched` says. */
  lemma Stepped(urls: seq<Webpage>, urls': seq<Webpage>, urlSeen: set<string>,
                domainSeen: set<string>, stats: Stats, l: Ledger, p: nat, reply: PageReply)
    requires Consistent(urls, urlSeen, domainSeen, stats, l) && p < |l.pushed|
    requires var d := Discovered(l.pushed[p], reply, urlSeen, domainSeen);
             IsHeap(urls') && multiset(urls') + multiset{l.pushed[p]} == multiset(urls) + multiset(d.children)
    ensures var task := l.pushed[p];
            var d := Discovered(task, reply, urlSeen, domainSeen);
            var page := Fetched(task, reply);
            var recorded := Outcome(task, reply) != Skipped;
            Consistent(urls', d.urlSeen, d.domainSeen, if recorded then Record(stats, page) else stats,
                       Ledger(l.pushed + d.children, l.seedCount, l.parentOf + Repeat(p, |d.children|),
                              l.popped + [task], if recorded then l.recorded + [page] else l.recorded))
  {
    var task := l.pushed[p];
    var d := Discovered(task, reply, urlSeen, domainSeen);
    calc {
      multiset(urls') + multiset(l.popped + [task]);
      (multiset(urls') + multiset{task}) + multiset(l.popped);
      (multiset(urls) + multiset(l.popped)) + multiset(d.children);
      multiset(l.pushed + d.children);
    }
    if Outcome(task, reply) == Read {
      HistoryExtend(l.pushed, l.seedCount, l.parentOf, p, reply.hrefs);
    } else {
      assert l.pushed + d.children == l.pushed && l.parentOf + Repeat(p, |d.children|) == l.parentOf;
    }
    var page := Fetched(task, reply);
    assert (l.recorded + [page])[..|l.recorded|] == l.recorded;
  }

  /** With nothing popped in between, the frontier gains exactly the
      tasks pushed in between. */
  lemma PendingGrows(urls0: seq<Webpage>, urls: seq<Webpage>, popped: seq<Webpage>, pushed0: seq<Webpage>, cs: seq<Webpage>)
    requires multiset(urls0) + multiset(popped) == multiset(pushed0)
    requires multiset(urls) + multiset(popped) == multiset(pushed0 + cs)
    ensures multiset(urls) == multiset(urls0) + multiset(cs)
  {
    assert multiset(pushed0 + cs) == multiset(pushed0) + multiset(cs);
    forall t ensures multiset(urls)[t] == (multiset(urls0) + multiset(cs))[t] {
      calc {
        multiset(urls)[t] + multiset(popped)[t];
        (multiset(urls) + multiset(popped))[t];
        (multiset(pushed0) + multiset(cs))[t];
        (multiset(urls0) + multiset(popped))[t] + multiset(cs)[t];
        multiset(urls0)[t] + multiset(popped)[t] + multiset(cs)[t];
      }
    }
  }

  /** The crawl state that the source keeps in its globals: the frontier,
      the two seen sets and the statistics. */
  datatype State = State(urls: seq<Webpage>, urlSeen: set<string>, domainSeen: set<string>, stats: Stats)

  /** One iteration of the main loop from `s` to `s'`, given the network's
      `reply`: `task` is a pending task that no pending task precedes; it
      leaves the frontier and the tasks the link loop finds on its page
      join it; the seen sets become those the link loop leaves; and unless
      a gate skipped the task, it is recorded as `Fetched` says. */
  ghost predicate Iteration(s: State, reply: PageReply, task: Webpage, s': State) {
    var d := Discovered(task, reply, s.urlSeen, s.domainSeen);
    task in s.urls && (forall u :: u in s.urls ==> !Less(u, task))
    && IsHeap(s'.urls)
    && multiset(s'.urls) + multiset{task} == multiset(s.urls) + multiset(d.children)
    && s'.urlSeen == d.urlSeen && s'.domainSeen == d.domainSeen
    && s'.stats == if Outcome(task, reply) == Skipped then s.stats else Record(s.stats, Fetched(task, reply))
  }

  /** A run of the main loop: `trace` holds the state before each
      iteration and after the last; iteration `k` pops `tasks[k]` and is
      given the reply of `visits[k]`. */
  ghost predicate Iterations(trace: seq<State>, visits: seq<Visit>, tasks: seq<Webpage>) {
    |trace| == |tasks| + 1 && |tasks| <= |visits|
    && forall k :: 0 <= k < |tasks| ==> Iteration(trace[k], visits[k].reply, tasks[k], trace[k + 1])
  }

  /** A run of the main loop extended by one more iteration. */
  lemma IterationsNext(trace: seq<State>, visits: seq<Visit>, tasks: seq<Webpage>, task: Webpage, s': State)
    requires Iterations(trace, visits, tasks) && |tasks| < |visits|
    requires Iteration(trace[|tasks|], visits[|tasks|].reply, task, s')
    ensures Iterations(trace + [s'], visits, tasks + [task])
  {
    var trace', tasks' := trace + [s'], tasks + [task];
    forall k | 0 <= k < |tasks'| ensures Iteration(trace'[k], visits[k].reply, tasks'[k], trace'[k + 1]) {
      assert trace'[k] == trace[k] && tasks'[k] == (if k < |tasks| then tasks[k] else task);
    }
  }

  /** The state after the seeding loop on `seeds` from the initial state:
      the frontier is a heap of exactly the seed tasks, every seed line and
      every seed domain is seen, and nothing is recorded. */
  ghost predicate Seeded(s: State, seeds: seq<string>) {
    IsHeap(s.urls) && multiset(s.urls) == multiset(SeedTasks(seeds))
    && s.urlSeen == Elems(seeds) && s.domainSeen == DomainsOf(SeedTasks(seeds))
    && s.stats == INITIAL
  }

  /** The global state of a crawl. */
  class Crawler {
    /** `url_seen` */
    var urlSeen: set<string>
    /** `domain_seen` */
    var domainSeen: set<string>
    /** `urls`, the frontier */
    var urls: seq<Webpage>
    /** `STATS` */
    var stats: Stats
    /** What the crawl has done so far. */
    ghost var ledger: Ledger

    ghost predicate Valid()
      reads this
    {
      Consistent(urls, urlSeen, domainSeen, stats, ledger)
    }

    /** The crawl invariant while only seeds have been pushed. */
    ghost predicate Seeding()
      reads this
    {
      Valid() && ledger.seedCount == |ledger.pushed|
    }

    ghost function Snapshot(): State
      reads this
    {
      State(urls, urlSeen, domainSeen, stats)
    }

    /** The state before seeding: nothing seen, an empty frontier and the
        initial statistics. */
    constructor ()
      ensures Valid()
      ensures urlSeen == {} && domainSeen == {} && urls == [] && stats == INITIAL
      ensures ledger == Ledger([], 0, [], [], [])
    {
      urlSeen, domainSeen, urls, stats := {}, {}, [], INITIAL;
      ledger := Ledger([], 0, [], [], []);
      InitialConsistent();
    }

    /** The seeding loop over the lines of the seed file: every line, an
        empty one and repeated ones included, is marked seen, its domain is
        marked seen and a task at depth 0 with priority 1 is pushed for it. */
    method SeedFrontier(seeds: seq<string>)
      requires Seeding()
      modifies this
      ensures Seeding()
      ensures ledger.pushed == old(ledger.pushed) + SeedTasks(seeds)
      ensures IsHeap(urls) && multiset(urls) == multiset(old(urls)) + multiset(SeedTasks(seeds))
      ensures urlSeen == old(urlSeen) + Elems(seeds)
      ensures domainSeen == old(domainSeen) + DomainsOf(SeedTasks(seeds))
      ensures ledger.popped == old(ledger.popped) && ledger.recorded == old(ledger.recorded) && stats == old(stats)
    {
      var i := 0;
      while i < |seeds|
        invariant 0 <= i <= |seeds|
        invariant Seeding()
        invariant ledger.pushed == old(ledger.pushed) + SeedTasks(seeds[..i])
        invariant urlSeen == old(urlSeen) + Elems(seeds[..i])
        invariant ledger.popped == old(ledger.popped) && ledger.recorded == old(ledger.recorded) && stats == old(stats)
      {
        var seed := seeds[i];
        SeedTasksNext(seeds, i);
        PushSeed(seed);
        AppendOne(old(ledger.pushed), SeedTasks(seeds[..i]), NewWebpage(seed, 0, 1));
        i := i + 1;
      }
      assert seeds[..i] == seeds;
      UrlsDomainsOfAppend(old(ledger.pushed), SeedTasks(seeds));
      PendingGrows(old(urls), urls, ledger.popped, old(ledger.pushed), SeedTasks(seeds));
    }

    /** One turn of the seeding loop: the line is marked seen, the domain
        of its task is marked seen, and its task is pushed. */
    method PushSeed(seed: string)
      requires Seeding()
      modifies this
      ensures Seeding()
      ensures ledger.pushed == old(ledger.pushed) + [NewWebpage(seed, 0, 1)]
      ensures ledger.seedCount == old(ledger.seedCount) + 1 && ledger.parentOf == old(ledger.parentOf) + [0]
      ensures ledger.popped == old(ledger.popped) && ledger.recorded == old(ledger.recorded)
      ensures IsHeap(urls) && multiset(urls) == multiset(old(urls)) + multiset{NewWebpage(seed, 0, 1)}
      ensures urlSeen == old(urlSeen) + {seed} && domainSeen == old(domainSeen) + {NewWebpage(seed, 0, 1).domain}
      ensures stats == old(stats)
    {
      ghost var urls0, urlSeen0, domainSeen0 := urls, urlSeen, domainSeen;
      urlSeen := urlSeen + {seed};
      var task := NewWebpage(seed, 0, 1);
      urls := HeapPush(urls, task);
      domainSeen := domainSeen + {task.domain};
      SeedPushed(urls0, urls, urlSeen0, domainSeen0, stats, ledger, seed);
      ledger := ledger.(pushed := ledger.pushed + [task], seedCount := ledger.seedCount + 1, parentOf := ledger.parentOf + [0]);
    }

    /** `read_webpage` for a popped task: the gates in order, then the
        size and status of the page and the link loop. A skipped task and
        a raising fetch leave the seen sets, the frontier and the task as
        they were; a read page gets its size and status, and the link loop
        does what `EnqueueLinks` says, pushing its new tasks on the
        frontier. */
    method ReadWebpage(task: Webpage, reply: PageReply) returns (outcome: ReadOutcome, page: Webpage)
      requires IsHeap(urls)
      modifies this`urlSeen, this`domainSeen, this`urls
      ensures IsHeap(urls)
      ensures outcome == Outcome(task, reply)
      ensures page == if outcome == Read then Fetched(task, reply) else task
      ensures var d := Discovered(task, reply, old(urlSeen), old(domainSeen));
              urlSeen == d.urlSeen && domainSeen == d.domainSeen
              && multiset(urls) == multiset(old(urls)) + multiset(d.children)
      ensures outcome != Read ==> urlSeen == old(urlSeen) && domainSeen == old(domainSeen) && urls == old(urls)
    {
      page := task;
      if !Contains(task.domain, ".nz") {
        return Skipped, page;
      }
      if reply.PageFailed? {
        return Raised(reply.failure), page;
      }
      if !Contains(reply.contentType, "text/html") {
        return Skipped, page;
      }
      if reply.robots.RobotsFailed? {
        return Raised(reply.robots.failure), page;
      }
      var excluded := CheckRobotsTxt(reply.robots.lines, task.scheme, task.domain);
      var allowed := CheckIfAllowed(task.url, excluded);
      if !allowed {
        return Skipped, page;
      }
      outcome := Read;
      page := page.(pageSize := Some(reply.size), pageStatus := Some(reply.status));
      EnqueueLinksLoop(task.depth, reply.hrefs);
    }

    /** The link loop of `read_webpage` for a page at depth `depth`: an
        href already seen is skipped; any other is marked seen, its domain
        is marked seen when new (and its task gets priority 2 when not),
        and its task is pushed. */
    method EnqueueLinksLoop(depth: nat, hrefs: seq<string>)
      requires IsHeap(urls)
      modifies this`urlSeen, this`domainSeen, this`urls
      ensures IsHeap(urls)
      ensures var d := EnqueueLinks(depth, hrefs, old(urlSeen), old(domainSeen));
              urlSeen == d.urlSeen && domainSeen == d.domainSeen
              && multiset(urls) == multiset(old(urls)) + multiset(d.children)
    {
      ghost var target := EnqueueLinks(depth, hrefs, urlSeen, domainSeen);
      ghost var found: seq<Webpage> := [];
      var i := 0;
      while i < |hrefs|
        invariant 0 <= i <= |hrefs|
        invariant IsHeap(urls)
        invariant multiset(urls) == multiset(old(urls)) + multiset(found)
        invariant LinksLeft(target, depth, hrefs, i, urlSeen, domainSeen, found)
      {
        var href := hrefs[i];
        LinkTurn(target, depth, hrefs, i, urlSeen, domainSeen, found);
        if href !in urlSeen {
          var child := EnqueueLink(depth, href);
          found := found + [child];
        }
        i := i + 1;
      }
      assert hrefs[i..] == [];
    }

    /** One turn of the link loop for an href not seen yet: it is marked
        seen, its domain is marked seen when new (and its task gets
        priority 2 when not), and its task is pushed. */
    method EnqueueLink(depth: nat, href: string) returns (child: Webpage)
      requires IsHeap(urls)
      modifies this`urlSeen, this`domainSeen, this`urls
      ensures child == Child(href, depth, old(domainSeen))
      ensures urlSeen == old(urlSeen) + {href} && domainSeen == old(domainSeen) + {child.domain}
      ensures IsHeap(urls) && multiset(urls) == multiset(old(urls)) + multiset{child}
    {
      urlSeen := urlSeen + {href};
      child := NewWebpage(href, depth + 1, 1);
      if child.domain !in domainSeen {
        domainSeen := domainSeen + {child.domain};
      } else {
        child := child.(priority := 2);
      }
      urls := HeapPush(urls, child);
    }

    /** One iteration of the main loop: pop a task with no pending task
        before it, read its page, and unless a gate skipped it, set the
        status of an `HTTPError` and record the task in the statistics. */
    method Visit(reply: PageReply) returns (task: Webpage, outcome: ReadOutcome, page: Webpage)
      requires IsHeap(urls) && |urls| > 0
      modifies this`urls, this`urlSeen, this`domainSeen, this`stats
      ensures IsHeap(urls)
      ensures task in old(urls) && forall u :: u in old(urls) ==> !Less(u, task)
      ensures outcome == Outcome(task, reply)
      ensures page == Fetched(task, reply)
      ensures var d := Discovered(task, reply, old(urlSeen), old(domainSeen));
              urlSeen == d.urlSeen && domainSeen == d.domainSeen
              && multiset(urls) + multiset{task} == multiset(old(urls)) + multiset(d.children)
      ensures stats == if outcome == Skipped then old(stats) else Record(old(stats), page)
    {
      var rest;
      task, rest := HeapPop(urls);
      urls := rest;
      outcome, page := ReadWebpage(task, reply);
      match outcome {
        case Raised(HttpError(code)) =>
          page := page.(pageStatus := Some(code));
        case _ =>
      }
      if outcome != Skipped {
        stats := Record(stats, page);
      }
    }

    /** `Visit`, keeping the record of the crawl: the popped task is one
        that was pushed, what the link loop found is pushed after it, the
        task is popped, and it is recorded unless it was skipped. */
    method Step(reply: PageReply) returns (task: Webpage, outcome: ReadOutcome, page: Webpage)
      requires Valid() && |urls| > 0
      modifies this
      ensures Valid()
      ensures Iteration(old(Snapshot()), reply, task, Snapshot())
      ensures outcome == Outcome(task, reply) && page == Fetched(task, reply)
      ensures ledger.pushed == old(ledger.pushed) + Discovered(task, reply, old(urlSeen), old(domainSeen)).children
      ensures ledger.popped == old(ledger.popped) + [task]
      ensures ledger.recorded == if outcome == Skipped then old(ledger.recorded) else old(ledger.recorded) + [page]
      ensures ledger.seedCount == old(ledger.seedCount)
      ensures old(urlSeen) <= urlSeen && old(domainSeen) <= domainSeen
    {
      ghost var urls0, urlSeen0, domainSeen0, stats0 := urls, urlSeen, domainSeen, stats;
      task, outcome, page := Visit(reply);
      assert Iteration(State(urls0, urlSeen0, domainSeen0, stats0), reply, task, Snapshot());
      assert task in multiset(urls0);
      assert task in multiset(ledger.pushed);
      assert task in ledger.pushed;
      ghost var p: nat :| p < |ledger.pushed| && ledger.pushed[p] == task;
      Stepped(urls0, urls, urlSeen0, domainSeen0, stats0, ledger, p, reply);
      ghost var cs := Discovered(task, reply, urlSeen0, domainSeen0).children;
      UrlsDomainsOfAppend(ledger.pushed, cs);
      ledger := Ledger(ledger.pushed + cs, ledger.seedCount, ledger.parentOf + Repeat(p, |cs|),
                       ledger.popped + [task], if outcome != Skipped then ledger.recorded + [page] else ledger.recorded);
    }

    /** The main loop: while the frontier is not empty and the elapsed
        time is under the budget, one iteration per visit. */
    method Crawl(visits: seq<Visit>) returns (steps: nat, ending: Ending, ghost trace: seq<State>)
      requires Valid()
      modifies this
      ensures Valid()
      ensures steps <= |visits| && |ledger.popped| == |old(ledger.popped)| + steps
      ensures old(ledger.popped) <= ledger.popped
      ensures Iterations(trace, visits, ledger.popped[|old(ledger.popped)|..])
      ensures trace[0] == old(Snapshot()) && trace[steps] == Snapshot()
      ensures forall k :: 0 <= k < steps ==> visits[k].elapsed < CRAWL_BUDGET
      ensures ending == Drained <==> urls == []
      ensures ending == TimedOut ==> steps < |visits| && visits[steps].elapsed >= CRAWL_BUDGET
      ensures ending == TraceEnded ==> steps == |visits|
      ensures old(ledger.pushed) <= ledger.pushed && old(ledger.recorded) <= ledger.recorded
      ensures ledger.seedCount == old(ledger.seedCount)
      ensures old(urlSeen) <= urlSeen && old(domainSeen) <= domainSeen
    {
      steps := 0;
      trace := [Snapshot()];
      ghost var tasks: seq<Webpage> := [];
      while urls != [] && steps < |visits| && visits[steps].elapsed < CRAWL_BUDGET
        invariant Valid() && steps == |tasks| <= |visits|
        invariant ledger.popped == old(ledger.popped) + tasks
        invariant Iterations(trace, visits, tasks)
        invariant trace[0] == old(Snapshot()) && trace[steps] == Snapshot()
        invariant forall k :: 0 <= k < steps ==> visits[k].elapsed < CRAWL_BUDGET
        invariant old(ledger.pushed) <= ledger.pushed && old(ledger.recorded) <= ledger.recorded
        invariant ledger.seedCount == old(ledger.seedCount)
        invariant old(urlSeen) <= urlSeen && old(domainSeen) <= domainSeen
        decreases |visits| - steps
      {
        assert forall k :: 0 <= k < steps + 1 ==> visits[k].elapsed < CRAWL_BUDGET;
        var task, outcome, page := Step(visits[steps].reply);
        IterationsNext(trace, visits, tasks, task, Snapshot());
        trace, tasks := trace + [Snapshot()], tasks + [task];
        steps := steps + 1;
      }
      assert ledger.popped[|old(ledger.popped)|..] == tasks;
      ending := if urls == [] then Drained else if steps == |visits| then TraceEnded else TimedOut;
    }
  }

  /** The crawl as a whole: the seed file's text is split at every
      newline (a trailing newline gives a last, empty seed), every part is
      seeded in order, and the main loop runs on the visits. */
  method Run(seedText: string, visits: seq<Visit>) returns (crawler: Crawler, steps: nat, ending: Ending, ghost trace: seq<State>)
    ensures fresh(crawler) && crawler.Valid()
    ensures crawler.ledger.seedCount == |Split(seedText, '\n')|
    ensures SeedTasks(Split(seedText, '\n')) <= crawler.ledger.pushed
    ensures steps <= |visits| && |crawler.ledger.popped| == steps
    ensures Iterations(trace, visits, crawler.ledger.popped)
    ensures Seeded(trace[0], Split(seedText, '\n')) && trace[steps] == crawler.Snapshot()
    ensures ending == Drained <==> crawler.urls == []
    ensures ending == TimedOut ==> steps < |visits| && visits[steps].elapsed >= CRAWL_BUDGET
    ensures ending == TraceEnded ==> steps == |visits|
  {
    var seeds := Split(seedText, '\n');
    crawler := new Crawler();
    crawler.SeedFrontier(seeds);
    assert [] + SeedTasks(seeds) == SeedTasks(seeds);
    assert Seeded(crawler.Snapshot(), seeds);
    SeedTasksAt(seeds);
    steps, ending, trace := crawler.Crawl(visits);
    assert crawler.ledger.popped[0..] == crawler.ledger.popped;
  }
}
