/** Link discovery: what the link loop of `read_webpage` does with the
    resolved hrefs of a fetched page, given the seen-URL and seen-domain
    sets, written as a function of those inputs; and the properties of
    the whole history of enqueued tasks that discovery keeps. */
module Links {
  import opened Webpages

  /** The seen sets after the loop and the tasks it pushed, in order. */
  datatype Discovery = Discovery(urlSeen: set<string>, domainSeen: set<string>, children: seq<Webpage>)

  /** The task made for a new href found on a page at depth `depth`: one
      level deeper, priority 1 if its domain has not been seen, else 2. */
  function Child(href: string, depth: nat, domainSeen: set<string>): Webpage {
    var child := NewWebpage(href, depth + 1, 1);
    if child.domain !in domainSeen then child else child.(priority := 2)
  }

  /** The link loop: an href already seen is skipped; any other is marked
      seen, its domain is marked seen, and its task is pushed. */
  function EnqueueLinks(depth: nat, hrefs: seq<string>, urlSeen: set<string>, domainSeen: set<string>): Discovery
    decreases |hrefs|
  {
    if hrefs == [] then Discovery(urlSeen, domainSeen, [])
    else if hrefs[0] in urlSeen then EnqueueLinks(depth, hrefs[1..], urlSeen, domainSeen)
    else
      var child := Child(hrefs[0], depth, domainSeen);
      var rest := EnqueueLinks(depth, hrefs[1..], urlSeen + {hrefs[0]}, domainSeen + {child.domain});
      Discovery(rest.urlSeen, rest.domainSeen, [child] + rest.children)
  }

  ghost function UrlsOf(pages: seq<Webpage>): set<string> {
    set i | 0 <= i < |pages| :: pages[i].url
  }

  ghost function DomainsOf(pages: seq<Webpage>): set<string> {
    set i | 0 <= i < |pages| :: pages[i].domain
  }

  ghost function Elems(hrefs: seq<string>): set<string> {
    set h | h in hrefs
  }

  /** Each of `cs` is a new task at depth `depth`, with priority 1 exactly
      when its domain is neither in `domainSeen` nor that of an earlier
      task of `cs`, and priority 2 otherwise. */
  ghost predicate DiscoveredAt(cs: seq<Webpage>, depth: nat, domainSeen: set<string>) {
    forall i :: 0 <= i < |cs| ==>
      cs[i] == NewWebpage(cs[i].url, depth, cs[i].priority)
      && (cs[i].priority == 1 <==> cs[i].domain !in domainSeen + DomainsOf(cs[..i]))
      && (cs[i].priority == 1 || cs[i].priority == 2)
  }

  /** No two of `pages` have the same URL. */
  ghost predicate DistinctUrls(pages: seq<Webpage>) {
    forall i, j :: 0 <= i < j < |pages| ==> pages[i].url != pages[j].url
  }

  lemma UrlsDomainsOfCons(c: Webpage, pages: seq<Webpage>)
    ensures UrlsOf([c] + pages) == {c.url} + UrlsOf(pages)
    ensures DomainsOf([c] + pages) == {c.domain} + DomainsOf(pages)
  {
    var s := [c] + pages;
    forall x | x in UrlsOf(pages) ensures x in UrlsOf(s) {
      var i :| 0 <= i < |pages| && pages[i].url == x;
      assert s[i + 1] == pages[i];
    }
    forall x | x in DomainsOf(pages) ensures x in DomainsOf(s) {
      var i :| 0 <= i < |pages| && pages[i].domain == x;
      assert s[i + 1] == pages[i];
    }
    assert s[0] == c;
  }

  /** The URLs and domains of two lists of tasks together. */
  lemma UrlsDomainsOfAppend(a: seq<Webpage>, b: seq<Webpage>)
    ensures UrlsOf(a + b) == UrlsOf(a) + UrlsOf(b)
    ensures DomainsOf(a + b) == DomainsOf(a) + DomainsOf(b)
  {
    var s := a + b;
    forall x | x in UrlsOf(b) ensures x in UrlsOf(s) {
      var i :| 0 <= i < |b| && b[i].url == x;
      assert s[|a| + i] == b[i];
    }
    forall x | x in DomainsOf(b) ensures x in DomainsOf(s) {
      var i :| 0 <= i < |b| && b[i].domain == x;
      assert s[|a| + i] == b[i];
    }
    forall x | x in UrlsOf(a) ensures x in UrlsOf(s) {
      var i :| 0 <= i < |a| && a[i].url == x;
      assert s[i] == a[i];
    }
    forall x | x in DomainsOf(a) ensures x in DomainsOf(s) {
      var i :| 0 <= i < |a| && a[i].domain == x;
      assert s[i] == a[i];
    }
    forall x | x in UrlsOf(s) ensures x in UrlsOf(a) + UrlsOf(b) {
      var i :| 0 <= i < |s| && s[i].url == x;
      if i >= |a| { assert s[i] == b[i - |a|]; }
    }
    forall x | x in DomainsOf(s) ensures x in DomainsOf(a) + DomainsOf(b) {
      var i :| 0 <= i < |s| && s[i].domain == x;
      if i >= |a| { assert s[i] == b[i - |a|]; }
    }
  }

  /** What is left of the link loop after `found` was pushed and the
      hrefs before `i` were handled, as a part of the whole loop `target`. */
  ghost predicate LinksLeft(target: Discovery, depth: nat, hrefs: seq<string>, i: nat,
                            urlSeen: set<string>, domainSeen: set<string>, found: seq<Webpage>)
    requires i <= |hrefs|
  {
    var rest := EnqueueLinks(depth, hrefs[i..], urlSeen, domainSeen);
    target == Discovery(rest.urlSeen, rest.domainSeen, found + rest.children)
  }

  /** One turn of the link loop, at href `i`: a seen href changes
      nothing, and any other is marked seen with its domain and its task
      `Child` is found. */
  lemma LinkTurn(target: Discovery, depth: nat, hrefs: seq<string>, i: nat,
                 urlSeen: set<string>, domainSeen: set<string>, found: seq<Webpage>)
    requires i < |hrefs| && LinksLeft(target, depth, hrefs, i, urlSeen, domainSeen, found)
    ensures hrefs[i] in urlSeen ==> LinksLeft(target, depth, hrefs, i + 1, urlSeen, domainSeen, found)
    ensures hrefs[i] !in urlSeen ==>
              var c := Child(hrefs[i], depth, domainSeen);
              LinksLeft(target, depth, hrefs, i + 1, urlSeen + {hrefs[i]}, domainSeen + {c.domain}, found + [c])
  {
    assert hrefs[i..][0] == hrefs[i] && hrefs[i..][1..] == hrefs[i + 1..];
    if hrefs[i] !in urlSeen {
      var c := Child(hrefs[i], depth, domainSeen);
      var rest := EnqueueLinks(depth, hrefs[i + 1..], urlSeen + {hrefs[i]}, domainSeen + {c.domain});
      assert found + ([c] + rest.children) == (found + [c]) + rest.children;
    }
  }

  /** Afterwards every href is a seen URL, and the domains of exactly the
      pushed tasks have been added; both sets only grow. */
  lemma {:induction false} EnqueueLinksSeen(depth: nat, hrefs: seq<string>, urlSeen: set<string>, domainSeen: set<string>)
    ensures var r := EnqueueLinks(depth, hrefs, urlSeen, domainSeen);
            r.urlSeen == urlSeen + Elems(hrefs)
            && r.domainSeen == domainSeen + DomainsOf(r.children)
    decreases |hrefs|
  {
    if hrefs != [] {
      var h := hrefs[0];
      assert Elems(hrefs) == {h} + Elems(hrefs[1..]);
      if h in urlSeen {
        EnqueueLinksSeen(depth, hrefs[1..], urlSeen, domainSeen);
      } else {
        var child := Child(h, depth, domainSeen);
        EnqueueLinksSeen(depth, hrefs[1..], urlSeen + {h}, domainSeen + {child.domain});
        var rest := EnqueueLinks(depth, hrefs[1..], urlSeen + {h}, domainSeen + {child.domain});
        var r := EnqueueLinks(depth, hrefs, urlSeen, domainSeen);
        assert r == Discovery(rest.urlSeen, rest.domainSeen, [child] + rest.children);
        UrlsDomainsOfCons(child, rest.children);
      }
    }
  }

  /** The pushed tasks are those of the hrefs not seen before, each once:
      their URLs are distinct, none was seen before, and every unseen
      href gets a task. */
  lemma {:induction false} EnqueueLinksFresh(depth: nat, hrefs: seq<string>, urlSeen: set<string>, domainSeen: set<string>)
    ensures var r := EnqueueLinks(depth, hrefs, urlSeen, domainSeen);
            DistinctUrls(r.children)
            && UrlsOf(r.children) == Elems(hrefs) - urlSeen
    decreases |hrefs|
  {
    if hrefs != [] {
      var h := hrefs[0];
      assert Elems(hrefs) == {h} + Elems(hrefs[1..]);
      if h in urlSeen {
        EnqueueLinksFresh(depth, hrefs[1..], urlSeen, domainSeen);
        assert EnqueueLinks(depth, hrefs, urlSeen, domainSeen) == EnqueueLinks(depth, hrefs[1..], urlSeen, domainSeen);
      } else {
        var child := Child(h, depth, domainSeen);
        EnqueueLinksFresh(depth, hrefs[1..], urlSeen + {h}, domainSeen + {child.domain});
        var rest := EnqueueLinks(depth, hrefs[1..], urlSeen + {h}, domainSeen + {child.domain});
        UrlsDomainsOfCons(child, rest.children);
        var cs := [child] + rest.children;
        assert EnqueueLinks(depth, hrefs, urlSeen, domainSeen).children == cs;
        assert child.url == h;
        assert Elems(hrefs) - urlSeen == {h} + (Elems(hrefs[1..]) - (urlSeen + {h}));
        forall i, j | 0 <= i < j < |cs| ensures cs[i].url != cs[j].url {
          if i > 0 {
            assert cs[i] == rest.children[i - 1] && cs[j] == rest.children[j - 1];
          } else {
            assert cs[j] == rest.children[j - 1];
            assert cs[j].url in UrlsOf(rest.children);
          }
        }
      }
    }
  }

  /** Every pushed task is a new task one level below the page; its
      priority is 1 exactly when its domain was seen neither before the
      loop nor for an earlier task of the loop, and 2 otherwise. */
  lemma {:induction false} EnqueueLinksPriority(depth: nat, hrefs: seq<string>, urlSeen: set<string>, domainSeen: set<string>)
    ensures DiscoveredAt(EnqueueLinks(depth, hrefs, urlSeen, domainSeen).children, depth + 1, domainSeen)
    decreases |hrefs|
  {
    if hrefs != [] {
      var h := hrefs[0];
      if h in urlSeen {
        EnqueueLinksPriority(depth, hrefs[1..], urlSeen, domainSeen);
        assert EnqueueLinks(depth, hrefs, urlSeen, domainSeen) == EnqueueLinks(depth, hrefs[1..], urlSeen, domainSeen);
      } else {
        var child := Child(h, depth, domainSeen);
        var doms := domainSeen + {child.domain};
        EnqueueLinksPriority(depth, hrefs[1..], urlSeen + {h}, doms);
        var rest := EnqueueLinks(depth, hrefs[1..], urlSeen + {h}, doms).children;
        var cs := [child] + rest;
        assert EnqueueLinks(depth, hrefs, urlSeen, domainSeen).children == cs;
        forall i | 0 < i < |cs|
          ensures cs[i].priority == 1 <==> cs[i].domain !in domainSeen + DomainsOf(cs[..i])
        {
          assert cs[..i] == [child] + rest[..i - 1];
          UrlsDomainsOfCons(child, rest[..i - 1]);
          assert cs[i] == rest[i - 1];
          assert rest[i - 1].priority == 1 <==> rest[i - 1].domain !in doms + DomainsOf(rest[..i - 1]);
          assert doms + DomainsOf(rest[..i - 1]) == domainSeen + DomainsOf(cs[..i]);
        }
        assert cs[..0] == [];
      }
    }
  }
}
