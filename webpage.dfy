/** A crawl task: one candidate page, with the place it was found at
    (`depth`), its scheduling `priority` and, once fetched, its size and
    HTTP status. */
module Webpages {
  import opened Options
  import Urls

  /** `scheme` and `domain` are derived from `url` when the task is made
      and never recomputed; `pageSize` and `pageStatus` stay `None` until
      a fetch sets them. The HTTP status is kept as its number: the source
      keys its counters by `str(code)`, which is one-to-one. */
  datatype Webpage = Webpage(
    url: string,
    scheme: string,
    domain: string,
    depth: nat,
    priority: int,
    pageSize: Option<nat>,
    pageStatus: Option<nat>)

  /** A new, not yet fetched task for `url`. */
  function NewWebpage(url: string, depth: nat, priority: int): Webpage {
    Webpage(url, Urls.Scheme(url), Urls.Domain(url), depth, priority, None, None)
  }

  /** The scheduling order of the frontier: by depth first and, at equal
      depth, by priority, a lower number coming first. */
  predicate Less(a: Webpage, b: Webpage) {
    if a.depth == b.depth then a.priority < b.priority else a.depth < b.depth
  }

  /** `Less` is a strict weak order, so a binary heap can be built on it:
      it is irreflexive and transitive, and being unordered (equal depth
      and priority) is transitive as well. Tasks with the same key are
      unordered; the order in which they leave the frontier is not
      determined. */
  lemma LessIsStrictWeakOrder(a: Webpage, b: Webpage, c: Webpage)
    ensures !Less(a, a)
    ensures Less(a, b) && Less(b, c) ==> Less(a, c)
    ensures !Less(a, b) && !Less(b, c) ==> !Less(a, c)
    ensures !Less(a, b) && !Less(b, a) <==> a.depth == b.depth && a.priority == b.priority
  {
  }

  /** A shallower task always goes first, whatever the priorities; at
      equal depth the lower priority number goes first. */
  lemma DepthDominates(a: Webpage, b: Webpage)
    ensures a.depth < b.depth ==> Less(a, b) && !Less(b, a)
    ensures a.depth == b.depth ==> (Less(a, b) <==> a.priority < b.priority)
  {
  }
}
