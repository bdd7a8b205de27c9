/** The politeness filter: reading `Disallow:` directives of a site's
    robots.txt into a list of excluded URL fragments, and testing a URL
    against that list. The file arrives here already split into lines;
    fetching and decoding it is outside this model. */
module Robots {
  import opened Options
  import opened Text

  const DIRECTIVE := "Disallow:"

  /** The path of a directive with one trailing `*` removed. */
  function DropTrailingStar(path: string): (r: string)
    ensures path != [] && path[|path| - 1] == '*' ==> path == r + "*"
    ensures path == [] || path[|path| - 1] != '*' ==> r == path
  {
    if path != [] && path[|path| - 1] == '*' then path[..|path| - 1] else path
  }

  /** The exclusion entry one robots.txt line contributes, if any. The
      line is stripped; it must start with `Disallow:` (case matters);
      its path is the stripped text after the first colon. An empty path
      and a path starting with `/` contribute nothing; any other path has
      one trailing `*` removed and is appended to `scheme://domain` with
      no separator in between. */
  function DirectiveEntry(line: string, scheme: string, domain: string): Option<string> {
    var l := Strip(line);
    if !StartsWith(l, DIRECTIVE) then None
    else
      var path := Strip(l[|DIRECTIVE|..]);
      if path == [] || path[0] == '/' then None
      else Some(scheme + "://" + domain + DropTrailingStar(path))
  }

  function EntryList(e: Option<string>): seq<string> {
    match e
    case None => []
    case Some(x) => [x]
  }

  /** The entries `entry` gives the lines, in line order. */
  function Collect(lines: seq<string>, entry: string -> Option<string>): seq<string> {
    if lines == [] then []
    else Collect(lines[..|lines| - 1], entry) + EntryList(entry(lines[|lines| - 1]))
  }

  /** The exclusion list of a robots.txt: the entries of its lines, in
      line order. */
  function Exclusions(lines: seq<string>, scheme: string, domain: string): seq<string> {
    Collect(lines, line => DirectiveEntry(line, scheme, domain))
  }

  /** `check_robot_txt`, after the fetch: the loop over the lines that
      appends each line's entry. */
  method CheckRobotsTxt(lines: seq<string>, scheme: string, domain: string) returns (excluded: seq<string>)
    ensures excluded == Exclusions(lines, scheme, domain)
  {
    excluded := [];
    var i := 0;
    while i < |lines|
      invariant 0 <= i <= |lines|
      invariant excluded == Exclusions(lines[..i], scheme, domain)
    {
      ExclusionsNext(lines, i, scheme, domain);
      var line := Strip(lines[i]);
      if StartsWith(line, DIRECTIVE) {
        var path := Strip(line[|DIRECTIVE|..]);
        if path != [] {
          if path[0] == '/' {
            i := i + 1;
            continue;
          } else if path[|path| - 1] == '*' {
            path := path[..|path| - 1];
          }
          excluded := excluded + [scheme + "://" + domain + path];
        }
      }
      i := i + 1;
    }
    assert lines[..|lines|] == lines;
  }

  /** The exclusion list of one more line: that line's entry appended. */
  lemma ExclusionsNext(lines: seq<string>, i: nat, scheme: string, domain: string)
    requires i < |lines|
    ensures Exclusions(lines[..i + 1], scheme, domain)
            == Exclusions(lines[..i], scheme, domain) + EntryList(DirectiveEntry(lines[i], scheme, domain))
  {
    assert lines[..i + 1][..i] == lines[..i] && lines[..i + 1][i] == lines[i];
  }

  /** Collecting lines added at the end adds their entries at the end. */
  lemma {:induction false} CollectAppend(a: seq<string>, b: seq<string>, entry: string -> Option<string>)
    ensures Collect(a + b, entry) == Collect(a, entry) + Collect(b, entry)
    decreases |b|
  {
    if b == [] {
      assert a + b == a;
    } else {
      var b' := b[..|b| - 1];
      CollectAppend(a, b', entry);
      assert (a + b)[..|a + b| - 1] == a + b';
    }
  }

  /** A string is collected exactly when some line gives it. */
  lemma {:induction false} CollectMember(lines: seq<string>, entry: string -> Option<string>, e: string)
    ensures e in Collect(lines, entry) <==> exists k :: 0 <= k < |lines| && entry(lines[k]) == Some(e)
    decreases |lines|
  {
    if lines != [] {
      var n := |lines| - 1;
      CollectMember(lines[..n], entry, e);
      assert forall k :: 0 <= k < n ==> lines[..n][k] == lines[k];
      if e in Collect(lines[..n], entry) {
        var k :| 0 <= k < n && entry(lines[..n][k]) == Some(e);
        assert entry(lines[k]) == Some(e);
      }
    }
  }

  /** Exclusion lists of consecutive parts of a file concatenate: every
      line contributes on its own, in place. */
  lemma ExclusionsAppend(a: seq<string>, b: seq<string>, scheme: string, domain: string)
    ensures Exclusions(a + b, scheme, domain) == Exclusions(a, scheme, domain) + Exclusions(b, scheme, domain)
  {
    CollectAppend(a, b, line => DirectiveEntry(line, scheme, domain));
  }

  /** A string is excluded exactly when some line contributes it. */
  lemma ExclusionsMember(lines: seq<string>, scheme: string, domain: string, e: string)
    ensures e in Exclusions(lines, scheme, domain)
            <==> exists k :: 0 <= k < |lines| && DirectiveEntry(lines[k], scheme, domain) == Some(e)
  {
    CollectMember(lines, line => DirectiveEntry(line, scheme, domain), e);
  }

  /** Every exclusion entry starts with `scheme://domain`. */
  lemma {:induction false} ExclusionsStartWithSite(lines: seq<string>, scheme: string, domain: string)
    ensures forall e :: e in Exclusions(lines, scheme, domain) ==> StartsWith(e, scheme + "://" + domain)
    decreases |lines|
  {
    if lines != [] {
      ExclusionsStartWithSite(lines[..|lines| - 1], scheme, domain);
      var site := scheme + "://" + domain;
      match DirectiveEntry(lines[|lines| - 1], scheme, domain)
      case None =>
      case Some(x) =>
        var p :| x == site + p;
        assert x[..|site|] == site;
    }
  }

  /** A `Disallow: p` line, for a path `p` without surrounding
      whitespace: a root-relative path contributes nothing, any other
      path contributes `scheme://domain` followed directly by the path
      with one trailing `*` dropped. */
  lemma DisallowLine(line: string, p: string, scheme: string, domain: string)
    requires line == "Disallow: " + p
    requires p != [] && !IsSpace(p[0]) && !IsSpace(p[|p| - 1])
    ensures DirectiveEntry(line, scheme, domain)
            == if p[0] == '/' then None else Some(scheme + "://" + domain + DropTrailingStar(p))
  {
    StripUnpadded(line);
    assert line[..|DIRECTIVE|] == DIRECTIVE;
    assert line[|DIRECTIVE|..] == " " + p;
    assert (" " + p)[1..] == p;
    assert TrimStart(" " + p) == TrimStart(p);
    StripUnpadded(p);
  }

  /** A root-relative path is skipped: `Disallow: /private` excludes
      nothing. */
  lemma RootPathExample(scheme: string, domain: string)
    ensures DirectiveEntry("Disallow: /private", scheme, domain) == None
  {
    DisallowLine("Disallow: /private", "/private", scheme, domain);
  }

  /** A trailing `*` is dropped with no `/` put between domain and path
      (on `http` and `a.nz`, `Disallow: private*` gives
      `http://a.nzprivate`). */
  lemma TrailingStarExample(scheme: string, domain: string)
    ensures DirectiveEntry("Disallow: private*", scheme, domain) == Some(scheme + "://" + domain + "private")
  {
    assert "private*"[..7] == "private";
    DisallowLine("Disallow: private*", "private*", scheme, domain);
  }

  /** Only one trailing `*` is dropped. */
  lemma DoubleStarExample(scheme: string, domain: string)
    ensures DirectiveEntry("Disallow: a**", scheme, domain) == Some(scheme + "://" + domain + "a*")
  {
    assert "a**"[..2] == "a*";
    DisallowLine("Disallow: a**", "a**", scheme, domain);
  }

  /** `Disallow: *` leaves the site itself, `scheme://domain`. */
  lemma BareStarExample(scheme: string, domain: string)
    ensures DirectiveEntry("Disallow: *", scheme, domain) == Some(scheme + "://" + domain)
  {
    DisallowLine("Disallow: *", "*", scheme, domain);
    assert DropTrailingStar("*") == "";
    assert scheme + "://" + domain + "" == scheme + "://" + domain;
  }

  /** An empty path is skipped, and the directive name is case-sensitive. */
  lemma SkippedLineExamples(scheme: string, domain: string)
    ensures DirectiveEntry("Disallow:", scheme, domain) == None
    ensures DirectiveEntry("disallow: private", scheme, domain) == None
  {
    StripUnpadded("Disallow:");
    StripUnpadded("disallow: private");
    assert "disallow: private"[..|DIRECTIVE|] != DIRECTIVE;
  }

  /** `check_if_allowed`'s verdict: no exclusion entry occurs in the URL. */
  predicate Allowed(url: string, excluded: seq<string>) {
    forall e :: e in excluded ==> !Contains(url, e)
  }

  /** `check_if_allowed`: the loop that returns false at the first entry
      occurring anywhere in the URL (a substring test, not a prefix test)
      and true when there is none, in particular for an empty list. */
  method CheckIfAllowed(url: string, excluded: seq<string>) returns (allowed: bool)
    ensures allowed <==> Allowed(url, excluded)
    ensures !allowed <==> exists k :: 0 <= k < |excluded| && Contains(url, excluded[k])
  {
    var i := 0;
    while i < |excluded|
      invariant 0 <= i <= |excluded|
      invariant forall k :: 0 <= k < i ==> !Contains(url, excluded[k])
    {
      if Contains(url, excluded[i]) {
        return false;
      }
      i := i + 1;
    }
    return true;
  }

  /** A `Disallow: *` line excludes the whole site: every URL that
      contains `scheme://domain` is refused, whatever its path. */
  lemma StarExcludesSite(lines: seq<string>, k: nat, scheme: string, domain: string, url: string)
    requires k < |lines| && DirectiveEntry(lines[k], scheme, domain) == Some(scheme + "://" + domain)
    requires Contains(url, scheme + "://" + domain)
    ensures !Allowed(url, Exclusions(lines, scheme, domain))
  {
    ExclusionsMember(lines, scheme, domain, scheme + "://" + domain);
  }

  /** A robots.txt whose `Disallow:` paths all start with `/` excludes
      nothing, so every URL of the site is allowed. */
  lemma {:induction false} RootPathsExcludeNothing(lines: seq<string>, scheme: string, domain: string, url: string)
    requires forall k :: 0 <= k < |lines| ==>
               var l := Strip(lines[k]);
               StartsWith(l, DIRECTIVE) ==> var path := Strip(l[|DIRECTIVE|..]); path != [] && path[0] == '/'
    ensures Exclusions(lines, scheme, domain) == []
    ensures Allowed(url, Exclusions(lines, scheme, domain))
    decreases |lines|
  {
    if lines != [] {
      RootPathsExcludeNothing(lines[..|lines| - 1], scheme, domain, url);
    }
  }
}
