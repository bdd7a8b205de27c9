/** The two components of a URL that a crawl task keeps: the scheme and
    the network location, as Python's `urllib.parse.urlparse` splits them
    off (CPython 3.11.4 and later, which first clean the URL). Only the
    cleaning and splitting rules the crawler depends on are modelled. */
module Urls {
  import opened Text

  predicate IsAsciiLetter(c: char) {
    'a' <= c <= 'z' || 'A' <= c <= 'Z'
  }

  /** The characters `urlsplit` accepts in a scheme. */
  predicate IsSchemeChar(c: char) {
    IsAsciiLetter(c) || '0' <= c <= '9' || c == '+' || c == '-' || c == '.'
  }

  /** The characters that end a network location. */
  predicate IsNetlocEnd(c: char) {
    c == '/' || c == '?' || c == '#'
  }

  /** ASCII lower-casing, which is all that `str.lower()` does to scheme characters. */
  function LowerAscii(s: string): (r: string)
    ensures |r| == |s|
    ensures forall k :: 0 <= k < |s| ==> r[k] == if 'A' <= s[k] <= 'Z' then (s[k] as int + 32) as char else s[k]
  {
    if s == [] then []
    else [if 'A' <= s[0] <= 'Z' then (s[0] as int + 32) as char else s[0]] + LowerAscii(s[1..])
  }

  /** Length of the network location at the start of `s`: up to the first
      `/`, `?` or `#`, or all of `s`. */
  function NetlocLength(s: string): (n: nat)
    ensures n <= |s|
    ensures forall k :: 0 <= k < n ==> !IsNetlocEnd(s[k])
    ensures n < |s| ==> IsNetlocEnd(s[n])
  {
    if s == [] || IsNetlocEnd(s[0]) then 0 else 1 + NetlocLength(s[1..])
  }

  /** A scheme as `urlparse` reports it: non-empty, starting with a
      letter, of scheme characters only, in lower case. */
  predicate IsScheme(s: string) {
    |s| > 0 && IsAsciiLetter(s[0])
    && forall k :: 0 <= k < |s| ==> IsSchemeChar(s[k]) && !('A' <= s[k] <= 'Z')
  }

  /** A C0 control character or a space, which `urlsplit` strips from the
      start of a URL. */
  predicate IsControlOrSpace(c: char) {
    c <= ' '
  }

  /** Tab, carriage return and line feed, which `urlsplit` deletes
      wherever they occur. */
  predicate IsUnsafe(c: char) {
    c == '\t' || c == '\r' || c == '\n'
  }

  /** Length of the run of control characters and spaces at the start of
      `s`. */
  function LeadingBlank(s: string): (n: nat)
    ensures n <= |s|
    ensures forall k :: 0 <= k < n ==> IsControlOrSpace(s[k])
    ensures n < |s| ==> !IsControlOrSpace(s[n])
  {
    if s == [] || !IsControlOrSpace(s[0]) then 0 else 1 + LeadingBlank(s[1..])
  }

  /** `s` with every tab, carriage return and line feed deleted. */
  function RemoveUnsafe(s: string): (r: string)
    ensures |r| <= |s|
    ensures forall k :: 0 <= k < |r| ==> !IsUnsafe(r[k])
  {
    if s == [] then []
    else (if IsUnsafe(s[0]) then [] else [s[0]]) + RemoveUnsafe(s[1..])
  }

  /** A string without tabs, carriage returns and line feeds loses
      nothing. */
  lemma {:induction false} RemoveUnsafeNothing(s: string)
    requires forall k :: 0 <= k < |s| ==> !IsUnsafe(s[k])
    ensures RemoveUnsafe(s) == s
    decreases |s|
  {
    if s != [] {
      assert !IsUnsafe(s[0]) && forall k :: 0 <= k < |s[1..]| ==> s[1..][k] == s[k + 1];
      RemoveUnsafeNothing(s[1..]);
    }
  }

  /** Deleting works character by character: the deletions from two
      pieces, put together, are the deletions from the whole. */
  lemma {:induction false} RemoveUnsafeAppend(a: string, b: string)
    ensures RemoveUnsafe(a + b) == RemoveUnsafe(a) + RemoveUnsafe(b)
    decreases |a|
  {
    if a != [] {
      var head := if IsUnsafe(a[0]) then [] else [a[0]];
      calc {
        RemoveUnsafe(a + b);
        { assert (a + b)[0] == a[0] && (a + b)[1..] == a[1..] + b; }
        head + RemoveUnsafe(a[1..] + b);
        { RemoveUnsafeAppend(a[1..], b); }
        head + (RemoveUnsafe(a[1..]) + RemoveUnsafe(b));
        RemoveUnsafe(a) + RemoveUnsafe(b);
      }
    } else {
      assert a + b == b;
    }
  }

  /** The URL `urlsplit` goes on to split: leading control characters and
      spaces stripped, then tabs, carriage returns and line feeds
      deleted. */
  function Clean(url: string): string {
    RemoveUnsafe(url[LeadingBlank(url)..])
  }

  /** A cleaned URL has no tab, carriage return or line feed, and does not
      start with a control character or a space; a URL that is already so
      is its own cleaning, so cleaning twice is cleaning once. */
  lemma CleanSpec(url: string)
    ensures forall k :: 0 <= k < |Clean(url)| ==> !IsUnsafe(Clean(url)[k])
    ensures Clean(url) == [] || !IsControlOrSpace(Clean(url)[0])
    ensures (url == [] || !IsControlOrSpace(url[0])) && (forall k :: 0 <= k < |url| ==> !IsUnsafe(url[k]))
            ==> Clean(url) == url
    ensures Clean(Clean(url)) == Clean(url)
  {
    var t := url[LeadingBlank(url)..];
    var c := Clean(url);
    if t != [] {
      assert !IsUnsafe(t[0]);
      assert c == [t[0]] + RemoveUnsafe(t[1..]);
    }
    assert c == [] || !IsControlOrSpace(c[0]);
    assert LeadingBlank(c) == 0;
    assert c[0..] == c;
    RemoveUnsafeNothing(c);
    if (url == [] || !IsControlOrSpace(url[0])) && (forall k :: 0 <= k < |url| ==> !IsUnsafe(url[k])) {
      assert url[0..] == url;
      RemoveUnsafeNothing(url);
    }
  }

  datatype UrlParts = UrlParts(scheme: string, netloc: string)

  /** The network location of what follows the scheme: present when it
      starts with `//`, and running up to the first `/`, `?` or `#`. */
  function Netloc(rest: string): string {
    if StartsWith(rest, "//") then rest[2..2 + NetlocLength(rest[2..])] else ""
  }

  /** The scan of `urlsplit` over the scheme characters from index `i`:
      when the run of scheme characters is non-empty, starts with a letter
      and is ended by a colon, it is the scheme, lower-cased, and the
      network location is looked for after the colon; otherwise there is
      no scheme and it is looked for at the start. */
  function SplitScheme(url: string, i: nat): UrlParts
    requires i <= |url|
    decreases |url| - i
  {
    if i < |url| && IsSchemeChar(url[i]) then SplitScheme(url, i + 1)
    else if 0 < i < |url| && url[i] == ':' && IsAsciiLetter(url[0]) then UrlParts(LowerAscii(url[..i]), Netloc(url[i + 1..]))
    else UrlParts("", Netloc(url))
  }

  /** `scheme` and `netloc` of `urlparse(url)`: the cleaned URL, split. */
  function Parse(url: string): UrlParts {
    SplitScheme(Clean(url), 0)
  }

  function Scheme(url: string): string {
    Parse(url).scheme
  }

  function Domain(url: string): string {
    Parse(url).netloc
  }

  /** The colon at index `i` ends the scheme of `url`: everything before
      it is a non-empty run of scheme characters starting with a letter.
      A colon is not a scheme character, so there is at most one such
      index, the first colon. */
  ghost predicate SchemeColon(url: string, i: int) {
    0 < i < |url| && url[i] == ':' && IsAsciiLetter(url[0])
    && forall k :: 0 <= k < i ==> IsSchemeChar(url[k])
  }

  /** The splitting rule of `urlsplit`, on the cleaned URL `c`: with a
      scheme colon, the scheme is the lower-cased text before it and the
      network location is looked for after it; without one, the scheme is
      empty and the network location is looked for at the start. */
  lemma ParseSpec(url: string)
    ensures var c := Clean(url);
            forall i :: SchemeColon(c, i) ==> Parse(url) == UrlParts(LowerAscii(c[..i]), Netloc(c[i + 1..]))
    ensures var c := Clean(url);
            (forall i :: !SchemeColon(c, i)) ==> Parse(url) == UrlParts("", Netloc(c))
  {
    SplitSchemeSpec(Clean(url), 0);
  }

  /** Parsing sees only the cleaned URL. */
  lemma ParseCleaned(url: string)
    ensures Parse(url) == Parse(Clean(url))
  {
    CleanSpec(url);
  }

  /** A trailing line feed and a leading space are cleaned away from a
      URL that needs no other cleaning. */
  lemma CleanPadded(u: string)
    requires u != [] && !IsControlOrSpace(u[0]) && forall k :: 0 <= k < |u| ==> !IsUnsafe(u[k])
    ensures Clean(u + "\n") == u && Clean(" " + u) == u
  {
    CleanSpec(u);
    assert LeadingBlank(u + "\n") == 0 && (u + "\n")[0..] == u + "\n";
    RemoveUnsafeAppend(u, "\n");
    assert RemoveUnsafe("\n") == [];
    assert LeadingBlank(" " + u) == 1 && (" " + u)[1..] == u;
  }

  /** A line feed after a URL and blanks before it do not change what it
      is split into: with `url` written as `scheme://host`, both `url`
      followed by a newline and `url` after a space have the domain
      `host`. */
  lemma CleanedDomain(scheme: string, host: string)
    requires IsScheme(scheme)
    requires forall k :: 0 <= k < |host| ==> !IsNetlocEnd(host[k]) && !IsUnsafe(host[k])
    ensures Parse(scheme + "://" + host + "\n") == UrlParts(scheme, host)
    ensures Parse(" " + scheme + "://" + host) == UrlParts(scheme, host)
  {
    var u := scheme + "://" + host;
    assert u == scheme + "://" + host + [];
    ParseFormatted(scheme, host, []);
    FormattedIsClean(scheme, host, []);
    CleanPadded(u);
    ParseCleaned(u + "\n");
    ParseCleaned(" " + u);
    assert " " + scheme + "://" + host == " " + u;
  }

  lemma {:induction false} SplitSchemeSpec(url: string, i: nat)
    requires i <= |url| && forall k :: 0 <= k < i ==> IsSchemeChar(url[k])
    ensures forall j :: SchemeColon(url, j) ==> SplitScheme(url, i) == UrlParts(LowerAscii(url[..j]), Netloc(url[j + 1..]))
    ensures (forall j :: !SchemeColon(url, j)) ==> SplitScheme(url, i) == UrlParts("", Netloc(url))
    decreases |url| - i
  {
    forall j | 0 <= j < i ensures !SchemeColon(url, j) {
      assert IsSchemeChar(url[j]);
    }
    if i < |url| && IsSchemeChar(url[i]) {
      SplitSchemeSpec(url, i + 1);
    } else if i < |url| {
      forall j | j > i ensures !SchemeColon(url, j) {
        assert !IsSchemeChar(url[i]);
      }
      if 0 < i && url[i] == ':' && IsAsciiLetter(url[0]) {
        assert SchemeColon(url, i);
      }
    }
  }

  /** A scheme that is split off is a scheme in the sense of `IsScheme`. */
  lemma SchemeIsScheme(url: string)
    ensures Scheme(url) == "" || IsScheme(Scheme(url))
  {
    ParseSpec(url);
    var c := Clean(url);
    if i :| SchemeColon(c, i) {
      var q := LowerAscii(c[..i]);
      forall k | 0 <= k < |q| ensures IsSchemeChar(q[k]) && !('A' <= q[k] <= 'Z') {
        assert IsSchemeChar(c[k]);
      }
    }
  }

  /** Parsing recovers the scheme and the host of a URL written as
      `scheme://host` followed by a path, query or fragment (or nothing),
      when host and tail hold no tab, carriage return or line feed: the
      partner of the `f"{scheme}://{domain}"` formatting the crawler uses
      to resolve links and to build exclusion entries. */
  lemma ParseFormatted(scheme: string, host: string, tail: string)
    requires IsScheme(scheme)
    requires forall k :: 0 <= k < |host| ==> !IsNetlocEnd(host[k]) && !IsUnsafe(host[k])
    requires tail == [] || IsNetlocEnd(tail[0])
    requires forall k :: 0 <= k < |tail| ==> !IsUnsafe(tail[k])
    ensures Parse(scheme + "://" + host + tail) == UrlParts(scheme, host)
  {
    var rest := "//" + host + tail;
    var url := scheme + [':'] + rest;
    assert scheme + "://" + host + tail == url;
    FormattedIsClean(scheme, host, tail);
    ColonAfterScheme(scheme, rest);
    ParseSpec(url);
    LowerOfLower(scheme);
    NetlocAfterSlashes(host, tail);
  }

  /** A URL written as `scheme://host` and a tail, none of which holds
      a tab, carriage return or line feed, needs no cleaning. */
  lemma FormattedIsClean(scheme: string, host: string, tail: string)
    requires IsScheme(scheme)
    requires forall k :: 0 <= k < |host| ==> !IsUnsafe(host[k])
    requires forall k :: 0 <= k < |tail| ==> !IsUnsafe(tail[k])
    ensures Clean(scheme + "://" + host + tail) == scheme + "://" + host + tail
    ensures scheme + "://" + host + tail != [] && !IsControlOrSpace((scheme + "://" + host + tail)[0])
    ensures forall k :: 0 <= k < |scheme + "://" + host + tail| ==> !IsUnsafe((scheme + "://" + host + tail)[k])
  {
    var url := scheme + "://" + host + tail;
    forall k | 0 <= k < |url| ensures !IsUnsafe(url[k]) {
      if k < |scheme| {
        assert url[k] == scheme[k] && IsSchemeChar(scheme[k]);
      } else if |scheme| + 3 <= k < |scheme| + 3 + |host| {
        assert url[k] == host[k - |scheme| - 3];
      } else if |scheme| + 3 + |host| <= k {
        assert url[k] == tail[k - |scheme| - 3 - |host|];
      }
    }
    assert url[0] == scheme[0] && IsAsciiLetter(scheme[0]);
    CleanSpec(url);
  }

  /** The colon written after a scheme is the scheme colon. */
  lemma ColonAfterScheme(scheme: string, rest: string)
    requires IsScheme(scheme)
    ensures var url := scheme + [':'] + rest;
            SchemeColon(url, |scheme|) && url[..|scheme|] == scheme && url[|scheme| + 1..] == rest
  {
    var url := scheme + [':'] + rest;
    assert url[..|scheme|] == scheme && url[|scheme| + 1..] == rest;
    forall k | 0 <= k < |scheme| ensures IsSchemeChar(url[k]) {
      assert url[k] == scheme[k];
    }
  }

  /** After `//`, the network location is the host when what follows the
      host starts with `/`, `?` or `#` or is empty. */
  lemma NetlocAfterSlashes(host: string, tail: string)
    requires forall k :: 0 <= k < |host| ==> !IsNetlocEnd(host[k])
    requires tail == [] || IsNetlocEnd(tail[0])
    ensures Netloc("//" + host + tail) == host
  {
    var rest := "//" + host + tail;
    assert StartsWith(rest, "//");
    assert rest[2..] == host + tail;
    NetlocOfHost(host, tail);
    assert rest[2..2 + |host|] == host;
  }

  /** Lower-casing leaves a string without capitals as it is. */
  lemma LowerOfLower(s: string)
    requires forall k :: 0 <= k < |s| ==> !('A' <= s[k] <= 'Z')
    ensures LowerAscii(s) == s
  {
  }

  lemma {:induction false} NetlocOfHost(host: string, tail: string)
    requires forall k :: 0 <= k < |host| ==> !IsNetlocEnd(host[k])
    requires tail == [] || IsNetlocEnd(tail[0])
    ensures NetlocLength(host + tail) == |host|
    decreases |host|
  {
    if host != [] {
      NetlocOfHost(host[1..], tail);
      assert (host + tail)[1..] == host[1..] + tail;
    } else {
      assert host + tail == tail;
    }
  }
}
