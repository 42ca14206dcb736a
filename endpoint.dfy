/** The endpoint resolver of `Pybooru.__init__`: a site name looked up in the
    fixed registry, or a raw site URL rebuilt from its `urlparse` components
    with the scheme forced to `http`. The result is the client's `baseURL`. */
module Endpoint {
  import opened Wrappers
  import opened Strings

  /** The registry `_site_name` consults. */
  const Sites: map<string, string> := map[
    "konachan" := "http://konachan.com",
    "danbooru" := "http://danbooru.donmai.us",
    "yandere" := "https://yande.re",
    "chan-sankaku" := "http://chan.sankakucomplex.com",
    "idol-sankaku" := "http://idol.sankakucomplex.com",
    "3dbooru" := "http://behoimi.org",
    "nekobooru" := "http://nekobooru.net"]

  /** `_site_name(name)` for an already lower-cased name: the `baseURL` it
      leaves, which stays the initial "" for an unregistered name. */
  function SiteName(name: string): (url: string)
    ensures url != "" <==> name in Sites
    ensures name in Sites ==> url == Sites[name]
  {
    if name in Sites then Sites[name] else ""
  }

  // ---------------------------------------------------------------------
  // The part of Python 2.7.4+'s `urlparse` that `_url_validator` relies on.

  /** The six components `urlparse` returns. */
  datatype UrlParts = UrlParts(scheme: string, netloc: string, path: string,
                               params: string, query: string, fragment: string)

  predicate IsSchemeChar(c: char)
  {
    'a' <= c <= 'z' || 'A' <= c <= 'Z' || IsDigit(c) || c == '+' || c == '-' || c == '.'
  }

  predicate AllSchemeChars(s: string)
  {
    forall k :: 0 <= k < |s| ==> IsSchemeChar(s[k])
  }

  /** The schemes for which `urlparse` splits `;params` off the path. */
  const UsesParams: set<string> := {"ftp", "hdl", "prospero", "http", "imap", "https", "shttp",
                                    "rtsp", "rtspu", "sip", "sips", "mms", "", "sftp", "tel"}

  /** The scheme and the rest. A prefix before the first `:` is a scheme when
      it is exactly `http`, or when it is made of scheme characters and what
      follows the `:` is empty or not all digits (`host:8080` is a path). */
  function SplitScheme(url: string): (string, string)
  {
    var i := IndexOf(url, ':');
    if i > 0 && (url[..i] == "http" ||
                 (AllSchemeChars(url[..i]) && (i + 1 == |url| || !AllDigits(url[i + 1..]))))
    then (Lower(url[..i]), url[i + 1..])
    else ("", url)
  }

  predicate StartsNetloc(url: string)
  {
    |url| >= 2 && url[..2] == "//"
  }

  /** After a leading `//`, the network location runs up to the first `/`,
      `?` or `#`; it is empty when there is no leading `//`. */
  function SplitNetloc(url: string): (string, string)
  {
    if StartsNetloc(url) then
      var t := url[2..];
      var d := FirstOf(t, {'/', '?', '#'});
      (t[..d], t[d..])
    else ("", url)
  }

  /** `s.split(c, 1)` when `c in s`, else `(s, "")`. */
  function SplitAt(s: string, c: char): (string, string)
  {
    var i := IndexOf(s, c);
    if i < 0 then (s, "") else (s[..i], s[i + 1..])
  }

  /** `_splitparams`: the `;` that starts the parameters is looked for in the
      last path segment, or anywhere when the path has no `/`; the `;` itself
      belongs to neither half. */
  function SplitParams(path: string): (string, string)
    requires ';' in path
  {
    if '/' in path then
      var i := IndexOfFrom(path, ';', LastIndexOf(path, '/'));
      if i < 0 then (path, "") else (path[..i], path[i + 1..])
    else
      var i := IndexOf(path, ';');
      (path[..i], path[i + 1..])
  }

  /** `urlparse(url)`. */
  function UrlParse(url: string): (p: UrlParts)
    ensures NoUpper(p.scheme)
    ensures p.params != "" ==> p.scheme in UsesParams
  {
    var sch := SplitScheme(url);
    ParseAfterScheme(sch.0, sch.1)
  }

  /** The components that follow the scheme: network location, then
      fragment, then query, then parameters when the scheme takes them. */
  function ParseAfterScheme(scheme: string, rest: string): UrlParts
  {
    var net := SplitNetloc(rest);
    var frag := SplitAt(net.1, '#');
    var qry := SplitAt(frag.0, '?');
    var prm := if scheme in UsesParams && ';' in qry.0 then SplitParams(qry.0) else (qry.0, "");
    UrlParts(scheme, net.0, prm.0, prm.1, qry.1, frag.1)
  }

  /** `a + b` avoids exactly what both halves avoid. */
  lemma ConcatAvoids(a: string, b: string, bad: set<char>)
    ensures Avoids(a + b, bad) <==> Avoids(a, bad) && Avoids(b, bad)
    ensures NoUpper(a + b) <==> NoUpper(a) && NoUpper(b)
  {
    var ab := a + b;
    assert forall k :: 0 <= k < |a| ==> ab[k] == a[k];
    assert forall k :: 0 <= k < |b| ==> ab[|a| + k] == b[k];
    assert forall k :: |a| <= k < |ab| ==> ab[k] == b[k - |a|];
  }

  /** The string `_url_validator` assembles from the components:
      `'http://' + netloc + path + params`. */
  function Rebuild(p: UrlParts): (s: string)
    ensures |s| >= 7
  {
    "http://" + p.netloc + p.path + p.params
  }

  /** `_url_validator(url)`: the scheme test is always true, so the URL is
      always rebuilt as `http://` + netloc + path + params; when the input
      ends in `/` the last character of the rebuilt string is dropped. No
      result for the empty string, on which `url[-1]` raises. */
  function ValidateUrl(url: string): (r: Option<string>)
    ensures r.None? <==> url == ""
  {
    if url == "" then None
    else
      var rebuilt := Rebuild(UrlParse(url));
      Some(if url[|url| - 1] == '/' then DropLast(rebuilt) else rebuilt)
  }

  /** `s[:-1]` on a non-empty string. */
  function DropLast(s: string): (r: string)
    requires s != ""
    ensures |r| == |s| - 1
  {
    s[..|s| - 1]
  }

  // ---------------------------------------------------------------------
  // What each step of the parse keeps out of its components.

  /** Each character of `s[i..j]` is one of `s`. */
  lemma SliceAvoids(s: string, i: nat, j: nat, bad: set<char>)
    requires i <= j <= |s|
    ensures Avoids(s, bad) ==> Avoids(s[i..j], bad)
    ensures NoUpper(s) ==> NoUpper(s[i..j])
  {
    assert forall k :: 0 <= k < j - i ==> s[i..j][k] == s[i + k];
  }

  lemma SplitSchemeKeeps(url: string)
    ensures NoUpper(url) ==> NoUpper(SplitScheme(url).1)
  {
    var i := IndexOf(url, ':');
    if i > 0 {
      SliceAvoids(url, i + 1, |url|, {});
      assert url[i + 1..] == url[i + 1..|url|];
    }
  }

  lemma SplitNetlocKeeps(url: string)
    ensures Avoids(SplitNetloc(url).0, {'/', '?', '#'})
    ensures NoUpper(url) ==> NoUpper(SplitNetloc(url).0) && NoUpper(SplitNetloc(url).1)
  {
    if StartsNetloc(url) {
      var t := url[2..];
      var d := FirstOf(t, {'/', '?', '#'});
      SliceAvoids(url, 2, |url|, {});
      assert t == url[2..|url|];
      SliceAvoids(t, 0, d, {});
      SliceAvoids(t, d, |t|, {});
      assert t[..d] == t[0..d] && t[d..] == t[d..|t|];
      assert forall k :: 0 <= k < d ==> t[..d][k] == t[k];
    }
  }

  lemma SplitAtKeeps(s: string, c: char, bad: set<char>)
    ensures Avoids(SplitAt(s, c).0, {c})
    ensures Avoids(s, bad) ==> Avoids(SplitAt(s, c).0, bad)
    ensures NoUpper(s) ==> NoUpper(SplitAt(s, c).0) && NoUpper(SplitAt(s, c).1)
  {
    var i := IndexOf(s, c);
    if i >= 0 {
      SliceAvoids(s, 0, i, bad);
      SliceAvoids(s, i + 1, |s|, bad);
      assert s[..i] == s[0..i] && s[i + 1..] == s[i + 1..|s|];
    }
  }

  lemma SplitParamsKeeps(path: string)
    requires ';' in path
    ensures Avoids(path, {'?', '#'}) ==>
      Avoids(SplitParams(path).0, {'?', '#'}) && Avoids(SplitParams(path).1, {'?', '#'})
    ensures NoUpper(path) ==> NoUpper(SplitParams(path).0) && NoUpper(SplitParams(path).1)
  {
    var i := if '/' in path then IndexOfFrom(path, ';', LastIndexOf(path, '/')) else IndexOf(path, ';');
    if i >= 0 {
      SliceAvoids(path, 0, i, {'?', '#'});
      SliceAvoids(path, i + 1, |path|, {'?', '#'});
      assert path[..i] == path[0..i] && path[i + 1..] == path[i + 1..|path|];
    }
  }

  /** Network location, path and parameters never hold `?` or `#`, and
      they hold no capital when the remainder held none. */
  lemma ParseAfterSchemeKeeps(scheme: string, rest: string)
    ensures var p := ParseAfterScheme(scheme, rest);
      Avoids(p.netloc, {'?', '#'}) && Avoids(p.path, {'?', '#'}) && Avoids(p.params, {'?', '#'})
      && (NoUpper(rest) ==> NoUpper(p.netloc) && NoUpper(p.path) && NoUpper(p.params))
  {
    var net := SplitNetloc(rest);
    SplitNetlocKeeps(rest);
    var frag := SplitAt(net.1, '#');
    SplitAtKeeps(net.1, '#', {});
    var qry := SplitAt(frag.0, '?');
    SplitAtKeeps(frag.0, '?', {'#'});
    assert Avoids(qry.0, {'?', '#'});
    if scheme in UsesParams && ';' in qry.0 {
      SplitParamsKeeps(qry.0);
    }
  }

  lemma UrlParseKeeps(url: string)
    ensures var p := UrlParse(url);
      Avoids(p.netloc, {'?', '#'}) && Avoids(p.path, {'?', '#'}) && Avoids(p.params, {'?', '#'})
      && (NoUpper(url) ==> NoUpper(p.netloc) && NoUpper(p.path) && NoUpper(p.params))
  {
    SplitSchemeKeeps(url);
    ParseAfterSchemeKeeps(SplitScheme(url).0, SplitScheme(url).1);
  }

  /** The rebuilt URL starts with `http://` and keeps out what its
      components keep out. */
  lemma RebuildKeeps(p: UrlParts)
    ensures "http://" <= Rebuild(p)
    ensures Avoids(p.netloc, {'?', '#'}) && Avoids(p.path, {'?', '#'}) && Avoids(p.params, {'?', '#'})
      ==> Avoids(Rebuild(p), {'?', '#'})
    ensures NoUpper(p.netloc) && NoUpper(p.path) && NoUpper(p.params) ==> NoUpper(Rebuild(p))
  {
    ConcatAvoids("http://", p.netloc, {'?', '#'});
    ConcatAvoids("http://" + p.netloc, p.path, {'?', '#'});
    ConcatAvoids("http://" + p.netloc + p.path, p.params, {'?', '#'});
  }

  lemma DropLastKeeps(s: string)
    requires s != ""
    ensures DropLast(s) <= s
    ensures Avoids(s, {'?', '#'}) ==> Avoids(DropLast(s), {'?', '#'})
    ensures NoUpper(s) ==> NoUpper(DropLast(s))
  {
    SliceAvoids(s, 0, |s| - 1, {'?', '#'});
    assert DropLast(s) == s[0..|s| - 1];
  }

  /** The `baseURL` that `Pybooru(name, siteURL)` ends up with: a given name
      wins over a given URL, both are lower-cased first, and with neither the
      initial "" stays. No result when the constructor raises. */
  function InitBaseUrl(name: Option<string>, siteURL: Option<string>): (r: Option<string>)
    ensures r.None? <==> name.None? && siteURL == Some("")
    ensures name.None? && siteURL.None? ==> r == Some("")
    ensures name.Some? ==> (r.value != "" <==> Lower(name.value) in Sites)
  {
    if name.Some? then Some(SiteName(Lower(name.value)))
    else if siteURL.Some? then ValidateUrl(Lower(siteURL.value))
    else Some("")
  }

  // ---------------------------------------------------------------------
  // Properties of site-name resolution.

  /** Every registry key is lower-case, so each one resolves to exactly its
      registered base URL, in whatever case it is written. */
  lemma RegisteredNameResolves(name: string, siteURL: Option<string>)
    requires Lower(name) in Sites
    ensures InitBaseUrl(Some(name), siteURL) == Some(Sites[Lower(name)])
    ensures InitBaseUrl(Some(Lower(name)), None) == Some(Sites[Lower(name)])
  {
    LowerIsLower(name);
  }

  /** Names are compared case-insensitively, and a name makes the URL
      argument irrelevant, even when the name is not registered. */
  lemma NameDecidesBase(a: string, b: string, u: Option<string>, v: Option<string>)
    requires Lower(a) == Lower(b)
    ensures InitBaseUrl(Some(a), u) == InitBaseUrl(Some(b), v)
    ensures Lower(a) !in Sites ==> InitBaseUrl(Some(a), u) == Some("")
  {
  }

  /** The registry's values are non-empty, so a resolved name is registered
      exactly when the base URL it gives is not the initial "". */
  lemma RegisteredIffNonEmpty(name: string)
    ensures SiteName(Lower(name)) != "" <==> Lower(name) in Sites
  {
  }

  /** A mixed-case registered name resolves to its registry entry. */
  lemma DanbooruResolves()
    ensures InitBaseUrl(Some("DanBooru"), None) == Some("http://danbooru.donmai.us")
  {
    var name := "DanBooru";
    assert Lower(name) == "danbooru" by {
      assert Lower(name)[..1] == [LowerChar('D')];
    }
    assert "danbooru" in Sites && Sites["danbooru"] == "http://danbooru.donmai.us";
  }

  /** The registry keeps `https` for yande.re. */
  lemma YandereResolves()
    ensures InitBaseUrl(Some("yandere"), None) == Some("https://yande.re")
  {
    var name := "yandere";
    assert Lower(name) == name by {
      LowerOfNoUpper(name);
    }
    assert name in Sites && Sites[name] == "https://yande.re";
  }

  /** An unregistered name gives "" even when a usable URL is also passed,
      and so do no arguments at all; an empty URL makes the constructor
      raise. */
  lemma FallbackExamples()
    ensures InitBaseUrl(Some("gelbooru"), Some("http://gelbooru.com")) == Some("")
    ensures InitBaseUrl(None, None) == Some("")
    ensures InitBaseUrl(None, Some("")) == None
  {
    var name := "gelbooru";
    assert Lower(name) == name by {
      LowerOfNoUpper(name);
    }
    assert name !in Sites;
  }

  // ---------------------------------------------------------------------
  // Properties of URL normalisation.

  /** The normalised URL never carries a query or a fragment, and it is in
      lower case whenever the input is. */
  lemma ValidateUrlDropsQuery(url: string)
    requires url != ""
    ensures '?' !in ValidateUrl(url).value && '#' !in ValidateUrl(url).value
    ensures NoUpper(url) ==> NoUpper(ValidateUrl(url).value)
  {
    ValidateUrlFrom(url);
    UrlParseKeeps(url);
    RebuildKeeps(UrlParse(url));
    DropLastKeeps(Rebuild(UrlParse(url)));
  }

  /** A client built from a site URL, in whatever case it was written, has
      a lower-case base URL. */
  lemma UrlBaseIsLowerCase(siteURL: string)
    requires siteURL != ""
    ensures InitBaseUrl(None, Some(siteURL)).Some?
    ensures NoUpper(InitBaseUrl(None, Some(siteURL)).value)
  {
    LowerIsLower(siteURL);
    ValidateUrlDropsQuery(Lower(siteURL));
  }

  /** The scheme is found at the first `:` of `s://rest`. */
  lemma SplitSchemeSlashes(s: string, rest: string)
    requires s != "" && AllSchemeChars(s)
    ensures SplitScheme(s + "://" + rest) == (Lower(s), "//" + rest)
  {
    var url := s + "://" + rest;
    assert url[|s|] == ':' && url[..|s|] == s;
    assert ':' !in s;
    var i := IndexOf(url, ':');
    assert i == |s|;
    assert url[i + 1..] == "//" + rest;
    assert !IsDigit(url[i + 1]);
  }

  /** The input scheme plays no part: `https://x` and `http://x`, or any two
      schemes urlparse splits parameters for, give the same base URL. */
  lemma ValidateUrlSchemeIgnored(s1: string, s2: string, rest: string)
    requires s1 != "" && AllSchemeChars(s1) && Lower(s1) in UsesParams
    requires s2 != "" && AllSchemeChars(s2) && Lower(s2) in UsesParams
    ensures ValidateUrl(s1 + "://" + rest) == ValidateUrl(s2 + "://" + rest)
  {
    SplitSchemeSlashes(s1, rest);
    SplitSchemeSlashes(s2, rest);
    var p1 := ParseAfterScheme(Lower(s1), "//" + rest);
    var p2 := ParseAfterScheme(Lower(s2), "//" + rest);
    assert Rebuild(p1) == Rebuild(p2);
    var u1, u2 := s1 + "://" + rest, s2 + "://" + rest;
    assert u1[|u1| - 1] == u2[|u2| - 1] by {
      if rest == "" {
        assert u1[|u1| - 1] == '/' && u2[|u2| - 1] == '/';
      } else {
        assert u1[|u1| - 1] == rest[|rest| - 1] == u2[|u2| - 1];
      }
    }
  }

  lemma SplitAtAbsent(s: string, c: char)
    requires c !in s
    ensures SplitAt(s, c) == (s, "")
  {
  }

  /** `//host` followed by an empty path or one that starts with `/`. */
  lemma SplitNetlocHost(host: string, path: string)
    requires Avoids(host, {'/', '?', '#'})
    requires path == "" || path[0] == '/'
    ensures SplitNetloc("//" + host + path) == (host, path)
  {
    var url := "//" + host + path;
    var t := host + path;
    assert url[2..] == t;
    var d := FirstOf(t, {'/', '?', '#'});
    assert forall k :: 0 <= k < |host| ==> t[k] == host[k];
    if path != "" {
      assert t[|host|] == '/';
    }
    assert d == |host|;
    assert t[..d] == host && t[d..] == path;
  }

  /** What follows the scheme is `//host` and a path without query,
      fragment or parameters. */
  lemma ParseHostPath(scheme: string, host: string, path: string)
    requires Avoids(host, {'/', '?', '#'})
    requires path == "" || path[0] == '/'
    requires Avoids(path, {'?', '#', ';'})
    ensures ParseAfterScheme(scheme, "//" + (host + path)) == UrlParts(scheme, host, path, "", "", "")
  {
    assert SplitNetloc("//" + (host + path)) == (host, path) by {
      assert "//" + (host + path) == "//" + host + path;
      SplitNetlocHost(host, path);
    }
    SplitAtAbsent(path, '#');
    SplitAtAbsent(path, '?');
  }

  /** A scheme, a host and a path without query, fragment or parameters. */
  lemma UrlParseHostPath(scheme: string, host: string, path: string)
    requires scheme != "" && AllSchemeChars(scheme)
    requires Avoids(host, {'/', '?', '#'})
    requires path == "" || path[0] == '/'
    requires Avoids(path, {'?', '#', ';'})
    ensures UrlParse(scheme + "://" + host + path) == UrlParts(Lower(scheme), host, path, "", "", "")
  {
    assert scheme + "://" + host + path == scheme + "://" + (host + path);
    UrlParseSlashes(scheme, host + path);
    ParseHostPath(Lower(scheme), host, path);
  }

  // `ValidateUrlFrom`, `ValidateUrlTrailing` and `ValidateUrlNoSlash` are
  // unfolding steps of `ValidateUrl`, not specifications: each takes the URL
  // as a plain variable, so that callers do not unfold `UrlParse` on a
  // concatenation.

  lemma ValidateUrlFrom(url: string)
    requires url != ""
    ensures ValidateUrl(url) == Some(if url[|url| - 1] == '/'
      then DropLast(Rebuild(UrlParse(url))) else Rebuild(UrlParse(url)))
  {
  }

  lemma ValidateUrlTrailing(url: string, rebuilt: string)
    requires url != "" && url[|url| - 1] == '/' && Rebuild(UrlParse(url)) == rebuilt
    ensures ValidateUrl(url) == Some(DropLast(rebuilt))
  {
  }

  /** With a host free of `/`, `prefix + host + path` ends in `/` exactly
      when a non-empty path does. */
  lemma EndsInSlash(prefix: string, host: string, path: string)
    requires host != "" && '/' !in host
    ensures var url := prefix + host + path;
      url[|url| - 1] == '/' <==> path != "" && path[|path| - 1] == '/'
  {
    var url := prefix + host + path;
    if path == "" {
      assert url[|url| - 1] == host[|host| - 1];
    } else {
      assert url[|url| - 1] == path[|path| - 1];
    }
  }

  /** A site URL made of a scheme, a host and a path that carries no query,
      fragment or parameters becomes `http://` + host + path, with exactly one
      trailing `/` removed when there is one. */
  lemma ValidateUrlHostPath(scheme: string, host: string, path: string)
    requires scheme != "" && AllSchemeChars(scheme)
    requires host != "" && Avoids(host, {'/', '?', '#'})
    requires path == "" || path[0] == '/'
    requires Avoids(path, {'?', '#', ';'})
    ensures ValidateUrl(scheme + "://" + host + path) ==
      Some(if path != "" && path[|path| - 1] == '/' then "http://" + host + path[..|path| - 1]
           else "http://" + host + path)
  {
    var url := scheme + "://" + host + path;
    var rebuilt := "http://" + host + path;
    assert Rebuild(UrlParse(url)) == rebuilt by {
      UrlParseHostPath(scheme, host, path);
      assert Rebuild(UrlParts(Lower(scheme), host, path, "", "", "")) == rebuilt;
    }
    var slash := path != "" && path[|path| - 1] == '/';
    assert url[|url| - 1] == '/' <==> slash by {
      EndsInSlash(scheme + "://", host, path);
    }
    ValidateUrlFrom(url);
    if slash {
      assert DropLast(rebuilt) == "http://" + host + path[..|path| - 1];
    }
  }

  /** Without `//`, `?`, `#` and `;`, the whole remainder is the path. */
  lemma ParsePathOnly(scheme: string, rest: string)
    requires !StartsNetloc(rest) && Avoids(rest, {'?', '#', ';'})
    ensures ParseAfterScheme(scheme, rest) == UrlParts(scheme, "", rest, "", "", "")
  {
    SplitAtAbsent(rest, '#');
    SplitAtAbsent(rest, '?');
  }

  /** A URL urlparse finds no scheme and no network location in is taken
      whole as the path, so it is just prefixed with `http://`. */
  lemma ValidateUrlSchemeless(url: string)
    requires url != "" && url[|url| - 1] != '/'
    requires SplitScheme(url) == ("", url) && !StartsNetloc(url)
    requires Avoids(url, {'?', '#', ';'})
    ensures ValidateUrl(url) == Some("http://" + url)
  {
    assert Rebuild(UrlParse(url)) == "http://" + url by {
      ParsePathOnly("", url);
      assert Rebuild(UrlParts("", "", url, "", "", "")) == "http://" + url;
    }
    ValidateUrlFrom(url);
  }

  /** A bare host name without `http://` gets it prepended. */
  lemma ValidateUrlBareHost(host: string)
    requires host != "" && host[|host| - 1] != '/' && !StartsNetloc(host)
    requires Avoids(host, {':', '?', '#', ';'})
    ensures ValidateUrl(host) == Some("http://" + host)
  {
    assert SplitScheme(host) == ("", host) by {
      assert ':' !in host by {
        assert forall k :: 0 <= k < |host| ==> host[k] != ':';
      }
    }
    assert Avoids(host, {'?', '#', ';'});
    ValidateUrlSchemeless(host);
  }

  /** In `host:port` with a scheme-like host and a numeric port, the `:` is
      not taken as the end of a scheme. */
  lemma SplitSchemeHostPort(host: string, port: string)
    requires host != "" && AllSchemeChars(host) && host != "http"
    requires port != "" && AllDigits(port)
    ensures SplitScheme(host + ":" + port) == ("", host + ":" + port)
  {
    var url := host + ":" + port;
    assert url[|host|] == ':' && url[..|host|] == host;
    assert ':' !in host by {
      assert forall k :: 0 <= k < |host| ==> IsSchemeChar(host[k]);
    }
    assert IndexOf(url, ':') == |host|;
    assert url[|host| + 1..] == port;
  }

  lemma HostPortAvoids(host: string, port: string)
    requires AllSchemeChars(host) && AllDigits(port)
    ensures Avoids(host + ":" + port, {'?', '#', ';', '/'})
    ensures Avoids(host + ":" + port, {'?', '#', ';'})
  {
    var url := host + ":" + port;
    forall k | 0 <= k < |url|
      ensures url[k] !in {'?', '#', ';', '/'}
    {
      if k < |host| {
        assert url[k] == host[k] && IsSchemeChar(host[k]);
      } else if k > |host| {
        assert url[k] == port[k - |host| - 1] && IsDigit(port[k - |host| - 1]);
      }
    }
  }

  /** `host:port` without `http://` is not read as scheme and path, because
      what follows the `:` is all digits; it too gets `http://` prepended. */
  lemma ValidateUrlHostPort(host: string, port: string)
    requires host != "" && AllSchemeChars(host) && host != "http"
    requires port != "" && AllDigits(port)
    ensures ValidateUrl(host + ":" + port) == Some("http://" + host + ":" + port)
  {
    SplitSchemeHostPort(host, port);
    HostPortAvoids(host, port);
    HostPortShape(host, port);
    ValidateUrlSchemeless(host + ":" + port);
  }

  lemma HostPortShape(host: string, port: string)
    requires host != "" && Avoids(host + ":" + port, {'?', '#', ';', '/'})
    ensures var url := host + ":" + port;
      url[|url| - 1] != '/' && !StartsNetloc(url) && "http://" + url == "http://" + host + ":" + port
  {
    var url := host + ":" + port;
    assert url[0] != '/' && url[|url| - 1] != '/';
  }

  /** `//host?rest`: the host ends at the `?`. */
  lemma SplitNetlocQuery(host: string, rest: string)
    requires Avoids(host, {'/', '?', '#'})
    ensures SplitNetloc("//" + host + "?" + rest) == (host, "?" + rest)
  {
    var t := ("//" + host + "?" + rest)[2..];
    var after := "?" + rest;
    assert t == host + after;
    assert forall k :: 0 <= k < |host| ==> t[k] == host[k];
    assert t[|host|] == '?';
    assert FirstOf(t, {'/', '?', '#'}) == |host|;
    assert t[..|host|] == host && t[|host|..] == after;
  }

  /** `//host?q` without a fragment: empty path, query `q`. */
  lemma ParseHostQuery(scheme: string, host: string, q: string)
    requires Avoids(host, {'/', '?', '#'}) && '#' !in q
    ensures ParseAfterScheme(scheme, "//" + host + "?" + q) == UrlParts(scheme, host, "", "", q, "")
  {
    var after := "?" + q;
    SplitNetlocQuery(host, q);
    assert '#' !in after by {
      assert forall k :: 0 < k < |after| ==> after[k] == q[k - 1];
    }
    SplitAtAbsent(after, '#');
    assert SplitAt(after, '?') == ("", q) by {
      assert IndexOf(after, '?') == 0;
      assert after[1..] == q;
    }
  }

  /** `s://rest` is parsed as `//rest` under the lower-cased scheme. */
  lemma UrlParseSlashes(scheme: string, rest: string)
    requires scheme != "" && AllSchemeChars(scheme)
    ensures UrlParse(scheme + "://" + rest) == ParseAfterScheme(Lower(scheme), "//" + rest)
  {
    SplitSchemeSlashes(scheme, rest);
  }

  lemma UrlParseHostQuery(scheme: string, host: string, q: string)
    requires scheme != "" && AllSchemeChars(scheme)
    requires Avoids(host, {'/', '?', '#'}) && '#' !in q
    ensures UrlParse(scheme + "://" + host + "?" + q) == UrlParts(Lower(scheme), host, "", "", q, "")
  {
    var rest := host + "?" + q;
    assert scheme + "://" + host + "?" + q == scheme + "://" + rest;
    assert "//" + rest == "//" + host + "?" + q;
    UrlParseSlashes(scheme, rest);
    ParseHostQuery(Lower(scheme), host, q);
  }

  lemma RebuildHostQuerySlash(scheme: string, host: string, q: string)
    requires scheme != "" && AllSchemeChars(scheme)
    requires Avoids(host, {'/', '?', '#'}) && '#' !in q
    ensures Rebuild(UrlParse(scheme + "://" + host + "?" + q + "/")) == "http://" + host
  {
    assert '#' !in q + "/";
    assert scheme + "://" + host + "?" + q + "/" == scheme + "://" + host + "?" + (q + "/");
    UrlParseHostQuery(scheme, host, q + "/");
    assert Rebuild(UrlParts(Lower(scheme), host, "", "", q + "/", "")) == "http://" + host;
  }

  lemma DropLastConcat(a: string, b: string)
    requires b != ""
    ensures DropLast(a + b) == a + DropLast(b)
  {
  }

  /** The trailing-`/` test looks at the whole input, but the character it
      removes is the last one of the rebuilt URL, which no longer holds the
      query: `http://host?q/` loses the last character of the host. */
  lemma ValidateUrlQuerySlash(scheme: string, host: string, q: string)
    requires scheme != "" && AllSchemeChars(scheme)
    requires host != "" && Avoids(host, {'/', '?', '#'})
    requires '#' !in q
    ensures ValidateUrl(scheme + "://" + host + "?" + q + "/") == Some("http://" + DropLast(host))
  {
    var url := scheme + "://" + host + "?" + q + "/";
    RebuildHostQuerySlash(scheme, host, q);
    ValidateUrlTrailing(url, "http://" + host);
    DropLastConcat("http://", host);
  }

  /** `_splitparams` on `path;prm` with no `;` in the path and no `/` in
      the parameters: the `;` after the last segment is the split point. */
  lemma SplitParamsAfterPath(path: string, prm: string)
    requires path != "" && path[0] == '/' && ';' !in path
    requires '/' !in prm
    ensures ';' in path + ";" + prm
    ensures SplitParams(path + ";" + prm) == (path, prm)
  {
    var s := path + ";" + prm;
    assert s[|path|] == ';' && s[0] == '/';
    var j := LastIndexOf(s, '/');
    assert j < |path| by {
      assert forall k :: |path| < k < |s| ==> s[k] == prm[k - |path| - 1];
    }
    var i := IndexOfFrom(s, ';', j);
    assert forall k :: 0 <= k < |path| ==> s[k] == path[k];
    assert i == |path|;
    assert s[..i] == path && s[i + 1..] == prm;
  }

  /** The components after the scheme once the network location, the
      absence of query and fragment, and the parameters are known. */
  lemma ParseAfterSchemeParams(scheme: string, rest: string, netloc: string, tail: string,
                               path: string, prm: string)
    requires SplitNetloc(rest) == (netloc, tail)
    requires '#' !in tail && '?' !in tail
    requires scheme in UsesParams && ';' in tail && SplitParams(tail) == (path, prm)
    ensures ParseAfterScheme(scheme, rest) == UrlParts(scheme, netloc, path, prm, "", "")
  {
    SplitAtAbsent(tail, '#');
    SplitAtAbsent(tail, '?');
  }

  lemma SplitNetlocHostTail(host: string, tail: string)
    requires Avoids(host, {'/', '?', '#'}) && tail != "" && tail[0] == '/'
    ensures SplitNetloc("//" + (host + tail)) == (host, tail)
  {
    assert "//" + (host + tail) == "//" + host + tail;
    SplitNetlocHost(host, tail);
  }

  lemma ParamsTailAvoids(path: string, prm: string)
    requires Avoids(path, {'?', '#', ';'}) && Avoids(prm, {'/', '?', '#'})
    ensures '#' !in path + ";" + prm && '?' !in path + ";" + prm
    ensures ';' !in path && '/' !in prm
  {
    var tail := path + ";" + prm;
    assert forall k :: |path| < k < |tail| ==> tail[k] == prm[k - |path| - 1];
    assert forall k :: 0 <= k < |path| ==> tail[k] == path[k];
  }

  /** `//host/path;prm` under a scheme that has parameters. */
  lemma ParseHostParams(scheme: string, host: string, path: string, prm: string)
    requires scheme in UsesParams
    requires Avoids(host, {'/', '?', '#'})
    requires path != "" && path[0] == '/' && Avoids(path, {'?', '#', ';'})
    requires Avoids(prm, {'/', '?', '#'})
    ensures ParseAfterScheme(scheme, "//" + (host + (path + ";" + prm))) ==
      UrlParts(scheme, host, path, prm, "", "")
  {
    var tail := path + ";" + prm;
    SplitNetlocHostTail(host, tail);
    ParamsTailAvoids(path, prm);
    SplitParamsAfterPath(path, prm);
    ParseAfterSchemeParams(scheme, "//" + (host + tail), host, tail, path, prm);
  }

  lemma UrlParseHostParams(scheme: string, host: string, path: string, prm: string)
    requires scheme != "" && AllSchemeChars(scheme) && Lower(scheme) in UsesParams
    requires Avoids(host, {'/', '?', '#'})
    requires path != "" && path[0] == '/' && Avoids(path, {'?', '#', ';'})
    requires Avoids(prm, {'/', '?', '#'})
    ensures UrlParse(scheme + "://" + (host + (path + ";" + prm)))
      == UrlParts(Lower(scheme), host, path, prm, "", "")
  {
    UrlParseSlashes(scheme, host + (path + ";" + prm));
    ParseHostParams(Lower(scheme), host, path, prm);
  }

  /** An input that does not end in `/` is replaced by its rebuilt form. */
  lemma ValidateUrlNoSlash(url: string, rebuilt: string)
    requires url != "" && url[|url| - 1] != '/' && Rebuild(UrlParse(url)) == rebuilt
    ensures ValidateUrl(url) == Some(rebuilt)
  {
  }

  /** `;` in the last path segment starts urlparse's parameters, and
      rebuilding joins them back without the `;`: `http://host/b;c` becomes
      `http://host/bc`. */
  lemma ValidateUrlParams(scheme: string, host: string, path: string, prm: string)
    requires scheme != "" && AllSchemeChars(scheme) && Lower(scheme) in UsesParams
    requires host != "" && Avoids(host, {'/', '?', '#'})
    requires path != "" && path[0] == '/' && Avoids(path, {'?', '#', ';'})
    requires Avoids(prm, {'/', '?', '#'})
    ensures ValidateUrl(scheme + "://" + host + path + ";" + prm) == Some("http://" + host + path + prm)
  {
    var url := scheme + "://" + host + path + ";" + prm;
    ParamsTailAvoids(path, prm);
    ParamsUrlShape(scheme, host, path, prm);
    UrlParseHostParams(scheme, host, path, prm);
    ValidateUrlNoSlash(url, "http://" + host + path + prm);
  }

  lemma ParamsUrlShape(scheme: string, host: string, path: string, prm: string)
    requires '/' !in prm
    ensures var url := scheme + "://" + host + path + ";" + prm;
      url == scheme + "://" + (host + (path + ";" + prm)) && url[|url| - 1] != '/'
  {
    var url := scheme + "://" + host + path + ";" + prm;
    if prm != "" {
      assert url[|url| - 1] == prm[|prm| - 1];
    }
  }
}
