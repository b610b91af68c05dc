/** Normalising the public URL, and the discovery lookup that compares against it as
  * plain strings. */
module PublicUrl {

  import opened Wrappers

  datatype Error = QueryOrFragment | NotAbsolute | NotHttps | NoHost | Userinfo

  // ---------------------------------------------------------------- strings

  function LowerChar(c: char): char { if 'A' <= c <= 'Z' then (c as int + 32) as char else c }

  function Lower(s: string): (l: string)
    ensures |l| == |s| && forall i :: 0 <= i < |s| ==> l[i] == LowerChar(s[i])
  {
    seq(|s|, i requires 0 <= i < |s| => LowerChar(s[i]))
  }

  /** Splits at the first "://". */
  function SplitScheme(s: string): Option<(string, string)> {
    if |s| < 3 then None
    else if s[..3] == "://" then Some(("", s[3..]))
    else match SplitScheme(s[1..])
      case None => None
      case Some((scheme, rest)) => Some(([s[0]] + scheme, rest))
  }

  function TrimSlashes(s: string): string {
    if s != "" && s[|s| - 1] == '/' then TrimSlashes(s[..|s| - 1]) else s
  }

  /** Splits before the first slash. */
  function SplitPath(s: string): (parts: (string, string))
    ensures s == parts.0 + parts.1 && '/' !in parts.0 && IsPath(parts.1)
  {
    if s == "" || s[0] == '/' then ("", s)
    else
      var (host, path) := SplitPath(s[1..]);
      assert s == [s[0]] + s[1..];
      ([s[0]] + host, path)
  }

  // ---------------------------------------------------------------- the two functions

  function Normalize(value: string): Result<string, Error> {
    if '?' in value || '#' in value then Err(QueryOrFragment)
    else match SplitScheme(value)
      case None => Err(NotAbsolute)
      case Some((scheme, rest)) =>
        if Lower(scheme) != "https" then Err(NotHttps) else
        var (host, path) := SplitPath(TrimSlashes(rest));
        if host == "" then Err(NoHost)
        else if '@' in host then Err(Userinfo)
        else Ok("https://" + Lower(host) + path)
  }

  function Origin(url: string): string {
    if |url| < 8 || url[..8] != "https://" then url
    else var (host, path) := SplitPath(url[8..]); if path == "" then url else url[..8 + |host|]
  }

  function Resource(url: string): string { url + "/mcp" }

  /** The identifier a client holding `suffix` started from, if that is `expected`. */
  function Identifier(url: string, suffix: string, expected: string): Option<string> {
    if Origin(url) + "/" + suffix == expected then Some(expected) else None
  }

  // ---------------------------------------------------------------- the splits

  ghost predicate IsPath(path: string) { path == "" || path[0] == '/' }

  lemma {:induction false} SplitSchemeSound(s: string)
    ensures SplitScheme(s).Some? ==>
              var (scheme, rest) := SplitScheme(s).value; s == scheme + "://" + rest
  {
    if |s| >= 3 && s[..3] != "://" {
      SplitSchemeSound(s[1..]);
      assert s == [s[0]] + s[1..];
    } else if |s| >= 3 {
      assert s == s[..3] + s[3..];
    }
  }

  lemma {:induction false} SplitSchemeFirst(scheme: string, rest: string)
    requires ':' !in scheme
    ensures SplitScheme(scheme + "://" + rest) == Some((scheme, rest))
  {
    var s := scheme + "://" + rest;
    if scheme == "" {
      assert s[..3] == "://" && s[3..] == rest;
    } else {
      assert s[0] == scheme[0] && scheme[0] in scheme;
      assert s[1..] == scheme[1..] + "://" + rest;
      assert s[..3][0] != ':';
      assert ':' !in scheme[1..];
      SplitSchemeFirst(scheme[1..], rest);
      assert scheme == [scheme[0]] + scheme[1..];
    }
  }

  lemma {:induction false} SplitPathFirst(host: string, path: string)
    requires '/' !in host && IsPath(path)
    ensures SplitPath(host + path) == (host, path)
  {
    if host == "" {
      assert host + path == path;
    } else {
      assert host[0] in host;
      assert (host + path)[1..] == host[1..] + path;
      SplitPathFirst(host[1..], path);
      assert host == [host[0]] + host[1..];
    }
  }

  ghost predicate Slashes(s: string) { forall i :: 0 <= i < |s| ==> s[i] == '/' }

  ghost predicate EndsOpen(s: string) { s != "" ==> s[|s| - 1] != '/' }

  lemma {:induction false} TrimSound(s: string) returns (slashes: string)
    ensures s == TrimSlashes(s) + slashes && Slashes(slashes) && EndsOpen(TrimSlashes(s))
  {
    if s != "" && s[|s| - 1] == '/' {
      var front := TrimSound(s[..|s| - 1]);
      slashes := front + "/";
      assert s == s[..|s| - 1] + "/";
    } else {
      slashes := "";
    }
  }

  lemma {:induction false} TrimAll(s: string, slashes: string)
    requires EndsOpen(s) && Slashes(slashes)
    ensures TrimSlashes(s + slashes) == s
  {
    if slashes == "" {
      assert s + slashes == s;
    } else {
      var n := |slashes| - 1;
      assert (s + slashes)[..|s| + n] == s + slashes[..n];
      TrimAll(s, slashes[..n]);
    }
  }

  // ---------------------------------------------------------------- what normalising means

  /** The parts of an acceptable URL: any spelling of https, a host, a path prefix that
    * does not end in a slash, and trailing slashes. */
  ghost predicate Parts(value: string, scheme: string, host: string, path: string, slashes: string) {
    && value == scheme + "://" + host + path + slashes
    && Lower(scheme) == "https"
    && host != "" && '/' !in host && '@' !in host
    && IsPath(path) && EndsOpen(path) && Slashes(slashes)
    && '?' !in value && '#' !in value
  }

  lemma HttpsHasNoColon(scheme: string)
    requires Lower(scheme) == "https"
    ensures ':' !in scheme
  {
    forall i | 0 <= i < |scheme| ensures scheme[i] != ':' {
      assert LowerChar(scheme[i]) == "https"[i];
    }
  }

  /** A URL made of acceptable parts is accepted, and becomes https, the host in lower
    * case and the path as it stands. */
  lemma PartsNormalize(value: string, scheme: string, host: string, path: string, slashes: string)
    requires Parts(value, scheme, host, path, slashes)
    ensures Normalize(value) == Ok("https://" + Lower(host) + path)
  {
    HttpsHasNoColon(scheme);
    var rest := host + path + slashes;
    assert value == scheme + "://" + rest;
    SplitSchemeFirst(scheme, rest);
    assert EndsOpen(host + path) by {
      if path == "" { assert host[|host| - 1] in host; }
    }
    TrimAll(host + path, slashes);
    SplitPathFirst(host, path);
  }

  /** What is accepted is made of acceptable parts. */
  lemma AcceptedHasParts(value: string) returns (scheme: string, host: string, path: string, slashes: string)
    requires Normalize(value).Ok?
    ensures Parts(value, scheme, host, path, slashes)
  {
    SplitSchemeSound(value);
    var (s, rest) := SplitScheme(value).value;
    scheme := s;
    var trimmed := TrimSlashes(rest);
    slashes := TrimSound(rest);
    var (h, p) := SplitPath(trimmed);
    host, path := h, p;
    assert EndsOpen(path) by { if path != "" { assert trimmed[|trimmed| - 1] == path[|path| - 1]; } }
    assert value == scheme + "://" + (trimmed + slashes);
    assert value == scheme + "://" + host + path + slashes;
  }

  /** The parts of a URL already in normal form. */
  ghost predicate NormalParts(url: string, host: string, path: string) {
    && url == "https://" + host + path
    && host != "" && '/' !in host && Lower(host) == host
    && IsPath(path) && EndsOpen(path)
  }

  lemma LowerKeeps(s: string, c: char)
    requires !('a' <= c <= 'z') && c !in s
    ensures c !in Lower(s)
  {
    forall i | 0 <= i < |s| ensures Lower(s)[i] != c {
      assert s[i] in s;
    }
  }

  lemma LowerTwice(s: string)
    ensures Lower(Lower(s)) == Lower(s)
  {
  }

  lemma LowerParts(value: string, scheme: string, host: string, path: string, slashes: string)
    requires Parts(value, scheme, host, path, slashes)
    ensures var url := "https://" + Lower(host) + path;
            Parts(url, "https", Lower(host), path, "") && NormalParts(url, Lower(host), path)
  {
    var url := "https://" + Lower(host) + path;
    assert forall c :: c in host || c in path ==> c in value;
    LowerKeeps(host, '/');
    LowerKeeps(host, '@');
    LowerKeeps(host, '?');
    LowerKeeps(host, '#');
    LowerTwice(host);
    assert url == "https" + "://" + Lower(host) + path + "";
    assert Lower("https") == "https";
  }

  /** Normalising is idempotent, and its result has a host in lower case and a path that
    * does not end in a slash. */
  lemma NormalizeIsIdempotent(value: string)
    requires Normalize(value).Ok?
    ensures Normalize(Normalize(value).value) == Normalize(value)
    ensures exists host, path :: NormalParts(Normalize(value).value, host, path)
  {
    var scheme, host, path, slashes := AcceptedHasParts(value);
    PartsNormalize(value, scheme, host, path, slashes);
    LowerParts(value, scheme, host, path, slashes);
    var url := Normalize(value).value;
    PartsNormalize(url, "https", Lower(host), path, "");
    LowerTwice(host);
  }

  /** Plain equality of normal forms is equality of URLs: two accepted spellings agree
    * exactly when their hosts differ at most in case and their paths, apart from trailing
    * slashes, are the same. */
  lemma NormalFormsDecide(
      a: string, sa: string, ha: string, pa: string, ta: string,
      b: string, sb: string, hb: string, pb: string, tb: string)
    requires Parts(a, sa, ha, pa, ta) && Parts(b, sb, hb, pb, tb)
    ensures Normalize(a) == Normalize(b) <==> Lower(ha) == Lower(hb) && pa == pb
  {
    PartsNormalize(a, sa, ha, pa, ta);
    PartsNormalize(b, sb, hb, pb, tb);
    LowerKeeps(ha, '/');
    LowerKeeps(hb, '/');
    SplitPathFirst(Lower(ha), pa);
    SplitPathFirst(Lower(hb), pb);
    SameTail("https://", Lower(ha) + pa, Lower(hb) + pb);
    assert "https://" + Lower(ha) + pa == "https://" + (Lower(ha) + pa);
    assert "https://" + Lower(hb) + pb == "https://" + (Lower(hb) + pb);
  }

  // ---------------------------------------------------------------- the discovery lookup

  lemma OriginIsTheHost(url: string, host: string, path: string)
    requires NormalParts(url, host, path)
    ensures Origin(url) == "https://" + host && url == Origin(url) + path
  {
    assert url[..8] == "https://" && url[8..] == host + path;
    SplitPathFirst(host, path);
    assert url[..8 + |host|] == "https://" + host;
  }

  /** For every normalised public URL the protected-resource lookup accepts exactly one
    * suffix (section 3.1 of RFC 9728): the URL's path and `mcp`. The issuer lookup accepts
    * exactly the URL's path, and nothing when it has none (section 3.1 of RFC 8414). */
  lemma DiscoveryAcceptsOne(value: string, suffix: string) returns (host: string, path: string)
    requires Normalize(value).Ok?
    ensures var url := Normalize(value).value;
            && NormalParts(url, host, path)
            && (Identifier(url, suffix, Resource(url)).Some? <==> suffix == (path + "/mcp")[1..])
            && (Identifier(url, suffix, url).Some? <==> path != "" && suffix == path[1..])
  {
    var scheme, h, p, slashes := AcceptedHasParts(value);
    PartsNormalize(value, scheme, h, p, slashes);
    LowerParts(value, scheme, h, p, slashes);
    host, path := Lower(h), p;
    var url := Normalize(value).value;
    OriginIsTheHost(url, host, path);
    var o := Origin(url);
    SameTail(o, "/" + suffix, path + "/mcp");
    SameTail(o, "/" + suffix, path);
    assert o + "/" + suffix == o + ("/" + suffix);
    assert Resource(url) == o + (path + "/mcp");
    assert ("/" + suffix)[1..] == suffix;
    assert path + "/mcp" == "/" + (path + "/mcp")[1..];
    if path != "" { assert path == "/" + path[1..]; }
  }

  lemma SameTail(o: string, x: string, y: string)
    ensures o + x == o + y <==> x == y
  {
    assert (o + x)[|o|..] == x && (o + y)[|o|..] == y;
  }
}
