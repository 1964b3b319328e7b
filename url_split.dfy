/**
 * The part of Python's `urllib.parse.urlparse` (recent CPython releases) that the
 * asset classifier relies on: how a URL string is cut into scheme, network
 * location, path, parameters, query and fragment, and the one malformed-URL
 * check that makes it raise.
 */
module UrlSplit {
  import opened Text
  import opened Results

  /** The six fields of Python's `ParseResult`. */
  datatype ParseResult = ParseResult(
    scheme: string, netloc: string, path: string, params: string, query: string, fragment: string)

  /** The text of the `ValueError` raised for a network location with one bracket and not the other. */
  const INVALID_IPV6: string := "Invalid IPv6 URL"

  /** The schemes for which `urlparse` splits `;params` off the path (its `uses_params` list). */
  const USES_PARAMS: set<string> := {
    "", "ftp", "hdl", "prospero", "http", "imap", "https", "shttp", "rtsp", "rtsps",
    "rtspu", "sip", "sips", "mms", "sftp", "tel"}

  /** The characters `urlsplit` strips from the left: every C0 control character and space. */
  predicate IsC0OrSpace(c: char)
  {
    c <= ' '
  }

  function LStripC0(s: string): (r: string)
    ensures IsSuffix(r, s)
    ensures forall i :: 0 <= i < |s| - |r| ==> IsC0OrSpace(s[i])
    ensures r == [] || !IsC0OrSpace(r[0])
    decreases |s|
  {
    if s != [] && IsC0OrSpace(s[0]) then
      var r := LStripC0(s[1..]);
      assert s[1..][|s| - 1 - |r|..] == s[|s| - |r|..];
      assert forall i :: 1 <= i < |s| - |r| ==> s[i] == s[1..][i - 1];
      r
    else s
  }

  /** Tab, carriage return and line feed, which `urlsplit` deletes wherever they stand. */
  predicate IsUnsafe(c: char)
  {
    c == '\t' || c == '\r' || c == '\n'
  }

  function RemoveUnsafe(s: string): (r: string)
    ensures forall i :: 0 <= i < |r| ==> !IsUnsafe(r[i])
    ensures forall c :: !IsUnsafe(c) ==> multiset(r)[c] == multiset(s)[c]
    ensures s != [] && !IsUnsafe(s[0]) ==> r != [] && r[0] == s[0]
    decreases |s|
  {
    if s == [] then []
    else
      var tail := RemoveUnsafe(s[1..]);
      assert s == [s[0]] + s[1..];
      if IsUnsafe(s[0]) then tail else [s[0]] + tail
  }

  /** The text `urlsplit` works on after its two clean-up steps. */
  function Cleaned(url: string): string
  {
    RemoveUnsafe(LStripC0(url))
  }

  predicate IsAsciiLetter(c: char)
  {
    'a' <= c <= 'z' || 'A' <= c <= 'Z'
  }

  /** Python's `scheme_chars`. */
  predicate IsSchemeChar(c: char)
  {
    IsAsciiLetter(c) || '0' <= c <= '9' || c == '+' || c == '-' || c == '.'
  }

  /**
   * The scheme test of `urlsplit`: the text before the first `:` is a scheme when it
   * is non-empty, starts with an ASCII letter and holds only scheme characters.
   * Returns the lower-cased scheme (or "") and the text that follows it.
   */
  function SplitScheme(url: string): (r: (string, string))
    ensures ':' !in url ==> r == ("", url)
    ensures r.0 == [] ==> r.1 == url
    ensures r.0 != [] ==>
      var n := |r.0|;
      && n < |url| && url[n] == ':' && ':' !in url[..n]
      && IsAsciiLetter(url[0])
      && (forall k :: 0 <= k < n ==> IsSchemeChar(url[k]))
      && r.0 == Lower(url[..n]) && r.1 == url[n + 1..]
  {
    var i := FindChar(url, ':');
    if i > 0 && IsAsciiLetter(url[0]) && forall k :: 0 <= k < i ==> IsSchemeChar(url[k]) then
      (Lower(url[..i]), url[i + 1..])
    else
      ("", url)
  }

  /** A character that ends the network location: `/`, `?` or `#`. */
  predicate IsNetlocDelim(c: char)
  {
    c == '/' || c == '?' || c == '#'
  }

  function FirstNetlocDelim(s: string): (k: nat)
    ensures k <= |s|
    ensures forall j :: 0 <= j < k ==> !IsNetlocDelim(s[j])
    ensures k < |s| ==> IsNetlocDelim(s[k])
    decreases |s|
  {
    if s == [] || IsNetlocDelim(s[0]) then 0 else 1 + FirstNetlocDelim(s[1..])
  }

  /** `_splitnetloc(url, 2)`: the network location after `//`, up to the first delimiter. */
  function SplitNetloc(rest: string): (r: (string, string))
    requires IsPrefix("//", rest)
    ensures rest == "//" + r.0 + r.1
    ensures forall j :: 0 <= j < |r.0| ==> !IsNetlocDelim(r.0[j])
    ensures r.1 == [] || IsNetlocDelim(r.1[0])
  {
    var s := rest[2..];
    var d := FirstNetlocDelim(s);
    assert rest == "//" + s[..d] + s[d..];
    (s[..d], s[d..])
  }

  /** The condition under which `urlsplit` raises `ValueError("Invalid IPv6 URL")`. */
  predicate UnbalancedBrackets(netloc: string)
  {
    ('[' in netloc) != (']' in netloc)
  }

  /** Python's `s.find(c, start)`. */
  function FindCharFrom(s: string, c: char, start: nat): (k: int)
    requires start <= |s|
    ensures k == -1 || start <= k < |s|
    ensures k >= 0 ==> s[k] == c
    ensures forall j :: start <= j < |s| && (k < 0 || j < k) ==> s[j] != c
  {
    var k := FindChar(s[start..], c);
    if k < 0 then -1 else start + k
  }

  /**
   * `_splitparams`: cuts the path at the first `;` that follows its last `/`
   * (or at its first `;` when it has no `/`).
   */
  function SplitParams(url: string): (r: (string, string))
    requires ';' in url
    ensures (r.0 == url && r.1 == []) || url == r.0 + ";" + r.1
    ensures '/' !in r.1
  {
    if '/' in url then
      var slash := RFindChar(url, '/');
      var i := FindCharFrom(url, ';', slash);
      if i < 0 then (url, "")
      else
        assert url == url[..i] + ";" + url[i + 1..];
        var tail := url[i + 1..];
        assert '/' !in tail by {
          assert forall j :: 0 <= j < |tail| ==> tail[j] == url[i + 1 + j];
        }
        (url[..i], tail)
    else
      var i := FindChar(url, ';');
      assert url == url[..i] + ";" + url[i + 1..];
      (url[..i], url[i + 1..])
  }

  /** The cut `_splitparams` makes is at the first `;` after the last `/`: none stands between them. */
  lemma SplitParamsAtFirstAfterSlash(url: string)
    requires ';' in url
    ensures var r := SplitParams(url);
      forall j :: RFindChar(url, '/') < j < |r.0| ==> r.0[j] != ';'
  {
    var r := SplitParams(url);
    var slash := RFindChar(url, '/');
    if '/' in url {
      var i := FindCharFrom(url, ';', slash);
      if i < 0 {
        assert r.0 == url;
      } else {
        assert r.0 == url[..i];
        forall j | slash < j < i
          ensures url[..i][j] != ';'
        {
          assert url[..i][j] == url[j];
        }
      }
    } else {
      var i := FindChar(url, ';');
      assert r.0 == url[..i];
      forall j | 0 <= j < i
        ensures url[..i][j] != ';'
      {
        assert url[..i][j] == url[j];
      }
    }
  }

  /** The network location, when the text after the scheme starts with `//`, and what follows it. */
  function SplitHost(rest: string): (r: (string, string))
    ensures forall j :: 0 <= j < |r.0| ==> !IsNetlocDelim(r.0[j])
    ensures IsPrefix("//", rest) ==> rest == "//" + r.0 + r.1 && (r.1 == [] || IsNetlocDelim(r.1[0]))
    ensures !IsPrefix("//", rest) ==> r == ("", rest)
  {
    if IsPrefix("//", rest) then SplitNetloc(rest) else ("", rest)
  }

  predicate IsQueryDelim(c: char)
  {
    c == '?' || c == '#'
  }

  /** The index of the first `?` or `#`, where the path (with its parameters) ends. */
  function QueryCut(s: string): (m: nat)
    ensures m <= |s|
    ensures forall j :: 0 <= j < m ==> !IsQueryDelim(s[j])
    ensures m < |s| ==> IsQueryDelim(s[m])
    decreases |s|
  {
    if s == [] || IsQueryDelim(s[0]) then 0 else 1 + QueryCut(s[1..])
  }

  /** The index of the first `#`, where the fragment starts, or the length when there is none. */
  function FragmentCut(s: string): (h: nat)
    ensures h <= |s|
    ensures '#' !in s[..h]
    ensures h < |s| ==> s[h] == '#'
    ensures h == |s| <==> '#' !in s
  {
    var k := FindChar(s, '#');
    assert forall j :: 0 <= j < (if k < 0 then |s| else k) ==> s[..(if k < 0 then |s| else k)][j] == s[j];
    if k < 0 then |s| else k
  }

  /**
   * The path, parameters, query and fragment: the text after the network location
   * is cut at its first `?` or `#`, and what comes before that cut is the path with
   * its `;params`; the query runs from a `?` at the cut to the first `#`, and the
   * fragment is everything after the first `#`.
   */
  function SplitTail(scheme: string, rest: string): (r: (string, string, string, string))
    ensures '?' !in r.0 && '#' !in r.0 && '#' !in r.2
  {
    var h := FragmentCut(rest);
    var beforeHash := rest[..h];
    var fragment := if h < |rest| then rest[h + 1..] else [];
    var query := if '?' in beforeHash then SplitOnce(beforeHash, '?') else (beforeHash, "");
    CutsOfTail(rest, beforeHash, query.0, query.1);
    var pp := query.0;
    var params := if scheme in USES_PARAMS && ';' in pp then SplitParams(pp) else (pp, "");
    ParamsFreeOfQueryDelims(pp);
    (params.0, params.1, query.1, fragment)
  }

  /**
   * Where `SplitTail` cuts: the path with its `;params` is the text before the
   * first `?` or `#`; the query runs from a `?` at that cut to the first `#`; the
   * fragment is everything after the first `#`.
   */
  lemma SplitTailCuts(scheme: string, rest: string)
    ensures var r, pp := SplitTail(scheme, rest), rest[..QueryCut(rest)];
      if scheme in USES_PARAMS && ';' in pp then (r.0, r.1) == SplitParams(pp) else r.0 == pp && r.1 == []
    ensures var r, m, h := SplitTail(scheme, rest), QueryCut(rest), FragmentCut(rest);
      r.2 == (if m < |rest| && rest[m] == '?' then rest[m + 1..h] else [])
    ensures SplitTail(scheme, rest).3 == (if '#' in rest then rest[FragmentCut(rest) + 1..] else [])
  {
    var h := FragmentCut(rest);
    var beforeHash := rest[..h];
    var query := if '?' in beforeHash then SplitOnce(beforeHash, '?') else (beforeHash, "");
    CutsOfTail(rest, beforeHash, query.0, query.1);
  }

  /** The two nested splits of `urlsplit` cut the text at its first `?` or `#`. */
  lemma CutsOfTail(rest: string, beforeHash: string, pp: string, query: string)
    requires beforeHash == rest[..FragmentCut(rest)]
    requires '?' in beforeHash ==> (pp, query) == SplitOnce(beforeHash, '?')
    requires '?' !in beforeHash ==> pp == beforeHash && query == []
    ensures pp == rest[..QueryCut(rest)]
    ensures query == (if QueryCut(rest) < |rest| && rest[QueryCut(rest)] == '?'
                      then rest[QueryCut(rest) + 1..FragmentCut(rest)] else [])
    ensures '?' !in pp && '#' !in pp && '#' !in query
  {
    var h := FragmentCut(rest);
    if '?' in beforeHash {
      QueryInPrefix(rest, h, pp, query);
    } else {
      NoQueryInPrefix(rest, h);
    }
  }

  /** A `?` before the first `#` is the query cut: the path ends there and the query runs to the `#`. */
  lemma QueryInPrefix(rest: string, h: nat, pp: string, query: string)
    requires h == FragmentCut(rest)
    requires rest[..h] == pp + ['?'] + query && '?' !in pp
    ensures QueryCut(rest) == |pp| && rest[|pp|] == '?'
    ensures pp == rest[..|pp|] && query == rest[|pp| + 1..h]
    ensures '#' !in pp && '#' !in query
  {
    var b := rest[..h];
    var q := |pp|;
    assert forall j :: 0 <= j < h ==> b[j] == rest[j];
    assert forall j :: 0 <= j < q ==> pp[j] == b[j];
    assert forall j :: 0 <= j < |query| ==> query[j] == b[q + 1 + j];
    assert b[q] == '?';
    QueryCutAt(rest, q);
  }

  /** With no `?` before the first `#`, the path runs up to that `#` (or the end). */
  lemma NoQueryInPrefix(rest: string, h: nat)
    requires h == FragmentCut(rest) && '?' !in rest[..h]
    ensures QueryCut(rest) == h
    ensures '#' !in rest[..h]
  {
    assert forall j :: 0 <= j < h ==> rest[..h][j] == rest[j];
    QueryCutAt(rest, h);
  }

  lemma ParamsFreeOfQueryDelims(pp: string)
    requires '?' !in pp && '#' !in pp
    ensures ';' in pp ==> '?' !in SplitParams(pp).0 && '#' !in SplitParams(pp).0
  {
    if ';' in pp {
      var params := SplitParams(pp);
      assert params.0 == pp || pp == params.0 + ";" + params.1;
    }
  }

  /** An index with no `?` or `#` before it, holding one or past the end, is the query cut. */
  lemma QueryCutAt(s: string, k: nat)
    requires k <= |s|
    requires forall j :: 0 <= j < k ==> !IsQueryDelim(s[j])
    requires k < |s| ==> IsQueryDelim(s[k])
    ensures QueryCut(s) == k
  {
  }

  /** An index with no `#` before it, holding one or past the end, is the fragment cut. */
  lemma FragmentCutAt(s: string, k: nat)
    requires k <= |s|
    requires forall j :: 0 <= j < k ==> s[j] != '#'
    requires k < |s| ==> s[k] == '#'
    ensures FragmentCut(s) == k
  {
    assert forall j :: 0 <= j < FragmentCut(s) ==> s[..FragmentCut(s)][j] == s[j];
  }

  /** What may follow a path: nothing, or a query or fragment opened by `?` or `#`. */
  predicate IsQueryOrFragment(x: string)
  {
    x == [] || IsQueryDelim(x[0])
  }

  /** The query that a leading `?` opens in `x`, up to the first `#`. */
  function QueryAfter(x: string): string
    requires IsQueryOrFragment(x)
  {
    if x != [] && x[0] == '?' then x[1..FragmentCut(x)] else []
  }

  /** The fragment after the first `#` of `x`. */
  function FragmentAfter(x: string): string
  {
    if '#' in x then x[FragmentCut(x) + 1..] else []
  }

  /**
   * A path free of `?` and `#` followed by a query or fragment `x`: the path is
   * cut off whole, the query is what follows a leading `?` up to the first `#`,
   * and the fragment is what follows that `#`.
   */
  lemma TailAfterPath(scheme: string, p: string, x: string)
    requires '?' !in p && '#' !in p && IsQueryOrFragment(x)
    ensures var t := SplitTail(scheme, p + x);
      && t.0 == (if scheme in USES_PARAMS && ';' in p then SplitParams(p).0 else p)
      && t.2 == QueryAfter(x)
      && t.3 == FragmentAfter(x)
  {
    var s := p + x;
    SplitTailCuts(scheme, s);
    PathCutOfTail(p, x);
    TailQuery(p, x);
    TailFragment(p, x);
  }

  lemma TailQuery(p: string, x: string)
    requires '?' !in p && '#' !in p && IsQueryOrFragment(x)
    ensures var s, m, h := p + x, QueryCut(p + x), FragmentCut(p + x);
      (if m < |s| && s[m] == '?' then s[m + 1..h] else []) == QueryAfter(x)
  {
    PathCutOfTail(p, x);
    FragmentCutOfTail(p, x);
    var s := p + x;
    if x != [] {
      assert s[|p|] == x[0];
      if x[0] == '?' {
        var f := FragmentCut(x);
        assert s[|p| + 1..|p| + f] == x[1..f];
      }
    }
  }

  lemma TailFragment(p: string, x: string)
    requires '#' !in p
    ensures var s := p + x; (if '#' in s then s[FragmentCut(s) + 1..] else []) == FragmentAfter(x)
  {
    FragmentCutOfTail(p, x);
    var s := p + x;
    if '#' in x {
      var f := FragmentCut(x);
      assert s[|p| + f + 1..] == x[f + 1..];
    }
  }

  lemma PathCutOfTail(p: string, x: string)
    requires '?' !in p && '#' !in p && IsQueryOrFragment(x)
    ensures QueryCut(p + x) == |p| && (p + x)[..|p|] == p
  {
    var s := p + x;
    assert forall j :: 0 <= j < |p| ==> s[j] == p[j];
    QueryCutAt(s, |p|);
  }

  lemma FragmentCutOfTail(p: string, x: string)
    requires '#' !in p
    ensures FragmentCut(p + x) == |p| + FragmentCut(x)
    ensures '#' in p + x <==> '#' in x
  {
    var s := p + x;
    var f := FragmentCut(x);
    assert forall j :: 0 <= j < f ==> x[..f][j] == x[j];
    assert forall j :: 0 <= j < |s| ==> s[j] == if j < |p| then p[j] else x[j - |p|];
    FragmentCutAt(s, |p| + f);
  }

  /** `urlparse(url)` with its default arguments. */
  function UrlParse(url: string): (r: Result<ParseResult, string>)
    ensures r.Err? ==> r.error == INVALID_IPV6
    ensures r.Ok? ==> !UnbalancedBrackets(r.value.netloc)
    ensures r.Ok? ==> forall j :: 0 <= j < |r.value.netloc| ==> !IsNetlocDelim(r.value.netloc[j])
    ensures r.Ok? ==> '?' !in r.value.path && '#' !in r.value.path && '#' !in r.value.query
    ensures r.Ok? && r.value.netloc != [] ==> IsPrefix("//", SplitScheme(Cleaned(url)).1)
  {
    var scheme := SplitScheme(Cleaned(url));
    var host := SplitHost(scheme.1);
    if UnbalancedBrackets(host.0) then Err(INVALID_IPV6)
    else
      var tail := SplitTail(scheme.0, host.1);
      Ok(ParseResult(scheme.0, host.0, tail.0, tail.1, tail.2, tail.3))
  }

  /**
   * Where `urlparse` cuts: after the scheme, a `//` opens the netloc, which runs
   * up to the first `/`, `?` or `#`; what follows it is cut by `SplitTail` into
   * path, params, query and fragment (so the path ends at the first `?` or `#`).
   */
  lemma UrlParseCuts(url: string)
    ensures var r := UrlParse(url);
      r.Ok? ==>
      var scheme, rest := SplitScheme(Cleaned(url)).0, SplitScheme(Cleaned(url)).1;
      var tail := if IsPrefix("//", rest) then rest[2 + |r.value.netloc|..] else rest;
      && r.value.scheme == scheme
      && (IsPrefix("//", rest) ==> IsPrefix("//" + r.value.netloc, rest) && (tail == [] || IsNetlocDelim(tail[0])))
      && (!IsPrefix("//", rest) ==> r.value.netloc == [])
      && (r.value.path, r.value.params, r.value.query, r.value.fragment) == SplitTail(scheme, tail)
  {
    var r := UrlParse(url);
    var scheme, rest := SplitScheme(Cleaned(url)).0, SplitScheme(Cleaned(url)).1;
    var host := SplitHost(rest);
    if r.Ok? {
      var t := SplitTail(scheme, host.1);
      assert r.value == ParseResult(scheme, host.0, t.0, t.1, t.2, t.3);
      if IsPrefix("//", rest) {
        assert rest == "//" + host.0 + host.1;
        assert rest[2 + |host.0|..] == host.1;
        assert IsPrefix("//" + host.0, rest) by {
          assert rest[..2 + |host.0|] == "//" + host.0;
        }
      }
    }
  }

  predicate FreeOfUnsafe(s: string)
  {
    '\t' !in s && '\r' !in s && '\n' !in s
  }

  predicate FreeOfNetlocDelims(s: string)
  {
    '/' !in s && '?' !in s && '#' !in s
  }

  predicate IsLowerLetters(s: string)
  {
    forall j :: 0 <= j < |s| ==> 'a' <= s[j] <= 'z'
  }

  /** Removing tab, CR and LF from a string that has none changes nothing. */
  lemma {:induction false} RemoveUnsafeKeepsSafe(s: string)
    requires FreeOfUnsafe(s)
    ensures RemoveUnsafe(s) == s
    decreases |s|
  {
    if s != [] {
      assert s == [s[0]] + s[1..];
      RemoveUnsafeKeepsSafe(s[1..]);
    }
  }

  /** The host split is determined: a delimiter-free start followed by a delimiter (or nothing). */
  lemma {:induction false} FirstDelimAfterHost(h: string, p: string)
    requires FreeOfNetlocDelims(h)
    requires p == [] || IsNetlocDelim(p[0])
    ensures FirstNetlocDelim(h + p) == |h|
    decreases |h|
  {
    if h == [] {
      assert h + p == p;
    } else {
      assert h == [h[0]] + h[1..];
      assert (h + p)[1..] == h[1..] + p;
      FirstDelimAfterHost(h[1..], p);
    }
  }

  /**
   * How `urlparse` cuts `scheme://host/path?query#fragment`: a lower-case letter
   * scheme, a host free of `/ ? #`, a path that starts with `/` and holds no `?`
   * or `#`, and a query or fragment `x`. It raises exactly when the host has one
   * bracket and not the other.
   */
  lemma UrlParseSchemeHostPath(scheme: string, h: string, p: string, x: string)
    requires scheme != [] && IsLowerLetters(scheme)
    requires FreeOfNetlocDelims(h) && FreeOfUnsafe(h) && FreeOfUnsafe(p) && FreeOfUnsafe(x)
    requires p == [] || p[0] == '/'
    requires '?' !in p && '#' !in p && IsQueryOrFragment(x)
    ensures var r := UrlParse(scheme + "://" + h + p + x);
      if UnbalancedBrackets(h) then r == Err(INVALID_IPV6)
      else
        && r.Ok? && r.value.scheme == scheme && r.value.netloc == h
        && r.value.path == (if scheme in USES_PARAMS && ';' in p then SplitParams(p).0 else p)
        && r.value.query == QueryAfter(x)
        && r.value.fragment == FragmentAfter(x)
  {
    var y := p + x;
    var rest := "//" + h + y;
    var url := scheme + ":" + rest;
    UrlShape(scheme, h, p, x);
    FreeOfUnsafeConcat(p, x);
    FreeOfUnsafeConcat("//", h);
    FreeOfUnsafeConcat("//" + h, y);
    PlainUrlCleaned(scheme, rest);
    SplitSchemeOfLetters(scheme, rest);
    assert y == [] || IsNetlocDelim(y[0]);
    SplitNetlocOfHost(h, y);
    UrlParseOfParts(url, scheme, rest, h, p, x);
  }

  lemma UrlShape(scheme: string, h: string, p: string, x: string)
    ensures scheme + "://" + h + p + x == scheme + ":" + ("//" + h + (p + x))
  {
    assert "://" == ":" + "//";
  }

  lemma FreeOfUnsafeConcat(a: string, b: string)
    requires FreeOfUnsafe(a) && FreeOfUnsafe(b)
    ensures FreeOfUnsafe(a + b)
  {
    assert forall c :: c in a + b ==> c in a || c in b;
  }

  /** A letter scheme, `:` and text free of tab, CR and LF are left alone by the clean-up steps. */
  lemma PlainUrlCleaned(scheme: string, rest: string)
    requires scheme != [] && IsLowerLetters(scheme) && FreeOfUnsafe(rest)
    ensures Cleaned(scheme + ":" + rest) == scheme + ":" + rest
  {
    var url := scheme + ":" + rest;
    assert url[0] == scheme[0];
    assert FreeOfUnsafe(scheme + ":") by {
      assert forall c :: c in scheme + ":" ==> c in scheme || c == ':';
    }
    FreeOfUnsafeConcat(scheme + ":", rest);
    CleanedKeepsPlainUrl(url);
  }

  lemma UrlParseOfParts(url: string, scheme: string, rest: string, h: string, p: string, x: string)
    requires Cleaned(url) == url && SplitScheme(url) == (scheme, rest) && SplitHost(rest) == (h, p + x)
    requires '?' !in p && '#' !in p && IsQueryOrFragment(x)
    ensures var r := UrlParse(url);
      if UnbalancedBrackets(h) then r == Err(INVALID_IPV6)
      else
        && r.Ok? && r.value.scheme == scheme && r.value.netloc == h
        && r.value.path == (if scheme in USES_PARAMS && ';' in p then SplitParams(p).0 else p)
        && r.value.query == QueryAfter(x)
        && r.value.fragment == FragmentAfter(x)
  {
    TailAfterPath(scheme, p, x);
    var t := SplitTail(scheme, p + x);
    if !UnbalancedBrackets(h) {
      assert UrlParse(url) == Ok(ParseResult(scheme, h, t.0, t.1, t.2, t.3));
    }
  }

  lemma CleanedKeepsPlainUrl(url: string)
    requires url != [] && !IsC0OrSpace(url[0])
    requires FreeOfUnsafe(url)
    ensures Cleaned(url) == url
  {
    assert LStripC0(url) == url;
    RemoveUnsafeKeepsSafe(url);
  }

  lemma SplitSchemeOfLetters(scheme: string, rest: string)
    requires scheme != [] && IsLowerLetters(scheme)
    ensures SplitScheme(scheme + ":" + rest) == (scheme, rest)
  {
    var url := scheme + ":" + rest;
    var n := |scheme|;
    assert FindChar(url, ':') == n by {
      assert url[n] == ':';
      assert forall j :: 0 <= j < n ==> url[j] == scheme[j];
    }
    assert url[..n] == scheme;
    assert Lower(scheme) == scheme;
    assert url[n + 1..] == rest;
  }

  lemma SplitNetlocOfHost(h: string, p: string)
    requires FreeOfNetlocDelims(h)
    requires p == [] || IsNetlocDelim(p[0])
    ensures SplitHost("//" + h + p) == (h, p)
  {
    assert ("//" + h + p)[2..] == h + p;
    FirstDelimAfterHost(h, p);
    assert (h + p)[..|h|] == h && (h + p)[|h|..] == p;
  }

  /**
   * A URL with no `:` and no leading `/` has no scheme and no network location:
   * everything is path (and query and fragment).
   */
  lemma SchemelessHasNoNetloc(url: string)
    requires url != [] && ':' !in url
    requires url[0] != '/' && !IsC0OrSpace(url[0])
    ensures UrlParse(url).Ok? && UrlParse(url).value.scheme == [] && UrlParse(url).value.netloc == []
  {
    assert LStripC0(url) == url;
    var cleaned := Cleaned(url);
    assert cleaned != [] && cleaned[0] == url[0];
    assert ':' !in cleaned by {
      assert multiset(cleaned)[':'] == multiset(url)[':'] == 0;
    }
    assert SplitScheme(cleaned) == ("", cleaned);
    assert !IsPrefix("//", cleaned);
  }

  /**
   * Cutting the parameters off a path never hides an occurrence of a string that
   * ends in `/`: all of the path's slashes stay in the part that is kept.
   */
  lemma {:induction false} SplitParamsKeepsSlashTerminated(url: string, t: string)
    requires ';' in url
    requires t != [] && t[|t| - 1] == '/'
    ensures Contains(SplitParams(url).0, t) <==> Contains(url, t)
  {
    var r := SplitParams(url);
    if r.0 != url {
      ParamsHoldNoSlash(url, r.0, r.1);
    }
    SlashesKeptKeepsOccurrences(url, r.0, t);
  }

  lemma ParamsHoldNoSlash(url: string, kept: string, params: string)
    requires url == kept + ";" + params && '/' !in params
    ensures IsPrefix(kept, url) && forall j :: |kept| <= j < |url| ==> url[j] != '/'
  {
    forall j | |kept| < j < |url|
      ensures url[j] != '/'
    {
      assert url[j] == params[j - |kept| - 1];
    }
  }

  lemma SlashesKeptKeepsOccurrences(url: string, kept: string, t: string)
    requires IsPrefix(kept, url) && forall j :: |kept| <= j < |url| ==> url[j] != '/'
    requires t != [] && t[|t| - 1] == '/'
    ensures Contains(kept, t) <==> Contains(url, t)
  {
    if Contains(url, t) {
      var k :| 0 <= k <= |url| - |t| && OccursAt(url, t, k);
      assert url[k..k + |t|][|t| - 1] == '/';
      assert k + |t| - 1 < |kept|;
      assert kept[k..k + |t|] == url[k..k + |t|];
      ContainsAt(kept, t, k);
    }
    if Contains(kept, t) {
      var j :| 0 <= j <= |kept| - |t| && OccursAt(kept, t, j);
      assert kept[j..j + |t|] == url[j..j + |t|];
      ContainsAt(url, t, j);
    }
  }
}
