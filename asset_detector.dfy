/**
 * `detect_asset_type`: the tag of the kind of online asset a URL points at,
 * decided by substring tests on the URL's lower-cased host and path.
 */
module AssetDetector {
  import opened Text
  import opened Results
  import opened UrlSplit

  /** The nine tags the classifier can return. */
  datatype AssetType =
    | Website
    | InstagramProfile
    | LinkedinProfile
    | LinkedinCompany
    | XProfile
    | YoutubeChannel
    | RedditProfile
    | RedditCommunity
    | Unknown
  {
    /** The string the source returns for this tag. */
    function Tag(): string
    {
      match this
      case Website => "website"
      case InstagramProfile => "instagram_profile"
      case LinkedinProfile => "linkedin_profile"
      case LinkedinCompany => "linkedin_company"
      case XProfile => "x_profile"
      case YoutubeChannel => "youtube_channel"
      case RedditProfile => "reddit_profile"
      case RedditCommunity => "reddit_community"
      case Unknown => "unknown"
    }
  }

  predicate IsInstagram(domain: string) { Contains(domain, "instagram.com") }
  predicate IsLinkedin(domain: string) { Contains(domain, "linkedin.com") }
  predicate IsX(domain: string) { Contains(domain, "twitter.com") || Contains(domain, "x.com") }
  predicate IsYoutube(domain: string) { Contains(domain, "youtube.com") || Contains(domain, "youtu.be") }
  predicate IsReddit(domain: string) { Contains(domain, "reddit.com") }

  /**
   * The ordered rule chain (first match wins) over the host and the path. Its
   * contract gives, for every tag, exactly the hosts and paths that receive it.
   */
  function Classify(domain: string, path: string): (t: AssetType)
    ensures t != Unknown
    ensures t == InstagramProfile <==> IsInstagram(domain)
    ensures t == LinkedinCompany <==>
      !IsInstagram(domain) && IsLinkedin(domain) && Contains(path, "/company/")
    ensures t == LinkedinProfile <==>
      !IsInstagram(domain) && IsLinkedin(domain) && !Contains(path, "/company/")
    ensures t == XProfile <==> !IsInstagram(domain) && !IsLinkedin(domain) && IsX(domain)
    ensures t == YoutubeChannel <==>
      !IsInstagram(domain) && !IsLinkedin(domain) && !IsX(domain) && IsYoutube(domain)
    ensures t == RedditCommunity <==>
      !IsInstagram(domain) && !IsLinkedin(domain) && !IsX(domain) && !IsYoutube(domain)
      && IsReddit(domain) && Contains(path, "/r/")
    ensures t == RedditProfile <==>
      !IsInstagram(domain) && !IsLinkedin(domain) && !IsX(domain) && !IsYoutube(domain)
      && IsReddit(domain) && !Contains(path, "/r/")
    ensures t == Website <==>
      !IsInstagram(domain) && !IsLinkedin(domain) && !IsX(domain) && !IsYoutube(domain)
      && !IsReddit(domain)
  {
    if IsInstagram(domain) then InstagramProfile
    else if IsLinkedin(domain) then
      if Contains(path, "/company/") then LinkedinCompany else LinkedinProfile
    else if IsX(domain) then XProfile
    else if IsYoutube(domain) then YoutubeChannel
    else if IsReddit(domain) then
      if Contains(path, "/r/") then RedditCommunity else RedditProfile
    else Website
  }

  /**
   * `detect_asset_type` as written: `urlparse` raises `ValueError` for a host with
   * an unmatched bracket, and nothing in the function catches it.
   */
  function DetectAsWritten(url: string): (r: Result<AssetType, string>)
    ensures r.Err? ==> url != [] && r.error == INVALID_IPV6
    ensures r.Ok? ==> (r.value == Unknown <==> url == [])
  {
    if url == [] then Ok(Unknown)
    else
      match UrlParse(Lower(url))
      case Err(e) => Err(e)
      case Ok(parsed) => Ok(Classify(parsed.netloc, parsed.path))
  }

  /**
   * The classifier as it is meant to behave: total, with a URL that `urlparse`
   * rejects falling through to `website`. It agrees with the source on every URL
   * for which the source returns a tag.
   */
  function DetectAssetType(url: string): (t: AssetType)
    ensures t == Unknown <==> url == []
    ensures DetectAsWritten(url).Ok? ==> DetectAsWritten(url).value == t
    ensures DetectAsWritten(url).Err? ==> t == Website
  {
    if url == [] then Unknown
    else
      match UrlParse(Lower(url))
      case Err(_) => Website
      case Ok(parsed) => Classify(parsed.netloc, parsed.path)
  }

  /** Lower-casing a URL built from lower-case parts changes nothing. */
  lemma LowerOfPlainUrl(scheme: string, h: string, p: string)
    requires Lower(scheme) == scheme && Lower(h) == h && Lower(p) == p
    ensures Lower(scheme + "://" + h + p) == scheme + "://" + h + p
  {
    LowerConcat(scheme + "://" + h, p);
    LowerConcat(scheme + "://", h);
    LowerConcat(scheme, "://");
    assert Lower("://") == "://";
  }

  /** Lower-case letters are left alone by lower-casing. */
  lemma LowerOfLowerLetters(s: string)
    requires IsLowerLetters(s)
    ensures Lower(s) == s
  {
  }

  /** Lower-casing keeps a query or fragment one, and keeps it free of tab, CR and LF. */
  lemma LowerOfQuery(x: string)
    requires FreeOfUnsafe(x) && IsQueryOrFragment(x)
    ensures FreeOfUnsafe(Lower(x)) && IsQueryOrFragment(Lower(x))
  {
    var low := Lower(x);
    assert forall j :: 0 <= j < |x| ==> low[j] == LowerChar(x[j]);
  }

  /**
   * The source on `scheme://host/path?query#fragment` with a lower-case host and
   * path: it raises exactly when the host has an unmatched bracket, and otherwise
   * classifies the host and the path (with `;params` cut off for the schemes that
   * have them); the query and the fragment play no part.
   */
  lemma DetectPlainUrl(scheme: string, prefix: string, h: string, p: string, x: string)
    requires scheme != [] && IsLowerLetters(scheme) && prefix == scheme + "://"
    requires FreeOfNetlocDelims(h) && FreeOfUnsafe(h) && FreeOfUnsafe(p) && FreeOfUnsafe(x)
    requires p == [] || p[0] == '/'
    requires '?' !in p && '#' !in p && IsQueryOrFragment(x)
    requires Lower(h) == h && Lower(p) == p
    ensures var r := DetectAsWritten(prefix + h + p + x);
      if UnbalancedBrackets(h) then r == Err(INVALID_IPV6)
      else r == Ok(Classify(h, if scheme in USES_PARAMS && ';' in p then SplitParams(p).0 else p))
    ensures UnbalancedBrackets(h) ==> DetectAssetType(prefix + h + p + x) == Website
  {
    LowerOfLowerLetters(scheme);
    LowerOfPlainUrl(scheme, h, p);
    LowerConcat(prefix + h + p, x);
    LowerOfQuery(x);
    UrlParseSchemeHostPath(scheme, h, p, Lower(x));
  }

  /** Finding: a URL whose host opens a bracket it never closes makes the source raise. */
  lemma LoneBracketRaises(host: string, path: string)
    requires FreeOfNetlocDelims(host) && FreeOfUnsafe(host) && FreeOfUnsafe(path)
    requires path == [] || path[0] == '/'
    requires '?' !in path && '#' !in path
    requires Lower(host) == host && Lower(path) == path
    requires '[' in host && ']' !in host
    ensures DetectAsWritten("http://" + host + path) == Err(INVALID_IPV6)
    ensures DetectAssetType("http://" + host + path) == Website
  {
    assert IsLowerLetters("http");
    assert "http://" + host + path + "" == "http://" + host + path;
    DetectPlainUrl("http", "http://", host, path, "");
  }

  /** The shortest such URL: `http://[`. */
  lemma LoneBracketExample()
    ensures DetectAsWritten("http://[") == Err(INVALID_IPV6)
  {
    LoneBracketRaises("[", "");
    assert "http://" + "[" + "" == "http://[";
  }

  /** Classification ignores letter case: the URL is lower-cased before anything else. */
  lemma DetectCaseInsensitive(u: string, v: string)
    requires Lower(u) == Lower(v)
    ensures DetectAssetType(u) == DetectAssetType(v)
    ensures DetectAsWritten(u) == DetectAsWritten(v)
    ensures DetectAssetType(Lower(u)) == DetectAssetType(u)
  {
    LowerIdempotent(u);
  }

  /**
   * A URL with no `:` and no leading `/` (such as `instagram.com/foo`) has no host
   * for `urlparse`, so it is a `website` whatever domain it names.
   */
  lemma SchemelessUrlIsWebsite(url: string)
    requires url != [] && ':' !in url
    requires url[0] != '/' && !IsC0OrSpace(url[0])
    ensures DetectAsWritten(url) == Ok(Website)
    ensures DetectAssetType(url) == Website
  {
    var low := Lower(url);
    assert low[0] == LowerChar(url[0]);
    assert ':' !in low by {
      forall i | 0 <= i < |low| ensures low[i] != ':' {
        assert url[i] != ':';
      }
    }
    SchemelessHasNoNetloc(low);
    NoHostIsWebsite(UrlParse(low).value.path);
  }

  /** An empty host matches no domain test. */
  lemma NoHostIsWebsite(path: string)
    ensures Classify([], path) == Website
  {
    NotInEmpty("instagram.com");
    NotInEmpty("linkedin.com");
    NotInEmpty("twitter.com");
    NotInEmpty("x.com");
    NotInEmpty("youtube.com");
    NotInEmpty("youtu.be");
    NotInEmpty("reddit.com");
  }

  /**
   * An `https://` URL with a lower-case host free of `/ ? # [ ]`, a path free of
   * `? #` and any query or fragment is classified by that host and that path;
   * `;params` cut from the path make no difference.
   */
  lemma HttpsUrlClassifiedByHost(h: string, p: string, x: string)
    requires Lower(h) == h && Lower(p) == p
    requires FreeOfNetlocDelims(h) && FreeOfUnsafe(h) && FreeOfUnsafe(p) && FreeOfUnsafe(x)
    requires '[' !in h && ']' !in h
    requires p == [] || p[0] == '/'
    requires '?' !in p && '#' !in p && IsQueryOrFragment(x)
    ensures DetectAsWritten("https://" + h + p + x) == Ok(Classify(h, p))
  {
    assert IsLowerLetters("https");
    assert "https" in USES_PARAMS;
    DetectPlainUrl("https", "https://", h, p, x);
    if ';' in p {
      SplitParamsKeepsSlashTerminated(p, "/company/");
      SplitParamsKeepsSlashTerminated(p, "/r/");
    }
  }

  /** A host made of lower-case letters, digits, `.` and `-`. */
  predicate IsPlainHost(h: string)
  {
    forall i :: 0 <= i < |h| ==> 'a' <= h[i] <= 'z' || '0' <= h[i] <= '9' || h[i] == '.' || h[i] == '-'
  }

  /** An empty path, or `/` followed by lower-case letters, digits, `/`, `.`, `-` and `_`. */
  predicate IsPlainPath(p: string)
  {
    && (p == [] || p[0] == '/')
    && forall i :: 0 <= i < |p| ==>
      'a' <= p[i] <= 'z' || '0' <= p[i] <= '9' || p[i] == '/' || p[i] == '.' || p[i] == '-' || p[i] == '_'
  }

  /**
   * An `https://` URL with a plain host and a plain path, followed by any query
   * or fragment, is classified by that host and path.
   */
  lemma PlainHttpsUrlClassified(h: string, p: string, x: string)
    requires IsPlainHost(h) && IsPlainPath(p)
    requires FreeOfUnsafe(x) && IsQueryOrFragment(x)
    ensures DetectAssetType("https://" + h + p + x) == Classify(h, p)
    ensures DetectAsWritten("https://" + h + p + x) == Ok(Classify(h, p))
  {
    assert Lower(h) == h && Lower(p) == p;
    assert FreeOfNetlocDelims(h) && FreeOfUnsafe(h) && FreeOfUnsafe(p);
    assert '[' !in h && ']' !in h && '?' !in p && '#' !in p;
    HttpsUrlClassifiedByHost(h, p, x);
  }

  /** The path decides only between the two LinkedIn tags and between the two Reddit tags. */
  lemma PathOnlyRefinesLinkedinAndReddit(domain: string, p1: string, p2: string)
    ensures var t1, t2 := Classify(domain, p1), Classify(domain, p2);
      t1 == t2
      || ({t1, t2} == {LinkedinProfile, LinkedinCompany})
      || ({t1, t2} == {RedditProfile, RedditCommunity})
  {
  }

  /** The position of a tag's rule in the chain (first rule first). */
  function Rank(t: AssetType): nat
  {
    match t
    case InstagramProfile => 0
    case LinkedinProfile => 1
    case LinkedinCompany => 1
    case XProfile => 2
    case YoutubeChannel => 3
    case RedditProfile => 4
    case RedditCommunity => 4
    case Website => 5
    case Unknown => 6
  }

  /**
   * A host that contains another host matches the same rule or an earlier one:
   * `www.instagram.com.evil.example` is an Instagram profile.
   */
  lemma {:induction false} LargerHostMatchesNoLaterRule(small: string, large: string, path: string)
    requires Contains(large, small)
    ensures Rank(Classify(large, path)) <= Rank(Classify(small, path))
  {
    if IsInstagram(small) { ContainsTrans(large, small, "instagram.com"); }
    if IsLinkedin(small) { ContainsTrans(large, small, "linkedin.com"); }
    if Contains(small, "twitter.com") { ContainsTrans(large, small, "twitter.com"); }
    if Contains(small, "x.com") { ContainsTrans(large, small, "x.com"); }
    if Contains(small, "youtube.com") { ContainsTrans(large, small, "youtube.com"); }
    if Contains(small, "youtu.be") { ContainsTrans(large, small, "youtu.be"); }
    if IsReddit(small) { ContainsTrans(large, small, "reddit.com"); }
  }

  /** Distinct tags have distinct strings. */
  lemma TagInjective(a: AssetType, b: AssetType)
    requires a.Tag() == b.Tag()
    ensures a == b
  {
  }

  lemma InstagramHost()
    ensures IsInstagram("instagram.com")
  {
    assert OccursAt("instagram.com", "instagram.com", 0);
  }

  lemma LinkedinHost()
    ensures !IsInstagram("linkedin.com") && IsLinkedin("linkedin.com")
  {
    assert OccursAt("linkedin.com", "linkedin.com", 0);
    MissingCharNotContained("linkedin.com", "instagram.com", 'g');
  }

  lemma DropboxHost()
    ensures !IsInstagram("dropbox.com") && !IsLinkedin("dropbox.com") && IsX("dropbox.com")
  {
    MissingCharNotContained("dropbox.com", "instagram.com", 'g');
    MissingCharNotContained("dropbox.com", "linkedin.com", 'l');
    assert OccursAt("dropbox.com", "x.com", 6);
  }

  /** `reddit.com` matches only the Reddit test. */
  lemma RedditHost()
    ensures !IsInstagram("reddit.com") && !IsLinkedin("reddit.com")
    ensures !IsX("reddit.com") && !IsYoutube("reddit.com") && IsReddit("reddit.com")
  {
    RedditHostNotSocial();
    RedditHostNotVideo();
  }

  lemma RedditHostNotSocial()
    ensures !IsInstagram("reddit.com") && !IsLinkedin("reddit.com") && !IsX("reddit.com")
  {
    MissingCharNotContained("reddit.com", "instagram.com", 'g');
    MissingCharNotContained("reddit.com", "linkedin.com", 'l');
    MissingCharNotContained("reddit.com", "twitter.com", 'w');
    MissingCharNotContained("reddit.com", "x.com", 'x');
  }

  lemma RedditHostNotVideo()
    ensures !IsYoutube("reddit.com") && IsReddit("reddit.com")
  {
    assert OccursAt("reddit.com", "reddit.com", 0);
    MissingCharNotContained("reddit.com", "youtube.com", 'y');
    MissingCharNotContained("reddit.com", "youtu.be", 'y');
  }

  /** `example.com` matches no domain test. */
  lemma ExampleHost()
    ensures !IsInstagram("example.com") && !IsLinkedin("example.com")
    ensures !IsX("example.com") && !IsYoutube("example.com") && !IsReddit("example.com")
  {
    ExampleHostNotSocial();
    ExampleHostNotX();
    ExampleHostNotOther();
  }

  lemma ExampleHostNotSocial()
    ensures !IsInstagram("example.com") && !IsLinkedin("example.com")
  {
    MissingCharNotContained("example.com", "instagram.com", 'g');
    MissingCharNotContained("example.com", "linkedin.com", 'i');
  }

  /** `example.com` holds an `x`, but not followed by `.com`. */
  lemma ExampleHostNotX()
    ensures !IsX("example.com")
  {
    MissingCharNotContained("example.com", "twitter.com", 'w');
    MissingPairNotContained("example.com", "x.com");
  }

  lemma ExampleHostNotOther()
    ensures !IsYoutube("example.com") && !IsReddit("example.com")
  {
    MissingCharNotContained("example.com", "youtube.com", 'y');
    MissingCharNotContained("example.com", "youtu.be", 'y');
    MissingCharNotContained("example.com", "reddit.com", 'r');
  }

  /** The tags the rule chain gives to sample hosts and paths. */
  lemma ClassifyExamples()
    ensures Classify("instagram.com", "/foo") == InstagramProfile
    ensures Classify("linkedin.com", "/company/acme") == LinkedinCompany
    ensures Classify("linkedin.com", "/in/jane") == LinkedinProfile
    ensures Classify("reddit.com", "/r/test") == RedditCommunity
    ensures Classify("reddit.com", "/u/jane") == RedditProfile
    ensures Classify("dropbox.com", "") == XProfile
    ensures Classify("example.com", "") == Website
  {
    InstagramHost();
    LinkedinHost();
    RedditHost();
    DropboxHost();
    ExampleHost();
    assert OccursAt("/company/acme", "/company/", 0);
    MissingCharNotContained("/in/jane", "/company/", 'c');
    assert OccursAt("/r/test", "/r/", 0);
    MissingCharNotContained("/u/jane", "/r/", 'r');
  }

  /** `x.com` is a substring of `dropbox.com`, so the source tags `https://dropbox.com` as an X profile. */
  lemma DropboxIsXProfile()
    ensures DetectAssetType("https://dropbox.com") == XProfile
  {
    assert "https://dropbox.com" == "https://" + "dropbox.com" + "" + "";
    DropboxHost();
    PlainHttpsUrlClassified("dropbox.com", "", "");
  }

  lemma WebsiteExample()
    ensures DetectAssetType("https://example.com") == Website
  {
    assert "https://example.com" == "https://" + "example.com" + "" + "";
    ExampleHost();
    PlainHttpsUrlClassified("example.com", "", "");
  }

  lemma SchemelessExample()
    ensures DetectAssetType("") == Unknown
    ensures DetectAssetType("instagram.com/foo") == Website
  {
    SchemelessUrlIsWebsite("instagram.com/foo");
  }

  lemma WwwLinkedinHost()
    ensures !IsInstagram("www.linkedin.com") && IsLinkedin("www.linkedin.com")
  {
    MissingCharNotContained("www.linkedin.com", "instagram.com", 'g');
    assert OccursAt("www.linkedin.com", "linkedin.com", 4);
  }

  lemma LinkedinCompanyPage()
    ensures Classify("www.linkedin.com", "/company/acme") == LinkedinCompany
  {
    WwwLinkedinHost();
    assert OccursAt("/company/acme", "/company/", 0);
  }

  lemma LinkedinCompanyUrlParts()
    ensures IsPlainHost("www.linkedin.com") && IsPlainPath("/company/acme")
    ensures FreeOfUnsafe("?trk=x") && IsQueryOrFragment("?trk=x")
  {
  }

  /** The query string does not change the tag: a tracking parameter on a company page. */
  lemma LinkedinQueryExample()
    ensures DetectAssetType("https://www.linkedin.com/company/acme?trk=x") == LinkedinCompany
    ensures DetectAsWritten("https://www.linkedin.com/company/acme?trk=x") == Ok(LinkedinCompany)
  {
    LinkedinCompanyPage();
    LinkedinCompanyUrlParts();
    PlainHttpsUrlClassified("www.linkedin.com", "/company/acme", "?trk=x");
    LinkedinUrlSpelled();
  }

  lemma LinkedinUrlSpelled()
    ensures "https://www.linkedin.com/company/acme?trk=x" == "https://" + "www.linkedin.com" + "/company/acme" + "?trk=x"
  {
  }
}
