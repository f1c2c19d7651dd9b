/** The pure helpers of `utils.js`: the error classifier, the error
    formatter and the two URL filters used by request interception. The URL
    parsing done by `new URL(...)` is left to the caller: the filters take the
    hostname or pathname it would produce, or `None` when it throws. */
module Utils {
  import opened Wrappers
  import opened Strings

  // ================================================================ errors

  /** The four categories `getErrorType` returns. */
  datatype ErrorType = Blocked | Timeout | NetworkError | UnknownError

  const BlockPatterns: seq<string> := [
    "ERR_HTTP2_PROTOCOL_ERROR", "ERR_CONNECTION_CLOSED", "NS_ERROR_NET_INTERRUPT",
    "HTTP/2 Error: INTERNAL_ERROR", "Stream error in the HTTP/2 framing layer",
    "WebKit search navigation failed", "infinite loading suspected", "net::ERR_FAILED",
    "403 Forbidden", "blocked", "Bot Detection", "Security Challenge", "BLOCKED"]

  const TimeoutPatterns: seq<string> := [
    "Timeout", "timeout", "TimeoutError", "exceeded", "waitForSelector", "waitForFunction",
    "PAGE_NAVIGATION_TIMEOUT"]

  const NetworkPatterns: seq<string> := [
    "Network", "net::", "HTTP", "getaddrinfo", "ENOTFOUND", "ECONNREFUSED"]

  /** `patterns.some(p => msg.includes(p))`. */
  predicate AnyIn(patterns: seq<string>, msg: string)
    decreases |patterns|
  {
    |patterns| > 0 && (Contains(msg, patterns[0]) || AnyIn(patterns[1..], msg))
  }

  /** `AnyIn` holds exactly when one of the patterns is a substring. */
  lemma {:induction false} AnyInIff(patterns: seq<string>, msg: string)
    ensures AnyIn(patterns, msg) <==> exists k :: 0 <= k < |patterns| && Contains(msg, patterns[k])
    decreases |patterns|
  {
    if |patterns| > 0 {
      AnyInIff(patterns[1..], msg);
      if AnyIn(patterns[1..], msg) {
        var k :| 0 <= k < |patterns[1..]| && Contains(msg, patterns[1..][k]);
        assert Contains(msg, patterns[k + 1]);
      }
      forall k | 0 <= k < |patterns| && Contains(msg, patterns[k])
        ensures AnyIn(patterns, msg)
      {
        if k > 0 {
          assert patterns[1..][k - 1] == patterns[k];
        }
      }
    }
  }

  /** `getErrorType`: blocking signatures first, then timeouts, then network
      failures; matching is case-sensitive. */
  function GetErrorType(msg: string): ErrorType
  {
    if AnyIn(BlockPatterns, msg) then Blocked
    else if AnyIn(TimeoutPatterns, msg) then Timeout
    else if AnyIn(NetworkPatterns, msg) then NetworkError
    else UnknownError
  }

  /** The category is decided by the first list, in the order blocked,
      timeout, network, that has a pattern occurring in the message. */
  lemma ErrorTypeMeaning(msg: string)
    ensures GetErrorType(msg) == Blocked <==>
      exists k :: 0 <= k < |BlockPatterns| && Contains(msg, BlockPatterns[k])
    ensures GetErrorType(msg) == Timeout <==>
      (forall k :: 0 <= k < |BlockPatterns| ==> !Contains(msg, BlockPatterns[k]))
      && exists k :: 0 <= k < |TimeoutPatterns| && Contains(msg, TimeoutPatterns[k])
    ensures GetErrorType(msg) == NetworkError <==>
      (forall k :: 0 <= k < |BlockPatterns| ==> !Contains(msg, BlockPatterns[k]))
      && (forall k :: 0 <= k < |TimeoutPatterns| ==> !Contains(msg, TimeoutPatterns[k]))
      && exists k :: 0 <= k < |NetworkPatterns| && Contains(msg, NetworkPatterns[k])
  {
    AnyInIff(BlockPatterns, msg);
    AnyInIff(TimeoutPatterns, msg);
    AnyInIff(NetworkPatterns, msg);
  }

  /** A blocking signature wins over any timeout or network pattern that the
      message also holds. */
  lemma BlockedWins(msg: string, k: nat)
    requires k < |BlockPatterns| && Contains(msg, BlockPatterns[k])
    ensures GetErrorType(msg) == Blocked
  {
    AnyInIff(BlockPatterns, msg);
  }

  /** Any message holding `BLOCKED`, such as the crawler's
      `BLOCKED: Error page detected`, is classified as blocked. */
  lemma BlockedMarkerClassified(msg: string)
    requires Contains(msg, "BLOCKED")
    ensures GetErrorType(msg) == Blocked
  {
    BlockedWins(msg, 12);
  }

  /** Matching is case-sensitive: `TIMEOUT` alone matches no pattern. */
  lemma UpperCaseTimeoutUnknown(w: string)
    requires w == "TIMEOUT"
    ensures GetErrorType(w) == UnknownError
  {
    UpperTimeoutNoBlockPattern(w);
    UpperTimeoutNoTimeoutPattern(w);
    UpperTimeoutNoNetworkPattern(w);
  }

  lemma UpperTimeoutNoBlockPattern(w: string)
    requires w == "TIMEOUT"
    ensures !AnyIn(BlockPatterns, w)
  {
    NoneContained(BlockPatterns, w, [1, 1, 0, 0, 0, 0, 0, 0, 0, 0, 0, 0, 0]);
  }

  lemma UpperTimeoutNoTimeoutPattern(w: string)
    requires w == "TIMEOUT"
    ensures !AnyIn(TimeoutPatterns, w)
  {
    NoneContained(TimeoutPatterns, w, [1, 0, 1, 0, 0, 0, 0]);
  }

  lemma UpperTimeoutNoNetworkPattern(w: string)
    requires w == "TIMEOUT"
    ensures !AnyIn(NetworkPatterns, w)
  {
    NoneContained(NetworkPatterns, w, [0, 0, 0, 0, 1, 1]);
  }

  /** A timeout pattern decides the category whenever no block pattern
      occurs, even if network patterns occur too. */
  lemma TimeoutBeforeNetwork(msg: string, k: nat)
    requires k < |TimeoutPatterns| && Contains(msg, TimeoutPatterns[k])
    requires forall j :: 0 <= j < |BlockPatterns| ==> !Contains(msg, BlockPatterns[j])
    ensures GetErrorType(msg) == Timeout
  {
    AnyInIff(BlockPatterns, msg);
    AnyInIff(TimeoutPatterns, msg);
  }

  /** No pattern occurs in `w` when each has a character `w` lacks; `wit`
      gives the position of that character in each pattern. */
  lemma {:induction false} NoneContained(patterns: seq<string>, w: string, wit: seq<nat>)
    requires |wit| == |patterns|
    requires forall k :: 0 <= k < |patterns| ==> wit[k] < |patterns[k]| && patterns[k][wit[k]] !in w
    ensures !AnyIn(patterns, w)
    decreases |patterns|
  {
    if |patterns| > 0 {
      if Contains(w, patterns[0]) {
        ContainsChars(w, patterns[0], wit[0]);
      }
      NoneContained(patterns[1..], w, wit[1..]);
    }
  }

  /** The label `formatError` puts before the message of each category. */
  function Label(t: ErrorType): string
  {
    match t
    case Blocked => "🚫 차단 감지: "
    case Timeout => "⏱️ 타임아웃: "
    case NetworkError => "🌐 네트워크 오류: "
    case UnknownError => "❗ 오류: "
  }

  /** `formatError`: the category label of the message followed by the
      message itself. */
  function FormatError(msg: string): (r: string)
    ensures EndsWith(r, msg)
    ensures IsPrefix(Label(GetErrorType(msg)), r)
  {
    var r := Label(GetErrorType(msg)) + msg;
    assert r[|r| - |msg|..] == msg;
    assert r[..|Label(GetErrorType(msg))|] == Label(GetErrorType(msg));
    r
  }

  /** Reads the category back from a formatted message. */
  function CategoryOfFormatted(s: string): ErrorType
  {
    if IsPrefix(Label(Blocked), s) then Blocked
    else if IsPrefix(Label(Timeout), s) then Timeout
    else if IsPrefix(Label(NetworkError), s) then NetworkError
    else UnknownError
  }

  /** A non-empty prefix fixes the first character. */
  lemma PrefixHead(p: string, s: string)
    requires |p| > 0 && IsPrefix(p, s)
    ensures s[0] == p[0]
  {
    assert s[..|p|][0] == s[0];
  }

  /** The labels are told apart by their first character. */
  lemma {:induction false} LabelRecovered(t: ErrorType, msg: string)
    ensures CategoryOfFormatted(Label(t) + msg) == t
  {
    var r := Label(t) + msg;
    assert r[0] == Label(t)[0];
    if t != Blocked && IsPrefix(Label(Blocked), r) {
      PrefixHead(Label(Blocked), r);
    }
    if t != Timeout && IsPrefix(Label(Timeout), r) {
      PrefixHead(Label(Timeout), r);
    }
    if t != NetworkError && IsPrefix(Label(NetworkError), r) {
      PrefixHead(Label(NetworkError), r);
    }
    assert r[..|Label(t)|] == Label(t);
  }

  /** The category can be read back from the formatted text. */
  lemma FormatErrorRecoversCategory(msg: string)
    ensures CategoryOfFormatted(FormatError(msg)) == GetErrorType(msg)
  {
    LabelRecovered(GetErrorType(msg), msg);
  }

  // ================================================================ domains

  /** A character of a compiled pattern: `.` is the regex wildcard. */
  predicate CharMatches(p: char, c: char)
  {
    p == '.' || p == c
  }

  /** The anchored regex `^` + pattern with `*` replaced by `.*` + `$`: `*`
      matches any run of characters, `.` any one character, every other
      character itself. */
  predicate GlobMatch(p: string, s: string)
    decreases |p| + |s|
  {
    if |p| == 0 then |s| == 0
    else if p[0] == '*' then GlobMatch(p[1..], s) || (|s| > 0 && GlobMatch(p, s[1..]))
    else |s| > 0 && CharMatches(p[0], s[0]) && GlobMatch(p[1..], s[1..])
  }

  /** Position-wise match of a pattern without `*`. */
  predicate CharsMatch(p: string, s: string)
    decreases |p|
  {
    |p| == |s| && (|p| == 0 || (CharMatches(p[0], s[0]) && CharsMatch(p[1..], s[1..])))
  }

  /** Without `*`, a pattern matches exactly the strings of its length that
      agree with it outside its `.` positions. */
  lemma {:induction false} GlobStarFree(p: string, s: string)
    requires '*' !in p
    ensures GlobMatch(p, s) <==> CharsMatch(p, s)
    decreases |p|
  {
    if |p| > 0 && |s| > 0 {
      assert p[0] in p;
      GlobStarFree(p[1..], s[1..]);
    }
  }

  /** A star-free prefix of the pattern consumes exactly its length. */
  lemma {:induction false} GlobLiteralPrefix(a: string, q: string, s: string)
    requires '*' !in a
    ensures GlobMatch(a + q, s) <==>
      |s| >= |a| && CharsMatch(a, s[..|a|]) && GlobMatch(q, s[|a|..])
    decreases |a|
  {
    if |a| == 0 {
      assert a + q == q && s[|a|..] == s;
    } else {
      assert a[0] in a;
      assert (a + q)[0] == a[0] && (a + q)[1..] == a[1..] + q;
      if |s| > 0 {
        GlobLiteralPrefix(a[1..], q, s[1..]);
        if |s| >= |a| {
          assert s[1..][|a| - 1..] == s[|a|..];
          assert s[..|a|][1..] == s[1..][..|a| - 1];
          assert s[..|a|][0] == s[0];
        }
      }
    }
  }

  /** A leading `*` followed by a star-free pattern `b` matches exactly the
      strings that end in a match of `b`. */
  lemma {:induction false} GlobLeadingStar(b: string, s: string)
    requires '*' !in b
    ensures GlobMatch(['*'] + b, s) <==> |s| >= |b| && CharsMatch(b, s[|s| - |b|..])
    decreases |s|
  {
    var p := ['*'] + b;
    assert p[0] == '*' && p[1..] == b;
    GlobStarFree(b, s);
    if |s| == 0 {
      assert GlobMatch(p, s) == GlobMatch(b, s);
      assert |b| == 0 ==> s[|s| - |b|..] == s;
    } else {
      assert GlobMatch(p, s) == (GlobMatch(b, s) || GlobMatch(p, s[1..]));
      GlobLeadingStar(b, s[1..]);
      if |s| > |b| {
        assert !CharsMatch(b, s);
        assert s[1..][|s| - 1 - |b|..] == s[|s| - |b|..];
      } else if |s| == |b| {
        assert s[|s| - |b|..] == s;
        assert !(|s[1..]| >= |b|);
      } else {
        assert !CharsMatch(b, s);
      }
    }
  }

  /** A pattern with one `*` between star-free parts `a` and `b`, such as
      `image*.coupangcdn.com`, matches exactly the strings that start with a
      match of `a` and end with a match of `b`, without overlap. */
  lemma GlobOneStar(a: string, b: string, s: string)
    requires '*' !in a && '*' !in b
    ensures GlobMatch(a + (['*'] + b), s) <==>
      |s| >= |a| + |b| && CharsMatch(a, s[..|a|]) && CharsMatch(b, s[|s| - |b|..])
  {
    GlobLiteralPrefix(a, ['*'] + b, s);
    if |s| >= |a| {
      var t := s[|a|..];
      GlobLeadingStar(b, t);
      if |t| >= |b| {
        assert t[|t| - |b|..] == s[|s| - |b|..];
      }
    }
  }

  /** One entry of `blockedDomains` tested against a hostname. */
  predicate PatternMatches(pattern: string, hostname: string)
  {
    if pattern == hostname then true
    else if IsPrefix("*.", pattern) then
      var domain := pattern[2..];
      hostname == domain || EndsWith(hostname, "." + domain)
    else if '*' in pattern then GlobMatch(pattern, hostname)
    else false
  }

  predicate AnyPatternMatches(patterns: seq<string>, hostname: string)
    decreases |patterns|
  {
    |patterns| > 0 && (PatternMatches(patterns[0], hostname) || AnyPatternMatches(patterns[1..], hostname))
  }

  /** `matchesDomain(url, patterns)`, given the hostname `new URL(url)`
      yields, or `None` when the URL does not parse. */
  predicate MatchesDomain(hostname: Option<string>, patterns: seq<string>)
  {
    hostname.Some? && AnyPatternMatches(patterns, hostname.value)
  }

  lemma {:induction false} AnyPatternIff(patterns: seq<string>, h: string)
    ensures AnyPatternMatches(patterns, h) <==>
      exists k :: 0 <= k < |patterns| && PatternMatches(patterns[k], h)
    decreases |patterns|
  {
    if |patterns| > 0 {
      AnyPatternIff(patterns[1..], h);
      if AnyPatternMatches(patterns[1..], h) {
        var k :| 0 <= k < |patterns[1..]| && PatternMatches(patterns[1..][k], h);
        assert PatternMatches(patterns[k + 1], h);
      }
      forall k | 0 <= k < |patterns| && PatternMatches(patterns[k], h)
        ensures AnyPatternMatches(patterns, h)
      {
        if k > 0 {
          assert patterns[1..][k - 1] == patterns[k];
        }
      }
    }
  }

  /** A hostname matches when some pattern matches it, and never when the URL
      does not parse. */
  lemma MatchesDomainMeaning(hostname: Option<string>, patterns: seq<string>)
    ensures hostname.None? ==> !MatchesDomain(hostname, patterns)
    ensures hostname.Some? ==> (MatchesDomain(hostname, patterns) <==>
      exists k :: 0 <= k < |patterns| && PatternMatches(patterns[k], hostname.value))
  {
    if hostname.Some? {
      AnyPatternIff(patterns, hostname.value);
    }
  }

  /** `*.d` matches `d` itself and every host ending in `.d`, and nothing
      else. */
  lemma WildcardSubdomain(d: string, h: string)
    ensures PatternMatches("*." + d, h) <==> h == d || EndsWith(h, "." + d)
  {
    var p := "*." + d;
    assert IsPrefix("*.", p) && p[2..] == d;
    if p == h {
      assert h[|h| - |"." + d|..] == "." + d;
    }
  }

  /** A pattern without `*` matches only the identical hostname. */
  lemma LiteralPatternExact(p: string, h: string)
    requires '*' !in p
    ensures PatternMatches(p, h) <==> p == h
  {
    if |p| >= 2 {
      assert p[0] in p;
      assert p[..2][0] == p[0];
    }
  }

  /** A pattern `a*b` whose parts hold no `*` and that does not start with
      `*` goes through the glob branch: it matches exactly the hosts that
      start with a match of `a` and end with a match of `b`. */
  lemma OneStarPattern(a: string, b: string, h: string)
    requires |a| > 0 && '*' !in a && '*' !in b
    ensures PatternMatches(a + (['*'] + b), h) <==>
      |h| >= |a| + |b| && CharsMatch(a, h[..|a|]) && CharsMatch(b, h[|h| - |b|..])
  {
    var p := a + (['*'] + b);
    assert p[0] == a[0] && a[0] in a;
    assert !IsPrefix("*.", p);
    assert p[|a|] == '*';
    if p == h {
      assert h[..|a|] == a && h[|h| - |b|..] == b;
      CharsMatchSelf(a);
      CharsMatchSelf(b);
    }
    GlobOneStar(a, b, h);
  }

  /** The blocked-domain entry `image*.coupangcdn.com` matches a host that
      starts with `image` and ends with `.coupangcdn.com`, where each `.` of
      the suffix stands for any character. */
  lemma ImageServerPattern(pattern: string, h: string)
    requires pattern == "image*.coupangcdn.com"
    ensures PatternMatches(pattern, h) <==>
      |h| >= 20 && CharsMatch("image", h[..5]) && CharsMatch(".coupangcdn.com", h[|h| - 15..])
  {
    var a, b := "image", ".coupangcdn.com";
    assert pattern == a + (['*'] + b);
    OneStarPattern(a, b, h);
  }

  lemma {:induction false} CharsMatchSelf(p: string)
    ensures CharsMatch(p, p)
    decreases |p|
  {
    if |p| > 0 {
      CharsMatchSelf(p[1..]);
    }
  }

  /** `CharsMatch` holds when every position is a `.` of the pattern or the
      same character. */
  lemma {:induction false} CharsMatchPointwise(p: string, s: string)
    requires |p| == |s|
    requires forall k :: 0 <= k < |p| ==> CharMatches(p[k], s[k])
    ensures CharsMatch(p, s)
    decreases |p|
  {
    if |p| > 0 {
      assert CharMatches(p[0], s[0]);
      forall k | 0 <= k < |p| - 1 ensures CharMatches(p[1..][k], s[1..][k]) {
        assert CharMatches(p[k + 1], s[k + 1]);
      }
      CharsMatchPointwise(p[1..], s[1..]);
    }
  }

  /** Every host `image<anything>.coupangcdn.com` is blocked by the
      image-server pattern. */
  lemma ImageHostBlocked(pattern: string, mid: string)
    requires pattern == "image*.coupangcdn.com"
    ensures PatternMatches(pattern, "image" + mid + ".coupangcdn.com")
  {
    var h := "image" + mid + ".coupangcdn.com";
    ImageServerPattern(pattern, h);
    assert h[..5] == "image" && h[|h| - 15..] == ".coupangcdn.com";
    CharsMatchSelf("image");
    CharsMatchSelf(".coupangcdn.com");
  }

  /** Because the dots of the pattern are regex wildcards, any character may
      stand where the pattern has a `.`: `imagesXcoupangcdnYcom` is blocked. */
  lemma DotWildcardHostBlocked(pattern: string, mid: string, x: char, y: char)
    requires pattern == "image*.coupangcdn.com"
    ensures PatternMatches(pattern, "image" + mid + [x] + "coupangcdn" + [y] + "com")
  {
    var tail := [x] + "coupangcdn" + [y] + "com";
    var h := "image" + mid + tail;
    assert h == "image" + mid + [x] + "coupangcdn" + [y] + "com";
    ImageServerPattern(pattern, h);
    assert h[..5] == "image" && h[|h| - 15..] == tail;
    CharsMatchSelf("image");
    DotTailMatches(x, y);
  }

  /** The dots of `.coupangcdn.com` match any character. */
  lemma DotTailMatches(x: char, y: char)
    ensures CharsMatch(".coupangcdn.com", [x] + "coupangcdn" + [y] + "com")
  {
    var name, top := "coupangcdn", "com";
    assert ".coupangcdn.com" == "." + name + "." + top;
    CharsMatchSelf(name);
    CharsMatchSelf(top);
    assert CharsMatch(".", [x]) && CharsMatch(".", [y]);
    CharsMatchConcat(".", [x], name, name);
    CharsMatchConcat("." + name, [x] + name, ".", [y]);
    CharsMatchConcat("." + name + ".", [x] + name + [y], top, top);
  }

  /** Matching is piecewise: parts that match give a whole that matches. */
  lemma {:induction false} CharsMatchConcat(p1: string, s1: string, p2: string, s2: string)
    requires CharsMatch(p1, s1) && CharsMatch(p2, s2)
    ensures CharsMatch(p1 + p2, s1 + s2)
    decreases |p1|
  {
    if |p1| == 0 {
      assert p1 + p2 == p2 && s1 + s2 == s2;
    } else {
      CharsMatchConcat(p1[1..], s1[1..], p2, s2);
      assert (p1 + p2)[1..] == p1[1..] + p2 && (s1 + s2)[1..] == s1[1..] + s2;
      assert (p1 + p2)[0] == p1[0] && (s1 + s2)[0] == s1[0];
    }
  }

  /** A host shorter than the pattern's two literal parts, such as the
      storefront `www.coupang.com`, is never matched by it. */
  lemma ShortHostAllowed(pattern: string, h: string)
    requires pattern == "image*.coupangcdn.com" && |h| < 20
    ensures !PatternMatches(pattern, h)
  {
    ImageServerPattern(pattern, h);
  }

  // ================================================================ extensions

  predicate AnyExtension(extensions: seq<string>, path: string)
    decreases |extensions|
  {
    |extensions| > 0 &&
    (EndsWith(path, Lower(extensions[0])) || AnyExtension(extensions[1..], path))
  }

  /** `hasBlockedExtension(url, extensions)`, given the pathname
      `new URL(url)` yields, or `None` when the URL does not parse. */
  predicate HasBlockedExtension(pathname: Option<string>, extensions: seq<string>)
  {
    pathname.Some? && AnyExtension(extensions, Lower(pathname.value))
  }

  /** A pathname is blocked exactly when its lower-cased form ends with the
      lower-cased form of some extension; an unparsable URL never is. */
  lemma {:induction false} HasBlockedExtensionMeaning(pathname: Option<string>, extensions: seq<string>)
    ensures pathname.None? ==> !HasBlockedExtension(pathname, extensions)
    ensures pathname.Some? ==> (HasBlockedExtension(pathname, extensions) <==>
      exists k :: 0 <= k < |extensions| && EndsWith(Lower(pathname.value), Lower(extensions[k])))
    decreases |extensions|
  {
    if pathname.Some? && |extensions| > 0 {
      var path := Lower(pathname.value);
      HasBlockedExtensionMeaning(pathname, extensions[1..]);
      if AnyExtension(extensions[1..], path) {
        var k :| 0 <= k < |extensions[1..]| && EndsWith(path, Lower(extensions[1..][k]));
        assert EndsWith(path, Lower(extensions[k + 1]));
      }
      forall k | 0 <= k < |extensions| && EndsWith(path, Lower(extensions[k]))
        ensures AnyExtension(extensions, path)
      {
        if k > 0 {
          assert extensions[1..][k - 1] == extensions[k];
        }
      }
    }
  }

  /** Lower-casing both sides makes the check case-insensitive. */
  lemma ExtensionCaseInsensitive(path: string, ext: string)
    requires EndsWith(path, ext)
    ensures HasBlockedExtension(Some(path), [ext])
    ensures HasBlockedExtension(Some(Lower(path)), [ext])
  {
    var lp := Lower(path);
    assert lp[|lp| - |ext|..] == Lower(ext);
    assert Lower(lp) == lp;
    assert Lower(lp)[|lp| - |ext|..] == Lower(ext);
  }
}
