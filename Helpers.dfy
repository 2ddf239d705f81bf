/**
 * The string helpers of the plugin (src/utils/helpers.go): the environment
 * fallback, the endpoint-account rewriting of `ReplaceAccount`, and the Manila
 * microversion parsing and comparison of `CompareMicroversions`.
 */
module Helpers {
  import opened Wrappers
  import Decimal

  // ---------------------------------------------------------------------------
  // GetEnv
  // ---------------------------------------------------------------------------

  /**
   * `GetEnv(key, fallback)`, with the process environment's answer for `key`
   * passed in: a variable that is set wins even when it is set to "".
   */
  function GetEnv(lookup: Option<string>, fallback: string): (v: string)
    ensures lookup.Some? ==> v == lookup.value
    ensures lookup.None? ==> v == fallback
  {
    match lookup
    case Some(value) => value
    case None => fallback
  }

  // ---------------------------------------------------------------------------
  // strings.Split, strings.Join and strings.HasPrefix for a one-character separator
  // ---------------------------------------------------------------------------

  /**
   * `strings.Split(s, sep)`: the pieces of `s` between separators, so one more
   * piece than there are separators (`[""]` for the empty string).
   */
  function Split(s: string, sep: char): (parts: seq<string>)
    ensures |parts| >= 1
    ensures forall i :: 0 <= i < |parts| ==> sep !in parts[i]
    decreases |s|
  {
    if |s| == 0 then [""]
    else
      var rest := Split(s[1..], sep);
      if s[0] == sep then [""] + rest
      else [[s[0]] + rest[0]] + rest[1..]
  }

  /** `strings.Join(parts, sep)`. */
  function Join(parts: seq<string>, sep: char): string
    decreases |parts|
  {
    if |parts| == 0 then ""
    else if |parts| == 1 then parts[0]
    else parts[0] + [sep] + Join(parts[1..], sep)
  }

  /** `strings.HasPrefix(s, prefix)`; every string starts with "". */
  predicate HasPrefix(s: string, prefix: string) {
    |prefix| <= |s| && s[..|prefix|] == prefix
  }

  /** Joining the pieces of a split gives back the original string. */
  lemma {:induction false} JoinSplit(s: string, sep: char)
    ensures Join(Split(s, sep), sep) == s
    decreases |s|
  {
    if |s| > 0 {
      var rest := Split(s[1..], sep);
      JoinSplit(s[1..], sep);
      if s[0] == sep {
        assert ([""] + rest)[1..] == rest;
      } else {
        var parts := [[s[0]] + rest[0]] + rest[1..];
        if |rest| > 1 {
          assert parts[1..] == rest[1..];
          assert Join(rest, sep) == rest[0] + [sep] + Join(rest[1..], sep);
        }
      }
    }
  }

  /** A string with no separator in it splits into itself alone. */
  lemma {:induction false} SplitWithoutSeparator(s: string, sep: char)
    requires sep !in s
    ensures Split(s, sep) == [s]
    decreases |s|
  {
    if |s| > 0 {
      assert sep !in s[1..] by {
        forall i | 0 <= i < |s[1..]| ensures s[1..][i] != sep {
          assert s[1..][i] == s[i + 1];
        }
      }
      SplitWithoutSeparator(s[1..], sep);
      assert s[0] != sep;
      assert [s[0]] + s[1..] == s;
    }
  }

  /** Splitting `x + sep + y`, where `x` holds no separator, gives `x` and then the pieces of `y`. */
  lemma {:induction false} SplitAfterPiece(x: string, y: string, sep: char)
    requires sep !in x
    ensures Split(x + [sep] + y, sep) == [x] + Split(y, sep)
    decreases |x|
  {
    var s := x + [sep] + y;
    if |x| == 0 {
      assert s[1..] == y;
    } else {
      assert s[1..] == x[1..] + [sep] + y;
      assert sep !in x[1..] by {
        forall i | 0 <= i < |x[1..]| ensures x[1..][i] != sep {
          assert x[1..][i] == x[i + 1];
        }
      }
      SplitAfterPiece(x[1..], y, sep);
      assert [x[0]] + x[1..] == x;
    }
  }

  /** Splitting a join of separator-free pieces gives the pieces back. */
  lemma {:induction false} SplitJoin(parts: seq<string>, sep: char)
    requires |parts| >= 1
    requires forall i :: 0 <= i < |parts| ==> sep !in parts[i]
    ensures Split(Join(parts, sep), sep) == parts
    decreases |parts|
  {
    if |parts| == 1 {
      SplitWithoutSeparator(parts[0], sep);
    } else {
      SplitJoin(parts[1..], sep);
      SplitAfterPiece(parts[0], Join(parts[1..], sep), sep);
      assert [parts[0]] + parts[1..] == parts;
    }
  }

  // ---------------------------------------------------------------------------
  // ReplaceAccount
  // ---------------------------------------------------------------------------

  /**
   * One pass of the inner loop of `ReplaceAccount`: the lowest-index part that
   * starts with `prefix` becomes `prefix + account`; all others stay as they are.
   */
  function RewriteFirst(parts: seq<string>, prefix: string, account: string): (r: seq<string>)
    ensures |r| == |parts|
    decreases |parts|
  {
    if |parts| == 0 then []
    else if HasPrefix(parts[0], prefix) then [prefix + account] + parts[1..]
    else [parts[0]] + RewriteFirst(parts[1..], prefix, account)
  }

  /** The outer loop of `ReplaceAccount`: one `RewriteFirst` per prefix, in list order. */
  function RewriteAll(parts: seq<string>, prefixes: seq<string>, account: string): (r: seq<string>)
    ensures |r| == |parts|
    decreases |prefixes|
  {
    if |prefixes| == 0 then parts
    else RewriteFirst(RewriteAll(parts, prefixes[..|prefixes| - 1], account), prefixes[|prefixes| - 1], account)
  }

  /** What `ReplaceAccount(account, path, prefixes)` returns. */
  function ReplacedPath(account: string, path: string, prefixes: seq<string>): string {
    Join(RewriteAll(Split(path, '/'), prefixes, account), '/')
  }

  /** The lowest-index matching part is the one rewritten. */
  lemma {:induction false} RewriteFirstAt(parts: seq<string>, prefix: string, account: string, i: nat)
    requires i < |parts| && HasPrefix(parts[i], prefix)
    requires forall j :: 0 <= j < i ==> !HasPrefix(parts[j], prefix)
    ensures RewriteFirst(parts, prefix, account) == parts[i := prefix + account]
    decreases i
  {
    if i > 0 {
      RewriteFirstAt(parts[1..], prefix, account, i - 1);
      assert [parts[0]] + parts[1..][i - 1 := prefix + account] == parts[i := prefix + account];
    }
  }

  /** Without a matching part, nothing is rewritten. */
  lemma {:induction false} RewriteFirstNoMatch(parts: seq<string>, prefix: string, account: string)
    requires forall j :: 0 <= j < |parts| ==> !HasPrefix(parts[j], prefix)
    ensures RewriteFirst(parts, prefix, account) == parts
    decreases |parts|
  {
    if |parts| > 0 {
      RewriteFirstNoMatch(parts[1..], prefix, account);
      assert [parts[0]] + parts[1..] == parts;
    }
  }

  /** A part that `RewriteFirst` changes started with the prefix and became `prefix + account`. */
  lemma {:induction false} RewriteFirstOnlyMatching(parts: seq<string>, prefix: string, account: string, i: nat)
    requires i < |parts|
    ensures RewriteFirst(parts, prefix, account)[i] == parts[i]
         || (HasPrefix(parts[i], prefix) && RewriteFirst(parts, prefix, account)[i] == prefix + account)
    decreases |parts|
  {
    if i > 0 && !HasPrefix(parts[0], prefix) {
      RewriteFirstOnlyMatching(parts[1..], prefix, account, i - 1);
    }
  }

  /** A part that starts with none of the prefixes keeps its content and its position. */
  lemma {:induction false} RewriteAllKeepsUnmatched(parts: seq<string>, prefixes: seq<string>, account: string, i: nat)
    requires i < |parts|
    requires forall k :: 0 <= k < |prefixes| ==> !HasPrefix(parts[i], prefixes[k])
    ensures RewriteAll(parts, prefixes, account)[i] == parts[i]
    decreases |prefixes|
  {
    if |prefixes| > 0 {
      var init := prefixes[..|prefixes| - 1];
      RewriteAllKeepsUnmatched(parts, init, account, i);
      RewriteFirstOnlyMatching(RewriteAll(parts, init, account), prefixes[|prefixes| - 1], account, i);
    }
  }

  /** Parts that start with no prefix are all kept, so nothing changes at all. */
  lemma RewriteAllNoMatch(parts: seq<string>, prefixes: seq<string>, account: string)
    requires forall i, k :: 0 <= i < |parts| && 0 <= k < |prefixes| ==> !HasPrefix(parts[i], prefixes[k])
    ensures RewriteAll(parts, prefixes, account) == parts
  {
    forall i | 0 <= i < |parts| ensures RewriteAll(parts, prefixes, account)[i] == parts[i] {
      RewriteAllKeepsUnmatched(parts, prefixes, account, i);
    }
  }

  /** If no segment of the path starts with any prefix, the path comes back unchanged. */
  lemma ReplacedPathUnchangedWithoutMatch(account: string, path: string, prefixes: seq<string>)
    requires forall i, k :: 0 <= i < |Split(path, '/')| && 0 <= k < |prefixes| ==>
               !HasPrefix(Split(path, '/')[i], prefixes[k])
    ensures ReplacedPath(account, path, prefixes) == path
  {
    RewriteAllNoMatch(Split(path, '/'), prefixes, account);
    JoinSplit(path, '/');
  }

  /**
   * When neither the account nor a prefix contains '/', the rewritten path splits
   * into exactly the rewritten parts: their number is that of the input path.
   */
  lemma ReplacedPathSegments(account: string, path: string, prefixes: seq<string>)
    requires '/' !in account
    requires forall k :: 0 <= k < |prefixes| ==> '/' !in prefixes[k]
    ensures Split(ReplacedPath(account, path, prefixes), '/') == RewriteAll(Split(path, '/'), prefixes, account)
    ensures |Split(ReplacedPath(account, path, prefixes), '/')| == |Split(path, '/')|
  {
    var parts := RewriteAll(Split(path, '/'), prefixes, account);
    forall i | 0 <= i < |parts| ensures '/' !in parts[i] {
      NoSlashAfterRewrite(Split(path, '/'), prefixes, account, i);
    }
    SplitJoin(parts, '/');
  }

  lemma {:induction false} NoSlashAfterRewrite(parts: seq<string>, prefixes: seq<string>, account: string, i: nat)
    requires i < |parts|
    requires forall j :: 0 <= j < |parts| ==> '/' !in parts[j]
    requires '/' !in account
    requires forall k :: 0 <= k < |prefixes| ==> '/' !in prefixes[k]
    ensures '/' !in RewriteAll(parts, prefixes, account)[i]
    decreases |prefixes|
  {
    if |prefixes| > 0 {
      var init := prefixes[..|prefixes| - 1];
      var p := prefixes[|prefixes| - 1];
      RewriteFirstOnlyMatching(RewriteAll(parts, init, account), p, account, i);
      NoSlashAfterRewrite(parts, init, account, i);
      assert '/' !in p + account;
    }
  }

  /**
   * `ReplaceAccount`: splits the path on '/', and for each prefix in turn
   * replaces the first part starting with it by `prefix + account`; later
   * prefixes see what earlier ones wrote. The parts are updated in place.
   */
  method ReplaceAccount(account: string, path: string, prefixes: seq<string>) returns (r: string)
    ensures r == ReplacedPath(account, path, prefixes)
    ensures (forall i, k :: 0 <= i < |Split(path, '/')| && 0 <= k < |prefixes| ==>
               !HasPrefix(Split(path, '/')[i], prefixes[k]))
            ==> r == path
  {
    var parts := Split(path, '/');
    for k := 0 to |prefixes|
      invariant parts == RewriteAll(Split(path, '/'), prefixes[..k], account)
    {
      var prefix := prefixes[k];
      ghost var before := parts;
      ghost var rewrote := false;
      var i := 0;
      while i < |parts|
        invariant 0 <= i <= |parts|
        invariant parts == before && !rewrote
        invariant forall j :: 0 <= j < i ==> !HasPrefix(parts[j], prefix)
      {
        if HasPrefix(parts[i], prefix) {
          RewriteFirstAt(parts, prefix, account, i);
          parts := parts[i := prefix + account];
          rewrote := true;
          break;
        }
        i := i + 1;
      }
      if !rewrote {
        RewriteFirstNoMatch(parts, prefix, account);
      }
      assert parts == RewriteFirst(before, prefix, account);
      assert prefixes[..k + 1][..k] == prefixes[..k];
    }
    assert prefixes[..|prefixes|] == prefixes;
    r := Join(parts, '/');
    if forall i, k :: 0 <= i < |Split(path, '/')| && 0 <= k < |prefixes| ==>
         !HasPrefix(Split(path, '/')[i], prefixes[k]) {
      ReplacedPathUnchangedWithoutMatch(account, path, prefixes);
    }
  }

  /** A later prefix matches the part an earlier prefix has just written. */
  lemma LaterPrefixSeesEarlierRewrite()
    ensures ReplacedPath("b", "a1/a2", ["a", "ab"]) == "abb/a2"
  {
    ExampleSplit();
    ExampleRewrites();
    assert Join(["abb", "a2"], '/') == "abb/a2";
  }

  /** The segments of the example path. */
  lemma ExampleSplit()
    ensures Split("a1/a2", '/') == ["a1", "a2"]
  {
    SplitWithoutSeparator("a2", '/');
    SplitAfterPiece("a1", "a2", '/');
    assert "a1" + ['/'] + "a2" == "a1/a2";
  }

  /** The example's two rewrites, the second applied to the first one's output. */
  lemma ExampleRewrites()
    ensures RewriteAll(["a1", "a2"], ["a", "ab"], "b") == ["abb", "a2"]
  {
    var parts := ["a1", "a2"];
    var once := ["ab", "a2"];
    ExampleFirstRewrite();
    assert ["a", "ab"][..1] == ["a"];
    assert HasPrefix("ab", "ab");
    RewriteFirstAt(once, "ab", "b", 0);
    assert "ab" + "b" == "abb" by {
      assert ("ab" + "b")[0] == 'a' && ("ab" + "b")[1] == 'b' && ("ab" + "b")[2] == 'b';
    }
    assert once[0 := "ab" + "b"] == ["abb", "a2"];
  }

  lemma ExampleFirstRewrite()
    ensures RewriteAll(["a1", "a2"], ["a"], "b") == ["ab", "a2"]
  {
    var parts := ["a1", "a2"];
    assert HasPrefix("a1", "a");
    RewriteFirstAt(parts, "a", "b", 0);
    assert ["a"][..0] == [];
    assert RewriteAll(parts, [], "b") == parts;
    assert "a" + "b" == "ab" by {
      assert ("a" + "b")[0] == 'a' && ("a" + "b")[1] == 'b';
    }
    assert parts[0 := "a" + "b"] == ["ab", "a2"];
  }

  /** A string that is empty or starts with another character does not start with `prefix`. */
  lemma NotPrefixByFirstChar(s: string, prefix: string)
    requires |prefix| > 0 && (|s| == 0 || s[0] != prefix[0])
    ensures !HasPrefix(s, prefix)
  {
    if |prefix| <= |s| {
      assert s[..|prefix|][0] == s[0];
    }
  }

  /** When only the last part starts with the prefix, it is the one rewritten. */
  lemma RewriteFirstOnlyLast(head: seq<string>, last: string, prefix: string, account: string)
    requires forall j :: 0 <= j < |head| ==> !HasPrefix(head[j], prefix)
    requires HasPrefix(last, prefix)
    ensures RewriteFirst(head + [last], prefix, account) == head + [prefix + account]
  {
    var parts := head + [last];
    forall j | 0 <= j < |head| ensures !HasPrefix(parts[j], prefix) {
      assert parts[j] == head[j];
    }
    RewriteFirstAt(parts, prefix, account, |head|);
    assert parts[|head| := prefix + account] == head + [prefix + account];
  }

  /**
   * The segments before the account segment of the endpoints in the package's
   * test. Joined with '/', `SwiftV1Segments + ["AUTH_randomstring1234"]` is
   * "https://swift.openstack.domain.com:443/swift/v1/AUTH_randomstring1234"
   * and `SwiftV1Segments + ["AUTH_" + "john-doe"]` is
   * "https://swift.openstack.domain.com:443/swift/v1/AUTH_john-doe".
   */
  const SwiftV1Segments: seq<string> := ["https:", "", "swift.openstack.domain.com:443", "swift", "v1"]

  /**
   * Joined with '/', `NoSchemeSegments + ["SERVICE_randomstring1234"]` is
   * "swift.domain.com:443/swift/v1/SERVICE_randomstring1234" and
   * `NoSchemeSegments + ["SERVICE_" + "john-doe"]` is
   * "swift.domain.com:443/swift/v1/SERVICE_john-doe".
   */
  const NoSchemeSegments: seq<string> := ["swift.domain.com:443", "swift", "v1"]

  /** No segment before the account starts with 'A', 'S' or 'I' in either test endpoint. */
  lemma TestSegmentsAvoid(prefix: string)
    requires |prefix| > 0 && prefix[0] in "ASI"
    ensures forall j :: 0 <= j < |SwiftV1Segments| ==> !HasPrefix(SwiftV1Segments[j], prefix)
    ensures forall j :: 0 <= j < |NoSchemeSegments| ==> !HasPrefix(NoSchemeSegments[j], prefix)
  {
    forall j | 0 <= j < |SwiftV1Segments| ensures !HasPrefix(SwiftV1Segments[j], prefix) {
      NotPrefixByFirstChar(SwiftV1Segments[j], prefix);
    }
    forall j | 0 <= j < |NoSchemeSegments| ensures !HasPrefix(NoSchemeSegments[j], prefix) {
      NotPrefixByFirstChar(NoSchemeSegments[j], prefix);
    }
  }

  /** A test endpoint splits back into its segments. */
  lemma TestEndpointSplit(head: seq<string>, last: string)
    requires head == SwiftV1Segments || head == NoSchemeSegments
    requires '/' !in last
    ensures Split(Join(head + [last], '/'), '/') == head + [last]
  {
    var parts := head + [last];
    forall j | 0 <= j < |parts| ensures '/' !in parts[j] {
      if j < |head| {
        assert parts[j] == head[j];
      }
    }
    SplitJoin(parts, '/');
  }

  /** The package's first `ReplaceAccount` test: the "AUTH_" segment gets the account. */
  lemma ReplaceAccountExistingPrefix()
    ensures ReplacedPath("john-doe", Join(SwiftV1Segments + ["AUTH_randomstring1234"], '/'), ["AUTH_", "SERVICE_"])
         == Join(SwiftV1Segments + ["AUTH_" + "john-doe"], '/')
  {
    TestEndpointSplit(SwiftV1Segments, "AUTH_randomstring1234");
    assert ["AUTH_", "SERVICE_"][..1] == ["AUTH_"] && ["AUTH_"][..0] == [];
    TestSegmentsAvoid("AUTH_");
    TestSegmentsAvoid("SERVICE_");
    assert "AUTH_randomstring1234"[..5] == "AUTH_";
    RewriteFirstOnlyLast(SwiftV1Segments, "AUTH_randomstring1234", "AUTH_", "john-doe");
    var once := SwiftV1Segments + ["AUTH_" + "john-doe"];
    NotPrefixByFirstChar("AUTH_" + "john-doe", "SERVICE_");
    forall j | 0 <= j < |once| ensures !HasPrefix(once[j], "SERVICE_") {
      if j < |SwiftV1Segments| {
        assert once[j] == SwiftV1Segments[j];
      }
    }
    RewriteFirstNoMatch(once, "SERVICE_", "john-doe");
  }

  /** The package's second `ReplaceAccount` test: with no matching prefix the endpoint is unchanged. */
  lemma ReplaceAccountMissingPrefix()
    ensures ReplacedPath("john-doe", Join(SwiftV1Segments + ["AUTH_randomstring1234"], '/'), ["IMAGE_"])
         == Join(SwiftV1Segments + ["AUTH_randomstring1234"], '/')
  {
    var parts := SwiftV1Segments + ["AUTH_randomstring1234"];
    TestEndpointSplit(SwiftV1Segments, "AUTH_randomstring1234");
    assert ["IMAGE_"][..0] == [];
    TestSegmentsAvoid("IMAGE_");
    NotPrefixByFirstChar("AUTH_randomstring1234", "IMAGE_");
    forall j | 0 <= j < |parts| ensures !HasPrefix(parts[j], "IMAGE_") {
      if j < |SwiftV1Segments| {
        assert parts[j] == SwiftV1Segments[j];
      }
    }
    RewriteFirstNoMatch(parts, "IMAGE_", "john-doe");
  }

  /** The package's third `ReplaceAccount` test: an endpoint without a scheme. */
  lemma ReplaceAccountWithoutScheme()
    ensures ReplacedPath("john-doe", Join(NoSchemeSegments + ["SERVICE_randomstring1234"], '/'), ["SERVICE_"])
         == Join(NoSchemeSegments + ["SERVICE_" + "john-doe"], '/')
  {
    TestEndpointSplit(NoSchemeSegments, "SERVICE_randomstring1234");
    assert ["SERVICE_"][..0] == [];
    TestSegmentsAvoid("SERVICE_");
    assert "SERVICE_randomstring1234"[..8] == "SERVICE_";
    RewriteFirstOnlyLast(NoSchemeSegments, "SERVICE_randomstring1234", "SERVICE_", "john-doe");
  }

  // ---------------------------------------------------------------------------
  // Microversions
  // ---------------------------------------------------------------------------

  /** The largest value of Go's `int` on the 64-bit platforms the plugin is built for. */
  const MaxInt: int := 0x7fff_ffff_ffff_ffff

  /**
   * `strconv.Atoi` on a string of decimal digits: the number it denotes, or
   * `MaxInt` when that does not fit (the source ignores the range error).
   */
  function Atoi(digits: string): (n: int)
    requires Decimal.AllDigits(digits)
    ensures 0 <= n <= MaxInt
    ensures Decimal.Value(digits) <= MaxInt ==> n == Decimal.Value(digits)
    ensures Decimal.Value(digits) > MaxInt ==> n == MaxInt
  {
    var v := Decimal.Value(digits);
    if v > MaxInt then MaxInt else v
  }

  datatype Microversion = Microversion(major: int, minor: int)

  datatype CompareError =
    | InvalidOperator(operator: string)
    | InvalidMicroversion(microversion: string)

  /**
   * `^(\d+).(\d+)$` matches `s` with the first group `s[..k]`: digits, then one
   * character other than a newline, then digits to the end.
   */
  predicate MatchesAt(s: string, k: nat) {
    1 <= k && k + 2 <= |s|
    && Decimal.AllDigits(s[..k]) && s[k] != '\n' && Decimal.AllDigits(s[k + 1..])
  }

  ghost predicate MatchesPattern(s: string) {
    exists k: nat :: MatchesAt(s, k)
  }

  /** The largest first-group length not above `k` at which the pattern matches. */
  function LastMatchAtOrBelow(s: string, k: nat): (r: Option<nat>)
    ensures r.Some? ==> r.value <= k && MatchesAt(s, r.value)
    ensures r.Some? ==> forall k': nat :: r.value < k' <= k ==> !MatchesAt(s, k')
    ensures r.None? ==> forall k': nat :: k' <= k ==> !MatchesAt(s, k')
    decreases k
  {
    if k == 0 then None
    else if MatchesAt(s, k) then Some(k)
    else LastMatchAtOrBelow(s, k - 1)
  }

  /**
   * Where Go's leftmost-first regexp engine ends the first group: the greedy
   * `\d+` takes the longest run of digits that still leaves a separator and at
   * least one digit.
   */
  function GroupSplit(s: string): (r: Option<nat>)
    ensures r.Some? ==> MatchesAt(s, r.value) && forall k: nat :: r.value < k ==> !MatchesAt(s, k)
    ensures r.None? <==> !MatchesPattern(s)
  {
    if |s| < 3 then None else LastMatchAtOrBelow(s, |s| - 2)
  }

  /** `microversionToInt`: the two numbers of a "major.minor" string. */
  function ParseMicroversion(mv: string): (r: Result<Microversion, CompareError>)
    ensures r.Ok? <==> MatchesPattern(mv)
    ensures r.Err? ==> r.error == InvalidMicroversion(mv)
    ensures r.Ok? ==> 0 <= r.value.major <= MaxInt && 0 <= r.value.minor <= MaxInt
  {
    match GroupSplit(mv)
    case None => Err(InvalidMicroversion(mv))
    case Some(k) => Ok(Microversion(Atoi(mv[..k]), Atoi(mv[k + 1..])))
  }

  /** Lexicographic order on (major, minor). */
  predicate AtMost(a: Microversion, b: Microversion) {
    a.major < b.major || (a.major == b.major && a.minor <= b.minor)
  }

  /**
   * `CompareMicroversions(operator, want, have)`: the operator is checked
   * first, then `want`, then `have`; "lte" asks whether `want` is at most
   * `have`, "gte" whether it is at least `have`.
   */
  function CompareMicroversions(operator: string, want: string, have: string): (r: Result<bool, CompareError>)
    ensures operator != "lte" && operator != "gte" ==> r == Err(InvalidOperator(operator))
    ensures (operator == "lte" || operator == "gte") && !MatchesPattern(want) ==> r == Err(InvalidMicroversion(want))
    ensures (operator == "lte" || operator == "gte") && MatchesPattern(want) && !MatchesPattern(have)
            ==> r == Err(InvalidMicroversion(have))
    ensures operator == "lte" && MatchesPattern(want) && MatchesPattern(have)
            ==> r == Ok(AtMost(ParseMicroversion(want).value, ParseMicroversion(have).value))
    ensures operator == "gte" && MatchesPattern(want) && MatchesPattern(have)
            ==> r == Ok(AtMost(ParseMicroversion(have).value, ParseMicroversion(want).value))
  {
    if operator != "lte" && operator != "gte" then Err(InvalidOperator(operator))
    else
      match ParseMicroversion(want)
      case Err(e) => Err(e)
      case Ok(w) =>
        match ParseMicroversion(have)
        case Err(e) => Err(e)
        case Ok(h) =>
          if operator == "lte" then
            if w.major < h.major then Ok(true) else Ok(w.major <= h.major && w.minor <= h.minor)
          else
            if w.major > h.major then Ok(true) else Ok(w.major >= h.major && w.minor >= h.minor)
  }

  /** "lte" with the arguments one way round is "gte" with them the other way round. */
  lemma LteIsSwappedGte(want: string, have: string)
    ensures CompareMicroversions("lte", want, have).Err? <==> CompareMicroversions("gte", have, want).Err?
    ensures MatchesPattern(want) && MatchesPattern(have)
            ==> CompareMicroversions("lte", want, have) == CompareMicroversions("gte", have, want)
  {
  }

  /** Every valid microversion is both at most and at least itself. */
  lemma CompareReflexive(operator: string, mv: string)
    requires operator == "lte" || operator == "gte"
    requires MatchesPattern(mv)
    ensures CompareMicroversions(operator, mv, mv) == Ok(true)
  {
  }

  /** Of two valid microversions, one is at most the other. */
  lemma CompareTotal(want: string, have: string)
    requires MatchesPattern(want) && MatchesPattern(have)
    ensures CompareMicroversions("lte", want, have).value || CompareMicroversions("gte", want, have).value
  {
  }

  /**
   * Any two digit runs around one separator that is neither a digit nor a
   * newline parse to the numbers they denote, so leading zeros are ignored.
   */
  lemma ParseDigitRuns(a: string, b: string, sep: char)
    requires |a| >= 1 && |b| >= 1 && Decimal.AllDigits(a) && Decimal.AllDigits(b)
    requires !Decimal.IsDigit(sep) && sep != '\n'
    ensures ParseMicroversion(a + [sep] + b) == Ok(Microversion(Atoi(a), Atoi(b)))
  {
    var s := a + [sep] + b;
    GroupSplitAtSeparator(a, b, sep);
    assert s[..|a|] == a && s[|a| + 1..] == b;
  }

  /** A minor version with a leading zero is the same microversion: "2.07" is "2.7". */
  lemma LeadingZeroIgnored()
    ensures ParseMicroversion("2.07") == ParseMicroversion("2.7") == Ok(Microversion(2, 7))
  {
    ParseDigitRuns("2", "07", '.');
    ParseDigitRuns("2", "7", '.');
    assert "2" + ['.'] + "07" == "2.07";
    assert "2" + ['.'] + "7" == "2.7";
    assert Decimal.Value("07") == Decimal.Value("0") * 10 + 7;
  }

  /**
   * Printing two numbers with any one separator that is neither a digit nor a
   * newline, and parsing the result, gives the two numbers back.
   */
  lemma ParseFormatted(major: nat, minor: nat, sep: char)
    requires major <= MaxInt && minor <= MaxInt
    requires !Decimal.IsDigit(sep) && sep != '\n'
    ensures ParseMicroversion(Decimal.Format(major) + [sep] + Decimal.Format(minor)) == Ok(Microversion(major, minor))
  {
    ParseDigitRuns(Decimal.Format(major), Decimal.Format(minor), sep);
    Decimal.ValueOfFormat(major);
    Decimal.ValueOfFormat(minor);
  }

  /** A single non-digit separator between two digit runs is where the first group ends. */
  lemma GroupSplitAtSeparator(a: string, b: string, sep: char)
    requires |a| >= 1 && |b| >= 1 && Decimal.AllDigits(a) && Decimal.AllDigits(b)
    requires !Decimal.IsDigit(sep) && sep != '\n'
    ensures GroupSplit(a + [sep] + b) == Some(|a|)
  {
    var s := a + [sep] + b;
    var k := |a|;
    assert s[..k] == a && s[k] == sep && s[k + 1..] == b;
    assert MatchesAt(s, k);
    forall k': nat | k < k' ensures !MatchesAt(s, k') {
      if k' + 2 <= |s| {
        assert s[..k'][k] == sep;
      }
    }
  }

  /** With no separator character, a run of digits still matches: its next-to-last digit is the separator. */
  lemma AllDigitsMicroversion()
    ensures ParseMicroversion("245") == Ok(Microversion(2, 5))
  {
    assert MatchesAt("245", 1);
    assert !MatchesAt("245", 2) && !MatchesAt("245", 3);
  }

  /** The microversion strings of the package's test table parse to the expected pairs. */
  lemma ParseExamples()
    ensures ParseMicroversion("2.7") == Ok(Microversion(2, 7))
    ensures ParseMicroversion("1.7") == Ok(Microversion(1, 7))
    ensures ParseMicroversion("3.7") == Ok(Microversion(3, 7))
    ensures ParseMicroversion("2.50") == Ok(Microversion(2, 50))
    ensures ParseMicroversion("1.50") == Ok(Microversion(1, 50))
  {
    ParseFormatted(2, 7, '.');
    assert Decimal.Format(2) + ['.'] + Decimal.Format(7) == "2.7";
    ParseFormatted(1, 7, '.');
    assert Decimal.Format(1) + ['.'] + Decimal.Format(7) == "1.7";
    ParseFormatted(3, 7, '.');
    assert Decimal.Format(3) + ['.'] + Decimal.Format(7) == "3.7";
    assert Decimal.Format(50) == "50";
    ParseFormatted(2, 50, '.');
    assert Decimal.Format(2) + ['.'] + Decimal.Format(50) == "2.50";
    ParseFormatted(1, 50, '.');
    assert Decimal.Format(1) + ['.'] + Decimal.Format(50) == "1.50";
  }

  /** The cases of the package's own test table. */
  lemma CompareExamples()
    ensures CompareMicroversions("lte", "2.7", "2.50") == Ok(true)
    ensures CompareMicroversions("lte", "1.7", "2.50") == Ok(true)
    ensures CompareMicroversions("lte", "3.7", "2.50") == Ok(false)
    ensures CompareMicroversions("lte", "2.50", "2.50") == Ok(true)
    ensures CompareMicroversions("gte", "2.7", "2.50") == Ok(false)
    ensures CompareMicroversions("gte", "1.50", "2.50") == Ok(false)
    ensures CompareMicroversions("gte", "2.50", "2.50") == Ok(true)
  {
    ParseExamples();
  }
}
