/** The read-only mode: which requests Client.Do lets through. */
module ReadOnlyGate {
  import opened Ascii
  import opened Wrappers

  /** url.Parse: the path component, or None for an error. Any function will do. */
  type UrlParser = string -> Option<string>

  predicate HasScheme(s: string) { "http://" <= s || "https://" <= s }

  function BeforeQuery(s: string): (r: string)
    ensures r <= s && '?' !in r
    ensures '?' !in s ==> r == s
    ensures |r| < |s| ==> s[|r|] == '?'
  {
    if s == "" || s[0] == '?' then "" else [s[0]] + BeforeQuery(s[1..])
  }

  function TrimSlashes(s: string): (r: string)
    ensures r == "" || r[0] != '/'
    ensures s == "" || s[0] != '/' ==> r == s
    ensures |r| <= |s| && s[|s| - |r|..] == r
  {
    if s != "" && s[0] == '/' then TrimSlashes(s[1..]) else s
  }

  /** extractPath. */
  function ExtractPath(raw: string, parse: UrlParser): string {
    var rest := if HasScheme(Lower(raw)) then parse(raw) else Some(raw);
    match rest
    case None => ""
    case Some(p) =>
      var q := Lower(TrimSlashes(BeforeQuery(p)));
      if HasScheme(q) then "" else q
  }

  /** A path as the allowlists are written. */
  predicate Normal(p: string) {
    && '?' !in p && (p == "" || p[0] != '/') && !HasScheme(p)
    && forall i | 0 <= i < |p| :: ToLower(p[i]) == p[i]
  }

  lemma LowerIsNormal(t: string)
    requires '?' !in t && (t == "" || t[0] != '/') && !HasScheme(Lower(t))
    ensures Normal(Lower(t))
  {
    var q := Lower(t);
    assert forall i | 0 <= i < |q| :: q[i] == ToLower(t[i]);
    assert forall c ::
        ToLower(ToLower(c)) == ToLower(c) && (ToLower(c) == '?' ==> c == '?') && (ToLower(c) == '/' ==> c == '/');
  }

  lemma TrimmedHasNoQuery(p: string)
    ensures '?' !in TrimSlashes(BeforeQuery(p))
  {
    var b := BeforeQuery(p);
    var t := TrimSlashes(b);
    assert forall i | 0 <= i < |t| :: t[i] == b[|b| - |t| + i];
  }

  /** Whatever URL parser is used, every extracted path is normal. */
  lemma ExtractedIsNormal(raw: string, parse: UrlParser)
    ensures Normal(ExtractPath(raw, parse))
  {
    var q := ExtractPath(raw, parse);
    if q != "" {
      var rest := if HasScheme(Lower(raw)) then parse(raw) else Some(raw);
      var t := TrimSlashes(BeforeQuery(rest.value));
      TrimmedHasNoQuery(rest.value);
      assert q == Lower(t);
      LowerIsNormal(t);
    }
  }

  /** Normal paths are exactly the ones extraction leaves alone; so extracting
      twice, even with another parser, is extracting once. */
  lemma NormalIsFixed(p: string, parse: UrlParser)
    ensures Normal(p) <==> ExtractPath(p, parse) == p && !HasScheme(Lower(p))
  {
    if Normal(p) {
      assert Lower(p) == p;
    } else if ExtractPath(p, parse) == p {
      ExtractedIsNormal(p, parse);
    }
  }

  lemma ExtractionIsIdempotent(raw: string, first: UrlParser, second: UrlParser)
    ensures ExtractPath(ExtractPath(raw, first), second) == ExtractPath(raw, first)
  {
    ExtractedIsNormal(raw, first);
    NormalIsFixed(ExtractPath(raw, first), second);
  }

  /** What extraction does to a path without a scheme, before its last check. */
  function Stripped(p: string): string { Lower(TrimSlashes(BeforeQuery(p))) }

  lemma StrippedForgetsCase(p: string)
    ensures Stripped(Lower(p)) == Stripped(p)
  {
    LowerBeforeQuery(p);
    LowerTrimmed(BeforeQuery(p));
    LowerTwice(TrimSlashes(BeforeQuery(p)));
  }

  lemma StrippedForgetsSlash(p: string)
    ensures Stripped("/" + p) == Stripped(p)
  {
    assert ("/" + p)[1..] == p && BeforeQuery("/" + p) == "/" + BeforeQuery(p);
    assert ("/" + BeforeQuery(p))[1..] == BeforeQuery(p);
  }

  lemma RelativeIsStripped(p: string, parse: UrlParser)
    requires !HasScheme(Lower(p))
    ensures ExtractPath(p, parse) == if HasScheme(Stripped(p)) then "" else Stripped(p)
  {
  }

  /** Of a relative path extraction forgets the letter case and leading slashes. */
  lemma CaseAndSlashesDoNotMatter(p: string, parse: UrlParser)
    requires !HasScheme(Lower(p))
    ensures ExtractPath(Lower(p), parse) == ExtractPath(p, parse)
    ensures ExtractPath("/" + p, parse) == ExtractPath(p, parse)
  {
    assert !HasScheme(Lower(Lower(p))) by { LowerTwice(p); }
    SlashIsNoScheme(p);
    StrippedForgetsCase(p);
    StrippedForgetsSlash(p);
    RelativeIsStripped(p, parse);
    RelativeIsStripped(Lower(p), parse);
    RelativeIsStripped("/" + p, parse);
  }

  /** Of an absolute URL it takes the path, as the parser reads it. */
  lemma AbsoluteMeansItsPath(raw: string, parse: UrlParser)
    requires HasScheme(Lower(raw))
    ensures parse(raw).None? ==> ExtractPath(raw, parse) == ""
    ensures parse(raw).Some? && !HasScheme(Lower(parse(raw).value)) ==>
              ExtractPath(raw, parse) == ExtractPath(parse(raw).value, parse)
  {
  }

  lemma SlashIsNoScheme(p: string)
    ensures !HasScheme(Lower("/" + p))
  {
    assert Lower("/" + p)[0] == '/';
  }

  lemma LowerTwice(s: string)
    ensures Lower(Lower(s)) == Lower(s)
  {
  }

  lemma {:induction false} LowerBeforeQuery(s: string)
    ensures BeforeQuery(Lower(s)) == Lower(BeforeQuery(s))
  {
    if s != "" && s[0] != '?' {
      LowerBeforeQuery(s[1..]);
      assert Lower(s)[1..] == Lower(s[1..]);
    }
  }

  lemma {:induction false} LowerTrimmed(s: string)
    ensures TrimSlashes(Lower(s)) == Lower(TrimSlashes(s))
  {
    if s != "" && s[0] == '/' {
      LowerTrimmed(s[1..]);
      assert Lower(s)[1..] == Lower(s[1..]);
    }
  }

  // ----- Allowlists

  const POST_ALLOWED: set<string> := {
    "v1/action/query", "v1/action/querymore",
    "commerce/charges/query", "commerce/plans/query", "commerce/plans/list",
    "commerce/purchase-options/list", "commerce/legacy/products/list",
    "v1/orders/preview", "v1/async/orders/preview", "v1/subscriptions/preview"
  }

  /** The pattern ^prefix[^/]+suffix$. */
  predicate OneSegment(p: string, prefix: string, suffix: string) {
    && |p| > |prefix| + |suffix| && prefix <= p && p[|p| - |suffix|..] == suffix
    && '/' !in p[|prefix|..|p| - |suffix|]
  }

  /** What the pattern matches: any one segment, not empty and without a slash,
      between prefix and suffix. */
  lemma OneSegmentExactly(p: string, prefix: string, suffix: string)
    ensures OneSegment(p, prefix, suffix) <==>
            exists segment :: segment != "" && '/' !in segment && p == prefix + segment + suffix
  {
    if OneSegment(p, prefix, suffix) {
      var segment := p[|prefix|..|p| - |suffix|];
      assert p == prefix + segment + suffix;
    }
    forall segment: string | segment != "" && '/' !in segment && p == prefix + segment + suffix
      ensures OneSegment(p, prefix, suffix)
    {
      assert p[|prefix|..|p| - |suffix|] == segment && p[|p| - |suffix|..] == suffix && p[..|prefix|] == prefix;
    }
  }

  predicate MatchesPattern(p: string) {
    || OneSegment(p, "v1/subscriptions/", "/preview")
    || OneSegment(p, "meters/", "/summary")
    || OneSegment(p, "commerce/products/", "")
  }

  /** isReadOnlyAllowed. */
  predicate IsReadOnlyAllowed(verb: string, path: string, parse: UrlParser) {
    var m := Upper(verb);
    if m in {"GET", "HEAD", "OPTIONS"} then true
    else if m == "POST" then
      var p := ExtractPath(path, parse);
      p in POST_ALLOWED || MatchesPattern(p)
    else false
  }

  /** isDataQueryWrite. */
  predicate IsDataQueryWrite(verb: string, path: string, parse: UrlParser) {
    var p := ExtractPath(path, parse);
    var m := Upper(verb);
    (m == "POST" && p == "query/jobs") || (m == "DELETE" && OneSegment(p, "query/jobs/", ""))
  }

  /** The check at the top of Client.Do. */
  predicate Admits(readOnly: bool, allowDataQuery: bool, verb: string, path: string, parse: UrlParser) {
    if readOnly && !IsReadOnlyAllowed(verb, path, parse)
    then allowDataQuery && IsDataQueryWrite(verb, path, parse)
    else true
  }

  lemma SubmitIsNotListed()
    ensures "query/jobs" !in POST_ALLOWED && !MatchesPattern("query/jobs")
  {
    var p := "query/jobs";
    assert p[0] == 'q';
    assert forall a | a in POST_ALLOWED :: a[0] != 'q';
  }

  lemma DataQueryIsNotDefault(verb: string, path: string, parse: UrlParser)
    requires IsDataQueryWrite(verb, path, parse)
    ensures !IsReadOnlyAllowed(verb, path, parse)
  {
    SubmitIsNotListed();
  }

  /** The opt-in widens read-only mode by exactly the Data Query writes, none of
      which it admits otherwise. */
  lemma OptInAddsExactlyDataQuery(verb: string, path: string, parse: UrlParser)
    ensures Admits(true, true, verb, path, parse) <==>
            Admits(true, false, verb, path, parse) || IsDataQueryWrite(verb, path, parse)
    ensures !(Admits(true, false, verb, path, parse) && IsDataQueryWrite(verb, path, parse))
  {
    if IsDataQueryWrite(verb, path, parse) { DataQueryIsNotDefault(verb, path, parse); }
  }

  /** What read-only mode lets through, method by method. */
  lemma ReadOnlyAdmitsExactly(optIn: bool, verb: string, path: string, parse: UrlParser)
    ensures Admits(true, optIn, verb, path, parse) <==>
              match Upper(verb)
              case "GET" => true
              case "HEAD" => true
              case "OPTIONS" => true
              case "POST" => ListedForPost(ExtractPath(path, parse), optIn)
              case "DELETE" => optIn && OneSegment(ExtractPath(path, parse), "query/jobs/", "")
              case _ => false
    ensures Admits(false, optIn, verb, path, parse)
  {
  }

  /** An absolute URL that does not parse is let through for reading methods only. */
  lemma UnparsedIsBlocked(optIn: bool, verb: string, path: string, parse: UrlParser)
    requires HasScheme(Lower(path)) && parse(path).None? && Upper(verb) !in {"GET", "HEAD", "OPTIONS"}
    ensures !Admits(true, optIn, verb, path, parse)
  {
    ReadOnlyAdmitsExactly(optIn, verb, path, parse);
    if ListedForPost("", optIn) { ListedIsNotEmpty("", optIn); }
  }

  predicate ListedForPost(p: string, optIn: bool) {
    p in POST_ALLOWED || MatchesPattern(p) || (optIn && p == "query/jobs")
  }

  lemma ListedIsNotEmpty(p: string, optIn: bool)
    requires ListedForPost(p, optIn)
    ensures p != ""
  {
    assert forall a | a in POST_ALLOWED :: a != "";
  }

  lemma BeforeQueryIgnoresQuery(p: string, query: string)
    ensures BeforeQuery(p + "?" + query) == BeforeQuery(p)
  {
    if p == "" || p[0] == '?' {
      assert (p + "?" + query)[0] == '?';
    } else {
      assert (p + "?" + query)[1..] == p[1..] + "?" + query;
      BeforeQueryIgnoresQuery(p[1..], query);
    }
  }

  lemma PrefixBeforeQuery(scheme: string, p: string, query: string)
    requires '?' !in scheme && scheme <= Lower(p + "?" + query)
    ensures scheme <= Lower(p)
  {
    var l := Lower(p + "?" + query);
    assert forall i | 0 <= i < |p| :: l[i] == Lower(p)[i];
    assert l[|p|] == '?';
    assert forall i | 0 <= i < |scheme| :: l[i] == scheme[i] && l[i] != '?';
  }

  lemma SchemeIsBeforeQuery(p: string, query: string)
    requires HasScheme(Lower(p + "?" + query))
    ensures HasScheme(Lower(p))
  {
    var scheme := if "http://" <= Lower(p + "?" + query) then "http://" else "https://";
    PrefixBeforeQuery(scheme, p, query);
  }

  lemma ExtractionIgnoresQuery(p: string, query: string, parse: UrlParser)
    requires !HasScheme(Lower(p))
    ensures ExtractPath(p + "?" + query, parse) == ExtractPath(p, parse)
  {
    var long := p + "?" + query;
    assert !HasScheme(Lower(long)) by {
      if HasScheme(Lower(long)) { SchemeIsBeforeQuery(p, query); }
    }
    BeforeQueryIgnoresQuery(p, query);
  }

  lemma ExtractedPathDecides(readOnly: bool, optIn: bool, verb: string, p: string, q: string, parse: UrlParser)
    requires ExtractPath(p, parse) == ExtractPath(q, parse)
    ensures Admits(readOnly, optIn, verb, p, parse) == Admits(readOnly, optIn, verb, q, parse)
  {
    assert IsReadOnlyAllowed(verb, p, parse) == IsReadOnlyAllowed(verb, q, parse);
    assert IsDataQueryWrite(verb, p, parse) == IsDataQueryWrite(verb, q, parse);
  }

  /** A relative path is judged without its query string. */
  lemma QueryDoesNotMatter(readOnly: bool, optIn: bool, verb: string, p: string, query: string, parse: UrlParser)
    requires !HasScheme(Lower(p))
    ensures ExtractPath(p + "?" + query, parse) == ExtractPath(p, parse)
    ensures Admits(readOnly, optIn, verb, p + "?" + query, parse) == Admits(readOnly, optIn, verb, p, parse)
  {
    ExtractionIgnoresQuery(p, query, parse);
    ExtractedPathDecides(readOnly, optIn, verb, p + "?" + query, p, parse);
  }
}
