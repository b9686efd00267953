/**
 HTTPRoute matches and the Envoy route matches they become (pkg/translator/httproute.go), each
 with its own meaning, and the order in which Envoy tries them.
 */
module RouteMatching {
  import opened Options
  import opened Text

  // ---------------------------------------------------------------- Gateway API side

  datatype PathType = ExactPath | PathPrefix | PathRegex | OtherPathType

  datatype PathMatch = PathMatch(kind: Option<PathType>, value: Option<string>)

  datatype ValueType = ExactValue | ValueRegex | OtherValueType

  datatype NamedMatch = NamedMatch(kind: Option<ValueType>, name: string, value: string)

  datatype RouteMatch = RouteMatch(path: Option<PathMatch>, headers: seq<NamedMatch>, query: seq<NamedMatch>,
      method_: Option<string>)

  /** What a rule without matches stands for. */
  const MATCH_ALL := RouteMatch(None, [], [], None)

  /** Header names in lower case. */
  datatype Request = Request(path: string, method_: string, headers: map<string, string>, query: map<string, string>)

  /** Request paths start with a slash. */
  predicate Rooted(req: Request) { req.path != "" && req.path[0] == '/' }

  /** Whether a regular expression matches a whole string; its dialect plays no role here. */
  type Regex = (string, string) -> bool

  function LowerChar(c: char): char {
    if 'A' <= c <= 'Z' then (c as int + 32) as char else c
  }

  function Lower(s: string): string { seq(|s|, i requires 0 <= i < |s| => LowerChar(s[i])) }

  /** Lowering leaves no capital, and the letters in their places. */
  lemma LowerHasNoCapitals(s: string, i: nat)
    requires i < |s|
    ensures |Lower(s)| == |s| && !('A' <= Lower(s)[i] <= 'Z')
    ensures Lower(s)[i] == s[i] || ('A' <= s[i] <= 'Z' && Lower(s)[i] as int - 'a' as int == s[i] as int - 'A' as int)
  {
  }

  /** Query parameter names are compared as they are. */
  function Same(s: string): string { s }

  /** The elements of a path prefix; a trailing slash does not count. */
  function Elements(prefix: string): (es: seq<string>)
    ensures es != []
  {
    var es := Split(prefix);
    if |es| > 1 && es[|es| - 1] == "" then es[..|es| - 1] else es
  }

  predicate PathHolds(re: Regex, m: Option<PathMatch>, path: string) {
    match m
    case None => true
    case Some(PathMatch(kind, value)) =>
      value.Some? &&
      match kind.GetOr(PathPrefix)
      case ExactPath => path == value.value
      case PathPrefix => Elements(value.value) <= Split(path)
      case PathRegex => re(value.value, path)
      case OtherPathType => false
  }

  predicate ValueHolds(re: Regex, m: NamedMatch, name: string, values: map<string, string>) {
    name in values &&
    match m.kind.GetOr(ExactValue)
    case ExactValue => values[name] == m.value
    case ValueRegex => re(m.value, values[name])
    case OtherValueType => false
  }

  /** Entry `i` repeats the name of an earlier one; the Gateway API ignores it. */
  predicate Repeats(ms: seq<NamedMatch>, fold: string -> string, i: nat)
    requires i < |ms|
  {
    exists j :: 0 <= j < i && fold(ms[j].name) == fold(ms[i].name)
  }

  predicate NamedHold(re: Regex, ms: seq<NamedMatch>, fold: string -> string, values: map<string, string>) {
    forall i :: 0 <= i < |ms| && !Repeats(ms, fold, i) ==> ValueHolds(re, ms[i], fold(ms[i].name), values)
  }

  /** The Gateway API's meaning of a match. */
  predicate Holds(re: Regex, m: RouteMatch, req: Request) {
    && PathHolds(re, m.path, req.path)
    && (m.method_.Some? ==> m.method_.value == req.method_)
    && NamedHold(re, m.headers, Lower, req.headers)
    && NamedHold(re, m.query, Same, req.query)
  }

  // ---------------------------------------------------------------- Envoy side

  datatype PathSpecifier =
    | Path(path: string)
    | Prefix(prefix: string)
    | PathSeparatedPrefix(prefix: string)
    | SafeRegex(regex: string)

  datatype Matcher = StringIs(name: string, value: string) | RegexIs(name: string, regex: string)

  datatype EnvoyMatch = EnvoyMatch(path: PathSpecifier, headers: seq<Matcher>, query: seq<Matcher>)

  predicate SpecifierHolds(re: Regex, p: PathSpecifier, path: string) {
    match p
    case Path(x) => path == x
    case Prefix(x) => x <= path
    case PathSeparatedPrefix(x) => path == x || x + "/" <= path
    case SafeRegex(x) => re(x, path)
  }

  predicate MatcherHolds(re: Regex, m: Matcher, fold: string -> string, values: map<string, string>) {
    match m
    case StringIs(n, v) => fold(n) in values && values[fold(n)] == v
    case RegexIs(n, v) => fold(n) in values && re(v, values[fold(n)])
  }

  predicate EnvoyHolds(re: Regex, t: EnvoyMatch, req: Request) {
    && SpecifierHolds(re, t.path, req.path)
    && (forall i :: 0 <= i < |t.headers| ==> MatcherHolds(re, t.headers[i], Lower, req.headers))
    && (forall i :: 0 <= i < |t.query| ==> MatcherHolds(re, t.query[i], Same, req.query))
  }

  // ---------------------------------------------------------------- Translation

  predicate PathRejected(p: Option<PathMatch>) {
    p.Some? && (p.value.value.None? || p.value.kind.GetOr(PathPrefix).OtherPathType?)
  }

  predicate HeaderRejected(h: NamedMatch) { h.kind.GetOr(ExactValue).OtherValueType? }

  predicate Rejected(m: RouteMatch) {
    PathRejected(m.path) || exists i :: 0 <= i < |m.headers| && HeaderRejected(m.headers[i])
  }

  /** What is unsupported: a path without a value, and types of path and header matches that are not known. */
  lemma RejectedInWords(m: RouteMatch)
    ensures Rejected(m) <==>
              || (m.path.Some? && (m.path.value.value == None || m.path.value.kind == Some(OtherPathType)))
              || exists h :: h in m.headers && h.kind == Some(OtherValueType)
  {
    if h :| h in m.headers && h.kind == Some(OtherValueType) {
      var i :| 0 <= i < |m.headers| && m.headers[i] == h;
      assert HeaderRejected(m.headers[i]);
    }
    if i :| 0 <= i < |m.headers| && HeaderRejected(m.headers[i]) {
      assert m.headers[i] in m.headers;
    }
  }

  function TrimSlash(s: string): string {
    if s != "" && s[|s| - 1] == '/' then s[..|s| - 1] else s
  }

  function TranslatedPath(p: Option<PathMatch>): PathSpecifier
    requires !PathRejected(p)
  {
    if p.None? then Prefix("/")
    else
      var value := p.value.value.value;
      match p.value.kind.GetOr(PathPrefix)
      case ExactPath => Path(value)
      case PathPrefix => if value == "/" then Prefix("/") else PathSeparatedPrefix(TrimSlash(value))
      case PathRegex => SafeRegex(value)
  }

  function TranslatedHeader(h: NamedMatch): Matcher
    requires !HeaderRejected(h)
  {
    if h.kind.GetOr(ExactValue).ExactValue? then StringIs(h.name, h.value) else RegexIs(h.name, h.value)
  }

  /** The type of a query match is not looked at. */
  function TranslatedQuery(q: NamedMatch): Matcher { StringIs(q.name, q.value) }

  function Translated(m: RouteMatch): EnvoyMatch
    requires !Rejected(m)
  {
    EnvoyMatch(TranslatedPath(m.path),
               seq(|m.headers|, i requires 0 <= i < |m.headers| => TranslatedHeader(m.headers[i])),
               seq(|m.query|, i requires 0 <= i < |m.query| => TranslatedQuery(m.query[i])))
  }

  /** None is the failure condition "UnsupportedValue". */
  method TranslateHTTPRouteMatch(m: RouteMatch) returns (r: Option<EnvoyMatch>)
    ensures r.None? <==> Rejected(m)
    ensures r.Some? ==> r.value == Translated(m)
  {
    var path := Prefix("/");
    if m.path.Some? {
      var kind := m.path.value.kind.GetOr(PathPrefix);
      if m.path.value.value.None? {
        return None;
      }
      var value := m.path.value.value.value;
      match kind {
        case ExactPath => path := Path(value);
        case PathPrefix => path := if value == "/" then Prefix("/") else PathSeparatedPrefix(TrimSlash(value));
        case PathRegex => path := SafeRegex(value);
        case OtherPathType => return None;
      }
    }
    var headers: seq<Matcher> := [];
    for i := 0 to |m.headers|
      invariant |headers| == i
      invariant forall j :: 0 <= j < i ==> !HeaderRejected(m.headers[j]) && headers[j] == TranslatedHeader(m.headers[j])
    {
      if HeaderRejected(m.headers[i]) {
        return None;
      }
      headers := headers + [TranslatedHeader(m.headers[i])];
    }
    var query: seq<Matcher> := [];
    for i := 0 to |m.query|
      invariant |query| == i && forall j :: 0 <= j < i ==> query[j] == TranslatedQuery(m.query[j])
    {
      query := query + [TranslatedQuery(m.query[i])];
    }
    r := Some(EnvoyMatch(path, headers, query));
  }

  // ---------------------------------------------------------------- Paths element by element

  /** Comparing element by element is the same as Envoy's prefix up to a slash, for all strings. */
  lemma {:induction false} ElementwisePrefix(p: string, path: string)
    ensures Split(p) <= Split(path) <==> path == p || p + "/" <= path
  {
    if p == [] {
      assert path != [] && path[0] != '/' ==> Split(path)[0] != [];
    } else if path != [] {
      ElementwisePrefix(p[1..], path[1..]);
      assert p == [p[0]] + p[1..] && path == [path[0]] + path[1..];
      var es, fs := Split(p[1..]), Split(path[1..]);
      assert p + "/" == [p[0]] + (p[1..] + "/");
      if p[0] == path[0] {
        if p[0] == '/' {
          HeadAdded([], es, fs);
        } else {
          HeadsExtended(p[0], es, fs);
        }
      } else {
        assert Split(p)[0] == if p[0] == '/' then [] else [p[0]] + es[0];
        assert Split(path)[0] == if path[0] == '/' then [] else [path[0]] + fs[0];
        assert [p[0]] + es[0] != [path[0]] + fs[0] by { assert ([p[0]] + es[0])[0] == p[0]; }
      }
    } else {
      assert Split(p)[0] != [] || |Split(p)| > 1;
    }
  }

  lemma HeadAdded(e: string, es: seq<string>, fs: seq<string>)
    ensures [e] + es <= [e] + fs <==> es <= fs
  {
    var xs, ys := [e] + es, [e] + fs;
    assert es == xs[1..] && fs == ys[1..];
    if xs <= ys {
      assert forall i :: 0 <= i < |es| ==> es[i] == xs[i + 1] && fs[i] == ys[i + 1];
    }
  }

  lemma HeadsExtended(c: char, es: seq<string>, fs: seq<string>)
    requires es != [] && fs != []
    ensures [[c] + es[0]] + es[1..] <= [[c] + fs[0]] + fs[1..] <==> es <= fs
  {
    var xs, ys := [[c] + es[0]] + es[1..], [[c] + fs[0]] + fs[1..];
    if es <= fs {
      assert forall i :: 0 <= i < |xs| ==> xs[i] == ys[i];
    }
    if xs <= ys {
      assert es[0] == xs[0][1..] && fs[0] == ys[0][1..] && xs[0] == ys[0];
      assert forall i :: 1 <= i < |es| ==> es[i] == xs[i] && fs[i] == ys[i] && xs[i] == ys[i];
    }
  }

  /** Cutting a trailing slash is cutting the trailing empty element. */
  lemma {:induction false} TrimIsElements(p: string)
    requires p != "/"
    ensures Split(TrimSlash(p)) == Elements(p)
  {
    LastElement(p);
    if p != "" && p[|p| - 1] == '/' {
      var q := p[..|p| - 1];
      assert p == q + "/";
      SplitAppendSlash(q);
    }
  }

  lemma {:induction false} SplitAppendSlash(q: string)
    ensures Split(q + "/") == Split(q) + [""]
  {
    if q != "" {
      SplitAppendSlash(q[1..]);
      assert (q + "/")[1..] == q[1..] + "/";
    } else {
      assert (q + "/")[1..] == "";
    }
  }

  /** The last of several elements is empty exactly after a final slash. */
  lemma {:induction false} LastElement(p: string)
    ensures var es := Split(p); |es| > 1 && es[|es| - 1] == "" <==> p != "" && p[|p| - 1] == '/'
  {
    if p != "" {
      LastElement(p[1..]);
      var es := Split(p[1..]);
      assert |p| > 1 ==> p[1..][|p| - 2] == p[|p| - 1];
      assert |p| == 1 ==> es == [[]];
    }
  }

  lemma RootElements()
    ensures Elements("/") == [""] && Join(Elements("/")) == ""
  {
    SplitAppendSlash("");
    assert "" + "/" == "/";
  }

  /** A path match holds in Envoy exactly when it holds in the Gateway API, for every request path. */
  lemma PathsAgree(re: Regex, p: Option<PathMatch>, path: string)
    requires !PathRejected(p) && path != "" && path[0] == '/'
    ensures SpecifierHolds(re, TranslatedPath(p), path) <==> PathHolds(re, p, path)
  {
    if p.Some? && p.value.kind.GetOr(PathPrefix).PathPrefix? {
      var value := p.value.value.value;
      if value == "/" {
        RootElements();
        assert Split(path)[0] == "";
      } else {
        TrimIsElements(value);
        ElementwisePrefix(TrimSlash(value), path);
      }
    }
  }

  // ---------------------------------------------------------------- Matches as a whole

  predicate LiterallyHolds(q: NamedMatch, values: map<string, string>) { q.name in values && values[q.name] == q.value }

  /** Exactly what an emitted match demands: every entry, queries taken literally, no method. */
  lemma TranslationIsExact(re: Regex, m: RouteMatch, req: Request)
    requires !Rejected(m) && Rooted(req)
    ensures EnvoyHolds(re, Translated(m), req) <==>
              && PathHolds(re, m.path, req.path)
              && (forall i :: 0 <= i < |m.headers| ==> ValueHolds(re, m.headers[i], Lower(m.headers[i].name), req.headers))
              && (forall i :: 0 <= i < |m.query| ==> LiterallyHolds(m.query[i], req.query))
  {
    PathsAgree(re, m.path, req.path);
    var t := Translated(m);
    forall i | 0 <= i < |m.headers|
      ensures MatcherHolds(re, t.headers[i], Lower, req.headers) <==>
                ValueHolds(re, m.headers[i], Lower(m.headers[i].name), req.headers)
    {
      assert t.headers[i] == TranslatedHeader(m.headers[i]);
    }
    forall i | 0 <= i < |m.query|
      ensures MatcherHolds(re, t.query[i], Same, req.query) <==>
                m.query[i].name in req.query && req.query[m.query[i].name] == m.query[i].value
    {
      assert t.query[i] == TranslatedQuery(m.query[i]);
    }
  }

  predicate NoQueryTypes(m: RouteMatch) {
    forall i :: 0 <= i < |m.query| ==> m.query[i].kind.GetOr(ExactValue).ExactValue?
  }

  predicate NoRepeats(m: RouteMatch) {
    && (forall i :: 0 <= i < |m.headers| ==> !Repeats(m.headers, Lower, i))
    && (forall i :: 0 <= i < |m.query| ==> !Repeats(m.query, Same, i))
  }

  /** Repeated names can only make Envoy stricter: what it matches, the Gateway API matches too. */
  lemma NeverTooPermissive(re: Regex, m: RouteMatch, req: Request)
    requires !Rejected(m) && NoQueryTypes(m) && Rooted(req)
    ensures EnvoyHolds(re, Translated(m), req) ==> Holds(re, m.(method_ := None), req)
  {
    TranslationIsExact(re, m, req);
  }

  /** Without repeated names and typed queries the two agree, except that the method is ignored. */
  lemma AgreesButForMethod(re: Regex, m: RouteMatch, req: Request)
    requires !Rejected(m) && NoQueryTypes(m) && NoRepeats(m) && Rooted(req)
    ensures EnvoyHolds(re, Translated(m), req) <==> Holds(re, m.(method_ := None), req)
  {
    TranslationIsExact(re, m, req);
  }

  /** A match for POST lets a GET through. */
  lemma MethodIsIgnored(re: Regex)
    ensures var m, req := MATCH_ALL.(method_ := Some("POST")), Request("/", "GET", map[], map[]);
            !Rejected(m) && EnvoyHolds(re, Translated(m), req) && !Holds(re, m, req)
  {
    var m, req := MATCH_ALL.(method_ := Some("POST")), Request("/", "GET", map[], map[]);
    assert |"POST"| != |"GET"|;
    AgreesButForMethod(re, m, req);
  }

  // ---------------------------------------------------------------- Precedence

  const SUBPATHS := "(/.*)?"

  function WithoutBackslashes(s: string): string {
    if s == [] then [] else if s[0] == '\\' then WithoutBackslashes(s[1..]) else [s[0]] + WithoutBackslashes(s[1..])
  }

  function PathMatchValue(t: EnvoyMatch): string {
    match t.path
    case Path(x) => x
    case Prefix(x) => x
    case PathSeparatedPrefix(x) => x
    case SafeRegex(x) =>
      WithoutBackslashes(if |SUBPATHS| <= |x| && x[|x| - |SUBPATHS|..] == SUBPATHS then x[..|x| - |SUBPATHS|] else x)
  }

  predicate IsCatchAll(t: EnvoyMatch) { t.path == Prefix("/") && t.headers == [] && t.query == [] }

  predicate IsExact(t: EnvoyMatch) { t.path.Path? && t.path.path != "" }

  /** The comparison that the routes of a virtual host are sorted with. */
  predicate Before(a: EnvoyMatch, b: EnvoyMatch) {
    if IsCatchAll(a) != IsCatchAll(b) then IsCatchAll(b)
    else if IsExact(a) != IsExact(b) then IsExact(a)
    else if |PathMatchValue(a)| != |PathMatchValue(b)| then |PathMatchValue(a)| > |PathMatchValue(b)|
    else if |a.headers| != |b.headers| then |a.headers| > |b.headers|
    else |a.query| > |b.query|
  }

  /** The comparison is a strict weak order, which is what sorting needs to be meaningful. */
  lemma BeforeIsStrictWeakOrder(a: EnvoyMatch, b: EnvoyMatch, c: EnvoyMatch)
    ensures !Before(a, a)
    ensures Before(a, b) ==> !Before(b, a)
    ensures Before(a, b) && Before(b, c) ==> Before(a, c)
    ensures !Before(a, b) && !Before(b, c) ==> !Before(a, c)
  {
  }

  lemma {:induction false} BackslashesDropped(s: string)
    ensures |WithoutBackslashes(s)| + multiset(s)['\\'] == |s|
  {
    if s != [] {
      BackslashesDropped(s[1..]);
      assert s == [s[0]] + s[1..];
    }
  }

  /** A match for all requests: no path or the prefix "/", no header, no query parameter. */
  ghost predicate Unconditional(m: RouteMatch) {
    && (|| m.path == None
        || m.path == Some(PathMatch(None, Some("/")))
        || m.path == Some(PathMatch(Some(PathPrefix), Some("/"))))
    && m.headers == [] && m.query == []
  }

  /** A regular expression as it is measured: without the ending for sub-paths, backslashes not counted. */
  ghost function RegexLength(x: string): int {
    var y := if |x| >= 6 && x[|x| - 6..] == "(/.*)?" then x[..|x| - 6] else x;
    |y| - multiset(y)['\\']
  }

  /** The length by which paths are compared: no path counts as "/", a final slash of a longer prefix is cut. */
  ghost function MeasuredLength(p: Option<PathMatch>): int
    requires !PathRejected(p)
  {
    if p.None? then 1
    else
      var value := p.value.value.value;
      match p.value.kind
      case Some(ExactPath) => |value|
      case Some(PathRegex) => RegexLength(value)
      case _ => if |value| > 1 && value[|value| - 1] == '/' then |value| - 1 else |value|
  }

  ghost predicate NamesExactPath(p: Option<PathMatch>) {
    p.Some? && p.value.kind == Some(ExactPath) && p.value.value.Some? && p.value.value.value != ""
  }

  lemma RegexMeasured(t: EnvoyMatch)
    requires t.path.SafeRegex?
    ensures |PathMatchValue(t)| == RegexLength(t.path.regex)
  {
    var x := t.path.regex;
    assert SUBPATHS == "(/.*)?" && |SUBPATHS| == 6;
    BackslashesDropped(if |x| >= 6 && x[|x| - 6..] == "(/.*)?" then x[..|x| - 6] else x);
  }

  lemma MeasuredInWords(p: Option<PathMatch>, t: EnvoyMatch)
    requires !PathRejected(p) && t.path == TranslatedPath(p)
    ensures |PathMatchValue(t)| == MeasuredLength(p)
  {
    if t.path.SafeRegex? {
      RegexMeasured(t);
    }
  }

  /**
   Envoy's order of any two translated matches, in terms of the matches: the unconditional one last,
   then exact paths, longer paths, more headers, more query parameters.
   */
  lemma OrderInWords(m: RouteMatch, n: RouteMatch)
    requires !Rejected(m) && !Rejected(n)
    ensures Before(Translated(m), Translated(n)) <==>
              if Unconditional(m) != Unconditional(n) then Unconditional(n)
              else if NamesExactPath(m.path) != NamesExactPath(n.path) then NamesExactPath(m.path)
              else if MeasuredLength(m.path) != MeasuredLength(n.path) then MeasuredLength(m.path) > MeasuredLength(n.path)
              else if |m.headers| != |n.headers| then |m.headers| > |n.headers|
              else |m.query| > |n.query|
  {
    MeasuredInWords(m.path, Translated(m));
    MeasuredInWords(n.path, Translated(n));
    CatchAllInWords(m);
    CatchAllInWords(n);
  }

  lemma CatchAllInWords(m: RouteMatch)
    requires !Rejected(m)
    ensures IsCatchAll(Translated(m)) <==> Unconditional(m)
  {
  }

  predicate NoEmptyElement(path: string) {
    forall i :: 1 <= i < |path| && path[i] == '/' ==> path[i - 1] != '/'
  }

  /** Exact and prefix values as the API admits them. */
  predicate ProperPath(p: Option<PathMatch>) {
    p.None? ||
    (&& p.value.value.Some?
     && (p.value.kind.GetOr(PathPrefix).ExactPath? || p.value.kind.GetOr(PathPrefix).PathPrefix?)
     && "/" <= p.value.value.value
     && NoEmptyElement(p.value.value.value))
  }

  /** How specific the path of a match is: exact ones first, then by the length of the elements. */
  predicate PathIsExact(p: Option<PathMatch>) { p.Some? && p.value.kind.GetOr(PathPrefix).ExactPath? }

  function PathLength(p: Option<PathMatch>): nat
    requires ProperPath(p)
  {
    if p.None? then 0
    else if PathIsExact(p) then |p.value.value.value|
    else |Join(Elements(p.value.value.value))|
  }

  /** More headers, or as many and more query parameters. */
  predicate Outnumbers(m: RouteMatch, n: RouteMatch) {
    if |m.headers| != |n.headers| then |m.headers| > |n.headers| else |m.query| > |n.query|
  }

  /**
   The Gateway API's precedence among matches, as far as it does not depend on age and name: exact
   paths, longer paths, a method, more headers, more query parameters.
   */
  predicate Precedes(m: RouteMatch, n: RouteMatch)
    requires ProperPath(m.path) && ProperPath(n.path)
  {
    if PathIsExact(m.path) != PathIsExact(n.path) then PathIsExact(m.path)
    else if PathLength(m.path) != PathLength(n.path) then PathLength(m.path) > PathLength(n.path)
    else if m.method_.Some? != n.method_.Some? then m.method_.Some?
    else Outnumbers(m, n)
  }

  /** A proper prefix other than "/" keeps at least one character of its first element. */
  lemma PrefixLength(value: string)
    requires "/" < value && NoEmptyElement(value)
    ensures |TrimSlash(value)| == |Join(Elements(value))| > 1
  {
    TrimIsElements(value);
    JoinSplit(TrimSlash(value));
    assert value[1] != '/';
  }

  lemma ProperLengths(p: Option<PathMatch>)
    requires ProperPath(p) && !PathRejected(p)
    ensures var t := TranslatedPath(p);
            && (t.Path? <==> PathIsExact(p))
            && (if t == Prefix("/") then PathLength(p) == 0
                else !t.SafeRegex? && |if t.Path? then t.path else t.prefix| == PathLength(p) > if t.Path? then 0 else 1)
  {
    if p.Some? && !PathIsExact(p) {
      var value := p.value.value.value;
      if value == "/" {
        RootElements();
      } else {
        PrefixLength(value);
      }
    }
  }

  /** The paths alone decide. */
  predicate PathsDecide(m: RouteMatch, n: RouteMatch)
    requires ProperPath(m.path) && ProperPath(n.path)
  {
    PathIsExact(m.path) != PathIsExact(n.path) || PathLength(m.path) != PathLength(n.path)
  }

  /**
   On proper paths Envoy's order of the translations is the Gateway API's order of the matches if
   and only if the paths decide, or both matches or neither ask for a method, or the one with the
   method is also the one with more headers or query parameters.
   */
  lemma OrderIsPrecedence(m: RouteMatch, n: RouteMatch)
    requires !Rejected(m) && ProperPath(m.path) && !Rejected(n) && ProperPath(n.path)
    ensures (Before(Translated(m), Translated(n)) <==> Precedes(m, n)) <==>
              || PathsDecide(m, n)
              || m.method_.Some? == n.method_.Some?
              || (m.method_.Some? <==> Outnumbers(m, n))
  {
    ProperLengths(m.path);
    ProperLengths(n.path);
  }

  /** What Envoy puts first is not preceded by a match that has no method, nor by any if it has one itself. */
  lemma OrderRespectsPrecedence(m: RouteMatch, n: RouteMatch)
    requires !Rejected(m) && ProperPath(m.path) && !Rejected(n) && ProperPath(n.path)
    requires !Before(Translated(n), Translated(m)) && (m.method_.Some? || n.method_.None?)
    ensures !Precedes(n, m)
  {
    ProperLengths(m.path);
    ProperLengths(n.path);
  }

  /** A match for GET goes before one for a header, but Envoy tries the header's first. */
  lemma HeaderGoesBeforeMethod(re: Regex)
    ensures var m, n := MATCH_ALL.(method_ := Some("GET")), MATCH_ALL.(headers := [NamedMatch(None, "a", "1")]);
            var req := Request("/", "GET", map["a" := "1"], map[]);
            && !Rejected(m) && !Rejected(n) && Holds(re, m, req) && Holds(re, n, req)
            && Precedes(m, n) && Before(Translated(n), Translated(m))
  {
    var m, n := MATCH_ALL.(method_ := Some("GET")), MATCH_ALL.(headers := [NamedMatch(None, "a", "1")]);
    assert Lower("a") == "a";
    OrderIsPrecedence(n, m);
  }
}
