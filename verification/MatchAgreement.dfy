/**
 Exactly which HTTPRoute matches mean to Envoy what they mean to the Gateway API: the translation
 drops the method and the types of queries, and demands repeated entries that the Gateway API
 ignores (pkg/translator/httproute.go).
 */
module MatchAgreement {
  import opened Options
  import opened Text
  import opened RouteMatching

  /** Envoy and the Gateway API agree about every request. */
  ghost predicate AgreeOnAll(re: Regex, m: RouteMatch)
    requires !Rejected(m)
  {
    forall req :: Rooted(req) ==> (EnvoyHolds(re, Translated(m), req) <==> Holds(re, m, req))
  }

  function OtherThan(s: string): (t: string)
    ensures t != s
  {
    s + "x"
  }

  // ---------------------------------------------------------------- The method

  /**
   Nothing else being dropped, the two agree if and only if the match asks for no method or could
   not hold with any.
   */
  lemma AgreesIffMethodIsIdle(re: Regex, m: RouteMatch)
    requires !Rejected(m) && NoQueryTypes(m) && NoRepeats(m)
    ensures AgreeOnAll(re, m) <==> m.method_.None? || forall req :: Rooted(req) ==> !Holds(re, m.(method_ := None), req)
  {
    if m.method_.None? || forall req :: Rooted(req) ==> !Holds(re, m.(method_ := None), req) {
      forall req | Rooted(req)
        ensures EnvoyHolds(re, Translated(m), req) <==> Holds(re, m, req)
      {
        AgreesButForMethod(re, m, req);
        assert m.method_.None? ==> m.(method_ := None) == m;
      }
    } else {
      var req :| Rooted(req) && Holds(re, m.(method_ := None), req);
      var other := req.(method_ := OtherThan(m.method_.value));
      assert Holds(re, m.(method_ := None), other);
      AgreesButForMethod(re, m, other);
      assert Rooted(other) && !Holds(re, m, other);
    }
  }

  // ---------------------------------------------------------------- A request that fits

  /** Entries that compare values literally. */
  predicate Literal(ms: seq<NamedMatch>) {
    forall i :: 0 <= i < |ms| ==> ms[i].kind.GetOr(ExactValue).ExactValue?
  }

  /** The values that the first entry of each name asks for. */
  function Values(ms: seq<NamedMatch>, fold: string -> string): map<string, string> {
    if ms == [] then map[] else Values(ms[1..], fold)[fold(ms[0].name) := ms[0].value]
  }

  lemma {:induction false} FirstEntriesHold(ms: seq<NamedMatch>, fold: string -> string, i: nat)
    requires i < |ms| && !Repeats(ms, fold, i)
    ensures fold(ms[i].name) in Values(ms, fold) && Values(ms, fold)[fold(ms[i].name)] == ms[i].value
  {
    if i > 0 {
      var rest := ms[1..];
      assert fold(ms[0].name) != fold(ms[i].name);
      forall j | 0 <= j < i - 1
        ensures fold(rest[j].name) != fold(rest[i - 1].name)
      {
        assert fold(ms[j + 1].name) != fold(ms[i].name);
      }
      FirstEntriesHold(rest, fold, i - 1);
    }
  }

  function PathFor(p: Option<PathMatch>): string
    requires ProperPath(p)
  {
    if p.None? then "/" else p.value.value.value
  }

  lemma PathForFits(re: Regex, p: Option<PathMatch>)
    requires ProperPath(p)
    ensures PathFor(p) != "" && PathFor(p)[0] == '/' && PathHolds(re, p, PathFor(p))
  {
    if p.Some? && p.value.kind.GetOr(PathPrefix).PathPrefix? {
      var value := p.value.value.value;
      assert Elements(value) <= Split(value);
    }
  }

  /** A request that meets the path and the first entry of every name. */
  function Fitting(m: RouteMatch, verb: string): Request
    requires ProperPath(m.path)
  {
    Request(PathFor(m.path), verb, Values(m.headers, Lower), Values(m.query, Same))
  }

  lemma FittingHolds(re: Regex, m: RouteMatch, verb: string)
    requires ProperPath(m.path) && Literal(m.headers) && Literal(m.query)
    ensures Rooted(Fitting(m, verb)) && Holds(re, m.(method_ := None), Fitting(m, verb))
    ensures m.method_.None? || m.method_.value == verb ==> Holds(re, m, Fitting(m, verb))
  {
    PathForFits(re, m.path);
    var req := Fitting(m, verb);
    forall i: nat | i < |m.headers| && !Repeats(m.headers, Lower, i)
      ensures ValueHolds(re, m.headers[i], Lower(m.headers[i].name), req.headers)
    {
      FirstEntriesHold(m.headers, Lower, i);
    }
    forall i: nat | i < |m.query| && !Repeats(m.query, Same, i)
      ensures ValueHolds(re, m.query[i], Same(m.query[i].name), req.query)
    {
      FirstEntriesHold(m.query, Same, i);
    }
  }

  // ---------------------------------------------------------------- Repeated entries

  /** Entries for one name ask for one value. */
  predicate Harmless(ms: seq<NamedMatch>, fold: string -> string) {
    forall i, j :: 0 <= i < j < |ms| && fold(ms[i].name) == fold(ms[j].name) ==> ms[i].value == ms[j].value
  }

  lemma {:induction false} FirstOfName(ms: seq<NamedMatch>, fold: string -> string, i: nat) returns (j: nat)
    requires i < |ms|
    ensures j <= i && !Repeats(ms, fold, j) && fold(ms[j].name) == fold(ms[i].name)
  {
    if Repeats(ms, fold, i) {
      var k :| 0 <= k < i && fold(ms[k].name) == fold(ms[i].name);
      j := FirstOfName(ms, fold, k);
    } else {
      j := i;
    }
  }

  /** Harmless repetitions hold whenever the first entries do. */
  lemma HarmlessHold(re: Regex, ms: seq<NamedMatch>, fold: string -> string, values: map<string, string>)
    requires Literal(ms) && Harmless(ms, fold) && NamedHold(re, ms, fold, values)
    ensures forall i :: 0 <= i < |ms| ==> ValueHolds(re, ms[i], fold(ms[i].name), values)
  {
    forall i: nat | i < |ms|
      ensures ValueHolds(re, ms[i], fold(ms[i].name), values)
    {
      var j := FirstOfName(ms, fold, i);
      assert ValueHolds(re, ms[j], fold(ms[j].name), values);
    }
  }

  lemma LiteralQueriesHold(re: Regex, ms: seq<NamedMatch>, values: map<string, string>)
    requires Literal(ms) && forall i :: 0 <= i < |ms| ==> ValueHolds(re, ms[i], Same(ms[i].name), values)
    ensures forall i :: 0 <= i < |ms| ==> ms[i].name in values && values[ms[i].name] == ms[i].value
  {
    assert forall i :: 0 <= i < |ms| ==> Same(ms[i].name) == ms[i].name;
  }

  /** Entries that all hold for one request are harmless. */
  lemma HoldingIsHarmless(re: Regex, ms: seq<NamedMatch>, fold: string -> string, values: map<string, string>)
    requires Literal(ms) && forall i :: 0 <= i < |ms| ==> ValueHolds(re, ms[i], fold(ms[i].name), values)
    ensures Harmless(ms, fold)
  {
  }

  lemma EnvoyHoldsIfHarmless(re: Regex, m: RouteMatch, req: Request)
    requires !Rejected(m) && Literal(m.headers) && Literal(m.query) && Rooted(req)
    requires Harmless(m.headers, Lower) && Harmless(m.query, Same)
    ensures EnvoyHolds(re, Translated(m), req) <==> Holds(re, m.(method_ := None), req)
  {
    TranslationIsExact(re, m, req);
    if Holds(re, m.(method_ := None), req) {
      HarmlessHold(re, m.headers, Lower, req.headers);
      HarmlessHold(re, m.query, Same, req.query);
      LiteralQueriesHold(re, m.query, req.query);
    }
  }

  lemma AgreementIsHarmless(re: Regex, m: RouteMatch)
    requires !Rejected(m) && ProperPath(m.path) && Literal(m.headers) && Literal(m.query) && AgreeOnAll(re, m)
    ensures Harmless(m.headers, Lower) && Harmless(m.query, Same)
  {
    var req := Fitting(m, m.method_.GetOr(""));
    FittingHolds(re, m, m.method_.GetOr(""));
    assert EnvoyHolds(re, Translated(m), req);
    TranslationIsExact(re, m, req);
    HoldingIsHarmless(re, m.headers, Lower, req.headers);
    assert forall i :: 0 <= i < |m.query| ==> ValueHolds(re, m.query[i], Same(m.query[i].name), req.query);
    HoldingIsHarmless(re, m.query, Same, req.query);
  }

  /**
   Where values are compared literally, the two agree about every request if and only if the match
   asks for no method and its entries for one name ask for one value.
   */
  lemma AgreesIffHarmless(re: Regex, m: RouteMatch)
    requires !Rejected(m) && ProperPath(m.path) && Literal(m.headers) && Literal(m.query)
    ensures AgreeOnAll(re, m) <==> m.method_.None? && Harmless(m.headers, Lower) && Harmless(m.query, Same)
  {
    if m.method_.None? && Harmless(m.headers, Lower) && Harmless(m.query, Same) {
      forall req | Rooted(req)
        ensures EnvoyHolds(re, Translated(m), req) <==> Holds(re, m, req)
      {
        EnvoyHoldsIfHarmless(re, m, req);
        assert m.(method_ := None) == m;
      }
    }
    if AgreeOnAll(re, m) {
      AgreementIsHarmless(re, m);
      if m.method_.Some? {
        var verb := OtherThan(m.method_.value);
        FittingHolds(re, m, verb);
        EnvoyHoldsIfHarmless(re, m, Fitting(m, verb));
      }
    }
  }

  /** For instance: of two entries for one header Envoy demands both, the Gateway API the first. */
  lemma RepeatedHeaderIsDemanded(re: Regex)
    ensures var m := MATCH_ALL.(headers := [NamedMatch(None, "A", "1"), NamedMatch(None, "a", "2")]);
            var req := Request("/", "GET", map["a" := "1"], map[]);
            !Rejected(m) && Holds(re, m, req) && !EnvoyHolds(re, Translated(m), req)
  {
    var m := MATCH_ALL.(headers := [NamedMatch(None, "A", "1"), NamedMatch(None, "a", "2")]);
    var req := Request("/", "GET", map["a" := "1"], map[]);
    assert Lower("A") == "a" == Lower("a");
    assert "1"[0] != "2"[0];
    TranslationIsExact(re, m, req);
    assert Repeats(m.headers, Lower, 1) by { assert Lower(m.headers[0].name) == Lower(m.headers[1].name); }
  }

  // ---------------------------------------------------------------- Types of queries

  /** The entry matches its own text and nothing else. */
  ghost predicate MatchesItself(re: Regex, q: NamedMatch) {
    match q.kind.GetOr(ExactValue)
    case ExactValue => true
    case ValueRegex => forall v :: re(q.value, v) <==> v == q.value
    case OtherValueType => false
  }

  predicate TypedHolds(re: Regex, q: NamedMatch, v: string) {
    match q.kind.GetOr(ExactValue)
    case ExactValue => v == q.value
    case ValueRegex => re(q.value, v)
    case OtherValueType => false
  }

  /** A request that fits literally, with one query parameter set to `v`. */
  function Varied(m: RouteMatch, i: nat, v: string): Request
    requires ProperPath(m.path) && i < |m.query|
  {
    var req := Fitting(m, "");
    req.(query := req.query[m.query[i].name := v])
  }

  lemma VariedQueries(m: RouteMatch, i: nat, v: string, j: nat)
    requires ProperPath(m.path) && NoRepeats(m) && i < |m.query| && j < |m.query|
    ensures var q := Varied(m, i, v).query;
            m.query[j].name in q && q[m.query[j].name] == if j == i then v else m.query[j].value
  {
    assert !Repeats(m.query, Same, j) && !Repeats(m.query, Same, i);
    FirstEntriesHold(m.query, Same, j);
    assert Same(m.query[j].name) == m.query[j].name && Same(m.query[i].name) == m.query[i].name;
    assert i != j ==> Same(m.query[i].name) != Same(m.query[j].name);
  }

  /** What each side makes of such a request. */
  lemma VariedOutcome(re: Regex, m: RouteMatch, i: nat, v: string)
    requires !Rejected(m) && ProperPath(m.path) && Literal(m.headers) && NoRepeats(m) && m.method_.None?
    requires i < |m.query|
    ensures Rooted(Varied(m, i, v))
    ensures EnvoyHolds(re, Translated(m), Varied(m, i, v)) <==> v == m.query[i].value
    ensures Holds(re, m, Varied(m, i, v)) <==>
              forall j :: 0 <= j < |m.query| ==> TypedHolds(re, m.query[j], if j == i then v else m.query[j].value)
  {
    var req := Varied(m, i, v);
    FittingHolds(re, m.(query := []), "");
    TranslationIsExact(re, m, req);
    forall j: nat | j < |m.query|
      ensures m.query[j].name in req.query && req.query[m.query[j].name] == if j == i then v else m.query[j].value
      ensures !Repeats(m.query, Same, j) && Same(m.query[j].name) == m.query[j].name
    {
      VariedQueries(m, i, v, j);
    }
    assert req.headers == Fitting(m.(query := []), "").headers && req.path == PathFor(m.path);
    assert NamedHold(re, m.headers, Lower, req.headers) && PathHolds(re, m.path, req.path);
  }

  lemma AgreesIfMatchingThemselves(re: Regex, m: RouteMatch, req: Request)
    requires !Rejected(m) && NoRepeats(m) && m.method_.None? && Rooted(req)
    requires forall i :: 0 <= i < |m.query| ==> MatchesItself(re, m.query[i])
    ensures EnvoyHolds(re, Translated(m), req) <==> Holds(re, m, req)
  {
    TranslationIsExact(re, m, req);
    forall i: nat | i < |m.query|
      ensures Same(m.query[i].name) == m.query[i].name && !Repeats(m.query, Same, i)
      ensures ValueHolds(re, m.query[i], m.query[i].name, req.query) <==>
                m.query[i].name in req.query && req.query[m.query[i].name] == m.query[i].value
    {
      assert MatchesItself(re, m.query[i]);
    }
  }

  /** The types of queries do no harm if and only if every pattern matches itself and nothing else. */
  lemma AgreesIffPatternsMatchThemselves(re: Regex, m: RouteMatch)
    requires !Rejected(m) && ProperPath(m.path) && Literal(m.headers) && NoRepeats(m) && m.method_.None?
    ensures AgreeOnAll(re, m) <==> forall i :: 0 <= i < |m.query| ==> MatchesItself(re, m.query[i])
  {
    if forall i :: 0 <= i < |m.query| ==> MatchesItself(re, m.query[i]) {
      forall req | Rooted(req)
        ensures EnvoyHolds(re, Translated(m), req) <==> Holds(re, m, req)
      {
        AgreesIfMatchingThemselves(re, m, req);
      }
    }
    if AgreeOnAll(re, m) {
      forall i: nat | i < |m.query|
        ensures MatchesItself(re, m.query[i])
      {
        AgreementMatchesItself(re, m, i);
      }
    }
  }

  lemma AgreementMatchesItself(re: Regex, m: RouteMatch, i: nat)
    requires !Rejected(m) && ProperPath(m.path) && Literal(m.headers) && NoRepeats(m) && m.method_.None?
    requires i < |m.query| && AgreeOnAll(re, m)
    ensures MatchesItself(re, m.query[i])
  {
    var q := m.query[i];
    VariedOutcome(re, m, i, q.value);
    assert Holds(re, m, Varied(m, i, q.value));
    assert forall j :: 0 <= j < |m.query| ==> TypedHolds(re, m.query[j], m.query[j].value);
    assert TypedHolds(re, q, q.value);
    if q.kind.GetOr(ExactValue).ValueRegex? {
      forall v
        ensures re(q.value, v) <==> v == q.value
      {
        VariedOutcome(re, m, i, v);
        assert EnvoyHolds(re, Translated(m), Varied(m, i, v)) <==> Holds(re, m, Varied(m, i, v));
        assert TypedHolds(re, q, v) <==> re(q.value, v);
      }
    }
  }

  /** For instance: a pattern is compared with the parameter as if it were plain text. */
  lemma TypedQueryIsTakenLiterally(re: Regex, pattern: string, v: string)
    requires re(pattern, v) && v != pattern
    ensures var m := MATCH_ALL.(query := [NamedMatch(Some(ValueRegex), "q", pattern)]);
            var req := Request("/", "GET", map[], map["q" := v]);
            !Rejected(m) && Holds(re, m, req) && !EnvoyHolds(re, Translated(m), req)
  {
    var m := MATCH_ALL.(query := [NamedMatch(Some(ValueRegex), "q", pattern)]);
    TranslationIsExact(re, m, Request("/", "GET", map[], map["q" := v]));
    assert m.query[0].name == "q";
  }
}
