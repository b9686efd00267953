/**
 SPIFFE identities of Kubernetes service accounts: the URI the signer puts into a certificate
 (pkg/infra/agentidentity/agenticidentitysigner/agenticidentitysigner.go) and the principal a
 ServiceAccount rule compiles to (pkg/translator/accesspolicy.go).
 */
module Spiffe {
  import opened Text

  /** The principal a ServiceAccount rule compiles to. */
  function PrincipalName(trustDomain: string, ns: string, sa: string): string {
    "spiffe://" + trustDomain + "/ns/" + ns + "/sa/" + sa
  }

  // ---------------------------------------------------------------- Go's path.Join

  /** The elements that lexical cleaning leaves, given those kept so far. */
  function Cleaned(rooted: bool, es: seq<string>, kept: seq<string>): seq<string>
    decreases |es|
  {
    if es == [] then kept
    else if es[0] == "" || es[0] == "." then Cleaned(rooted, es[1..], kept)
    else if es[0] != ".." then Cleaned(rooted, es[1..], kept + [es[0]])
    else if kept != [] && kept[|kept| - 1] != ".." then Cleaned(rooted, es[1..], kept[..|kept| - 1])
    else if rooted then Cleaned(rooted, es[1..], kept)
    else Cleaned(rooted, es[1..], kept + [".."])
  }

  function Clean(s: string): string {
    if s == "" then "."
    else if s[0] == '/' then "/" + Join(Cleaned(true, Split(s), []))
    else
      var es := Cleaned(false, Split(s), []);
      if es == [] then "." else Join(es)
  }

  /** Leading empty elements vanish, the others are separated by slashes. */
  function Raw(es: seq<string>): string {
    if es == [] then "" else if es[0] == "" then Raw(es[1..]) else Join(es)
  }

  function PathJoin(es: seq<string>): string {
    var raw := Raw(es);
    if raw == "" then "" else Clean(raw)
  }

  // ---------------------------------------------------------------- Go's url.URL

  predicate Unreserved(c: char) {
    'a' <= c <= 'z' || 'A' <= c <= 'Z' || '0' <= c <= '9' || c == '-' || c == '_' || c == '.' || c == '~'
  }

  function Hex(n: nat): char
    requires n < 16
  {
    "0123456789ABCDEF"[n]
  }

  /** Percent-encoding of a byte. */
  function Percent(c: char): string {
    var n := c as int % 256;
    ['%', Hex(n / 16), Hex(n % 16)]
  }

  /** Percent-encoding of everything that is neither unreserved nor in `safe`. */
  function Escape(s: string, safe: string): string {
    if s == [] then [] else (if Unreserved(s[0]) || s[0] in safe then [s[0]] else Percent(s[0])) + Escape(s[1..], safe)
  }

  const SAFE_IN_HOST := "!$&'()*+,;=:[]<>\""
  const SAFE_IN_PATH := "$&+,/:;=@"

  /** Printing of a URL with a scheme, a host and a path. */
  function UrlString(scheme: string, host: string, path: string): string
    requires scheme != ""
  {
    var authority := if host != "" || path != "" then "//" + Escape(host, SAFE_IN_HOST) else "";
    var slash := if path != "" && path[0] != '/' && host != "" then "/" else "";
    scheme + ":" + authority + slash + if path == "*" then path else Escape(path, SAFE_IN_PATH)
  }

  /** The URI in the certificate of a service account. */
  function SignedUri(trustDomain: string, ns: string, sa: string): string {
    UrlString("spiffe", trustDomain, PathJoin(["ns", ns, "sa", sa]))
  }

  // ---------------------------------------------------------------- Names the API server accepts

  predicate Alphanumeric(c: char) { 'a' <= c <= 'z' || '0' <= c <= '9' }

  /** Lower-case letters, digits, '-' and '.', starting with a letter or digit: what all DNS names share. */
  predicate DnsName(s: string) {
    && s != "" && Alphanumeric(s[0])
    && forall i :: 0 <= i < |s| ==> Alphanumeric(s[i]) || s[i] == '-' || s[i] == '.'
  }

  predicate TrustDomain(s: string) { forall i :: 0 <= i < |s| ==> Unreserved(s[i]) }

  // ---------------------------------------------------------------- Agreement

  lemma {:induction false} NothingToEscape(s: string, safe: string)
    requires forall i :: 0 <= i < |s| ==> Unreserved(s[i]) || s[i] in safe
    ensures Escape(s, safe) == s
  {
    if s != [] {
      NothingToEscape(s[1..], safe);
      assert s == [s[0]] + s[1..];
    }
  }

  predicate Ordinary(e: string) { e != "" && e != "." && e != ".." && '/' !in e }

  lemma {:induction false} NothingToClean(rooted: bool, es: seq<string>, kept: seq<string>)
    requires forall i :: 0 <= i < |es| ==> Ordinary(es[i])
    ensures Cleaned(rooted, es, kept) == kept + es
    decreases |es|
  {
    if es != [] {
      NothingToClean(rooted, es[1..], kept + [es[0]]);
      assert es == [es[0]] + es[1..];
    }
  }

  lemma DnsNamesAreOrdinary(s: string)
    requires DnsName(s)
    ensures Ordinary(s)
  {
    assert s[0] != '.';
  }

  lemma {:induction false} OrdinaryPath(es: seq<string>)
    requires es != [] && forall i :: 0 <= i < |es| ==> Ordinary(es[i])
    ensures PathJoin(es) == Join(es) != "" && Join(es)[0] != '/'
  {
    var s := Join(es);
    assert s[0] == es[0][0];
    SplitJoin(es);
    NothingToClean(false, es, []);
    assert [] + es == es;
  }

  function AccountPath(ns: string, sa: string): string { "ns/" + ns + "/sa/" + sa }

  lemma AccountPathJoins(ns: string, sa: string)
    ensures Join(["ns", ns, "sa", sa]) == AccountPath(ns, sa)
  {
    var es := ["ns", ns, "sa", sa];
    assert es[1..] == [ns, "sa", sa];
    assert [ns, "sa", sa][1..] == ["sa", sa];
    assert ["sa", sa][1..] == [sa];
    assert Join(["sa", sa]) == "sa/" + sa;
    assert Join([ns, "sa", sa]) == ns + "/sa/" + sa;
  }

  lemma PathNeedsNoEscape(ns: string, sa: string)
    requires DnsName(ns) && DnsName(sa)
    ensures Escape(AccountPath(ns, sa), SAFE_IN_PATH) == AccountPath(ns, sa)
  {
    assert '/' in SAFE_IN_PATH by { assert SAFE_IN_PATH[4] == '/'; }
    NothingToEscape(AccountPath(ns, sa), SAFE_IN_PATH);
  }

  lemma SignedPath(ns: string, sa: string)
    requires DnsName(ns) && DnsName(sa)
    ensures PathJoin(["ns", ns, "sa", sa]) == AccountPath(ns, sa)
    ensures Escape(AccountPath(ns, sa), SAFE_IN_PATH) == AccountPath(ns, sa)
  {
    DnsNamesAreOrdinary(ns);
    DnsNamesAreOrdinary(sa);
    OrdinaryPath(["ns", ns, "sa", sa]);
    AccountPathJoins(ns, sa);
    PathNeedsNoEscape(ns, sa);
  }

  lemma PrincipalOfPath(trustDomain: string, ns: string, sa: string)
    ensures PrincipalName(trustDomain, ns, sa) == "spiffe://" + (trustDomain + ("/" + AccountPath(ns, sa)))
  {
    assert "/" + AccountPath(ns, sa) == "/ns/" + ns + "/sa/" + sa;
  }

  lemma PlainUrl(host: string, path: string)
    requires path != "" && path != "*" && path[0] != '/'
    requires Escape(host, SAFE_IN_HOST) == host && Escape(path, SAFE_IN_PATH) == path
    ensures UrlString("spiffe", host, path) == "spiffe://" + (host + if host == "" then path else "/" + path)
  {
  }

  /**
   The signer and the access-policy compiler agree on the identity of every service account
   exactly when a trust domain is configured.
   */
  lemma SignerAndCompilerAgree(trustDomain: string, ns: string, sa: string)
    requires TrustDomain(trustDomain) && DnsName(ns) && DnsName(sa)
    ensures SignedUri(trustDomain, ns, sa) == PrincipalName(trustDomain, ns, sa) <==> trustDomain != ""
  {
    SignedPath(ns, sa);
    NothingToEscape(trustDomain, SAFE_IN_HOST);
    var path := AccountPath(ns, sa);
    assert path[0] == 'n' && |path| > 1;
    PlainUrl(trustDomain, path);
    PrincipalOfPath(trustDomain, ns, sa);
    assert |"/" + path| != |path|;
    assert |PrincipalName(trustDomain, ns, sa)| == |"spiffe://"| + |trustDomain| + |path| + 1;
  }

  lemma SchemeSplits(rest: string)
    ensures "spiffe:" + "/" + ("" + "/" + rest) == "spiffe://" + rest
  {
  }

  lemma PrincipalElements(trustDomain: string, ns: string, sa: string)
    requires '/' !in trustDomain && '/' !in ns && '/' !in sa
    ensures Split(PrincipalName(trustDomain, ns, sa)) == ["spiffe:", "", trustDomain, "ns", ns, "sa", sa]
  {
    var path := AccountPath(ns, sa);
    AccountPathJoins(ns, sa);
    SplitJoin(["ns", ns, "sa", sa]);
    SplitFirst(trustDomain, path);
    SplitFirst("", trustDomain + "/" + path);
    SplitFirst("spiffe:", "" + "/" + (trustDomain + "/" + path));
    PrincipalOfPath(trustDomain, ns, sa);
    SchemeSplits(trustDomain + "/" + path);
    assert trustDomain + ("/" + path) == trustDomain + "/" + path;
  }

  /** The printing is injective, so no two accounts share an identity. */
  lemma PrincipalsAreInjective(d: string, ns: string, sa: string, d': string, ns': string, sa': string)
    requires '/' !in d && '/' !in ns && '/' !in sa && '/' !in d' && '/' !in ns' && '/' !in sa'
    requires PrincipalName(d, ns, sa) == PrincipalName(d', ns', sa')
    ensures d == d' && ns == ns' && sa == sa'
  {
    PrincipalElements(d, ns, sa);
    PrincipalElements(d', ns', sa');
    var es := Split(PrincipalName(d, ns, sa));
    assert es[2] == d && es[4] == ns && es[6] == sa;
  }
}
