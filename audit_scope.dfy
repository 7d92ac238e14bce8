/**
 * The scope rules of the security-audit planner
 * (`intelligence/app/main.py`, class `TargetScope`): domain normalisation,
 * the scope check for domain targets, and the pattern every allowed domain
 * must match before an audit starts.
 *
 * Whether a string is an IP address and whether an address lies in the
 * allowed networks are answered by `IpOracle` (Python's `ipaddress`).
 */
module AuditScope {
  import opened Strings

  /** `ipaddress.ip_address(t)` succeeds; `ip in network` for one of `ranges`. */
  datatype IpOracle = IpOracle(isAddress: string -> bool, inRanges: (string, seq<string>) -> bool)

  /** A scope after `from_dict`: the domains are normalised, the networks kept as given. */
  datatype TargetScope = TargetScope(allowedDomains: seq<string>, allowedIpRanges: seq<string>)

  /** `re.sub(r'^https?://', '', d)`: one scheme at the start is removed. */
  function StripScheme(d: string): (r: string)
    ensures r == d || ("http://" <= d && r == d[7..]) || ("https://" <= d && r == d[8..])
  {
    if "https://" <= d then d[8..] else if "http://" <= d then d[7..] else d
  }

  /** `re.sub(r'^www\.', '', d)`: one `www.` at the start is removed. */
  function StripWww(d: string): (r: string)
    ensures r == d || ("www." <= d && r == d[4..])
  {
    if "www." <= d then d[4..] else d
  }

  /** `d.lstrip('/')`. */
  function StripLeadingSlashes(d: string): string {
    if d != [] && d[0] == '/' then StripLeadingSlashes(d[1..]) else d
  }

  /** `d.rstrip('/')`. */
  function StripTrailingSlashes(d: string): string {
    if d != [] && d[|d| - 1] == '/' then StripTrailingSlashes(d[..|d| - 1]) else d
  }

  /** `_normalize_domain`, lines 69-74. */
  function Normalize(domain: string): string {
    StripTrailingSlashes(StripLeadingSlashes(StripWww(StripScheme(AsciiLower(domain)))))
  }

  lemma {:induction false} LeadingSlashesStripped(d: string)
    ensures var r := StripLeadingSlashes(d);
      (r == [] || r[0] != '/') && |r| <= |d| && (r != [] ==> r[|r| - 1] == d[|d| - 1])
  {
    if d != [] && d[0] == '/' {
      LeadingSlashesStripped(d[1..]);
    }
  }

  lemma {:induction false} TrailingSlashesStripped(d: string)
    ensures var r := StripTrailingSlashes(d);
      (r == [] || r[|r| - 1] != '/') && |r| <= |d| && (r != [] ==> r[0] == d[0])
  {
    if d != [] && d[|d| - 1] == '/' {
      TrailingSlashesStripped(d[..|d| - 1]);
    }
  }

  /** A normalised domain never starts or ends with `/`. */
  lemma NormalizedHasNoOuterSlash(domain: string)
    ensures var r := Normalize(domain); r == [] || (r[0] != '/' && r[|r| - 1] != '/')
  {
    var l := StripLeadingSlashes(StripWww(StripScheme(AsciiLower(domain))));
    LeadingSlashesStripped(StripWww(StripScheme(AsciiLower(domain))));
    TrailingSlashesStripped(l);
  }

  lemma AsciiLowerOfLower(s: string)
    requires forall i :: 0 <= i < |s| ==> !('A' <= s[i] <= 'Z')
    ensures AsciiLower(s) == s
  {
    AsciiLowerChars(s);
  }

  lemma NotPrefix(p: string, s: string)
    requires p != [] && s != [] && p[0] != s[0]
    ensures !(p <= s)
  {
  }

  lemma NotPrefixAt(p: string, s: string, k: nat)
    requires k < |p| && k < |s| && p[k] != s[k]
    ensures !(p <= s)
  {
  }

  /** A name that is lower case and has no scheme, no `www.`-like start and no outer slash. */
  predicate Plain(d: string) {
    d != [] && d[0] != 'h' && d[0] != '/' && d[|d| - 1] != '/' && forall i :: 0 <= i < |d| ==> !('A' <= d[i] <= 'Z')
  }

  /** Normalising a plain name that does not start with `w` changes nothing. */
  lemma NormalizePlain(d: string)
    requires Plain(d) && d[0] != 'w'
    ensures Normalize(d) == d
  {
    AsciiLowerOfLower(d);
    NotPrefix("https://", d);
    NotPrefix("http://", d);
    assert StripScheme(AsciiLower(d)) == d;
    NotPrefix("www.", d);
    assert StripWww(d) == d;
    assert StripLeadingSlashes(d) == d;
    assert StripTrailingSlashes(d) == d;
  }

  /**
   * Exactly one `www.` is removed, whatever follows it: `www.www.a`
   * normalises to `www.a`, which normalises again to `a`, so normalising
   * is not idempotent.
   */
  lemma NormalizeStripsOneWww(d: string)
    requires Plain(d)
    ensures Normalize("www." + d) == d
  {
    var w := "www." + d;
    NoUpperConcat("www.", d);
    AsciiLowerOfLower(w);
    NotPrefix("https://", w);
    NotPrefix("http://", w);
    assert StripScheme(AsciiLower(w)) == w;
    assert w[..4] == "www." && w[4..] == d;
    assert StripWww(w) == d;
    assert StripLeadingSlashes(d) == d;
    assert StripTrailingSlashes(d) == d;
  }

  /** One scheme is removed and then one `www.`: `https://www.x` and `http://www.x` name `x`. */
  lemma NormalizeStripsScheme(scheme: string, d: string)
    requires scheme == "https://" || scheme == "http://"
    requires Plain(d)
    ensures Normalize(scheme + ("www." + d)) == d
  {
    NoUpperConcat("www.", d);
    SchemeIgnored(scheme, "www." + d);
    NormalizeStripsOneWww(d);
  }

  /** A scheme in front of a lower-case name that does not start with `h` is dropped before anything else happens. */
  lemma SchemeIgnored(scheme: string, v: string)
    requires scheme == "https://" || scheme == "http://"
    requires v != [] && v[0] != 'h' && forall i :: 0 <= i < |v| ==> !('A' <= v[i] <= 'Z')
    ensures Normalize(scheme + v) == Normalize(v)
  {
    var w := scheme + v;
    NoUpperConcat(scheme, v);
    AsciiLowerOfLower(w);
    AsciiLowerOfLower(v);
    StripSchemeOf(scheme, v);
    NotPrefix("https://", v);
    NotPrefix("http://", v);
    assert StripScheme(AsciiLower(w)) == StripScheme(AsciiLower(v));
  }

  lemma NoUpperConcat(a: string, b: string)
    requires forall i :: 0 <= i < |a| ==> !('A' <= a[i] <= 'Z')
    requires forall i :: 0 <= i < |b| ==> !('A' <= b[i] <= 'Z')
    ensures forall i :: 0 <= i < |a + b| ==> !('A' <= (a + b)[i] <= 'Z')
  {
    forall i | |a| <= i < |a + b| ensures (a + b)[i] == b[i - |a|] { }
  }

  lemma StripSchemeOf(scheme: string, rest: string)
    requires scheme == "https://" || scheme == "http://"
    ensures StripScheme(scheme + rest) == rest
  {
    var w := scheme + rest;
    if scheme == "https://" {
      assert w[..8] == scheme && w[8..] == rest;
    } else {
      NotPrefixAt("https://", w, 4);
      assert w[..7] == scheme && w[7..] == rest;
    }
  }

  /** A scheme in front of a plain name is removed: `http://a.com` names `a.com`. */
  lemma NormalizeStripsSchemeOnly(scheme: string, d: string)
    requires scheme == "https://" || scheme == "http://"
    requires Plain(d) && d[0] != 'w'
    ensures Normalize(scheme + d) == d
  {
    SchemeIgnored(scheme, d);
    NormalizePlain(d);
  }

  lemma AsciiLowerIdempotent(s: string)
    ensures AsciiLower(AsciiLower(s)) == AsciiLower(s)
  {
    AsciiLowerChars(s);
    AsciiLowerChars(AsciiLower(s));
  }

  /** Case does not matter: a name and its lower-case form normalise alike. */
  lemma NormalizeIgnoresCase(d: string)
    ensures Normalize(AsciiLower(d)) == Normalize(d)
  {
    AsciiLowerIdempotent(d);
  }

  /** One allowed domain admits the target: exactly it, or a subdomain of it. */
  predicate DomainAdmits(allowed: string, target: string) {
    target == allowed || EndsWith(target, "." + allowed)
  }

  /** Python's `any(...)` over the allowed domains, lines 90-94. */
  predicate AnyDomainAdmits(domains: seq<string>, target: string) {
    domains != [] && (DomainAdmits(domains[0], target) || AnyDomainAdmits(domains[1..], target))
  }

  lemma {:induction false} AnyDomainAdmitsIff(domains: seq<string>, target: string)
    ensures AnyDomainAdmits(domains, target) <==> exists d :: d in domains && DomainAdmits(d, target)
    decreases |domains|
  {
    if domains != [] {
      AnyDomainAdmitsIff(domains[1..], target);
      if !DomainAdmits(domains[0], target) {
        forall d | d in domains && DomainAdmits(d, target) ensures d in domains[1..] {
          assert d != domains[0];
        }
      }
    }
  }

  /** `TargetScope.from_dict`: the raw domain list, normalised one by one. */
  function FromDict(domains: seq<string>, ranges: seq<string>): (s: TargetScope)
    ensures |s.allowedDomains| == |domains| && s.allowedIpRanges == ranges
    ensures forall i :: 0 <= i < |domains| ==> s.allowedDomains[i] == Normalize(domains[i])
  {
    TargetScope(NormalizeAll(domains), ranges)
  }

  function NormalizeAll(domains: seq<string>): (r: seq<string>)
    ensures |r| == |domains|
    ensures forall i :: 0 <= i < |domains| ==> r[i] == Normalize(domains[i])
  {
    if domains == [] then [] else [Normalize(domains[0])] + NormalizeAll(domains[1..])
  }

  /** `is_target_allowed`, lines 76-97: the target is normalised, then checked as an address or as a domain. */
  predicate IsTargetAllowed(scope: TargetScope, target: string, ip: IpOracle) {
    var t := Normalize(target);
    if ip.isAddress(t) then ip.inRanges(t, scope.allowedIpRanges)
    else AnyDomainAdmits(scope.allowedDomains, t)
  }

  /**
   * A target that is not an address is allowed exactly when its normalised
   * form equals an allowed domain or ends with `.` followed by one.
   */
  lemma DomainTargetAllowedIff(scope: TargetScope, target: string, ip: IpOracle)
    requires !ip.isAddress(Normalize(target))
    ensures IsTargetAllowed(scope, target, ip) <==>
      exists d :: d in scope.allowedDomains && (Normalize(target) == d || EndsWith(Normalize(target), "." + d))
  {
    AnyDomainAdmitsIff(scope.allowedDomains, Normalize(target));
  }

  /** With no allowed domains no domain target is allowed. */
  lemma NoDomainsRejectAll(scope: TargetScope, target: string, ip: IpOracle)
    requires scope.allowedDomains == [] && !ip.isAddress(Normalize(target))
    ensures !IsTargetAllowed(scope, target, ip)
  {
  }

  /**
   * The suffix test needs the dot: with `example.com` allowed,
   * `badexample.com` (any name that ends with the allowed name's letters
   * without a `.` before them) is not in scope.
   */
  lemma SuffixNeedsDot(scope: TargetScope, target: string, p: string, d: string, ip: IpOracle)
    requires scope.allowedDomains == [d] && Normalize(target) == p + d && !ip.isAddress(Normalize(target))
    requires p != [] && p[|p| - 1] != '.'
    ensures !IsTargetAllowed(scope, target, ip)
  {
    NotAdmittedWithoutDot(Normalize(target), p, d);
  }

  lemma NotAdmittedWithoutDot(t: string, p: string, d: string)
    requires t == p + d && p != [] && p[|p| - 1] != '.'
    ensures !AnyDomainAdmits([d], t)
  {
    var dotted := "." + d;
    assert |dotted| <= |t| ==> t[|t| - |dotted|..][0] == p[|p| - 1] != dotted[0];
    assert [d][1..] == [];
  }

  /** A subdomain of an allowed domain is allowed. */
  lemma SubdomainAllowed(scope: TargetScope, target: string, sub: string, d: string, ip: IpOracle)
    requires d in scope.allowedDomains && Normalize(target) == sub + "." + d && !ip.isAddress(Normalize(target))
    ensures IsTargetAllowed(scope, target, ip)
  {
    AdmitsSubdomain(scope.allowedDomains, Normalize(target), sub, d);
  }

  lemma AdmitsSubdomain(domains: seq<string>, t: string, sub: string, d: string)
    requires d in domains && t == sub + "." + d
    ensures AnyDomainAdmits(domains, t)
  {
    assert EndsWith(t, "." + d) by {
      assert t == sub + ("." + d);
      EndsWithConcat(sub, "." + d);
    }
    AnyDomainAdmitsIff(domains, t);
  }

  // ---------------------------------------------------------------------
  // The allowed-domain pattern, line 308
  // ---------------------------------------------------------------------

  predicate IsAsciiAlnum(c: char) {
    ('a' <= c <= 'z') || ('A' <= c <= 'Z') || ('0' <= c <= '9')
  }

  /** The class `[a-zA-Z0-9-_.]`: letters, digits, `-`, `_` and `.`. */
  predicate IsDomainChar(c: char) {
    IsAsciiAlnum(c) || c == '-' || c == '_' || c == '.'
  }

  /** The whole of `s` matches `[a-zA-Z0-9][a-zA-Z0-9-_.]*[a-zA-Z0-9]`. */
  predicate MatchesDomainBody(s: string) {
    |s| >= 2 && IsAsciiAlnum(s[0]) && IsAsciiAlnum(s[|s| - 1]) && forall i :: 1 <= i < |s| - 1 ==> IsDomainChar(s[i])
  }

  /**
   * `re.match(r'^[a-zA-Z0-9][a-zA-Z0-9-_.]*[a-zA-Z0-9]$', d)`: Python's `$`
   * also matches just before a final newline.
   */
  predicate DomainPatternMatches(d: string) {
    MatchesDomainBody(d) || (d != [] && d[|d| - 1] == '\n' && MatchesDomainBody(d[..|d| - 1]))
  }

  /** The pattern needs two characters at least: one-character domains are rejected. */
  lemma ShortDomainsRejected(d: string)
    requires |d| <= 1
    ensures !DomainPatternMatches(d)
  {
  }

  /**
   * A domain followed by one newline passes the pattern exactly when the
   * domain itself matches the body of the pattern; a second newline is
   * refused.
   */
  lemma TrailingNewlineAccepted(d: string)
    ensures DomainPatternMatches(d + "\n") <==> MatchesDomainBody(d)
  {
    assert (d + "\n")[..|d|] == d;
  }
}
