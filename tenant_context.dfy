/** Tenant resolution: a slug is taken from the `X-Tenant-ID` header, else
    from a `/t/<slug>` or `/tenant/<slug>` path prefix, else from the first
    label of the host name; it is then trimmed, lower-cased and looked up in
    the tenant directory. */
module TenantContext {
  import opened Common
  import opened Text
  import opened Seqs
  import opened TenantModel
  import opened Store
  import opened Http

  /** `[a-z0-9-]` under the regular expression's case-insensitive flag. */
  predicate IsSlugChar(c: char) {
    'a' <= c <= 'z' || 'A' <= c <= 'Z' || '0' <= c <= '9' || c == '-'
  }

  predicate IsSlug(s: string) {
    s != [] && forall k :: 0 <= k < |s| ==> IsSlugChar(s[k])
  }

  /** Length of the maximal run of slug characters at the start of `s`. */
  function SlugRun(s: string): (n: nat)
    ensures n <= |s|
    ensures forall k :: 0 <= k < n ==> IsSlugChar(s[k])
    ensures n < |s| ==> !IsSlugChar(s[n])
  {
    if s != [] && IsSlugChar(s[0]) then 1 + SlugRun(s[1..]) else 0
  }

  /** `t` or `tenant`, in any letter case. */
  predicate IsPrefixWord(w: string) {
    Lower(w) == "t" || Lower(w) == "tenant"
  }

  /** Where the slug starts when the path begins with `/t/` or `/tenant/`. */
  function PrefixEnd(path: string): (r: Option<nat>)
    ensures r.Some? ==> r.value <= |path| && (r.value == 3 || r.value == 8)
  {
    if |path| >= 3 && path[0] == '/' && IsPrefixWord(path[1..2]) && path[2] == '/' then Some(3)
    else if |path| >= 8 && path[0] == '/' && IsPrefixWord(path[1..7]) && path[7] == '/' then Some(8)
    else None
  }

  /** The slug that `/^\/(t|tenant)\/([a-z0-9-]+)(\/|$)/i` captures: the
      maximal run of slug characters after the prefix, which must be
      non-empty and followed by `/` or the end of the path. */
  function PathSlug(path: string): (r: Option<string>)
    ensures r.Some? ==> IsSlug(r.value)
  {
    match PrefixEnd(path)
    case None => None
    case Some(start) =>
      var rest := path[start..];
      var n := SlugRun(rest);
      if n > 0 && (n == |rest| || rest[n] == '/') then Some(rest[..n]) else None
  }

  /** What may follow the slug: nothing, or a further path segment. */
  predicate EndsSlug(rest: string) {
    rest == [] || rest[0] == '/'
  }

  lemma {:induction false} SlugRunOf(s: string, rest: string)
    requires IsSlug(s) && EndsSlug(rest)
    ensures SlugRun(s + rest) == |s|
  {
    var p := s + rest;
    assert p[0] == s[0] && IsSlugChar(s[0]);
    assert SlugRun(p) == 1 + SlugRun(p[1..]);
    if |s| > 1 {
      assert p[1..] == s[1..] + rest;
      assert IsSlug(s[1..]) by {
        forall k | 0 <= k < |s[1..]| ensures IsSlugChar(s[1..][k]) {
          assert s[1..][k] == s[k + 1];
        }
      }
      SlugRunOf(s[1..], rest);
    } else {
      assert p[1..] == rest;
      assert SlugRun(rest) == 0;
    }
  }

  /** Every path of the form `/<t|tenant>/<slug>` followed by nothing or by
      `/...` yields exactly that slug. */
  lemma PathSlugComplete(w: string, s: string, rest: string)
    requires IsPrefixWord(w) && IsSlug(s) && EndsSlug(rest)
    ensures PathSlug("/" + w + "/" + s + rest) == Some(s)
  {
    var a, q := "/" + w + "/", s + rest;
    assert "/" + w + "/" + s + rest == a + q;
    PrefixEndOf(w, q);
    assert (a + q)[|a|..] == q;
    SlugRunOf(s, rest);
    assert q[..|s|] == s;
  }

  /** The slug of a `/<t|tenant>/...` path starts right after the second `/`. */
  lemma PrefixEndOf(w: string, tail: string)
    requires IsPrefixWord(w)
    ensures PrefixEnd("/" + w + "/" + tail) == Some(|w| + 2)
  {
    var p := "/" + w + "/" + tail;
    assert |w| == |Lower(w)|;
    if |w| == 1 {
      assert p[1..2] == w && p[2] == '/';
    } else {
      assert p[2] != '/' by {
        assert Lower(w)[1] == 'e' && LowerChar(w[1]) == 'e';
        assert p[2] == w[1];
      }
      assert p[1..7] == w && p[7] == '/';
    }
  }

  /** Conversely, a path slug always comes from such a decomposition. */
  lemma PathSlugSound(path: string)
    requires PathSlug(path).Some?
    ensures exists w, rest :: IsPrefixWord(w) && EndsSlug(rest)
                              && path == "/" + w + "/" + PathSlug(path).value + rest
  {
    var start := PrefixEnd(path).value;
    var n := SlugRun(path[start..]);
    var w := path[1..start - 1];
    var rest := path[start + n..];
    assert path[start..][n..] == rest;
    assert IsPrefixWord(w);
    assert EndsSlug(rest);
    assert path == "/" + w + "/" + PathSlug(path).value + rest;
  }

  /** `/^\d+\.\d+\.\d+\.\d+$/`: four non-empty digit runs joined by dots. */
  function IsDottedQuad(h: string): (r: bool)
    ensures r ==> forall k :: 0 <= k < |h| ==> IsDigit(h[k]) || h[k] == '.'
  {
    var parts := Split(h, '.');
    var r := |parts| == 4 && IsDigits(parts[0]) && IsDigits(parts[1]) && IsDigits(parts[2]) && IsDigits(parts[3]);
    if r then
      SplitCovers(h, '.');
      assert forall p :: p in parts ==> p == parts[0] || p == parts[1] || p == parts[2] || p == parts[3];
      r
    else r
  }

  /** The dotted-quad test accepts exactly the strings `a.b.c.d` made of
      four digit runs. */
  lemma DottedQuadIff(a: string, b: string, c: string, d: string)
    requires IsDigits(a) && IsDigits(b) && IsDigits(c) && IsDigits(d)
    ensures IsDottedQuad(a + "." + b + "." + c + "." + d)
  {
    assert '.' !in a && '.' !in b && '.' !in c && '.' !in d;
    var h := a + "." + b + "." + c + "." + d;
    assert h == a + ['.'] + (b + "." + c + "." + d);
    SplitHead(a, '.', b + "." + c + "." + d);
    assert b + "." + c + "." + d == b + ['.'] + (c + "." + d);
    SplitHead(b, '.', c + "." + d);
    assert c + "." + d == c + ['.'] + d;
    SplitHead(c, '.', d);
    SplitNone(d, '.');
  }

  lemma DottedQuadShape(h: string)
    requires IsDottedQuad(h)
    ensures var p := Split(h, '.'); h == p[0] + "." + p[1] + "." + p[2] + "." + p[3]
  {
    var p := Split(h, '.');
    JoinSplit(h, '.');
    assert Join(p[3..], '.') == p[3];
    assert Join(p[2..], '.') == p[2] + "." + p[3];
    assert Join(p[1..], '.') == p[1] + "." + (p[2] + "." + p[3]);
  }

  /** `extractTenantFromHost`: drop any port, lower-case, ignore `localhost`
      and dotted-quad addresses, and take the first label if it is non-empty. */
  function HostSlug(host: Option<string>): (r: Option<string>)
    ensures r.Some? ==> r.value != "" && '.' !in r.value && ':' !in r.value && IsLower(r.value)
    ensures r.Some? ==> host.Some? && StartsWith(Lower(host.value), r.value)
  {
    if !Truthy(host) then None
    else
      var hostname := Lower(Split(host.value, ':')[0]);
      if hostname == "localhost" || IsDottedQuad(hostname) then None
      else
        var first := Split(hostname, '.')[0];
        if first == "" then None
        else
          HostPrefix(host.value, hostname, first);
          Some(first)
  }

  /** A host slug is the whole first label of the lower-cased host: a dot,
      a port or the end follows it. */
  lemma HostSlugIsFirstLabel(host: string)
    requires HostSlug(Some(host)).Some?
    ensures var r := HostSlug(Some(host)).value;
            |r| <= |host| && Lower(host)[..|r|] == r
            && (|r| < |host| ==> Lower(host)[|r|] == '.' || Lower(host)[|r|] == ':')
  {
    var hostname := Lower(Split(host, ':')[0]);
    HostPrefix(host, hostname, Split(hostname, '.')[0]);
  }

  lemma HostPrefix(host: string, hostname: string, first: string)
    requires hostname == Lower(Split(host, ':')[0]) && first == Split(hostname, '.')[0]
    ensures IsLower(first) && ':' !in first
    ensures |first| <= |host| && Lower(host)[..|first|] == first && StartsWith(Lower(host), first)
    ensures |first| < |host| ==> Lower(host)[|first|] == '.' || Lower(host)[|first|] == ':'
  {
    var h0 := Split(host, ':')[0];
    SplitFirst(host, ':');
    SplitFirst(hostname, '.');
    assert ':' !in h0;
    assert forall k :: 0 <= k < |first| ==> first[k] == LowerChar(h0[k]) && first[k] == Lower(host)[k] by {
      forall k | 0 <= k < |first| ensures first[k] == LowerChar(h0[k]) && first[k] == Lower(host)[k] {
        assert first[k] == hostname[k];
      }
    }
    assert IsLower(first) by {
      LowerIsLower(h0);
    }
    assert Lower(host)[..|first|] == first;
    if |first| < |hostname| {
      assert Lower(host)[|first|] == LowerChar(h0[|first|]) == hostname[|first|];
    } else if |first| < |host| {
      assert |first| == |h0| && host[|h0|] == ':';
    }
  }

  /** A subdomain host, with or without a port and in any letter case,
      yields its first label lower-cased. */
  lemma HostSlugOfSubdomain(sub: string, domain: string, port: string)
    requires sub != "" && '.' !in sub && ':' !in sub
    requires ':' !in domain
    requires port == "" || port[0] == ':'
    requires !IsDottedQuad(Lower(sub + "." + domain))
    ensures HostSlug(Some(sub + "." + domain + port)) == Some(Lower(sub))
  {
    var name := sub + "." + domain;
    HostWithoutPort(name, port);
    SubdomainName(sub, domain);
  }

  lemma HostWithoutPort(name: string, port: string)
    requires ':' !in name && (port == "" || port[0] == ':')
    ensures Split(name + port, ':')[0] == name
  {
    if port == "" {
      assert name + port == name;
      SplitNone(name, ':');
    } else {
      assert name + port == name + [':'] + port[1..];
      SplitHead(name, ':', port[1..]);
    }
  }

  lemma SubdomainName(sub: string, domain: string)
    requires sub != "" && '.' !in sub
    ensures var name := Lower(sub + "." + domain);
            name != "localhost" && Split(name, '.')[0] == Lower(sub)
  {
    var name := Lower(sub + "." + domain);
    LowerAppend(sub, "." + domain);
    LowerAppend(".", domain);
    assert Lower(".") == ".";
    assert name == Lower(sub) + ['.'] + Lower(domain);
    assert '.' !in Lower(sub) by {
      assert forall k :: 0 <= k < |sub| ==> Lower(sub)[k] == LowerChar(sub[k]) != '.';
    }
    SplitHead(Lower(sub), '.', Lower(domain));
    assert name[|sub|] == '.';
    assert '.' !in "localhost";
  }

  /** A dotted-quad address, with or without a port, never yields a slug. */
  lemma {:induction false} IpHostYieldsNothing(a: string, b: string, c: string, d: string, port: string)
    requires IsDigits(a) && IsDigits(b) && IsDigits(c) && IsDigits(d)
    requires port == "" || port[0] == ':'
    ensures HostSlug(Some(a + "." + b + "." + c + "." + d + port)) == None
  {
    var name := a + "." + b + "." + c + "." + d;
    assert forall k :: 0 <= k < |name| ==> IsDigit(name[k]) || name[k] == '.';
    HostWithoutPort(name, port);
    assert Lower(name) == name;
    DottedQuadIff(a, b, c, d);
  }

  /** The loopback address of local development gives no slug. */
  lemma LoopbackYieldsNothing()
    ensures HostSlug(Some("127.0.0.1:4000")) == None
  {
    assert "127.0.0.1:4000" == "127" + "." + "0" + "." + "0" + "." + "1" + ":4000";
    IpHostYieldsNothing("127", "0", "0", "1", ":4000");
  }

  /** `localhost` (with any port or letter case) never yields a slug. */
  lemma LocalhostYieldsNothing(host: string)
    requires Lower(Split(host, ':')[0]) == "localhost"
    ensures HostSlug(Some(host)) == None
  {
  }

  /** The header value when it is truthy: an empty header counts as absent. */
  function HeaderSlug(req: Request): Option<string> {
    if Truthy(req.tenantHeader) then req.tenantHeader else None
  }

  /** The raw slug candidate, by priority: header, then path, then host. */
  function SlugCandidate(req: Request): (r: Option<string>)
    ensures Truthy(req.tenantHeader) ==> r == req.tenantHeader
    ensures !Truthy(req.tenantHeader) && PathSlug(req.path).Some? ==> r == PathSlug(req.path)
    ensures !Truthy(req.tenantHeader) && PathSlug(req.path).None? ==> r == HostSlug(req.host)
  {
    if Truthy(HeaderSlug(req)) then HeaderSlug(req)
    else if PathSlug(req.path).Some? then PathSlug(req.path)
    else HostSlug(req.host)
  }

  /** Trim and lower-case a truthy candidate; an empty result means no slug. */
  function Normalise(candidate: Option<string>): (r: Option<string>)
    ensures r.Some? ==> r.value != "" && IsLower(r.value) && Trim(r.value) == r.value
  {
    if !Truthy(candidate) then None
    else
      var n := Lower(Trim(candidate.value));
      if n == "" then None
      else
        TrimLowerCommute(candidate.value);
        TrimSlice(candidate.value);
        LowerIsLower(Trim(candidate.value));
        TrimNoop(n);
        Some(n)
  }

  datatype Resolution = NoTenant | UnknownTenant(slug: string) | Resolved(tenant: Tenant)

  /** The outcome of resolution for a request against a tenant directory. */
  function Resolve(req: Request, directory: seq<Tenant>): (r: Resolution)
    ensures r.NoTenant? <==> Normalise(SlugCandidate(req)).None?
    ensures r.UnknownTenant? ==> Normalise(SlugCandidate(req)) == Some(r.slug)
                                 && forall t :: t in directory ==> t.slug != r.slug
    ensures r.Resolved? ==> Normalise(SlugCandidate(req)) == Some(r.tenant.slug) && r.tenant in directory
  {
    var n := Normalise(SlugCandidate(req));
    if n.None? then NoTenant
    else
      var s := n.value;
      LowerIsLower(s);
      var found := FindTenantBySlug(directory, s);
      if found.None? then UnknownTenant(s) else Resolved(found.value)
  }

  function NotFoundMessage(slug: string): string {
    "Tenant not found: \"" + slug + "\""
  }

  /** `tenantContextMiddleware`, with the slug reassigned step by step as the
      source does: no slug continues with no tenant, an unknown slug ends the
      request with 404, a known one continues with that tenant set. */
  method TenantContextMiddleware(req: Request, ctx: Context, directory: seq<Tenant>) returns (step: Step)
    ensures Resolve(req, directory).NoTenant? ==> step == Next(ctx.(tenant := None))
    ensures Resolve(req, directory).UnknownTenant? ==>
              step == Stop(Fail(404, NotFoundMessage(Resolve(req, directory).slug)))
    ensures Resolve(req, directory).Resolved? ==> step == Next(ctx.(tenant := Some(Resolve(req, directory).tenant)))
  {
    ghost var resolution := Resolve(req, directory);
    var slug := if Truthy(req.tenantHeader) then req.tenantHeader else None;
    if !Truthy(slug) {
      var pathMatch := PathSlug(req.path);
      if pathMatch.Some? {
        slug := pathMatch;
      }
    }
    if !Truthy(slug) {
      slug := HostSlug(req.host);
    }
    assert Truthy(slug) <==> Truthy(SlugCandidate(req));
    assert Truthy(slug) ==> slug == SlugCandidate(req);
    if Truthy(slug) {
      slug := Some(Lower(Trim(slug.value)));
    }
    if !Truthy(slug) {
      assert Normalise(SlugCandidate(req)).None?;
      return Next(ctx.(tenant := None));
    }
    assert Normalise(SlugCandidate(req)) == slug;
    LowerIsLower(slug.value);
    var tenant := FindTenantBySlug(directory, Lower(slug.value));
    if tenant.None? {
      assert resolution == UnknownTenant(slug.value);
      return Stop(Fail(404, NotFoundMessage(slug.value)));
    }
    assert resolution == Resolved(tenant.value);
    return Next(ctx.(tenant := tenant));
  }

  /** A truthy header decides alone: the path and host are never consulted. */
  lemma HeaderWins(req: Request, directory: seq<Tenant>, path: string, host: Option<string>)
    requires Truthy(req.tenantHeader)
    ensures Resolve(req.(path := path, host := host), directory) == Resolve(req, directory)
  {
  }

  /** Without a header, a path slug decides and the host is not consulted. */
  lemma PathBeforeHost(req: Request, directory: seq<Tenant>, host: Option<string>)
    requires !Truthy(req.tenantHeader) && PathSlug(req.path).Some?
    ensures Resolve(req.(host := host), directory) == Resolve(req, directory)
    ensures SlugCandidate(req) == PathSlug(req.path)
  {
    assert SlugCandidate(req.(host := host)) == SlugCandidate(req);
  }

  /** Only when neither header nor path gives a slug is the host used. */
  lemma HostLast(req: Request)
    requires !Truthy(req.tenantHeader) && PathSlug(req.path).None?
    ensures SlugCandidate(req) == HostSlug(req.host)
  {
  }

  /** A header of only white space is truthy, so it suppresses the path and
      host, and then normalises to nothing: the request has no tenant. */
  lemma BlankHeaderMeansNoTenant(req: Request, directory: seq<Tenant>)
    requires Truthy(req.tenantHeader) && AllSpace(req.tenantHeader.value)
    ensures Resolve(req, directory) == NoTenant
  {
    TrimEmptyIff(req.tenantHeader.value);
  }

  /** No signal from any source: no tenant, and no error. */
  lemma NoSignalNoTenant(req: Request, directory: seq<Tenant>)
    requires !Truthy(req.tenantHeader) && PathSlug(req.path).None? && HostSlug(req.host).None?
    ensures Resolve(req, directory) == NoTenant
  {
  }

  /** Two headers that agree once trimmed and lower-cased resolve alike. */
  lemma NormalisedHeadersAgree(req: Request, a: string, b: string, directory: seq<Tenant>)
    requires a != "" && b != "" && Lower(Trim(a)) == Lower(Trim(b))
    ensures Resolve(req.(tenantHeader := Some(a)), directory) == Resolve(req.(tenantHeader := Some(b)), directory)
  {
    var ra := req.(tenantHeader := Some(a));
    var rb := req.(tenantHeader := Some(b));
    assert SlugCandidate(ra) == Some(a);
    assert SlugCandidate(rb) == Some(b);
    NormaliseAgrees(a, b);
    ResolveByNormalised(ra, rb, directory);
  }

  lemma NormaliseAgrees(a: string, b: string)
    requires a != "" && b != "" && Lower(Trim(a)) == Lower(Trim(b))
    ensures Normalise(Some(a)) == Normalise(Some(b))
  {
  }

  /** Resolution depends on the request only through its normalised slug. */
  lemma ResolveByNormalised(r1: Request, r2: Request, directory: seq<Tenant>)
    requires Normalise(SlugCandidate(r1)) == Normalise(SlugCandidate(r2))
    ensures Resolve(r1, directory) == Resolve(r2, directory)
  {
  }

  /** `"  ACME "` and `"acme"` normalise alike, so by
      `NormalisedHeadersAgree` they resolve to the same tenant. */
  lemma AcmeNormalises()
    ensures Lower(Trim("  ACME ")) == Lower(Trim("acme")) == "acme"
  {
    TrimAcme();
    LowerAcme();
    PlainAcme();
  }

  lemma PlainAcme()
    ensures Trim("acme") == "acme" && Lower("acme") == "acme"
  {
    var a := "acme";
    assert !IsSpace(a[0]) && !IsSpace(a[3]);
    TrimNoop(a);
    LowerPlainAcme();
  }

  lemma LowerPlainAcme()
    ensures Lower("acme") == "acme"
  {
    var l := Lower("acme");
    assert l[0] == 'a' && l[1] == 'c' && l[2] == 'm' && l[3] == 'e';
  }

  lemma TrimAcme()
    ensures Trim("  ACME ") == "ACME"
  {
    assert !IsSpace('A') && IsSpace(' ');
    assert TrimStart("ACME ") == "ACME ";
    assert " ACME "[1..] == "ACME ";
    assert TrimStart(" ACME ") == "ACME ";
    assert "  ACME "[1..] == " ACME ";
    assert TrimStart("  ACME ") == "ACME ";
    TrimEndAcme();
  }

  lemma TrimEndAcme()
    ensures TrimEnd("ACME ") == "ACME"
  {
    assert !IsSpace('E') && IsSpace(' ');
    assert TrimEnd("ACME") == "ACME";
    assert "ACME "[..4] == "ACME";
  }

  lemma LowerAcme()
    ensures Lower("ACME") == "acme"
  {
    var l := Lower("ACME");
    assert l[0] == 'a' && l[1] == 'c' && l[2] == 'm' && l[3] == 'e';
  }

  /** With unique slugs, the resolved tenant is exactly the directory record
      whose slug is the normalised slug. */
  lemma ResolvedIsDirectoryRecord(req: Request, directory: seq<Tenant>, t: Tenant)
    requires UniqueSlugs(directory)
    ensures Resolve(req, directory) == Resolved(t) <==> t in directory && Normalise(SlugCandidate(req)) == Some(t.slug)
  {
    if t in directory && Normalise(SlugCandidate(req)) == Some(t.slug) {
      LowerIsLower(t.slug);
      FindTenantBySlugUnique(directory, t);
    }
  }

  /** Slugs are not lower-cased when stored, but lookups always are: a
      tenant whose slug has an upper-case letter or surrounding white space
      can never be resolved. */
  lemma OnlyLowerCaseSlugsReachable(req: Request, directory: seq<Tenant>)
    requires Resolve(req, directory).Resolved?
    ensures IsLower(Resolve(req, directory).tenant.slug)
    ensures Trim(Resolve(req, directory).tenant.slug) == Resolve(req, directory).tenant.slug
  {
  }

  /** A lower-case slug resolves to the same outcome whether it arrives as the
      header, as a path prefix, or as the first label of the host name. */
  lemma SameTenantFromEverySource(s: string, w: string, tail: string, domain: string, port: string,
                                  base: Request, directory: seq<Tenant>)
    requires IsSlug(s) && IsLower(s) && IsPrefixWord(w) && EndsSlug(tail)
    requires ':' !in domain && (port == "" || port[0] == ':')
    requires !IsDottedQuad(Lower(s + "." + domain))
    ensures var byHeader := base.(tenantHeader := Some(s));
            var byPath := base.(tenantHeader := None, path := "/" + w + "/" + s + tail);
            var byHost := base.(tenantHeader := None, path := "/", host := Some(s + "." + domain + port));
            Resolve(byPath, directory) == Resolve(byHeader, directory)
            && Resolve(byHost, directory) == Resolve(byHeader, directory)
  {
    PathAgreesWithHeader(s, w, tail, base, directory);
    HostAgreesWithHeader(s, domain, port, base, directory);
  }

  /** Slug characters include neither a dot nor a colon. */
  lemma SlugHasNoSeparator(s: string)
    requires IsSlug(s)
    ensures '.' !in s && ':' !in s
  {
    assert forall k :: 0 <= k < |s| ==> s[k] != '.' && s[k] != ':';
  }

  /** A slug has no white space at its ends, so trimming keeps it whole. */
  lemma SlugIsTrimmed(s: string)
    requires IsSlug(s)
    ensures Trim(s) == s
  {
    assert IsSlugChar(s[0]) && IsSlugChar(s[|s| - 1]);
    TrimNoop(s);
  }

  /** A lower-case slug normalises to itself. */
  lemma HeaderNormalises(s: string, base: Request)
    requires IsSlug(s) && IsLower(s)
    ensures Normalise(SlugCandidate(base.(tenantHeader := Some(s)))) == Some(s)
  {
    SlugIsTrimmed(s);
    LowerIsLower(s);
  }

  lemma PathAgreesWithHeader(s: string, w: string, tail: string, base: Request, directory: seq<Tenant>)
    requires IsSlug(s) && IsLower(s) && IsPrefixWord(w) && EndsSlug(tail)
    ensures Resolve(base.(tenantHeader := None, path := "/" + w + "/" + s + tail), directory)
            == Resolve(base.(tenantHeader := Some(s)), directory)
  {
    var byPath := base.(tenantHeader := None, path := "/" + w + "/" + s + tail);
    HeaderNormalises(s, base);
    PathSlugComplete(w, s, tail);
    assert SlugCandidate(byPath) == Some(s);
    ResolveByNormalised(byPath, base.(tenantHeader := Some(s)), directory);
  }

  lemma HostAgreesWithHeader(s: string, domain: string, port: string, base: Request, directory: seq<Tenant>)
    requires IsSlug(s) && IsLower(s)
    requires ':' !in domain && (port == "" || port[0] == ':')
    requires !IsDottedQuad(Lower(s + "." + domain))
    ensures Resolve(base.(tenantHeader := None, path := "/", host := Some(s + "." + domain + port)), directory)
            == Resolve(base.(tenantHeader := Some(s)), directory)
  {
    var byHost := base.(tenantHeader := None, path := "/", host := Some(s + "." + domain + port));
    var byHeader := base.(tenantHeader := Some(s));
    HostCandidate(s, domain, port, base);
    HeaderNormalises(s, base);
    ResolveByNormalised(byHost, byHeader, directory);
  }

  lemma HostCandidate(s: string, domain: string, port: string, base: Request)
    requires IsSlug(s) && IsLower(s)
    requires ':' !in domain && (port == "" || port[0] == ':')
    requires !IsDottedQuad(Lower(s + "." + domain))
    ensures SlugCandidate(base.(tenantHeader := None, path := "/", host := Some(s + "." + domain + port))) == Some(s)
  {
    assert HostSlug(Some(s + "." + domain + port)) == Some(s) by {
      SlugHasNoSeparator(s);
      HostSlugOfSubdomain(s, domain, port);
      LowerIsLower(s);
    }
    assert PathSlug("/") == None by {
      assert PrefixEnd("/") == None;
    }
  }
}
