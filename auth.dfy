/** Resolution of the `Authorization` header to a caller identity: a
    simplified `Bearer` scheme (section 2.1 of RFC 6750) over a fixed table
    of opaque tokens. */
module Auth {
  import opened Domain
  import opened Text

  const BEARER := "Bearer "

  /** The process-wide token table. */
  const TOKENS: map<string, Identity> := map[
    "founder-admin-token" := Identity("u-admin", "tenant-acme", "company_admin"),
    "coordinator-token" := Identity("u-coord", "tenant-acme", "coordinator"),
    "manager-token" := Identity("u-manager", "tenant-acme", "manager")
  ]

  /** The token a header carries once the scheme word and surrounding whitespace are removed. */
  function Token(header: string): string
    requires StartsWith(header, BEARER)
  {
    Strip(ReplaceFirst(header, BEARER, ""))
  }

  /** `parse_auth`: no identity without a header that starts with
      `"Bearer "`; otherwise the identity of the stripped token, if the table
      knows it. */
  function ParseAuth(header: Option<string>): (r: Option<Identity>)
    ensures r.Some? <==> header.Some? && StartsWith(header.value, BEARER)
                         && Strip(header.value[|BEARER|..]) in TOKENS
    ensures r.Some? ==> r.value == TOKENS[Strip(header.value[|BEARER|..])]
  {
    if header.None? || header.value == "" || !StartsWith(header.value, BEARER) then None
    else
      ReplaceFirstOfPrefix(header.value, BEARER);
      var token := Token(header.value);
      if token in TOKENS then Some(TOKENS[token]) else None
  }

  /** Whitespace around the token does not matter, but the token itself
      must be exactly a key of the table. */
  lemma ParseAuthPadded(pre: string, token: string, post: string)
    requires AllSpace(pre) && AllSpace(post)
    requires token != [] && !IsPySpace(token[0]) && !IsPySpace(token[|token| - 1])
    ensures ParseAuth(Some(BEARER + pre + token + post))
            == if token in TOKENS then Some(TOKENS[token]) else None
  {
    var h := BEARER + pre + token + post;
    assert StartsWith(h, BEARER) by { assert h[..|BEARER|] == BEARER; }
    assert h[|BEARER|..] == pre + token + post;
    StripPadded(pre, token, post);
  }

  /** Every identity the table can yield belongs to the one seeded tenant. */
  lemma ParseAuthTenant(header: Option<string>)
    ensures ParseAuth(header).Some? ==> ParseAuth(header).value.tenantId == "tenant-acme"
  {
    forall k | k in TOKENS ensures TOKENS[k].tenantId == "tenant-acme" {
      assert TOKENS.Keys == {"founder-admin-token", "coordinator-token", "manager-token"};
    }
  }

  /** A header made of the scheme word and a token with no surrounding
      whitespace resolves exactly as the table says. */
  lemma ParseAuthOfToken(h: string, t: string)
    requires h == BEARER + t && Strip(t) == t
    ensures ParseAuth(Some(h)) == if t in TOKENS then Some(TOKENS[t]) else None
  {
    assert h[..|BEARER|] == BEARER;
    assert StartsWith(h, BEARER) && h != "";
    assert h[|BEARER|..] == t;
    ReplaceFirstOfPrefix(h, BEARER);
    assert Token(h) == t;
  }

  /** Each token of the table, given after the scheme word, resolves to its identity. */
  lemma ParseAuthTableTokens(t: string)
    requires t in TOKENS
    ensures ParseAuth(Some(BEARER + t)) == Some(TOKENS[t])
  {
    assert !IsPySpace(t[0]) && !IsPySpace(t[|t| - 1]);
    StripPadded("", t, "");
    assert "" + t + "" == t;
    ParseAuthOfToken(BEARER + t, t);
  }

  /** Only the first `"Bearer "` is removed, so a doubled scheme word leaves
      one in the token, and the table holds no token that starts with it. */
  lemma ParseAuthDoubledScheme(t: string)
    requires t != [] && !IsPySpace(t[|t| - 1])
    ensures ParseAuth(Some(BEARER + BEARER + t)) == None
  {
    var u := BEARER + t;
    SchemeTokenUnpadded(t, u);
    NoTokenStartsWithScheme(u);
    Regroup(BEARER, BEARER, t);
    ParseAuthOfToken(BEARER + u, u);
  }

  /** The scheme word followed by a token that does not end in whitespace
      is left alone by stripping. */
  lemma SchemeTokenUnpadded(t: string, u: string)
    requires t != [] && !IsPySpace(t[|t| - 1]) && u == BEARER + t
    ensures u != [] && u[0] == 'B' && Strip(u) == u
  {
    assert u[0] == 'B';
    assert !IsPySpace(u[|u| - 1]) by { assert u[|u| - 1] == t[|t| - 1]; }
    StripPadded("", u, "");
    assert "" + u + "" == u;
  }

  lemma Regroup(a: string, b: string, c: string)
    ensures a + b + c == a + (b + c)
  {
  }

  lemma NoTokenStartsWithScheme(u: string)
    requires u != [] && u[0] == 'B'
    ensures u !in TOKENS
  {
    assert TOKENS.Keys == {"founder-admin-token", "coordinator-token", "manager-token"};
    assert u != "founder-admin-token" by { assert "founder-admin-token"[0] == 'f'; }
    assert u != "coordinator-token" by { assert "coordinator-token"[0] == 'c'; }
    assert u != "manager-token" by { assert "manager-token"[0] == 'm'; }
  }

  /** The scheme word is case-sensitive. */
  lemma ParseAuthLowerCaseScheme(t: string)
    ensures ParseAuth(Some("bearer " + t)) == None
  {
    assert ("bearer " + t)[0] != BEARER[0];
  }
}
