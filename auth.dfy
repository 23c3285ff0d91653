/**
 * Bearer-token handling of lib/auth.ts and the admin guard every admin
 * handler runs first.
 *
 * Signature checking (verifyToken, backed by a JWT library) is not modelled:
 * it is represented by the set of tokens it would accept.
 */
module Auth {
  import opened Wrappers

  const BearerPrefix: string := "Bearer "

  /** `authHeader.startsWith(prefix)`. */
  predicate StartsWith(s: string, prefix: string)
  {
    |prefix| <= |s| && s[..|prefix|] == prefix
  }

  /**
   * extractToken: no token for a missing or empty header or one that does
   * not begin with the case-sensitive "Bearer "; otherwise everything after
   * the first seven characters.
   */
  function ExtractToken(authHeader: Option<string>): (token: Option<string>)
    ensures token.None? <==> authHeader.None? || !StartsWith(authHeader.value, BearerPrefix)
    ensures token.Some? ==> authHeader.value == BearerPrefix + token.value
    ensures token.Some? ==> |token.value| == |authHeader.value| - 7
  {
    if authHeader.None? || authHeader.value == "" || !StartsWith(authHeader.value, BearerPrefix) then None
    else Some(authHeader.value[7..])
  }

  /** A header built as "Bearer " + t yields t back. */
  lemma ExtractTokenOfBearer(t: string)
    ensures ExtractToken(Some(BearerPrefix + t)) == Some(t)
  {
    assert (BearerPrefix + t)[..7] == BearerPrefix;
    assert (BearerPrefix + t)[7..] == t;
  }

  /**
   * The guard at the top of every admin handler:
   * `if (!token || !verifyToken(token))` answers 401. A missing token and the
   * empty token both fail `!token`; `validTokens` stands for the tokens
   * verifyToken accepts.
   */
  predicate Authorized(authHeader: Option<string>, validTokens: set<string>)
  {
    var token := ExtractToken(authHeader);
    token.Some? && token.value != "" && token.value in validTokens
  }

  /** The request passes the guard exactly when its header is "Bearer " followed by a non-empty accepted token. */
  lemma AuthorizedIff(authHeader: Option<string>, validTokens: set<string>)
    ensures Authorized(authHeader, validTokens) <==>
      authHeader.Some? && |authHeader.value| > 7 && StartsWith(authHeader.value, BearerPrefix)
      && authHeader.value[7..] in validTokens
  {
    if authHeader.Some? && StartsWith(authHeader.value, BearerPrefix) {
      assert authHeader.value == BearerPrefix + authHeader.value[7..];
    }
  }

  /** The bare header "Bearer " yields the empty token, not a missing one, and the guard still refuses it. */
  lemma BareBearerRefused(validTokens: set<string>)
    ensures ExtractToken(Some(BearerPrefix)) == Some("")
    ensures !Authorized(Some(BearerPrefix), validTokens)
  {
    ExtractTokenOfBearer("");
    assert BearerPrefix + "" == BearerPrefix;
  }

  /** `searchParams.get('id')` as `!id` sees it: absent or the empty string. */
  predicate MissingId(id: Option<string>)
  {
    id.None? || id.value == ""
  }
}
