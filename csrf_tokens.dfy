/**
 * CSRF protection of the v2 front end: a random token kept in the session and
 * compared with the token a form posts back. The session is the manager's
 * state; the random bytes a token is made of are an input.
 */
module CsrfTokens {
  import opened Wrappers
  import opened PhpStrings
  import opened PhpValues

  /** Number of random bytes in a token. */
  const TokenLength: nat := 32

  /** The session entry the token is kept under. */
  const SessionKey: string := "_csrf_token"

  /** A token as generateToken() makes it: 64 lower-case hexadecimal digits. */
  predicate IsTokenText(s: string) {
    |s| == 2 * TokenLength && forall k :: 0 <= k < |s| ==> IsLowerHex(s[k])
  }

  /** Different random bytes give different tokens. */
  lemma TokensDistinct(a: seq<Byte>, b: seq<Byte>)
    requires a != b
    ensures Bin2Hex(a) != Bin2Hex(b)
  {
    Hex2BinBin2Hex(a);
    Hex2BinBin2Hex(b);
  }

  class CsrfTokenManager {
    /** The session array. */
    var session: Row

    constructor (session: Row)
      ensures this.session == session
    {
      this.session := session;
    }

    /** The session holds no token, or one generateToken() could have stored. */
    predicate Valid()
      reads this
    {
      !IsSet(Field(session, SessionKey)) ||
      (session[SessionKey].Str? && IsTokenText(session[SessionKey].s))
    }

    /**
     * CsrfTokenManager::validateToken: true exactly when a non-empty token was
     * posted, a non-empty string token is stored, and the two are equal.
     * Failure is the TypeError hash_equals raises when the stored value is
     * set but not a string.
     */
    function ValidateToken(token: Option<string>): (r: Result<bool, TypeError>)
      reads this
      ensures r == Success(true) <==>
        token.Some? && token.value != "" && SessionKey in session && session[SessionKey] == Str(token.value)
      ensures r.Failure? <==>
        token.Some? && token.value != "" && IsSet(Field(session, SessionKey)) &&
        session[SessionKey] != Str("") && !session[SessionKey].Str?
    {
      if token.None? || token.value == "" then Success(false)
      else
        var stored := Coalesce(Field(session, SessionKey), Str(""));
        if stored == Str("") then Success(false)
        else if stored.Str? then Success(stored.s == token.value)
        else Failure(TypeError)
    }

    /** A well-formed session never makes validation fail, and no empty or missing token is accepted. */
    lemma ValidNeverFails(token: Option<string>)
      requires Valid()
      ensures ValidateToken(token).Success?
      ensures token.None? || token == Some("") ==> ValidateToken(token) == Success(false)
    {
    }

    /** CsrfTokenManager::generateToken, from the random bytes random_bytes(32) would return. */
    method GenerateToken(random: seq<Byte>) returns (token: string)
      requires |random| == TokenLength
      modifies this
      ensures token == Bin2Hex(random) && IsTokenText(token)
      ensures session == old(session)[SessionKey := Str(token)]
      ensures Valid()
      ensures ValidateToken(Some(token)) == Success(true)
      ensures forall other :: other != token ==> ValidateToken(Some(other)) == Success(false)
    {
      token := Bin2Hex(random);
      session := session[SessionKey := Str(token)];
    }

    /**
     * CsrfTokenManager::getToken: the stored token, converted to a string, or a
     * freshly generated one when none is set.
     */
    method GetToken(random: seq<Byte>) returns (token: string)
      requires |random| == TokenLength
      modifies this
      ensures IsSet(Field(old(session), SessionKey)) ==>
        token == StringCast(old(session)[SessionKey]) && session == old(session)
      ensures !IsSet(Field(old(session), SessionKey)) ==>
        token == Bin2Hex(random) && session == old(session)[SessionKey := Str(token)]
      ensures old(Valid()) ==> Valid() && ValidateToken(Some(token)) == Success(true)
    {
      if !IsSet(Field(session, SessionKey)) {
        token := GenerateToken(random);
        return;
      }
      token := StringCast(session[SessionKey]);
    }
  }

  /** A second getToken() hands out the token the first one did, and draws no new randomness. */
  method GetTokenTwice(m: CsrfTokenManager, r1: seq<Byte>, r2: seq<Byte>) returns (t1: string, t2: string)
    requires |r1| == TokenLength && |r2| == TokenLength && m.Valid()
    modifies m
    ensures t1 == t2 && m.ValidateToken(Some(t1)) == Success(true)
    ensures IsSet(Field(old(m.session), SessionKey)) ==> m.session == old(m.session)
  {
    t1 := m.GetToken(r1);
    t2 := m.GetToken(r2);
  }
}
