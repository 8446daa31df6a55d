/** The session guards (server/src/middleware/auth.ts). `protect` admits a request only with
    a verifiable bearer token of a user who still exists; `optionalAuth` always lets the
    request through and attaches the token's claims when they verify. The decisions are pure
    functions of the Authorization header, the environment, the token verifier and the user
    store; `AuthRequest` is the request object the guards write `user` on before calling
    `next`, or answer with a 401. */
module AuthMiddleware {
  import opened Wrappers
  import opened Text
  import opened Config
  import opened Crypto
  import opened UserModel

  const NoTokenError := "Not authorized, no token provided"
  const InvalidTokenError := "Not authorized, token invalid"
  const UserGoneError := "User no longer exists"

  /** The token of an Authorization header: the header must start with 'Bearer', and the
      token is the second space-separated piece, which must be present and non-empty. */
  function ExtractToken(header: Option<string>): (t: Option<string>)
    ensures t.Some? ==> header.Some? && StartsWith(header.value, "Bearer")
    ensures t.Some? ==> t.value != [] && ' ' !in t.value
  {
    if header.Some? && StartsWith(header.value, "Bearer") then
      var pieces := Split(header.value, ' ');
      if |pieces| > 1 && pieces[1] != [] then Some(pieces[1]) else None
    else None
  }

  /** What a guard does with a request: pass it on (with the user it attached, if any), or
      answer it. */
  datatype Outcome = Proceed(user: Option<Claims>) | Deny(status: int, error: string)

  /** `protect`. Every failure after the token is found (secret unset, verification throws)
      lands in the same catch and gives the same 401. */
  function ProtectOutcome(header: Option<string>, env: Env, j: Signer, users: seq<User>): (o: Outcome)
    ensures o.Deny? ==> o.status == 401
    ensures ExtractToken(header).None? ==> o == Deny(401, NoTokenError)
    ensures ExtractToken(header).Some? && (env.jwtSecret == "" || j.verify(ExtractToken(header).value, env.jwtSecret).None?)
            ==> o == Deny(401, InvalidTokenError)
    ensures o.Proceed? ==>
      && ExtractToken(header).Some? && env.jwtSecret != ""
      && o.user.Some? && j.verify(ExtractToken(header).value, env.jwtSecret) == o.user
      && FindById(users, o.user.value.id).Some?
  {
    match ExtractToken(header)
    case None => Deny(401, NoTokenError)
    case Some(token) =>
      if env.jwtSecret == "" then Deny(401, InvalidTokenError)
      else
        match j.verify(token, env.jwtSecret)
        case None => Deny(401, InvalidTokenError)
        case Some(claims) =>
          if FindById(users, claims.id).None? then Deny(401, UserGoneError)
          else Proceed(Some(claims))
  }

  /** `optionalAuth`: never answers the request, and attaches the claims exactly when a token
      is present, the secret is set and the token verifies. */
  function OptionalOutcome(header: Option<string>, env: Env, j: Signer): (o: Outcome)
    ensures o.Proceed?
    ensures o.user.Some? <==>
      ExtractToken(header).Some? && env.jwtSecret != "" && j.verify(ExtractToken(header).value, env.jwtSecret).Some?
    ensures o.user.Some? ==> o.user == j.verify(ExtractToken(header).value, env.jwtSecret)
  {
    match ExtractToken(header)
    case None => Proceed(None)
    case Some(token) =>
      if env.jwtSecret == "" then Proceed(None)
      else Proceed(j.verify(token, env.jwtSecret))
  }

  /** The fields of an Express request the guards read and write. */
  class AuthRequest {
    const authorization: Option<string>
    var user: Option<Claims>
    /** How many times the guard has called `next`. */
    var nextCalls: nat
    /** The status and error of the response the guard sent, if it sent one. */
    var answer: Option<(int, string)>

    constructor (authorization: Option<string>)
      ensures this.authorization == authorization
      ensures user.None? && nextCalls == 0 && answer.None?
    {
      this.authorization := authorization;
      user := None;
      nextCalls := 0;
      answer := None;
    }

    /** `protect`: on success attaches the token's claims and calls `next` once; otherwise
        sends the 401 and leaves the request as it was. */
    method Protect(env: Env, j: Signer, users: seq<User>)
      modifies this
      ensures ProtectOutcome(authorization, env, j, users).Proceed? ==>
        user == ProtectOutcome(authorization, env, j, users).user && nextCalls == old(nextCalls) + 1 && answer == old(answer)
      ensures ProtectOutcome(authorization, env, j, users).Deny? ==>
        && answer == Some((401, ProtectOutcome(authorization, env, j, users).error))
        && user == old(user) && nextCalls == old(nextCalls)
    {
      var token := ExtractToken(authorization);
      if token.None? {
        answer := Some((401, NoTokenError));
        return;
      }
      if env.jwtSecret == "" {
        answer := Some((401, InvalidTokenError));
        return;
      }
      var decoded := j.verify(token.value, env.jwtSecret);
      if decoded.None? {
        answer := Some((401, InvalidTokenError));
        return;
      }
      if FindById(users, decoded.value.id).None? {
        answer := Some((401, UserGoneError));
        return;
      }
      user := decoded;
      nextCalls := nextCalls + 1;
    }

    /** `optionalAuth`: always calls `next` once and never answers; attaches the claims of a
        token that verifies. */
    method OptionalAuth(env: Env, j: Signer)
      modifies this
      ensures nextCalls == old(nextCalls) + 1 && answer == old(answer)
      ensures user == (if OptionalOutcome(authorization, env, j).user.Some? then OptionalOutcome(authorization, env, j).user
                       else old(user))
    {
      var token := ExtractToken(authorization);
      if token.Some? && env.jwtSecret != "" {
        var decoded := j.verify(token.value, env.jwtSecret);
        if decoded.Some? {
          user := decoded;
        }
      }
      nextCalls := nextCalls + 1;
    }
  }

  /** "Bearer <token>" yields the token, with or without more pieces after it. */
  lemma BearerTokenExtracted(token: string, rest: string)
    requires token != [] && ' ' !in token
    ensures ExtractToken(Some("Bearer " + token)) == Some(token)
    ensures ExtractToken(Some("Bearer " + token + " " + rest)) == Some(token)
  {
    assert ' ' !in "Bearer";
    SplitAt("Bearer", ' ', token);
    SplitNone(token, ' ');
    assert "Bearer " + token == "Bearer" + [' '] + token;
    SplitAt("Bearer", ' ', token + " " + rest);
    SplitAt(token, ' ', rest);
    assert "Bearer " + token + " " + rest == "Bearer" + [' '] + (token + " " + rest);
    assert token + " " + rest == token + [' '] + rest;
    assert StartsWith("Bearer " + token, "Bearer");
    assert StartsWith("Bearer " + token + " " + rest, "Bearer");
  }

  /** 'Bearer' alone, or followed by an empty piece, counts as no token. */
  lemma BareBearerHasNoToken()
    ensures ExtractToken(Some("Bearer")) == None
    ensures ExtractToken(Some("Bearer ")) == None
    ensures ExtractToken(Some("Bearer  abc")) == None
  {
    assert ' ' !in "Bearer";
    SplitNone("Bearer", ' ');
    assert StartsWith("Bearer", "Bearer");
    assert "Bearer " == "Bearer" + [' '] + "";
    SplitAt("Bearer", ' ', "");
    SplitNone("", ' ');
    assert "Bearer  abc" == "Bearer" + [' '] + " abc";
    SplitAt("Bearer", ' ', " abc");
    assert " abc" == "" + [' '] + "abc";
    SplitAt("", ' ', "abc");
  }

  /** Another scheme yields no token. */
  lemma OtherSchemeHasNoToken()
    ensures ExtractToken(Some("Basic abc")) == None
  {
    assert "Basic abc"[1] != "Bearer"[1];
  }

  /** The scheme check is a plain prefix test, so 'Bearerx t' still yields 't'. */
  lemma BearerPrefixOnly()
    ensures ExtractToken(Some("Bearerx t")) == Some("t")
  {
    assert "Bearerx t" == "Bearerx" + [' '] + "t";
    assert ' ' !in "Bearerx";
    SplitAt("Bearerx", ' ', "t");
    SplitNone("t", ' ');
    assert StartsWith("Bearerx t", "Bearer");
  }

  /** A token signed for an existing user is admitted by `protect` with exactly the signed
      claims, which are attached as they are in the token, not as the store holds the user. */
  lemma SignedTokenAdmitted(env: Env, j: Signer, users: seq<User>, c: Claims, expiry: string)
    requires SoundSigner(j) && env.jwtSecret != ""
    requires exists u :: u in users && u.id == c.id
    ensures var header := Some("Bearer " + j.sign(c, env.jwtSecret, expiry));
      ProtectOutcome(header, env, j, users) == Proceed(Some(c))
  {
    var token := j.sign(c, env.jwtSecret, expiry);
    BearerTokenExtracted(token, "");
  }

  /** Whatever `protect` admits, `optionalAuth` admits with the same user. */
  lemma ProtectStricterThanOptional(header: Option<string>, env: Env, j: Signer, users: seq<User>)
    requires ProtectOutcome(header, env, j, users).Proceed?
    ensures OptionalOutcome(header, env, j) == ProtectOutcome(header, env, j, users)
  {
  }

  /** `optionalAuth` does not check that the user still exists: a verified token of a
      removed user still attaches its claims. */
  lemma OptionalIgnoresRemovedUsers(env: Env, j: Signer, users: seq<User>, c: Claims, expiry: string)
    requires SoundSigner(j) && env.jwtSecret != ""
    requires forall u :: u in users ==> u.id != c.id
    ensures var header := Some("Bearer " + j.sign(c, env.jwtSecret, expiry));
      && OptionalOutcome(header, env, j) == Proceed(Some(c))
      && ProtectOutcome(header, env, j, users) == Deny(401, UserGoneError)
  {
    var token := j.sign(c, env.jwtSecret, expiry);
    BearerTokenExtracted(token, "");
  }
}
