/**
 * The auth guard: reads the `Authorization` header, extracts the bearer
 * token, asks the token verifier and the user store who it names, and either
 * rejects with 401 or yields the identity attached to the request.
 *
 * Token verification and the user lookup are oracles: `verify` stands for
 * the JWT check with the server secret, `users` for the user collection.
 */
module Auth {
  import opened Common
  import opened Text

  const BearerPrefix := "Bearer "

  const NoTokenMessage := "No token, authorization denied"
  const UserNotFoundMessage := "User not found"
  const ExpiredMessage := "Token has expired"
  const InvalidMessage := "Token is not valid"

  /** What the token verifier reports: the user id the token was issued for,
      an expiry, or any other failure (bad signature, malformed token, a
      lookup that threw). */
  datatype Verdict = Verified(id: UserId) | Expired | Invalid

  /** The token: the header with the first `Bearer ` replaced by nothing. */
  function ExtractToken(header: string): (token: string)
    requires StartsWith(header, BearerPrefix)
    ensures BearerPrefix + token == header
  {
    ReplacePrefix(header, BearerPrefix);
    ReplaceFirst(header, BearerPrefix, "")
  }

  /** The identity attached on success: id, name, email and role only. */
  function Project(id: UserId, u: User): (a: Actor)
    ensures a.id == id && a.name == u.name && a.email == u.email && a.role == u.role
  {
    Actor(id, u.name, u.email, u.role)
  }

  /** The guard's decision. Every rejection is a 401; a missing or
      non-bearer header is refused before the verifier is consulted; an
      expired token is told apart from every other verification failure; a
      verified token whose user is gone is refused; otherwise the stored
      user's public fields are attached under the verified id. */
  function Authenticate(header: Option<string>, verify: string -> Verdict,
                        users: map<UserId, User>): (r: Result<Actor>)
    ensures r.Err? ==> r.failure.code == Unauthorized
    ensures (header.None? || !StartsWith(header.value, BearerPrefix))
            ==> r == Err(Failure(Unauthorized, NoTokenMessage))
    ensures header.Some? && StartsWith(header.value, BearerPrefix) ==>
              var v := verify(header.value[|BearerPrefix|..]);
              && (v.Expired? ==> r == Err(Failure(Unauthorized, ExpiredMessage)))
              && (v.Invalid? ==> r == Err(Failure(Unauthorized, InvalidMessage)))
              && (v.Verified? && v.id !in users ==> r == Err(Failure(Unauthorized, UserNotFoundMessage)))
              && (v.Verified? && v.id in users ==> r == Ok(Project(v.id, users[v.id])))
    ensures r.Ok? <==> header.Some? && StartsWith(header.value, BearerPrefix)
                       && verify(header.value[|BearerPrefix|..]).Verified?
                       && verify(header.value[|BearerPrefix|..]).id in users
  {
    if header.None? || !StartsWith(header.value, BearerPrefix) then
      Err(Failure(Unauthorized, NoTokenMessage))
    else
      var token := ExtractToken(header.value);
      assert token == header.value[|BearerPrefix|..];
      match verify(token)
      case Expired => Err(Failure(Unauthorized, ExpiredMessage))
      case Invalid => Err(Failure(Unauthorized, InvalidMessage))
      case Verified(id) =>
        if id !in users then Err(Failure(Unauthorized, UserNotFoundMessage))
        else Ok(Project(id, users[id]))
  }

  /** A header built from a token hands the verifier exactly that token. */
  lemma BearerRoundTrip(token: string)
    ensures StartsWith(BearerPrefix + token, BearerPrefix)
    ensures ExtractToken(BearerPrefix + token) == token
  {
    assert (BearerPrefix + token)[..|BearerPrefix|] == BearerPrefix;
    var h := BearerPrefix + token;
    assert BearerPrefix + ExtractToken(h) == BearerPrefix + token;
    assert ExtractToken(h) == (BearerPrefix + ExtractToken(h))[|BearerPrefix|..];
  }

  /** Only the token reaches the verifier: two verifiers that agree on the
      token of this header lead to the same decision, and a header without a
      bearer token is decided without consulting the verifier at all. */
  lemma DecisionDependsOnTokenOnly(header: Option<string>, verify1: string -> Verdict,
                                   verify2: string -> Verdict, users: map<UserId, User>)
    requires header.Some? && StartsWith(header.value, BearerPrefix) ==>
               verify1(ExtractToken(header.value)) == verify2(ExtractToken(header.value))
    ensures Authenticate(header, verify1, users) == Authenticate(header, verify2, users)
  {
    if header.Some? && StartsWith(header.value, BearerPrefix) {
      var token := ExtractToken(header.value);
      assert token == header.value[|BearerPrefix|..];
    }
  }
}
