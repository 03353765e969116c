/** Bearer tokens and the role gate (src/utils/jwt.js). */
module Jwt {

  import opened Wrappers
  import opened Constants
  import opened Strings
  import UsersDb

  /** The token library with the service's secret already bound in. `sign` issues
      a token whose subject is the given user id; `verify` yields the subject of a
      token it accepts and nothing for one it rejects (verifyToken turns the
      library's exception into null, so a rejection never propagates). */
  datatype Signer = Signer(sign: string -> string, verify: string -> Option<string>)

  /** What the library guarantees: a token it signed verifies to its subject. */
  ghost predicate Sound(j: Signer) {
    forall s :: j.verify(j.sign(s)) == Some(s)
  }

  /** generateToken */
  function GenerateToken(j: Signer, userId: string): string {
    j.sign(userId)
  }

  /** verifyToken */
  function VerifyToken(j: Signer, token: string): Option<string> {
    j.verify(token)
  }

  /** A token the service issued verifies to the id it was issued for. */
  lemma VerifyIssued(j: Signer, userId: string)
    requires Sound(j)
    ensures VerifyToken(j, GenerateToken(j, userId)) == Some(userId)
  {
  }

  const BEARER: string := "Bearer "

  /** The Authorization header is present and starts with "Bearer ". */
  predicate HasBearer(authorization: Option<string>) {
    authorization.Some? && StartsWith(authorization.value, BEARER)
  }

  /** `authHeader.substring(7)`: the header without its scheme. */
  function TokenOf(authorization: string): (token: string)
    requires StartsWith(authorization, BEARER)
    ensures BEARER + token == authorization
  {
    authorization[7..]
  }

  /** The header a client sends with a token. */
  function BearerHeader(token: string): string {
    BEARER + token
  }

  lemma HeaderRoundTrip(token: string)
    ensures HasBearer(Some(BearerHeader(token))) && TokenOf(BearerHeader(token)) == token
  {
    assert BearerHeader(token)[..|BEARER|] == BEARER;
  }

  /** The id of the user a header authenticates: a Bearer token that verifies to
      the id of a row of `users`. */
  function Caller(authorization: Option<string>, users: map<string, UsersDb.UserRow>, j: Signer): (id: Option<string>)
    ensures id.Some? ==>
      (id.value in users && HasBearer(authorization) && VerifyToken(j, TokenOf(authorization.value)) == id)
  {
    if !HasBearer(authorization) then None
    else
      var subject := VerifyToken(j, TokenOf(authorization.value));
      if subject.Some? && subject.value in users then subject else None
  }

  /** checkPermissions: missing token, then invalid token, then insufficient
      permissions; on success the caller's row as the table holds it now, so the
      role comes from the table and not from the token. "user" is met by every
      caller, "root" only by a caller whose stored level is "root". */
  function CheckPermissions(authorization: Option<string>, requiredLevel: string,
                            users: map<string, UsersDb.UserRow>, j: Signer): (r: Result<UsersDb.User>)
    ensures r == Err(MISSING_TOKEN) <==> !HasBearer(authorization)
    ensures r == Err(INVALID_TOKEN) <==> HasBearer(authorization) && Caller(authorization, users, j).None?
    ensures r == Err(INSUFFICIENT_PERMISSIONS) <==>
      Caller(authorization, users, j).Some? && requiredLevel == ROOT
      && users[Caller(authorization, users, j).value].accessLevel != ROOT
    ensures r.Ok? ==>
      (&& Caller(authorization, users, j) == Some(r.value.id)
       && UsersDb.Record(r.value.id, users[r.value.id]) == r.value
       && (requiredLevel == ROOT ==> r.value.accessLevel == ROOT))
  {
    if !HasBearer(authorization) then Err(MISSING_TOKEN)
    else
      var caller := Caller(authorization, users, j);
      if caller.None? then Err(INVALID_TOKEN)
      else
        var user := UsersDb.Record(caller.value, users[caller.value]);
        if requiredLevel == ROOT && user.accessLevel != ROOT then Err(INSUFFICIENT_PERMISSIONS)
        else Ok(user)
  }

  /** The "user" level never reports insufficient permissions: every authenticated
      caller passes, whatever their stored level. */
  lemma UserLevelAdmitsEveryCaller(authorization: Option<string>, users: map<string, UsersDb.UserRow>, j: Signer)
    ensures CheckPermissions(authorization, USER, users, j).Ok? <==> Caller(authorization, users, j).Some?
  {
  }

  /** A token issued for an existing user authenticates as that user's current
      row, and passes the gate exactly when the stored level meets it. */
  lemma IssuedTokenAuthenticates(j: Signer, id: string, users: map<string, UsersDb.UserRow>, requiredLevel: string)
    requires Sound(j) && id in users
    ensures CheckPermissions(Some(BearerHeader(GenerateToken(j, id))), requiredLevel, users, j)
      == if requiredLevel == ROOT && users[id].accessLevel != ROOT then Err(INSUFFICIENT_PERMISSIONS)
         else Ok(UsersDb.Record(id, users[id]))
  {
    HeaderRoundTrip(GenerateToken(j, id));
  }

  /** A token issued for a user who is no longer in the table is refused as invalid,
      at every required level. */
  lemma DeletedUserTokenRefused(j: Signer, id: string, users: map<string, UsersDb.UserRow>, requiredLevel: string)
    requires Sound(j) && id !in users
    ensures CheckPermissions(Some(BearerHeader(GenerateToken(j, id))), requiredLevel, users, j)
      == Err(INVALID_TOKEN)
  {
    HeaderRoundTrip(GenerateToken(j, id));
  }

  /** Lowering a root caller's stored level to "user" makes the same header fail the
      root gate: the token carries no role of its own. */
  lemma DemotionTakesEffect(authorization: Option<string>, users: map<string, UsersDb.UserRow>, j: Signer)
    requires CheckPermissions(authorization, ROOT, users, j).Ok?
    ensures var id := CheckPermissions(authorization, ROOT, users, j).value.id;
      CheckPermissions(authorization, ROOT, users[id := UsersDb.UserRow(USER, users[id].createdAt)], j)
        == Err(INSUFFICIENT_PERMISSIONS)
  {
  }

  /** generateUserId: draw uuids until one is not in the table. The unbounded
      stream of draws is the finite sequence `draws`, of which some element is
      fresh; the result is the first fresh one. */
  method GenerateUserId(users: UsersDb.UsersTable, draws: seq<string>) returns (id: string)
    requires exists i :: 0 <= i < |draws| && !users.UserExists(draws[i])
    ensures !users.UserExists(id)
    ensures exists i ::
      (&& 0 <= i < |draws| && draws[i] == id
       && forall k :: 0 <= k < i ==> users.UserExists(draws[k]))
  {
    var i := 0;
    id := draws[0];
    while users.UserExists(id)
      invariant 0 <= i < |draws| && id == draws[i]
      invariant forall k :: 0 <= k < i ==> users.UserExists(draws[k])
      invariant exists k :: i <= k < |draws| && !users.UserExists(draws[k])
      decreases |draws| - i
    {
      i := i + 1;
      id := draws[i];
    }
  }
}
