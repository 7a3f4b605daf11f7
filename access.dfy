/** middleware/authMiddleware.js and the read-only parts of routes/authRoutes.js:
    the `protect` guard chain, `authorize(...roles)`, token issuance, login and
    GET /me. jsonwebtoken and bcrypt are opaque: `sign`, `verify` and `compare`
    are parameters, so every property below holds whatever they compute. */
module Access {
  import opened Schemas
  import opened Http
  import Text

  /** The claims `generateToken` signs. */
  datatype TokenPayload = TokenPayload(id: UserId, role: Role)

  /** `generateToken(id, role)`: jwt.sign over exactly the id and the role (the
      30-day expiry lives inside the opaque `sign`). */
  function GenerateToken(sign: TokenPayload -> string, id: UserId, role: Role): string {
    sign(TokenPayload(id, role))
  }

  /** The outcome of a middleware: call `next` with `req.user`, or answer. */
  datatype Gate = Proceed(user: User) | Halt(response: Response)

  /** protect's header test: present, non-empty and starting with "Bearer". */
  predicate HasBearer(authorization: Option<string>) {
    authorization.Some? && Text.StartsWith(authorization.value, "Bearer")
  }

  /** What jwt.verify yields for `header.split(" ")[1]`; it throws on an undefined
      or empty token, whatever the secret. */
  function Decode(header: string, verify: string -> Option<TokenPayload>): Option<TokenPayload> {
    var token := Text.SecondField(header);
    if token.None? || token.value == "" then None else verify(token.value)
  }

  /** `protect`: the guard chain that ends in `req.user = user; next()`. The user
      is looked up afresh, so the block flag and the role are those of the stored
      record, not of the token. */
  function Protect(authorization: Option<string>, verify: string -> Option<TokenPayload>,
                   users: map<UserId, User>): (g: Gate)
    ensures !HasBearer(authorization) ==> g == Halt(Fail(401, NoTokenProvided))
    ensures HasBearer(authorization) && Decode(authorization.value, verify).None? ==>
              g == Halt(Fail(401, TokenInvalid))
    ensures HasBearer(authorization) && Decode(authorization.value, verify).Some? ==>
              var id := Decode(authorization.value, verify).value.id;
              && (id !in users ==> g == Halt(Fail(401, UserNotFound)))
              && (id in users && users[id].isBlocked ==> g == Halt(Fail(403, AccountBlocked)))
              && (id in users && !users[id].isBlocked ==> g == Proceed(users[id]))
    ensures g.Proceed? ==> g.user in users.Values && !g.user.isBlocked
  {
    if !HasBearer(authorization) then
      Halt(Fail(401, NoTokenProvided))
    else
      match Decode(authorization.value, verify)
      case None => Halt(Fail(401, TokenInvalid))
      case Some(claims) =>
        if claims.id !in users then Halt(Fail(401, UserNotFound))
        else if users[claims.id].isBlocked then Halt(Fail(403, AccountBlocked))
        else Proceed(users[claims.id])
  }

  /** `authorize(...roles)`: membership of the stored role in the list. */
  function Authorize(roles: seq<Role>, user: User): (g: Gate)
    ensures g.Proceed? <==> user.role in roles
    ensures g.Proceed? ==> g.user == user
    ensures g.Halt? ==> g.response == Fail(403, AccessDenied)
  {
    if user.role in roles then Proceed(user) else Halt(Fail(403, AccessDenied))
  }

  /** A token issued by `generateToken` and sent as "Bearer <token>" lets its user
      through exactly while the stored record is not blocked, whatever role the
      token carries; the block therefore applies to tokens issued before it.
      The requirements are what jsonwebtoken guarantees: verify undoes sign, and
      a signed token is a non-empty string without spaces. */
  lemma {:induction false} IssuedTokenPassesProtect(
    sign: TokenPayload -> string, verify: string -> Option<TokenPayload>,
    users: map<UserId, User>, id: UserId, role: Role)
    requires verify(sign(TokenPayload(id, role))) == Some(TokenPayload(id, role))
    requires ' ' !in sign(TokenPayload(id, role)) && sign(TokenPayload(id, role)) != ""
    requires id in users
    ensures var g := Protect(Some("Bearer " + GenerateToken(sign, id, role)), verify, users);
            g == if users[id].isBlocked then Halt(Fail(403, AccountBlocked)) else Proceed(users[id])
  {
    var t := GenerateToken(sign, id, role);
    BearerHeader(t);
  }

  lemma BearerHeader(t: string)
    requires ' ' !in t
    ensures HasBearer(Some("Bearer " + t))
    ensures Text.SecondField("Bearer " + t) == Some(t)
  {
    Text.SecondFieldOfJoin("Bearer", t);
    assert "Bearer" + " " + t == "Bearer " + t;
    assert ("Bearer " + t)[..6] == "Bearer";
  }

  /** The claims of an issued token are the id and the role and nothing else:
      while verify undoes sign, two issued tokens are equal only for the same
      id and role. */
  lemma TokensIdentifyClaims(sign: TokenPayload -> string, verify: string -> Option<TokenPayload>,
                             id1: UserId, role1: Role, id2: UserId, role2: Role)
    requires verify(sign(TokenPayload(id1, role1))) == Some(TokenPayload(id1, role1))
    requires verify(sign(TokenPayload(id2, role2))) == Some(TokenPayload(id2, role2))
    requires GenerateToken(sign, id1, role1) == GenerateToken(sign, id2, role2)
    ensures id1 == id2 && role1 == role2
  {
  }

  /** The header test is a case-sensitive prefix test, not a scheme followed by
      a space: "Bearer" alone passes it and is then refused as an invalid token,
      while "bearer ..." and an absent header count as no token at all. */
  lemma BearerIsAPrefixTest(verify: string -> Option<TokenPayload>, users: map<UserId, User>)
    ensures HasBearer(Some("Bearer")) && HasBearer(Some("Bearerxyz"))
    ensures !HasBearer(Some("bearer xyz")) && !HasBearer(Some("")) && !HasBearer(None)
    ensures Protect(Some("Bearer"), verify, users) == Halt(Fail(401, TokenInvalid))
    ensures Protect(Some("bearer xyz"), verify, users) == Halt(Fail(401, NoTokenProvided))
  {
    assert "Bearerxyz"[..6] == "Bearer";
    assert "bearer xyz"[..6] != "Bearer" by { assert "bearer xyz"[0] == 'b'; }
    assert ' ' !in "Bearer";
  }

  /** The token is the second space-separated word: later words are ignored,
      and a header without a space or with nothing after it carries none. */
  lemma {:induction false} DecodeSecondWord(verify: string -> Option<TokenPayload>, t: string, rest: string)
    requires ' ' !in t && t != ""
    ensures Decode("Bearer " + t, verify) == verify(t)
    ensures Decode("Bearer " + t + " " + rest, verify) == verify(t)
    ensures Decode("Bearer" + t, verify) == None
    ensures Decode("Bearer ", verify) == None
  {
    BearerHeader(t);
    Text.SecondFieldOfWords("Bearer", t, rest);
    assert "Bearer" + " " + t + " " + rest == "Bearer " + t + " " + rest;
    assert ' ' !in "Bearer" + t by {
      forall k | 0 <= k < |"Bearer" + t| ensures ("Bearer" + t)[k] != ' ' {
        if k >= 6 { assert ("Bearer" + t)[k] == t[k - 6]; }
      }
    }
    Text.FindAfterPrefix("Bearer", " ", ' ');
    assert ("Bearer " )[7..] == "";
  }

  // ------------------------------------------------------------ register

  /** `role || "buyer"` followed by the role enum validator: an absent or empty
      role is the default, any other must be one of the three names, admin
      included. */
  function ResolveRole(role: Option<string>): (r: Option<Role>)
    ensures role.None? || role.value == "" ==> r == Some(DefaultRole)
    ensures role.Some? && role.value != "" ==> forall x :: r == Some(x) <==> RoleName(x) == role.value
  {
    if role.None? || role.value == "" then Some(DefaultRole) else ParseRole(role.value)
  }

  /** Any client may register as an administrator. */
  lemma AdminSelfRegistration()
    ensures ResolveRole(Some("admin")) == Some(Admin)
  {
  }

  /** `User.findOne({ email })` finds a stored user with that email. */
  predicate EmailTaken(users: map<UserId, User>, email: string) {
    exists k :: k in users && users[k].email == email
  }

  /** `User.findOne({ email })` finds a document. An absent email drops the
      filter, and then any stored user matches. */
  predicate FindsUser(users: map<UserId, User>, email: Option<string>) {
    match email
    case None => users != map[]
    case Some(e) => EmailTaken(users, e)
  }

  /** The schema's unique index on `email`. */
  predicate UniqueEmails(users: map<UserId, User>) {
    forall a, b :: a in users && b in users && users[a].email == users[b].email ==> a == b
  }

  // ------------------------------------------------------------ login

  /** `User.findOne({ email })` over a list: the first document with that email. */
  function FindByEmail(users: seq<User>, email: string): (r: Option<User>)
    ensures r.None? <==> forall u :: u in users ==> u.email != email
    ensures r.Some? ==> r.value in users && r.value.email == email
  {
    if |users| == 0 then None
    else if users[0].email == email then Some(users[0])
    else FindByEmail(users[1..], email)
  }

  /** `User.findOne({ email })` with the field as the request body carries it:
      an absent email matches the first document of the collection. */
  function FindOne(users: seq<User>, email: Option<string>): (r: Option<User>)
    ensures email.None? ==> (r.None? <==> |users| == 0) && (r.Some? ==> r.value == users[0])
    ensures email.Some? ==> (r.None? <==> forall u :: u in users ==> u.email != email.value)
    ensures r.Some? ==> r.value in users && (email.Some? ==> r.value.email == email.value)
  {
    match email
    case None => if |users| == 0 then None else Some(users[0])
    case Some(e) => FindByEmail(users, e)
  }

  /** What login answers once a user was found: bcrypt.compare throws on an
      absent password (the catch answers 500), and a mismatch gives the same
      400 as an unknown email. */
  function CheckPassword(u: User, password: Option<string>, compare: (string, string) -> bool,
                         sign: TokenPayload -> string): (r: Response)
    ensures password.None? ==> r == Fail(500, HashError)
    ensures password.Some? && !compare(password.value, u.password) ==> r == Fail(400, InvalidEmailOrPassword)
    ensures password.Some? && compare(password.value, u.password) ==>
              r.code == 200 && r.body.Auth? && r.body.token == GenerateToken(sign, u.id, u.role)
              && r.body.profile.id == u.id && r.body.profile.role == u.role
  {
    match password
    case None => Fail(500, HashError)
    case Some(p) =>
      if !compare(p, u.password) then Fail(400, InvalidEmailOrPassword)
      else Response(200, Auth(LoginSuccessful, GenerateToken(sign, u.id, u.role), ProfileOf(u)))
  }

  /** POST /auth/login over the user collection. With a password given, an
      unknown email and a wrong password give the same reply; a blocked user
      still logs in. */
  function Login(users: seq<User>, email: Option<string>, password: Option<string>,
                 compare: (string, string) -> bool, sign: TokenPayload -> string): (r: Response)
    ensures (email.Some? && forall u :: u in users ==> u.email != email.value) ==>
              r == Fail(400, InvalidEmailOrPassword)
    ensures email.None? && |users| == 0 ==> r == Fail(400, InvalidEmailOrPassword)
    ensures email.Some? && password.Some? ==>
              r == Fail(400, InvalidEmailOrPassword) ||
              exists u :: u in users && u.email == email.value && compare(password.value, u.password)
    ensures FindOne(users, email).Some? ==> r == CheckPassword(FindOne(users, email).value, password, compare, sign)
    ensures r.code == 200 || r == Fail(400, InvalidEmailOrPassword) || r == Fail(500, HashError)
  {
    match FindOne(users, email)
    case None => Fail(400, InvalidEmailOrPassword)
    case Some(u) => CheckPassword(u, password, compare, sign)
  }

  /** Without a password, login tells a registered email (500) from an unknown
      one (400). */
  lemma AbsentPasswordRevealsAccount(users: seq<User>, email: string,
                                     compare: (string, string) -> bool, sign: TokenPayload -> string)
    ensures Login(users, Some(email), None, compare, sign) ==
            if exists u :: u in users && u.email == email then Fail(500, HashError)
            else Fail(400, InvalidEmailOrPassword)
  {
    if exists u :: u in users && u.email == email {
      var u :| u in users && u.email == email;
      assert FindOne(users, Some(email)).Some?;
    }
  }

  // ------------------------------------------------------------ GET /me

  /** GET /auth/me: its own token handling, without the "Bearer" test and
      without the block check protect makes. */
  function Me(authorization: Option<string>, verify: string -> Option<TokenPayload>,
              users: map<UserId, User>): (r: Response)
    ensures var header := if authorization.Some? then authorization.value else "";
            var token := Text.SecondField(header);
            && (token.None? || token.value == "" ==> r == Fail(401, NoTokenProvided))
            && (token.Some? && token.value != "" ==>
                  match verify(token.value)
                  case None => r == Fail(401, InvalidToken)
                  case Some(claims) =>
                    r == if claims.id in users then Response(200, UserDoc(Public(users[claims.id])))
                         else Fail(404, UserNotFound))
  {
    var header := if authorization.Some? then authorization.value else "";
    var token := Text.SecondField(header);
    if token.None? || token.value == "" then Fail(401, NoTokenProvided)
    else
      match verify(token.value)
      case None => Fail(401, InvalidToken)
      case Some(claims) =>
        if claims.id !in users then Fail(404, UserNotFound)
        else Response(200, UserDoc(Public(users[claims.id])))
  }

  /** With the same valid token, protect turns a blocked user away while /me
      still answers with the user's record. */
  lemma {:induction false} MeIgnoresBlock(verify: string -> Option<TokenPayload>,
                                          users: map<UserId, User>, t: string, role: Role, id: UserId)
    requires ' ' !in t && t != ""
    requires verify(t) == Some(TokenPayload(id, role))
    requires id in users && users[id].isBlocked
    ensures Protect(Some("Bearer " + t), verify, users) == Halt(Fail(403, AccountBlocked))
    ensures Me(Some("Bearer " + t), verify, users) == Response(200, UserDoc(Public(users[id])))
  {
    BearerHeader(t);
  }
}
