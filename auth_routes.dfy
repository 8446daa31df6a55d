/** The account routes (server/src/routes/auth.ts): token generation, registration, login,
    the current user and the profile update. The user store is a class over the sequence of
    stored users; registration and the profile update are its methods, each tied to a pure
    transition function, and login and /me are pure lookups. Responses carry a `PublicUser`,
    which has no password field. A thrown error reaches the error handler and is stated as
    `Failure(500, message)`. */
module AuthRoutes {
  import opened Wrappers
  import opened Http
  import opened Text
  import opened Config
  import opened Crypto
  import opened UserModel

  const DefaultExpiry := "7d"
  const MissingSecretError := "JWT_SECRET is not defined"
  const RegisterFieldsError := "Please provide all required fields: name, email, password, phone"
  const DuplicateEmailError := "User with this email already exists"
  const LoginFieldsError := "Please provide email and password"
  const BadCredentialsError := "Invalid email or password"
  const UserNotFoundError := "User not found"

  /** `generateToken`: fails when the secret is unset; otherwise signs exactly the user's id,
      email and name, with the configured expiry or '7d'. */
  function GenerateToken(u: User, env: Env, j: Signer): (r: Result<string, string>)
    ensures r.Err? <==> env.jwtSecret == ""
    ensures r.Err? ==> r.error == MissingSecretError
    ensures r.Ok? ==> r.value == j.sign(Claims(u.id, u.email, u.name), env.jwtSecret,
                                        if env.jwtExpiresIn != "" then env.jwtExpiresIn else DefaultExpiry)
  {
    if env.jwtSecret == "" then Err(MissingSecretError)
    else Ok(j.sign(Claims(u.id, u.email, u.name), env.jwtSecret,
                   if env.jwtExpiresIn != "" then env.jwtExpiresIn else DefaultExpiry))
  }

  /** A generated token verifies to the user's identity. */
  lemma TokenCarriesIdentity(u: User, env: Env, j: Signer)
    requires SoundSigner(j) && env.jwtSecret != ""
    ensures j.verify(GenerateToken(u, env, j).value, env.jwtSecret) == Some(Claims(u.id, u.email, u.name))
  {
  }

  /** What register and login answer with. */
  datatype Session = Session(user: PublicUser, token: string)

  datatype RegisterRequest = RegisterRequest(name: Option<string>, email: Option<string>, password: Option<string>,
                                             phone: Option<string>)
  datatype LoginRequest = LoginRequest(email: Option<string>, password: Option<string>)
  /** A field of a JSON request body the handler passes on unchecked: left out, null, or a
      string. */
  datatype BodyField = Absent | Null | Given(text: string)

  datatype ProfileRequest = ProfileRequest(name: BodyField, phone: BodyField)

  /** A handler's reply together with the user store it leaves behind. */
  datatype UserStep<T> = UserStep(reply: Reply<T>, users: seq<User>)

  predicate RegisterFieldsPresent(req: RegisterRequest) {
    Truthy(req.name) && Truthy(req.email) && Truthy(req.password) && Truthy(req.phone)
  }

  /** No two stored users share an email: the unique index. */
  predicate EmailsUnique(users: seq<User>) {
    forall i, j :: 0 <= i < j < |users| ==> users[i].email != users[j].email
  }

  predicate IdsIncreasing(users: seq<User>, nextId: nat) {
    && (forall i :: 0 <= i < |users| ==> users[i].id < nextId)
    && (forall i, j :: 0 <= i < j < |users| ==> users[i].id < users[j].id)
  }

  /** `User.create` as register calls it: the email already lower-cased. */
  function NewUser(nextId: nat, req: RegisterRequest, h: Hasher, salt: nat): Result<User, seq<string>>
    requires RegisterFieldsPresent(req)
  {
    CreateUser(nextId, req.name.value, Lower(req.email.value), req.password.value, req.phone.value, h, salt)
  }

  /** POST /api/auth/register: fields, then the duplicate check on the normalised email, then
      `User.create` (whose validation error answers 500), then the token. The user is stored
      before the token is made, so an unset secret answers 500 with the user already stored. */
  function RegisterResult(users: seq<User>, nextId: nat, req: RegisterRequest, env: Env, j: Signer,
                          h: Hasher, salt: nat): (s: UserStep<Session>)
    ensures !RegisterFieldsPresent(req) ==> s == UserStep(Failure(400, RegisterFieldsError), users)
    ensures RegisterFieldsPresent(req) && FindByEmail(users, EmailKey(Lower(req.email.value))).Some? ==>
      s == UserStep(Failure(400, DuplicateEmailError), users)
    ensures s.users == users || (
      && RegisterFieldsPresent(req) && FindByEmail(users, EmailKey(Lower(req.email.value))).None?
      && NewUser(nextId, req, h, salt).Ok? && s.users == users + [NewUser(nextId, req, h, salt).value])
    ensures RegisterFieldsPresent(req) && FindByEmail(users, EmailKey(Lower(req.email.value))).None? ==>
      if NewUser(nextId, req, h, salt).Ok? then
        && s.users == users + [NewUser(nextId, req, h, salt).value]
        && (s.reply.Success? <==> env.jwtSecret != "")
      else
        s == UserStep(Failure(500, NewUser(nextId, req, h, salt).error[0]), users)
    ensures s.reply.Success? ==>
      && s.users != users && s.reply.status == 201
      && s.reply.data.user == ToPublic(s.users[|users|])
      && Ok(s.reply.data.token) == GenerateToken(s.users[|users|], env, j)
    ensures s.reply.Failure? && s.users != users ==> s.reply == Failure(500, MissingSecretError)
  {
    if !RegisterFieldsPresent(req) then UserStep(Failure(400, RegisterFieldsError), users)
    else if FindByEmail(users, EmailKey(Lower(req.email.value))).Some? then UserStep(Failure(400, DuplicateEmailError), users)
    else
      match NewUser(nextId, req, h, salt)
      case Err(msgs) => UserStep(Failure(500, msgs[0]), users)
      case Ok(u) =>
        match GenerateToken(u, env, j)
        case Err(msg) => UserStep(Failure(500, msg), users + [u])
        case Ok(token) => UserStep(Success(201, Session(ToPublic(u), token)), users + [u])
  }

  /** A registered user is stored with the normalised email, the trimmed name and phone,
      and the hash of the password. */
  lemma RegisteredUserNormalised(users: seq<User>, nextId: nat, req: RegisterRequest, env: Env, j: Signer,
                                 h: Hasher, salt: nat)
    requires RegisterResult(users, nextId, req, env, j, h, salt).users != users
    ensures var u := RegisterResult(users, nextId, req, env, j, h, salt).users[|users|];
      && u.id == nextId
      && u.name == Trim(req.name.value) && u.email == EmailKey(req.email.value) && u.phone == Trim(req.phone.value)
      && u.passwordHash == h.hash(req.password.value, salt)
  {
    EmailKeyOfLowered(req.email.value);
    CreatedUserFields(nextId, req.name.value, Lower(req.email.value), req.password.value, req.phone.value, h, salt);
  }

  /** A registered user satisfies every schema constraint. */
  lemma RegisteredUserValid(users: seq<User>, nextId: nat, req: RegisterRequest, env: Env, j: Signer,
                            h: Hasher, salt: nat)
    requires RegisterResult(users, nextId, req, env, j, h, salt).users != users
    ensures ValidUser(RegisterResult(users, nextId, req, env, j, h, salt).users[|users|])
  {
    CreatedUserValid(nextId, req.name.value, Lower(req.email.value), req.password.value, req.phone.value, h, salt);
  }

  /** POST /api/auth/login: an unknown email and a wrong password get the same answer. */
  function LoginResult(users: seq<User>, req: LoginRequest, env: Env, j: Signer, h: Hasher): (r: Reply<Session>)
    ensures !(Truthy(req.email) && Truthy(req.password)) ==> r == Failure(400, LoginFieldsError)
    ensures r.Failure? && r.status == 401 ==> r.error == BadCredentialsError
    ensures r.Success? ==>
      && r.status == 200 && Truthy(req.email) && Truthy(req.password)
      && FindByEmail(users, EmailKey(Lower(req.email.value))).Some?
      && var u := FindByEmail(users, EmailKey(Lower(req.email.value))).value;
      && ComparePassword(u, req.password.value, h)
      && r.data.user == ToPublic(u) && Ok(r.data.token) == GenerateToken(u, env, j)
    ensures Truthy(req.email) && Truthy(req.password) ==>
      var found := FindByEmail(users, EmailKey(Lower(req.email.value)));
      if found.None? || !ComparePassword(found.value, req.password.value, h) then
        r == Failure(401, BadCredentialsError)
      else
        && (r.Success? <==> env.jwtSecret != "")
        && (env.jwtSecret == "" ==> r == Failure(500, MissingSecretError))
  {
    if !(Truthy(req.email) && Truthy(req.password)) then Failure(400, LoginFieldsError)
    else
      match FindByEmail(users, EmailKey(Lower(req.email.value)))
      case None => Failure(401, BadCredentialsError)
      case Some(u) =>
        if !ComparePassword(u, req.password.value, h) then Failure(401, BadCredentialsError)
        else
          match GenerateToken(u, env, j)
          case Err(msg) => Failure(500, msg)
          case Ok(token) => Success(200, Session(ToPublic(u), token))
  }

  /** GET /api/auth/me: the stored user of the token's id, or 404. */
  function MeResult(users: seq<User>, caller: nat): (r: Reply<PublicUser>)
    ensures r.Success? <==> exists u :: u in users && u.id == caller
    ensures r.Success? ==> r.status == 200 && r.data == ToPublic(FindById(users, caller).value)
    ensures r.Failure? ==> r == Failure(404, UserNotFoundError)
  {
    match FindById(users, caller)
    case None => Failure(404, UserNotFoundError)
    case Some(u) => Success(200, ToPublic(u))
  }

  /** Position of the user with this id. */
  function IndexById(users: seq<User>, id: nat): (k: Option<nat>)
    ensures k.Some? ==> k.value < |users| && users[k.value].id == id
    ensures k.None? ==> forall u :: u in users ==> u.id != id
  {
    if users == [] then None
    else if users[0].id == id then Some(0)
    else match IndexById(users[1..], id)
      case None => None
      case Some(k) => Some(k + 1)
  }

  /** The update validators (`runValidators`) on the name path: none when it is left out;
      otherwise `required` first, then the length bounds, on the trimmed value. */
  function NameUpdateViolations(f: BodyField): (msgs: seq<string>)
    ensures msgs == [] <==> (f.Absent? || (f.Given? && NameFits(Trim(f.text))))
    ensures |msgs| <= 1
  {
    match f
    case Absent => []
    case Null => ["Name is required"]
    case Given(t) =>
      if Trim(t) == [] then ["Name is required"]
      else if Utf16Length(Trim(t)) < 2 then ["Name must be at least 2 characters"]
      else if Utf16Length(Trim(t)) > 50 then ["Name cannot exceed 50 characters"]
      else []
  }

  /** The update validators on the phone path: only `required`, on the trimmed value. */
  function PhoneUpdateViolations(f: BodyField): (msgs: seq<string>)
    ensures msgs == [] <==> (f.Absent? || (f.Given? && Trim(f.text) != []))
    ensures |msgs| <= 1
  {
    match f
    case Absent => []
    case Null => ["Phone number is required"]
    case Given(t) => if Trim(t) == [] then ["Phone number is required"] else []
  }

  /** The update validators of `findByIdAndUpdate(..., { runValidators: true })`: every
      validator of each path the update names, `required` included, in field order. */
  function ProfileViolations(req: ProfileRequest): (msgs: seq<string>)
    ensures msgs == [] <==>
      && (req.name.Absent? || (req.name.Given? && NameFits(Trim(req.name.text))))
      && (req.phone.Absent? || (req.phone.Given? && Trim(req.phone.text) != []))
  {
    NameUpdateViolations(req.name) + PhoneUpdateViolations(req.phone)
  }

  /** The stored user with the given fields set (trimmed); absent fields are left as they are. */
  function ApplyProfile(u: User, req: ProfileRequest): (v: User)
    ensures v.id == u.id && v.email == u.email && v.passwordHash == u.passwordHash
    ensures v.name == (if req.name.Given? then Trim(req.name.text) else u.name)
    ensures v.phone == (if req.phone.Given? then Trim(req.phone.text) else u.phone)
  {
    var v := if req.name.Given? then u.(name := Trim(req.name.text)) else u;
    if req.phone.Given? then v.(phone := Trim(req.phone.text)) else v
  }

  /** PUT /api/auth/update: validation first, then the lookup; only name and phone change. */
  function ProfileResult(users: seq<User>, caller: nat, req: ProfileRequest): (s: UserStep<PublicUser>)
    ensures |s.users| == |users|
    ensures s.reply.Failure? ==> s.users == users
    ensures ProfileViolations(req) == [] && (forall u :: u in users ==> u.id != caller) ==>
      s.reply == Failure(404, UserNotFoundError)
    ensures ProfileViolations(req) != [] ==> s == UserStep(Failure(500, ProfileViolations(req)[0]), users)
    ensures ProfileViolations(req) == [] && (exists u :: u in users && u.id == caller) ==> s.reply.Success?
    ensures s.reply.Success? ==> exists k :: (0 <= k < |users| && users[k].id == caller &&
      s.users == users[k := ApplyProfile(users[k], req)] && s.reply == Success(200, ToPublic(s.users[k])))
  {
    var msgs := ProfileViolations(req);
    if msgs != [] then UserStep(Failure(500, msgs[0]), users)
    else
      match IndexById(users, caller)
      case None => UserStep(Failure(404, UserNotFoundError), users)
      case Some(k) =>
        var v := ApplyProfile(users[k], req);
        UserStep(Success(200, ToPublic(v)), users[k := v])
  }

  /** The stored users, as the account handlers change them. */
  class UserStore {
    var users: seq<User>
    var nextId: nat

    ghost predicate Valid()
      reads this
    {
      IdsIncreasing(users, nextId) && EmailsUnique(users)
    }

    constructor ()
      ensures Valid() && users == [] && nextId == 0
    {
      users := [];
      nextId := 0;
    }

    /** POST /api/auth/register; `salt` is the one bcrypt generates. */
    method Register(req: RegisterRequest, env: Env, j: Signer, h: Hasher, salt: nat) returns (r: Reply<Session>)
      requires Valid()
      modifies this
      ensures Valid()
      ensures UserStep(r, users) == RegisterResult(old(users), old(nextId), req, env, j, h, salt)
      ensures nextId == old(nextId) + |users| - |old(users)|
    {
      if !Truthy(req.name) || !Truthy(req.email) || !Truthy(req.password) || !Truthy(req.phone) {
        return Failure(400, RegisterFieldsError);
      }
      var existing := FindByEmail(users, EmailKey(Lower(req.email.value)));
      if existing.Some? {
        return Failure(400, DuplicateEmailError);
      }
      var created := NewUser(nextId, req, h, salt);
      if created.Err? {
        return Failure(500, created.error[0]);
      }
      var u := created.value;
      RegisterKeepsStoreValid(users, nextId, req, env, j, h, salt);
      users, nextId := users + [u], nextId + 1;
      var token := GenerateToken(u, env, j);
      if token.Err? {
        return Failure(500, token.error);
      }
      r := Success(201, Session(ToPublic(u), token.value));
    }

    /** PUT /api/auth/update for the caller. */
    method UpdateProfile(caller: nat, req: ProfileRequest) returns (r: Reply<PublicUser>)
      requires Valid()
      modifies this
      ensures Valid() && nextId == old(nextId)
      ensures UserStep(r, users) == ProfileResult(old(users), caller, req)
    {
      var msgs := ProfileViolations(req);
      if msgs != [] {
        return Failure(500, msgs[0]);
      }
      var k := IndexById(users, caller);
      if k.None? {
        return Failure(404, UserNotFoundError);
      }
      var v := ApplyProfile(users[k.value], req);
      users := users[k.value := v];
      r := Success(200, ToPublic(v));
    }
  }

  /** Registration keeps emails unique. */
  lemma RegisterKeepsEmailsUnique(users: seq<User>, nextId: nat, req: RegisterRequest, env: Env, j: Signer,
                                  h: Hasher, salt: nat)
    requires EmailsUnique(users)
    ensures EmailsUnique(RegisterResult(users, nextId, req, env, j, h, salt).users)
  {
    var s := RegisterResult(users, nextId, req, env, j, h, salt).users;
    if s != users {
      forall a, b | 0 <= a < b < |s|
        ensures s[a].email != s[b].email
      {
        if b == |users| {
          assert s[a] == users[a];
          assert s[a] in users;
        } else {
          assert s[a] == users[a] && s[b] == users[b];
        }
      }
    }
  }

  /** Registration keeps ids increasing and emails unique, and moves the next id on exactly
      when it stores a user. */
  lemma RegisterKeepsStoreValid(users: seq<User>, nextId: nat, req: RegisterRequest, env: Env, j: Signer,
                                h: Hasher, salt: nat)
    requires IdsIncreasing(users, nextId) && EmailsUnique(users)
    ensures var s := RegisterResult(users, nextId, req, env, j, h, salt).users;
      && EmailsUnique(s)
      && IdsIncreasing(s, nextId + |s| - |users|)
  {
    RegisterKeepsEmailsUnique(users, nextId, req, env, j, h, salt);
    var s := RegisterResult(users, nextId, req, env, j, h, salt).users;
    if s != users {
      RegisteredUserNormalised(users, nextId, req, env, j, h, salt);
      var u := s[|users|];
      assert s == users + [u];
      AppendKeepsIds(users, nextId, u);
    }
  }

  /** Appending a user with the next id keeps ids increasing. */
  lemma AppendKeepsIds(users: seq<User>, nextId: nat, u: User)
    requires IdsIncreasing(users, nextId) && u.id == nextId
    ensures IdsIncreasing(users + [u], nextId + 1)
  {
  }

  /** Registering an address that differs from a stored one only in case or surrounding
      blanks is refused. */
  lemma RegisterRefusesNormalisedDuplicate(users: seq<User>, nextId: nat, req: RegisterRequest, env: Env, j: Signer,
                                           h: Hasher, salt: nat, k: nat)
    requires RegisterFieldsPresent(req) && k < |users|
    requires users[k].email == EmailKey(req.email.value)
    ensures RegisterResult(users, nextId, req, env, j, h, salt) == UserStep(Failure(400, DuplicateEmailError), users)
  {
    EmailKeyOfLowered(req.email.value);
    assert users[k] in users;
  }

  /** Login answers an unknown email and a wrong password identically. */
  lemma LoginFailuresIndistinguishable(users: seq<User>, req: LoginRequest, env: Env, j: Signer, h: Hasher)
    requires Truthy(req.email) && Truthy(req.password)
    requires var found := FindByEmail(users, EmailKey(req.email.value));
      found.None? || !ComparePassword(found.value, req.password.value, h)
    ensures LoginResult(users, req, env, j, h) == Failure(401, BadCredentialsError)
  {
    EmailKeyOfLowered(req.email.value);
  }

  /** After registering, logging in with the same email and password succeeds as that user. */
  lemma LoginAfterRegister(users: seq<User>, nextId: nat, req: RegisterRequest, env: Env, j: Signer,
                           h: Hasher, salt: nat)
    requires SoundHasher(h)
    requires RegisterResult(users, nextId, req, env, j, h, salt).reply.Success?
    ensures var s := RegisterResult(users, nextId, req, env, j, h, salt);
      LoginResult(s.users, LoginRequest(req.email, req.password), env, j, h) == Success(200, s.reply.data)
  {
    var s := RegisterResult(users, nextId, req, env, j, h, salt);
    var u := NewUser(nextId, req, h, salt).value;
    var key := EmailKey(Lower(req.email.value));
    assert s.users == users + [u] && FindByEmail(users, key).None?;
    RegisteredUserNormalised(users, nextId, req, env, j, h, salt);
    EmailKeyOfLowered(req.email.value);
    assert u.email == key;
    FindByEmailAppended(users, u, key);
    assert u.passwordHash == h.hash(req.password.value, salt);
    assert ComparePassword(u, req.password.value, h);
    var token := GenerateToken(u, env, j).value;
    assert s.reply.data == Session(ToPublic(u), token);
  }

  /** Looking up an email that no stored user has, after appending a user who has it. */
  lemma {:induction false} FindByEmailAppended(users: seq<User>, u: User, key: string)
    requires FindByEmail(users, key).None? && u.email == key
    ensures FindByEmail(users + [u], key) == Some(u)
  {
    if users != [] {
      assert (users + [u])[1..] == users[1..] + [u];
      FindByEmailAppended(users[1..], u, key);
    }
  }

  /** With the secret unset, registration stores the user and still answers 500. */
  lemma RegisterWithoutSecretStoresUser(users: seq<User>, nextId: nat, req: RegisterRequest, env: Env, j: Signer,
                                        h: Hasher, salt: nat)
    requires env.jwtSecret == ""
    requires RegisterFieldsPresent(req) && FindByEmail(users, EmailKey(req.email.value)).None?
    requires NewUser(nextId, req, h, salt).Ok?
    ensures var s := RegisterResult(users, nextId, req, env, j, h, salt);
      s.reply == Failure(500, MissingSecretError) && |s.users| == |users| + 1
  {
    EmailKeyOfLowered(req.email.value);
  }

  /** The profile update never touches the email or the password hash. */
  lemma ProfileKeepsCredentials(users: seq<User>, caller: nat, req: ProfileRequest, i: nat)
    requires i < |users|
    ensures var s := ProfileResult(users, caller, req).users;
      s[i].id == users[i].id && s[i].email == users[i].email && s[i].passwordHash == users[i].passwordHash
  {
  }

  /** A given empty or blank phone number is refused by the `required` validator with 500,
      and nothing is stored, whether or not the caller exists. */
  lemma ProfileRefusesEmptyPhone(users: seq<User>, caller: nat, name: BodyField, phone: string)
    requires name.Absent? || (name.Given? && NameFits(Trim(name.text)))
    requires Trim(phone) == []
    ensures ProfileResult(users, caller, ProfileRequest(name, Given(phone))) ==
      UserStep(Failure(500, "Phone number is required"), users)
  {
    assert NameUpdateViolations(name) == [];
  }

  /** An update the validators accept keeps a valid user valid. */
  lemma ApplyProfileKeepsValid(u: User, req: ProfileRequest)
    requires ValidUser(u) && ProfileViolations(req) == []
    ensures ValidUser(ApplyProfile(u, req))
  {
    if req.name.Given? {
      TrimIdempotent(req.name.text);
    }
    if req.phone.Given? {
      TrimIdempotent(req.phone.text);
    }
  }

  /** A profile update keeps every stored user valid: the schema's rules hold after it for
      each user they held for before. */
  lemma ProfileKeepsUsersValid(users: seq<User>, caller: nat, req: ProfileRequest)
    requires forall u :: u in users ==> ValidUser(u)
    ensures forall u :: u in ProfileResult(users, caller, req).users ==> ValidUser(u)
  {
    if ProfileViolations(req) == [] && IndexById(users, caller).Some? {
      var k := IndexById(users, caller).value;
      var v := ApplyProfile(users[k], req);
      assert users[k] in users;
      ApplyProfileKeepsValid(users[k], req);
      ReplaceKeepsAll(users, k, v, ValidUser);
    }
  }

  /** Replacing one element by one that has a property every element has keeps it for all. */
  lemma ReplaceKeepsAll<T>(s: seq<T>, k: nat, v: T, p: T -> bool)
    requires k < |s| && p(v) && forall x :: x in s ==> p(x)
    ensures forall x :: x in s[k := v] ==> p(x)
  {
    forall x | x in s[k := v]
      ensures p(x)
    {
      var i :| 0 <= i < |s| && s[k := v][i] == x;
      if i != k {
        assert s[i] in s;
      }
    }
  }
}
