/** The user document (server/src/models/User.ts): its setters and validators, the pre-save
    hook that hashes a modified password, and `comparePassword`. */
module UserModel {
  import opened Wrappers
  import opened Text
  import opened Crypto

  /** A stored user; `passwordHash` is what the pre-save hook wrote. */
  datatype User = User(id: nat, name: string, email: string, passwordHash: string, phone: string)

  /** What a response may show of a user: everything but the password. */
  datatype PublicUser = PublicUser(id: nat, name: string, email: string, phone: string)

  function ToPublic(u: User): (p: PublicUser)
    ensures p.id == u.id && p.name == u.name && p.email == u.email && p.phone == u.phone
  {
    PublicUser(u.id, u.name, u.email, u.phone)
  }

  /** No character of `\S`'s complement, JavaScript's whitespace class. */
  predicate NoSpace(s: string) {
    forall i :: 0 <= i < |s| ==> !IsJsSpace(s[i])
  }

  /** The email pattern ^\S+@\S+\.\S+$ : no whitespace, an '@' with text before it, and a
      later '.' with text between the two and after it. */
  predicate EmailShape(e: string) {
    NoSpace(e) &&
    exists i, j | 0 < i && i + 1 < j && j + 1 < |e| :: e[i] == '@' && e[j] == '.'
  }

  /** The name's length bounds, on the trimmed name, in UTF-16 code units as Mongoose's
      `minlength` and `maxlength` count them. */
  predicate NameFits(name: string) {
    2 <= Utf16Length(name) <= 50
  }

  /** The messages of the failing validators, in field order (name, email, password, phone),
      each on the value its setters produced. */
  function UserViolations(name: string, email: string, password: string, phone: string): (msgs: seq<string>)
    ensures msgs == [] <==> NameFits(name) && EmailShape(email) && Utf16Length(password) >= 6 && phone != []
  {
    (if name == [] then ["Name is required"]
     else if Utf16Length(name) < 2 then ["Name must be at least 2 characters"]
     else if Utf16Length(name) > 50 then ["Name cannot exceed 50 characters"] else []) +
    (if email == [] then ["Email is required"]
     else if !EmailShape(email) then ["Please enter a valid email"] else []) +
    (if password == [] then ["Password is required"]
     else if Utf16Length(password) < 6 then ["Password must be at least 6 characters"] else []) +
    (if phone == [] then ["Phone number is required"] else [])
  }

  /** A single emoji is a name of two code units, and three make a six-unit password. */
  lemma EmojiLengths()
    ensures NameFits("😀")
    ensures UserViolations("😀", "a@b.c", "😀😀😀", "1") == []
  {
    EmailShapeExamples();
  }

  /** What every stored user satisfies. */
  predicate ValidUser(u: User) {
    NameFits(u.name) && Trim(u.name) == u.name &&
    EmailShape(u.email) && Lower(u.email) == u.email && Trim(u.email) == u.email &&
    u.phone != [] && Trim(u.phone) == u.phone
  }

  /** The pre-save hook: the password is hashed only when it was modified. */
  function PreSave(u: User, passwordModified: bool, h: Hasher, salt: nat): (r: User)
    ensures r.(passwordHash := u.passwordHash) == u
    ensures passwordModified ==> r.passwordHash == h.hash(u.passwordHash, salt)
    ensures !passwordModified ==> r == u
  {
    if passwordModified then u.(passwordHash := h.hash(u.passwordHash, salt)) else u
  }

  /** `User.create`: setters (trim name, email and phone; lower-case email), validators on the
      set values and the plain password, then the pre-save hook hashing the new password. */
  function CreateUser(id: nat, name: string, email: string, password: string, phone: string,
                      h: Hasher, salt: nat): (r: Result<User, seq<string>>)
    ensures r.Err? <==> UserViolations(Trim(name), EmailKey(email), password, Trim(phone)) != []
    ensures r.Err? ==> r.error != []
  {
    var n, e, ph := Trim(name), EmailKey(email), Trim(phone);
    var msgs := UserViolations(n, e, password, ph);
    if msgs != [] then Err(msgs)
    else Ok(PreSave(User(id, n, e, password, ph), true, h, salt))
  }

  /** A created user holds the values the setters made and the hash of the password. */
  lemma CreatedUserFields(id: nat, name: string, email: string, password: string, phone: string, h: Hasher, salt: nat)
    requires CreateUser(id, name, email, password, phone, h, salt).Ok?
    ensures var u := CreateUser(id, name, email, password, phone, h, salt).value;
      && u.id == id && u.name == Trim(name) && u.email == EmailKey(email) && u.phone == Trim(phone)
      && u.passwordHash == h.hash(password, salt) && Utf16Length(password) >= 6
  {
  }

  /** A created user satisfies every schema constraint. */
  lemma CreatedUserValid(id: nat, name: string, email: string, password: string, phone: string, h: Hasher, salt: nat)
    requires CreateUser(id, name, email, password, phone, h, salt).Ok?
    ensures ValidUser(CreateUser(id, name, email, password, phone, h, salt).value)
  {
    TrimIdempotent(name);
    TrimIdempotent(phone);
    TrimIdempotent(Lower(email));
    LowerIdempotent(email);
    TrimKeepsLower(Lower(email));
  }

  /** `comparePassword`: the candidate against the stored hash. */
  function ComparePassword(u: User, candidate: string, h: Hasher): bool {
    h.compare(candidate, u.passwordHash)
  }

  /** A user created with a password accepts exactly that password. */
  lemma CreatedUserAcceptsOnlyItsPassword(id: nat, name: string, email: string, password: string, phone: string,
                                          h: Hasher, salt: nat, candidate: string)
    requires SoundHasher(h)
    requires CreateUser(id, name, email, password, phone, h, salt).Ok?
    ensures ComparePassword(CreateUser(id, name, email, password, phone, h, salt).value, candidate, h)
            <==> candidate == password
  {
    var u := CreateUser(id, name, email, password, phone, h, salt).value;
    assert u.passwordHash == h.hash(password, salt) by {
      assert u == PreSave(User(id, Trim(name), EmailKey(email), password, Trim(phone)), true, h, salt);
    }
    if candidate != password {
      assert !h.compare(candidate, h.hash(password, salt));
    }
  }

  /** `User.findById`. */
  function FindById(users: seq<User>, id: nat): (r: Option<User>)
    ensures r.Some? ==> r.value in users && r.value.id == id
    ensures r.None? ==> forall u :: u in users ==> u.id != id
  {
    if users == [] then None
    else if users[0].id == id then Some(users[0])
    else FindById(users[1..], id)
  }

  /** The value the email setters (lower-case, then trim) make of an address; Mongoose
      applies them to query filters on `email` as well as to stored values. */
  function EmailKey(email: string): string {
    Trim(Lower(email))
  }

  /** Lower-casing before the setters changes nothing. */
  lemma EmailKeyOfLowered(email: string)
    ensures EmailKey(Lower(email)) == EmailKey(email)
  {
    LowerIdempotent(email);
  }

  /** `User.findOne({ email })`, with the filter value already through the setters. */
  function FindByEmail(users: seq<User>, key: string): (r: Option<User>)
    ensures r.Some? ==> r.value in users && r.value.email == key
    ensures r.None? ==> forall u :: u in users ==> u.email != key
  {
    if users == [] then None
    else if users[0].email == key then Some(users[0])
    else FindByEmail(users[1..], key)
  }

  /** The email shape rejects a missing '@', text missing before the '@', and whitespace. */
  lemma EmailShapeExamples()
    ensures EmailShape("a@b.c")
    ensures !EmailShape("ab.c")
    ensures !EmailShape("@b.c")
    ensures !EmailShape("a b@c.d")
    ensures !EmailShape("a\U{A0}b@c.de")
  {
    assert "a@b.c"[1] == '@' && "a@b.c"[3] == '.';
    assert IsSpace("a b@c.d"[1]);
    assert IsJsSpace("a\U{A0}b@c.de"[1]);
  }
}
