/** The registration endpoint: `registerSchema`, the connection check, the
    duplicate-email check, the insert with the hashed password and the
    password-free reply. There is no session: anybody may register. */
module RegisterRoute {
  import opened Common
  import opened Entities
  import opened Store
  import opened Validation

  const NameTooShort := "Name must be at least 2 characters"
  const InvalidEmail := "Invalid email address"
  const PasswordTooShort := "Password must be at least 6 characters"
  const ConnectionFailed := "Database connection failed. Please try again later."
  const EmailTaken := "User with this email already exists"

  predicate IsLetter(c: char) {
    ('a' <= c <= 'z') || ('A' <= c <= 'Z')
  }

  predicate IsAlphanumeric(c: char) {
    IsLetter(c) || ('0' <= c <= '9')
  }

  /** A character allowed before the `@`. */
  predicate LocalChar(c: char) {
    IsAlphanumeric(c) || c == '_' || c == '\'' || c == '+' || c == '-' || c == '.'
  }

  /** The part before the `@`: allowed characters only, not starting with
      a dot, no two dots in a row, and ending in a letter, digit, `_`, `+`
      or `-`. */
  predicate ValidLocalPart(s: string) {
    s != [] && s[0] != '.' && s[|s| - 1] != '.' && s[|s| - 1] != '\''
    && (forall i :: 0 <= i < |s| ==> LocalChar(s[i]))
    && (forall i :: 0 <= i < |s| - 1 ==> !(s[i] == '.' && s[i + 1] == '.'))
  }

  /** The part after the `@`: one or more labels of letters, digits and
      `-`, each starting with a letter or digit and followed by a dot,
      then a top-level domain of at least two letters. */
  predicate ValidDomain(d: string) {
    exists k :: 0 < k < |d| - 2 && d[k] == '.' && IsAlphanumeric(d[0])
      && (forall j :: k < j < |d| ==> IsLetter(d[j]))
      && (forall j :: 0 <= j < k ==> IsAlphanumeric(d[j]) || d[j] == '-' || d[j] == '.')
      && (forall j :: 0 <= j < k && d[j] == '.' ==> IsAlphanumeric(d[j + 1]))
  }

  /** `z.string().email()`: a valid local part, `@`, a valid domain (the
      pattern zod 3 uses, letters matched in either case). */
  predicate ValidEmail(s: string) {
    exists k :: 0 <= k < |s| && s[k] == '@' && ValidLocalPart(s[..k]) && ValidDomain(s[k + 1..])
  }

  lemma ExampleDomainValid()
    ensures ValidDomain("uni.edu")
  {
    var d := "uni.edu";
    assert d[0] == 'u' && d[1] == 'n' && d[2] == 'i' && d[3] == '.';
    assert d[4] == 'e' && d[5] == 'd' && d[6] == 'u';
    assert forall j :: 3 < j < |d| ==> IsLetter(d[j]) by {
      forall j | 3 < j < |d| ensures IsLetter(d[j]) {
        assert j == 4 || j == 5 || j == 6;
      }
    }
    assert forall j :: 0 <= j < 3 ==> IsAlphanumeric(d[j]) && d[j] != '.' by {
      forall j | 0 <= j < 3 ensures IsAlphanumeric(d[j]) && d[j] != '.' {
        assert j == 0 || j == 1 || j == 2;
      }
    }
  }

  /** A usual address passes. */
  lemma UsualAddressValid()
    ensures ValidEmail("ana@uni.edu")
  {
    var s := "ana@uni.edu";
    assert s[..3] == "ana";
    assert s[4..] == "uni.edu";
    ExampleDomainValid();
  }

  /** An address without a dot after the `@` fails. */
  lemma DotlessDomainInvalid()
    ensures !ValidEmail("ana@uni")
  {
    var s := "ana@uni";
    forall k | 0 <= k < |s| && s[k] == '@'
      ensures !ValidDomain(s[k + 1..])
    {
      assert k == 3;
      assert s[4..] == "uni";
    }
  }

  /** The JSON body of a registration. */
  datatype RegisterBody = RegisterBody(name: Option<string>, email: Option<string>, password: Option<string>)

  datatype Registration = Registration(name: string, email: string, password: string)

  /** `registerSchema.parse`, fields in the order name, email, password. */
  function ParseRegistration(b: RegisterBody): (r: Result<Registration>)
    ensures r.Success? <==>
      b.name.Some? && Utf16Length(b.name.value) >= 2 && b.email.Some? && ValidEmail(b.email.value)
      && b.password.Some? && Utf16Length(b.password.value) >= 6
    ensures r.Success? ==> r.value == Registration(b.name.value, b.email.value, b.password.value)
    ensures b.name.None? ==> r == Failure(RequiredMessage)
    ensures b.name.Some? && Utf16Length(b.name.value) < 2 ==> r == Failure(NameTooShort)
    ensures b.name.Some? && Utf16Length(b.name.value) >= 2 && b.email.None? ==> r == Failure(RequiredMessage)
    ensures b.name.Some? && Utf16Length(b.name.value) >= 2 && b.email.Some? && !ValidEmail(b.email.value)
      ==> r == Failure(InvalidEmail)
    ensures b.name.Some? && Utf16Length(b.name.value) >= 2 && b.email.Some? && ValidEmail(b.email.value)
      && b.password.Some? && Utf16Length(b.password.value) < 6
      ==> r == Failure(PasswordTooShort)
    ensures b.name.Some? && Utf16Length(b.name.value) >= 2 && b.email.Some? && ValidEmail(b.email.value) && b.password.None?
      ==> r == Failure(RequiredMessage)
  {
    var name := StringField(b.name, 2, NameTooShort);
    var email := if b.email.None? then Failure(RequiredMessage)
                 else if ValidEmail(b.email.value) then Success(b.email.value) else Failure(InvalidEmail);
    var password := StringField(b.password, 6, PasswordTooShort);
    var first := First(ErrorOf(name), First(ErrorOf(email), ErrorOf(password)));
    if first.Some? then Failure(first.value)
    else Success(Registration(name.value, email.value, password.value))
  }

  /** The reply's user: the stored record without its password. */
  function WithoutPassword(u: User): (p: PublicUser)
    ensures p.id == u.id && p.name == u.name && p.email == u.email
  {
    PublicUser(u.id, u.name, u.email)
  }

  /** A password of three emoji is six UTF-16 code units long, so it meets
      `min(6)` although it holds only three characters. */
  lemma EmojiPasswordAccepted()
    ensures ParseRegistration(RegisterBody(Some("Ana"), Some("ana@uni.edu"), Some("\U{1F600}\U{1F600}\U{1F600}"))).Success?
  {
    UsualAddressValid();
    var p := "\U{1F600}\U{1F600}\U{1F600}";
    assert p[1..][1..][1..] == [];
    assert Utf16Length(p) == 6;
  }

  /** Two stored users with the same id, name and e-mail reply alike,
      whatever their passwords: the reply carries nothing of the password. */
  lemma WithoutPasswordForgets(u: User, password: string)
    ensures WithoutPassword(u.(password := password)) == WithoutPassword(u)
  {
  }

  /** POST. `connected` is whether `$connect` succeeds, `hash` is the
      password hash, `newId` the id the database assigns. 400 with the
      first schema message; 500 without a connection; 400 when the e-mail
      is taken; else the user with the hashed password is appended and
      returned without the password with 201. Nothing is stored on any
      failure, and afterwards the e-mail belongs to exactly one user. */
  method Register(db: Database, body: RegisterBody, connected: bool, hash: string -> string, newId: Id)
    returns (reply: Reply<PublicUser>)
    requires db.Valid()
    requires !HasKey(db.users, (u: User) => u.id, newId)
    modifies db`users
    ensures db.Valid()
    ensures ParseRegistration(body).Failure? ==> reply == Fail(StatusBadRequest, ParseRegistration(body).error)
    ensures ParseRegistration(body).Success? && !connected ==> reply == Fail(StatusServerError, ConnectionFailed)
    ensures ParseRegistration(body).Success? && connected
      && HasKey(old(db.users), (u: User) => u.email, ParseRegistration(body).value.email)
      ==> reply == Fail(StatusBadRequest, EmailTaken)
    ensures reply.Fail? ==> db.users == old(db.users)
    ensures reply.Ok? ==>
      ParseRegistration(body).Success? && connected && reply.status == StatusCreated
      && var data := ParseRegistration(body).value;
      var user := User(newId, data.name, data.email, hash(data.password));
      db.users == old(db.users) + [user]
      && reply.value == WithoutPassword(user)
      && (forall i :: 0 <= i < |db.users| ==> (db.users[i].email == data.email <==> i == |db.users| - 1))
    ensures ParseRegistration(body).Success? && connected
      && !HasKey(old(db.users), (u: User) => u.email, ParseRegistration(body).value.email)
      ==> reply.Ok?
  {
    var parsed := ParseRegistration(body);
    if parsed.Failure? {
      return Fail(StatusBadRequest, parsed.error);
    }
    if !connected {
      return Fail(StatusServerError, ConnectionFailed);
    }
    var data := parsed.value;
    if HasKey(db.users, (u: User) => u.email, data.email) {
      return Fail(StatusBadRequest, EmailTaken);
    }
    var user := User(newId, data.name, data.email, hash(data.password));
    UniqueKeysAppend(db.users, (u: User) => u.id, user);
    UniqueKeysAppend(db.users, (u: User) => u.email, user);
    db.users := db.users + [user];
    return Ok(StatusCreated, WithoutPassword(user));
  }
}
