/** The `Users` table of the backend: `id` is the auto-incremented primary
    key, `name` and `password` are NOT NULL, `email` is NOT NULL, unique and
    validated as an e-mail address. The `password` column holds what the
    hooks below leave there: the bcrypt hash of the plaintext. */
module UserModel {
  import opened Common
  import opened Crypto

  datatype User = User(id: nat, name: string, email: string, password: string, createdAt: int)

  /** What leaves the server about a user: `{ id, name, email }`. The type
      has no room for the password column. */
  datatype PublicUser = PublicUser(id: nat, name: string, email: string)

  function Public(u: User): (p: PublicUser)
    ensures p.id == u.id && p.name == u.name && p.email == u.email
  {
    PublicUser(u.id, u.name, u.email)
  }

  /** Where a left-to-right scan of an address stands: before the first
      character, in the local part, just past the `@`, in a domain with no
      dot yet, right after a dot of the domain, or past a dot and a
      character that is not one. */
  datatype EmailPart = Start | LocalPart | AfterAt | NoDot | AtDot | PastDot

  /** The rest `s` of an address, scanned from `part`, completes the shape
      `local@domain.tld`. */
  predicate EmailFrom(s: string, part: EmailPart)
    decreases |s|
  {
    if s == [] then part == PastDot
    else
      var c := s[0];
      c != ' ' &&
      match part
      case Start => c != '@' && EmailFrom(s[1..], LocalPart)
      case LocalPart => EmailFrom(s[1..], if c == '@' then AfterAt else LocalPart)
      case AfterAt => c != '@' && c != '.' && EmailFrom(s[1..], NoDot)
      case NoDot => c != '@' && EmailFrom(s[1..], if c == '.' then AtDot else NoDot)
      case AtDot => c != '@' && EmailFrom(s[1..], if c == '.' then AtDot else PastDot)
      case PastDot => c != '@' && EmailFrom(s[1..], if c == '.' then AtDot else PastDot)
  }

  /** The `isEmail` validator, simplified to the shape `local@domain.tld`:
      no spaces, exactly one `@` with a non-empty part before it, and a
      domain that contains a dot and neither starts nor ends with one. */
  predicate IsEmail(s: string) {
    EmailFrom(s, Start)
  }

  /** No `@` and no space in `s`. */
  ghost predicate Plain(s: string) {
    forall k :: 0 <= k < |s| ==> s[k] != '@' && s[k] != ' '
  }

  /** A domain: plain, with a dot, and neither starting nor ending with
      one. */
  ghost predicate Domain(d: string) {
    Plain(d) && d != [] && d[0] != '.' && d[|d| - 1] != '.' && '.' in d
  }

  /** The accepting scan of the domain states, one state at a time. */
  lemma {:induction false} PastDotShape(s: string)
    ensures EmailFrom(s, PastDot) <==> Plain(s) && (s == [] || s[|s| - 1] != '.')
    ensures EmailFrom(s, AtDot) <==> Plain(s) && s != [] && s[|s| - 1] != '.'
    decreases |s|
  {
    if s != [] {
      PastDotShape(s[1..]);
      assert forall k :: 1 <= k < |s| ==> s[k] == s[1..][k - 1];
    }
  }

  lemma {:induction false} NoDotShape(s: string)
    ensures EmailFrom(s, NoDot) <==> Plain(s) && '.' in s && s[|s| - 1] != '.'
    decreases |s|
  {
    if s != [] {
      var t := s[1..];
      NoDotShape(t);
      PastDotShape(t);
      assert forall k :: 1 <= k < |s| ==> s[k] == t[k - 1];
      assert s == [s[0]] + t;
      assert Plain(s) <==> s[0] != '@' && s[0] != ' ' && Plain(t);
      assert '.' in s <==> s[0] == '.' || '.' in t;
      assert t != [] ==> s[|s| - 1] == t[|t| - 1];
    }
  }

  lemma {:induction false} AfterAtShape(s: string)
    ensures EmailFrom(s, AfterAt) <==> Domain(s)
  {
    if s != [] {
      NoDotShape(s[1..]);
      assert forall k :: 1 <= k < |s| ==> s[k] == s[1..][k - 1];
      assert s == [s[0]] + s[1..];
    }
  }

  /** `s[i]` is the `@` of the shape `local@domain`: nothing before it is
      an `@` or a space, and a domain follows it. */
  ghost predicate AtSign(s: string, i: int) {
    && 0 <= i < |s| && s[i] == '@'
    && (forall k :: 0 <= k < i ==> s[k] != '@' && s[k] != ' ')
    && Domain(s[i + 1..])
  }

  /** The shape `local@domain` read off directly, with a non-empty local
      part. */
  ghost predicate EmailShape(s: string) {
    exists i :: 0 < i && AtSign(s, i)
  }

  /** Dropping the first character moves the `@` one place left. */
  lemma AtSignShift(s: string, i: int)
    requires 0 < i < |s|
    ensures AtSign(s, i) <==> s[0] != '@' && s[0] != ' ' && AtSign(s[1..], i - 1)
  {
    var t := s[1..];
    assert t[i - 1] == s[i] && t[i - 1 + 1..] == s[i + 1..];
    assert forall k :: 0 <= k < i - 1 ==> t[k] == s[k + 1];
  }

  lemma {:induction false} LocalPartShape(s: string)
    ensures EmailFrom(s, LocalPart) <==> exists i :: AtSign(s, i)
    decreases |s|
  {
    if s != [] {
      var t := s[1..];
      LocalPartShape(t);
      AfterAtShape(t);
      if exists i :: AtSign(s, i) {
        var i :| AtSign(s, i);
        if i > 0 {
          AtSignShift(s, i);
        }
      }
      if s[0] == '@' {
        assert s[0 + 1..] == t;
        assert Domain(t) ==> AtSign(s, 0);
      }
      if s[0] != '@' && s[0] != ' ' && EmailFrom(t, LocalPart) {
        var j :| AtSign(t, j);
        AtSignShift(s, j + 1);
      }
    }
  }

  /** `IsEmail` accepts exactly the addresses of the shape
      `local@domain`. */
  lemma IsEmailShape(s: string)
    ensures IsEmail(s) <==> EmailShape(s)
  {
    if s != [] {
      var t := s[1..];
      LocalPartShape(t);
      if EmailShape(s) {
        var i :| 0 < i && AtSign(s, i);
        AtSignShift(s, i);
      }
      if IsEmail(s) {
        var j :| AtSign(t, j);
        AtSignShift(s, j + 1);
      }
    }
  }

  /** The validation failures `User.create` reports before anything is
      stored: missing NOT NULL columns, then a malformed e-mail. */
  datatype Violation = NullColumn(column: string) | NotAnEmail

  function Violations(name: Option<string>, email: Option<string>, password: Option<string>): (r: seq<Violation>)
    ensures r == [] <==> name.Some? && email.Some? && password.Some? && IsEmail(email.value)
    ensures NullColumn("name") in r <==> name.None?
    ensures NullColumn("password") in r <==> password.None?
  {
    (if name.None? then [NullColumn("name")] else [])
    + (if email.None? then [NullColumn("email")] else if !IsEmail(email.value) then [NotAnEmail] else [])
    + (if password.None? then [NullColumn("password")] else [])
  }

  /** The `beforeCreate` hook: a truthy plaintext is replaced by its hash
      under a fresh salt; an empty password is left as it is. */
  function HashOnCreate(h: Hasher, password: string, salt: string): (stored: string)
    ensures password != "" ==> stored == h.hash(password, salt)
    ensures password == "" ==> stored == ""
  {
    if password != "" then h.hash(password, salt) else password
  }

  /** Only an empty plaintext is ever stored as it is. */
  lemma StoredIsPlaintextOnlyWhenEmpty(h: Hasher, password: string, salt: string)
    requires SoundHasher(h)
    ensures HashOnCreate(h, password, salt) == password <==> password == ""
  {
  }

  /** The `beforeUpdate` hook: `next` is the row about to be written over
      `previous`; its password is re-hashed only when the column changed. */
  function HashOnUpdate(h: Hasher, previous: User, next: User, salt: string): (written: User)
    ensures written.(password := next.password) == next
    ensures next.password == previous.password ==> written == next
    ensures next.password != previous.password ==> written.password == h.hash(next.password, salt)
  {
    if next.password != previous.password then next.(password := h.hash(next.password, salt)) else next
  }

  /** `user.isValidPassword(p)`: bcrypt's comparison of `p` with the stored
      hash; an exception from bcrypt is passed on (`None`), never read as a
      mismatch. */
  function IsValidPassword(h: Hasher, u: User, plaintext: string): (r: Option<bool>)
    ensures SoundHasher(h) && (exists salt :: u.password == h.hash(plaintext, salt)) ==> r == Some(true)
  {
    h.compare(plaintext, u.password)
  }

  /** After an update that changed the password, the row accepts the new
      plaintext; an update that left it alone keeps the stored hash. */
  lemma UpdatedPasswordIsValid(h: Hasher, previous: User, next: User, salt: string)
    requires SoundHasher(h)
    ensures next.password != previous.password ==>
      IsValidPassword(h, HashOnUpdate(h, previous, next, salt), next.password) == Some(true)
    ensures next.password == previous.password ==>
      HashOnUpdate(h, previous, next, salt).password == previous.password
  {
  }

  /** A user created with a non-empty password accepts that password. */
  lemma CreatedPasswordIsValid(h: Hasher, u: User, plaintext: string, salt: string)
    requires SoundHasher(h)
    requires plaintext != "" && u.password == HashOnCreate(h, plaintext, salt)
    ensures IsValidPassword(h, u, plaintext) == Some(true)
  {
  }
}
