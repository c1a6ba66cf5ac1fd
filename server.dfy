/**
 * The API routes over an in-memory store: register, login and forgot-password under
 * app/api/auth, and the owner-scoped POST and GET of app/api/passwords/route.ts.
 * Hashing (lib/hash), token signing and verifying (lib/jwt), the random bytes, the clock
 * and SMTP delivery are parameters.
 */
module Server {
  import opened Wrappers
  import opened Models
  import Crypto
  import Hex
  import Seqs

  /** `hashPassword`. */
  type Hasher = string -> string
  /** `comparePassword(plain, hashed)`. */
  type Comparer = (string, string) -> bool
  /** `signToken(user._id.toString())`. */
  type Signer = Id -> string
  /** `verifyToken(token).userId`; None when it throws. */
  type Verifier = string -> Option<Id>

  const RESET_TOKEN_BYTES: nat := 32
  const RESET_TOKEN_LIFETIME_MS: int := 1000 * 60 * 30
  const RESET_PATH: string := "/reset-password/"
  const RESET_SUBJECT: string := "Reset your SecureKeep password"

  /** A message handed to the mailer: recipient, subject and the link its HTML body carries. */
  datatype Mail = Mail(to: string, subject: string, link: string)

  datatype RegisterReply = UserAlreadyExists | Registered(email: string)
  {
    function Status(): nat { if UserAlreadyExists? then 400 else 200 }
    function Text(): string { if UserAlreadyExists? then "User already exists" else "User registered" }
  }

  /** The options `res.cookies.set` receives. */
  datatype Cookie = Cookie(name: string, value: string, httpOnly: bool, path: string, secure: bool, sameSite: string)

  datatype LoginReply = InvalidCredentials | LoggedIn(cookie: Cookie)
  {
    function Status(): nat { if InvalidCredentials? then 401 else 200 }
    function Text(): string { if InvalidCredentials? then "Invalid credentials" else "Login successful" }
  }

  /** MailFailed: `sendEmail` rejected after the token was saved; the route throws (500). */
  datatype ForgotReply = EmailRequired | UserNotFound | ResetLinkSent | MailFailed
  {
    function Status(): nat {
      match this
      case EmailRequired => 400
      case MailFailed => 500
      case _ => 200
    }
    function Text(): string {
      match this
      case EmailRequired => "Email is required"
      case UserNotFound => "User not found. "
      case ResetLinkSent => "If email exists, a reset link will be sent"
      case MailFailed => ""
    }
  }

  /** The JSON body of a POST to /api/passwords; `password` may be missing. */
  datatype EntryBody = EntryBody(website: string, username: string, password: Option<string>, note: Option<string>)

  datatype CreateReply = CreateUnauthorized | Created(entry: PasswordEntry)
  {
    function Status(): nat { if CreateUnauthorized? then 401 else 200 }
  }

  datatype ListReply = ListUnauthorized | Listed(entries: seq<PasswordEntry>)
  {
    function Status(): nat { if ListUnauthorized? then 401 else 200 }
  }

  /** `User.findOne({ email })`: the position of the first user with that email, if any. */
  function FindByEmail(users: seq<User>, email: string): (r: Option<nat>)
    ensures r.Some? ==> r.value < |users| && users[r.value].email == email
    ensures r.Some? ==> forall j :: 0 <= j < r.value ==> users[j].email != email
    ensures r.None? <==> forall j :: 0 <= j < |users| ==> users[j].email != email
  {
    if users == [] then None
    else if users[0].email == email then Some(0)
    else match FindByEmail(users[1..], email)
      case None => None
      case Some(i) => Some(i + 1)
  }

  /** The unique index on `email` in models/User.ts. */
  ghost predicate DistinctEmails(users: seq<User>)
  {
    forall i, j :: 0 <= i < j < |users| ==> users[i].email != users[j].email
  }

  /** `PasswordEntry.find({ userId })`. */
  function OwnedBy(entries: seq<PasswordEntry>, userId: Id): (r: seq<PasswordEntry>)
    ensures forall e :: e in r <==> e in entries && e.userId == userId
    ensures forall e :: multiset(r)[e] == if e.userId == userId then multiset(entries)[e] else 0
    ensures Seqs.IsSubsequence(r, entries)
  {
    var owned := (e: PasswordEntry) => e.userId == userId;
    forall e ensures e in Seqs.Filter(entries, owned) <==> e in entries && e.userId == userId {
      Seqs.FilterMembers(entries, owned, e);
    }
    forall e ensures multiset(Seqs.Filter(entries, owned))[e] == if e.userId == userId then multiset(entries)[e] else 0 {
      Seqs.FilterCount(entries, owned, e);
    }
    Seqs.Filter(entries, owned)
  }

  /** The cookie the login route sets. */
  function SessionCookie(token: string, production: bool): Cookie
  {
    Cookie("token", token, true, "/", production, "lax")
  }

  class Database {
    var users: seq<User>
    var entries: seq<PasswordEntry>
    var outbox: seq<Mail>
    var nextId: Id

    /** Emails are unique and every stored id was handed out before `nextId`. */
    ghost predicate Valid()
      reads this
    {
      && DistinctEmails(users)
      && (forall i :: 0 <= i < |users| ==> users[i].id < nextId)
      && (forall i :: 0 <= i < |entries| ==> entries[i].id < nextId)
    }

    constructor ()
      ensures Valid()
      ensures users == [] && entries == [] && outbox == []
    {
      users, entries, outbox, nextId := [], [], [], 0;
    }

    /** POST /api/auth/register. */
    method Register(email: string, password: string, hash: Hasher) returns (reply: RegisterReply)
      requires Valid()
      modifies this
      ensures Valid()
      ensures old(FindByEmail(users, email)).Some? ==> reply == UserAlreadyExists && users == old(users)
      ensures old(FindByEmail(users, email)).None? ==>
        && reply == Registered(email)
        && users == old(users) + [User(old(nextId), email, hash(password), None, None)]
      ensures entries == old(entries) && outbox == old(outbox)
    {
      if FindByEmail(users, email).Some? {
        return UserAlreadyExists;
      }
      users := users + [User(nextId, email, hash(password), None, None)];
      nextId := nextId + 1;
      reply := Registered(email);
    }

    /** POST /api/auth/login: reads the store and changes nothing (the method has no modifies clause). */
    method Login(email: string, password: string, compare: Comparer, sign: Signer, production: bool)
      returns (reply: LoginReply)
      ensures reply.InvalidCredentials? <==>
        FindByEmail(users, email).None? || !compare(password, users[FindByEmail(users, email).value].password)
      ensures reply.LoggedIn? ==>
        reply.cookie == SessionCookie(sign(users[FindByEmail(users, email).value].id), production)
      ensures reply.LoggedIn? ==>
        && reply.cookie.name == "token" && reply.cookie.httpOnly && reply.cookie.path == "/"
        && reply.cookie.sameSite == "lax" && reply.cookie.secure == production
    {
      var found := FindByEmail(users, email);
      if found.None? || !compare(password, users[found.value].password) {
        return InvalidCredentials;
      }
      var token := sign(users[found.value].id);
      reply := LoggedIn(SessionCookie(token, production));
    }

    /** POST /api/auth/forgot-password. `randomBytes` stands for `crypto.randomBytes(32)`,
        `now` for `Date.now()`, `delivered` for whether `sendEmail` resolved. */
    method ForgotPassword(email: Option<string>, randomBytes: seq<Hex.Byte>, now: int, baseUrl: string, delivered: bool)
      returns (reply: ForgotReply)
      requires Valid()
      requires |randomBytes| == RESET_TOKEN_BYTES
      modifies this
      ensures Valid()
      ensures entries == old(entries) && nextId == old(nextId)
      ensures email.None? || email == Some("") ==>
        reply == EmailRequired && users == old(users) && outbox == old(outbox)
      ensures email.Some? && email.value != "" && old(FindByEmail(users, email.value)).None? ==>
        reply == UserNotFound && users == old(users) && outbox == old(outbox)
      ensures email.Some? && email.value != "" && old(FindByEmail(users, email.value)).Some? ==>
        var i := old(FindByEmail(users, email.value)).value;
        var token := Hex.Encode(randomBytes);
        && |users| == |old(users)|
        && users[i] == old(users)[i].(resetToken := Some(token), resetTokenExpiry := Some(now + RESET_TOKEN_LIFETIME_MS))
        && (forall j :: 0 <= j < |users| && j != i ==> users[j] == old(users)[j])
        && (delivered ==> reply == ResetLinkSent
                          && outbox == old(outbox) + [Mail(email.value, RESET_SUBJECT, baseUrl + RESET_PATH + token)])
        && (!delivered ==> reply == MailFailed && outbox == old(outbox))
    {
      if email.None? || email.value == "" {
        return EmailRequired;
      }
      var found := FindByEmail(users, email.value);
      if found.None? {
        return UserNotFound;
      }
      var i := found.value;
      var token := Hex.Encode(randomBytes);
      var expire := now + RESET_TOKEN_LIFETIME_MS;
      users := users[i := users[i].(resetToken := Some(token), resetTokenExpiry := Some(expire))];
      var link := baseUrl + RESET_PATH + token;
      if !delivered {
        return MailFailed;
      }
      outbox := outbox + [Mail(email.value, RESET_SUBJECT, link)];
      reply := ResetLinkSent;
    }

    /** POST /api/passwords: the entry is stored under the verified user id, its password encrypted. */
    method CreateEntry(token: Option<string>, verify: Verifier, body: EntryBody, m: Crypto.Module, c: Crypto.Cipher)
      returns (reply: CreateReply)
      requires Valid()
      modifies this
      ensures Valid()
      ensures users == old(users) && outbox == old(outbox)
      ensures reply.CreateUnauthorized? <==>
        || token.None? || token == Some("") || verify(token.value).None? || body.password.None?
        || Crypto.Encrypt(m, c, body.password.value).Failure?
      ensures reply.CreateUnauthorized? ==> entries == old(entries) && nextId == old(nextId)
      ensures reply.Created? ==>
        && reply.entry == PasswordEntry(old(nextId), verify(token.value).value, body.website, body.username,
                                        Crypto.Encrypt(m, c, body.password.value).value, body.note)
        && entries == old(entries) + [reply.entry]
      ensures reply.Created? && Crypto.Sound(c) ==>
        Crypto.Decrypt(m, c, reply.entry.password) == Success(body.password.value)
    {
      if token.None? || token.value == "" {
        return CreateUnauthorized;
      }
      var userId := verify(token.value);
      if userId.None? || body.password.None? {
        return CreateUnauthorized;
      }
      var encrypted := Crypto.Encrypt(m, c, body.password.value);
      if encrypted.Failure? {
        return CreateUnauthorized;
      }
      var entry := PasswordEntry(nextId, userId.value, body.website, body.username, encrypted.value, body.note);
      entries := entries + [entry];
      nextId := nextId + 1;
      if Crypto.Sound(c) {
        Crypto.DecryptEncrypt(m, c, body.password.value);
      }
      reply := Created(entry);
    }

    /** GET /api/passwords: the verified user's entries, in store order, passwords still encrypted. */
    method ListEntries(token: Option<string>, verify: Verifier) returns (reply: ListReply)
      ensures reply.ListUnauthorized? <==> token.None? || verify(token.value).None?
      ensures reply.Listed? ==> var userId := verify(token.value).value;
        && (forall e :: e in reply.entries <==> e in entries && e.userId == userId)
        && (forall e :: multiset(reply.entries)[e] == if e.userId == userId then multiset(entries)[e] else 0)
        && Seqs.IsSubsequence(reply.entries, entries)
    {
      if token.None? {
        return ListUnauthorized;
      }
      var userId := verify(token.value);
      if userId.None? {
        return ListUnauthorized;
      }
      reply := Listed(OwnedBy(entries, userId.value));
    }
  }
}
