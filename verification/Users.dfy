/** The data model (types.go) and the meaning of every Storage operation
    (storage_interface.go) on a plain table from user ID to user value.

    A Go string is a `string`; a uuid is a `nat`; times are integers. `lower` stands
    for strings.ToLower throughout: nothing here depends on which letters it folds. */
module Users {
  import opened Wrappers

  type UserId = nat
  type Lower = string -> string

  datatype Profile = Profile(
    username: Option<string>,
    email: Option<string>,
    passwordHash: string,
    createdAt: int,
    updatedAt: int,
    isTechnicalUser: bool,
    apiKeyHash: Option<string>)

  // The two-factor state that only the narrow operations may change.
  datatype Security = Security(
    totpSecret: Option<string>,
    totpEnabled: bool,
    totpEnrolledAt: Option<int>,
    backupCodeHashes: seq<string>,
    totpFailedAttempts: int)

  const NO_TFA := Security(None, false, None, [], 0)

  datatype User = User(id: UserId, profile: Profile, security: Security)

  type Table = map<UserId, User>

  datatype StorageError = UserAlreadyExists | UserNotFound | AttemptsExhausted

  datatype Answer = Done | Remaining(attempts: int) | Removed(yes: bool) | Refused(error: StorageError)

  datatype Field = Username | Email

  // The case-folded identifier under which a user is indexed.
  function Key(lower: Lower, f: Field, u: User): Option<string> {
    var identifier := if f == Username then u.profile.username else u.profile.email;
    if identifier.None? then None else Some(lower(identifier.value))
  }

  // An identifier of u is that of a stored user whose ID is not u's.
  predicate ClashesOn(lower: Lower, f: Field, t: Table, u: User) {
    Key(lower, f, u).Some? && exists id | id in t :: id != u.id && Key(lower, f, t[id]) == Key(lower, f, u)
  }

  predicate Clashes(lower: Lower, t: Table, u: User) {
    ClashesOn(lower, Username, t, u) || ClashesOn(lower, Email, t, u)
  }

  function CreateUser(lower: Lower, t: Table, u: User): (Table, Answer) {
    if u.id in t || Clashes(lower, t, u) then (t, Refused(UserAlreadyExists))
    else (t[u.id := u], Done)
  }

  function UpdateUser(lower: Lower, t: Table, u: User): (Table, Answer) {
    if u.id !in t then (t, Refused(UserNotFound))
    else if Clashes(lower, t, u) then (t, Refused(UserAlreadyExists))
    else (t[u.id := u.(security := t[u.id].security)], Done)
  }

  function DeleteUser(t: Table, id: UserId): (Table, Answer) {
    if id !in t then (t, Refused(UserNotFound)) else (t - {id}, Done)
  }

  function ConsumeTOTPAttempt(t: Table, id: UserId, max: int): (Table, Answer) {
    if id !in t then (t, Refused(UserNotFound))
    else
      var failed := t[id].security.totpFailedAttempts;
      if failed >= max then (t, Refused(AttemptsExhausted))
      else (t[id := t[id].(security := t[id].security.(totpFailedAttempts := failed + 1))],
            Remaining(max - (failed + 1)))
  }

  function ResetTOTPAttempts(t: Table, id: UserId): (Table, Answer) {
    if id !in t then (t, Refused(UserNotFound))
    else (t[id := t[id].(security := t[id].security.(totpFailedAttempts := 0))], Done)
  }

  // The first occurrence of hash is dropped; the others stay.
  function RemoveFirst<T(==)>(codes: seq<T>, hash: T): seq<T> {
    if codes == [] then []
    else if codes[0] == hash then codes[1..]
    else [codes[0]] + RemoveFirst(codes[1..], hash)
  }

  function ConsumeBackupCode(t: Table, id: UserId, hash: string, now: int): (Table, Answer) {
    if id !in t then (t, Refused(UserNotFound))
    else if hash !in t[id].security.backupCodeHashes then (t, Removed(false))
    else
      var left := RemoveFirst(t[id].security.backupCodeHashes, hash);
      (t[id := t[id].(profile := t[id].profile.(updatedAt := now),
                      security := t[id].security.(backupCodeHashes := left))],
       Removed(true))
  }

  function SetTOTP(t: Table, id: UserId, secret: string, hashes: seq<string>, now: int): (Table, Answer) {
    if id !in t then (t, Refused(UserNotFound))
    else (t[id := t[id].(profile := t[id].profile.(updatedAt := now),
                         security := Security(Some(secret), true, Some(now), hashes, 0))],
          Done)
  }

  function ClearTOTP(t: Table, id: UserId, now: int): (Table, Answer) {
    if id !in t then (t, Refused(UserNotFound))
    else (t[id := t[id].(profile := t[id].profile.(updatedAt := now), security := NO_TFA)], Done)
  }

  // Every call a client of Storage can make that may change it, as a value.
  datatype Op =
    | Create(user: User)
    | Update(user: User)
    | Delete(id: UserId)
    | Attempt(id: UserId, max: int)
    | ResetAttempts(id: UserId)
    | ConsumeCode(id: UserId, hash: string, now: int)
    | Enrol(id: UserId, secret: string, hashes: seq<string>, now: int)
    | Disenrol(id: UserId, now: int)

  function Apply(lower: Lower, t: Table, op: Op): (Table, Answer) {
    match op
    case Create(u) => CreateUser(lower, t, u)
    case Update(u) => UpdateUser(lower, t, u)
    case Delete(id) => DeleteUser(t, id)
    case Attempt(id, max) => ConsumeTOTPAttempt(t, id, max)
    case ResetAttempts(id) => ResetTOTPAttempts(t, id)
    case ConsumeCode(id, hash, now) => ConsumeBackupCode(t, id, hash, now)
    case Enrol(id, secret, hashes, now) => SetTOTP(t, id, secret, hashes, now)
    case Disenrol(id, now) => ClearTOTP(t, id, now)
  }

  function Run(lower: Lower, t: Table, ops: seq<Op>): Table
    decreases |ops|
  {
    if ops == [] then t else Run(lower, Apply(lower, t, ops[0]).0, ops[1..])
  }

  // Each user is stored under its own ID.
  ghost predicate Keyed(t: Table) {
    forall id | id in t :: t[id].id == id
  }

  // No two users share an identifier up to letter case.
  ghost predicate UniqueIdentifiers(lower: Lower, t: Table) {
    forall f, a, b | a in t && b in t && Key(lower, f, t[a]).Some? && Key(lower, f, t[a]) == Key(lower, f, t[b]) ::
        a == b
  }

  // A search of the table for the user with this identifier.
  ghost function Find(lower: Lower, f: Field, t: Table, identifier: string): (r: Option<User>)
    ensures r.Some? ==> exists id | id in t :: t[id] == r.value && Key(lower, f, t[id]) == Some(lower(identifier))
    ensures r.None? ==> forall id | id in t :: Key(lower, f, t[id]) != Some(lower(identifier))
  {
    if exists id :: id in t && Key(lower, f, t[id]) == Some(lower(identifier)) then
      var id :| id in t && Key(lower, f, t[id]) == Some(lower(identifier));
      Some(t[id])
    else
      None
  }

  function Count<T(==)>(s: seq<T>, x: T): nat {
    if s == [] then 0 else (if s[0] == x then 1 else 0) + Count(s[1..], x)
  }

  lemma {:induction false} RemoveFirstCounts<T>(codes: seq<T>, hash: T, x: T)
    ensures Count(RemoveFirst(codes, hash), x)
            == if x == hash && Count(codes, x) > 0 then Count(codes, x) - 1 else Count(codes, x)
    ensures hash in codes <==> Count(codes, hash) > 0
  {
    if codes != [] && codes[0] != hash {
      RemoveFirstCounts(codes[1..], hash, x);
      var rest := RemoveFirst(codes[1..], hash);
      assert ([codes[0]] + rest)[1..] == rest;
    } else if codes != [] && x != hash {
      RemoveFirstCounts(codes[1..], hash, x);
    }
  }

  lemma {:induction false} CountAppend<T>(s: seq<T>, t: seq<T>, x: T)
    ensures Count(s + t, x) == Count(s, x) + Count(t, x)
  {
    if s == [] {
      assert s + t == t;
    } else {
      assert (s + t)[1..] == s[1..] + t;
      CountAppend(s[1..], t, x);
    }
  }

  lemma {:induction false} CountIsMultiplicity<T>(s: seq<T>, x: T)
    ensures Count(s, x) == multiset(s)[x]
  {
    if s != [] {
      CountIsMultiplicity(s[1..], x);
      assert s == [s[0]] + s[1..];
    }
  }

  // Where the removal happens: the first index that holds hash.
  lemma {:induction false} RemoveFirstAt<T>(codes: seq<T>, i: nat)
    requires i < |codes| && codes[i] !in codes[..i]
    ensures RemoveFirst(codes, codes[i]) == codes[..i] + codes[i + 1..]
  {
    if i == 0 {
    } else {
      assert codes[0] == codes[..i][0];
      assert codes[1..][..i - 1] == codes[..i][1..];
      RemoveFirstAt(codes[1..], i - 1);
      assert codes[1..][i..] == codes[i + 1..];
    }
  }
}
