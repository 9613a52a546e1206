/** The in-memory Storage (storage_memory.go): three maps that share user objects,
    changed in place by the narrow operations. Every operation is proved to do to
    the table of stored users what Users says, under the indexes kept by Valid. */
module MemoryStore {
  import opened Wrappers
  import opened Users

  // Always true. The invariants below are quantified with this as their trigger, so that
  // they are used only for the IDs that a proof mentions.
  predicate Focus(id: UserId) {
    true
  }

  // The target of a Go pointer to a value.
  class Cell<T> {
    var value: T

    constructor (value: T)
      ensures this.value == value
    {
      this.value := value;
    }
  }

  ghost function Deref<T>(p: Cell?<T>): Option<T>
    reads p
  {
    if p == null then None else Some(p.value)
  }

  ghost function Elements(a: array?<string>): seq<string>
    reads a
  {
    if a == null then [] else a[..]
  }

  // User of types.go, with its pointers and its slice. A nil slice is null.
  class UserObject {
    var id: UserId
    var username: Cell?<string>
    var email: Cell?<string>
    var passwordHash: string
    var createdAt: int
    var updatedAt: int
    var isTechnicalUser: bool
    var apiKeyHash: Cell?<string>
    var totpSecret: Cell?<string>
    var totpEnabled: bool
    var totpEnrolledAt: Cell?<int>
    var backupCodeHashes: array?<string>
    var totpFailedAttempts: int
    ghost var Repr: set<object>

    // Repr holds all that is reachable from this user.
    ghost predicate Valid()
      reads this, Repr
    {
      && this in Repr
      && (username != null ==> username in Repr)
      && (email != null ==> email in Repr)
      && (apiKeyHash != null ==> apiKeyHash in Repr)
      && (totpSecret != null ==> totpSecret in Repr)
      && (totpEnrolledAt != null ==> totpEnrolledAt in Repr)
      && (backupCodeHashes != null ==> backupCodeHashes in Repr)
    }

    ghost function ProfileValue(): Profile
      requires Valid()
      reads this, Repr
    {
      Profile(Deref(username), Deref(email), passwordHash, createdAt, updatedAt, isTechnicalUser, Deref(apiKeyHash))
    }

    ghost function SecurityValue(): Security
      requires Valid()
      reads this, Repr
    {
      Security(Deref(totpSecret), totpEnabled, Deref(totpEnrolledAt), Elements(backupCodeHashes), totpFailedAttempts)
    }

    ghost function Value(): User
      requires Valid()
      reads this, Repr
    {
      User(id, ProfileValue(), SecurityValue())
    }

    ghost predicate Holds(id: UserId, value: User)
      reads this, Repr
    {
      Valid() && this.id == id && Value() == value
    }

    // No two of its string pointers are the same.
    ghost predicate Apart()
      reads this
    {
      && (username != null ==> username != email && username != apiKeyHash && username != totpSecret)
      && (email != null ==> email != apiKeyHash && email != totpSecret)
      && (apiKeyHash != null ==> apiKeyHash != totpSecret)
    }

    constructor (id: UserId, username: Cell?<string>, email: Cell?<string>, passwordHash: string,
                 createdAt: int, updatedAt: int, isTechnicalUser: bool, apiKeyHash: Cell?<string>,
                 totpSecret: Cell?<string>, totpEnabled: bool, totpEnrolledAt: Cell?<int>,
                 backupCodeHashes: array?<string>, totpFailedAttempts: int)
      ensures Valid()
      ensures this.username == username && this.email == email
      ensures this.apiKeyHash == apiKeyHash && this.totpSecret == totpSecret
      ensures forall o | o in Repr :: o == this || o == username || o == email || o == apiKeyHash
                                      || o == totpSecret || o == totpEnrolledAt || o == backupCodeHashes
      ensures Value() == User(id,
                              Profile(Deref(username), Deref(email), passwordHash, createdAt, updatedAt,
                                      isTechnicalUser, Deref(apiKeyHash)),
                              Security(Deref(totpSecret), totpEnabled, Deref(totpEnrolledAt),
                                       Elements(backupCodeHashes), totpFailedAttempts))
    {
      this.id, this.username, this.email, this.passwordHash := id, username, email, passwordHash;
      this.createdAt, this.updatedAt, this.isTechnicalUser := createdAt, updatedAt, isTechnicalUser;
      this.apiKeyHash, this.totpSecret, this.totpEnabled := apiKeyHash, totpSecret, totpEnabled;
      this.totpEnrolledAt, this.backupCodeHashes := totpEnrolledAt, backupCodeHashes;
      this.totpFailedAttempts := totpFailedAttempts;
      Repr := {this}
        + (if username == null then {} else {username as object})
        + (if email == null then {} else {email as object})
        + (if apiKeyHash == null then {} else {apiKeyHash as object})
        + (if totpSecret == null then {} else {totpSecret as object})
        + (if totpEnrolledAt == null then {} else {totpEnrolledAt as object})
        + (if backupCodeHashes == null then {} else {backupCodeHashes as object});
    }

    // updated.TOTPSecret = existingUser.TOTPSecret and the four assignments after it.
    method KeepSecurity(existing: UserObject, ghost security: Security)
      requires Valid() && existing.Valid() && existing != this && existing.SecurityValue() == security
      modifies this
      ensures Valid() && Repr == old(Repr) + (existing.Repr - {existing})
      ensures Value() == old(User(id, ProfileValue(), security))
    {
      AssignSecurity(existing.totpSecret, existing.totpEnabled, existing.totpEnrolledAt,
                     existing.backupCodeHashes, existing.totpFailedAttempts, updatedAt, existing.Repr - {existing});
    }

    // current.PasswordHash = newHash and the assignment after it (handler.go:440-441).
    method SetPassword(hash: string, now: int)
      requires Valid()
      modifies this
      ensures Valid() && Repr == old(Repr)
      ensures Value() == old(User(id, ProfileValue().(passwordHash := hash, updatedAt := now), SecurityValue()))
    {
      passwordHash, updatedAt := hash, now;
    }

    method SetFailedAttempts(n: int)
      requires Valid()
      modifies this
      ensures Valid() && Repr == old(Repr)
      ensures Value() == old(Value().(security := SecurityValue().(totpFailedAttempts := n)))
    {
      totpFailedAttempts := n;
    }

    method DropCodeAt(i: nat, now: int)
      requires Valid() && backupCodeHashes != null && i < backupCodeHashes.Length
      requires backupCodeHashes[i] !in backupCodeHashes[..i]
      modifies this
      ensures Valid() && fresh(Repr - old(Repr)) && old(Repr) <= Repr
      ensures
        Value() == old(User(id, ProfileValue().(updatedAt := now),
                            SecurityValue().(backupCodeHashes :=
                              RemoveFirst(SecurityValue().backupCodeHashes, backupCodeHashes[i]))))
    {
      RemoveFirstAt(backupCodeHashes[..], i);
      var left := Without(backupCodeHashes, i);
      backupCodeHashes := left;
      updatedAt := now;
      Repr := Repr + {left};
    }

    // The loop of ConsumeBackupCode: the first element equal to hash leaves the list.
    method DropCode(hash: string, now: int) returns (removed: bool)
      requires Valid()
      modifies this
      ensures Valid() && fresh(Repr - old(Repr)) && old(Repr) <= Repr
      ensures removed == (hash in old(SecurityValue()).backupCodeHashes)
      ensures !removed ==> Value() == old(Value())
      ensures removed ==>
        Value() == old(User(id, ProfileValue().(updatedAt := now),
                            SecurityValue().(backupCodeHashes := RemoveFirst(SecurityValue().backupCodeHashes, hash))))
    {
      var n := if backupCodeHashes == null then 0 else backupCodeHashes.Length;
      for i := 0 to n
        invariant backupCodeHashes != null ==> n == backupCodeHashes.Length && hash !in backupCodeHashes[..i]
      {
        if backupCodeHashes[i] == hash {
          DropCodeAt(i, now);
          return true;
        }
      }
      removed := false;
    }

    // The assignments of SetTOTP, ClearTOTP and UpdateUser to the five security fields (and to
    // UpdatedAt). `parts` holds what the new values point to.
    method AssignSecurity(secret: Cell?<string>, enabled: bool, at: Cell?<int>, codes: array?<string>, failed: int,
                          now: int, ghost parts: set<object>)
      requires Valid()
      requires (secret != null ==> secret in parts) && (at != null ==> at in parts)
      requires (codes != null ==> codes in parts)
      modifies this
      ensures Valid() && Repr == old(Repr) + parts
      ensures Value() == old(User(id, ProfileValue().(updatedAt := now),
                                  Security(Deref(secret), enabled, Deref(at), Elements(codes), failed)))
    {
      totpSecret, totpEnabled, totpEnrolledAt := secret, enabled, at;
      backupCodeHashes, totpFailedAttempts, updatedAt := codes, failed, now;
      Repr := Repr + parts;
    }
  }

  method ClonePtr<T>(p: Cell?<T>) returns (c: Cell?<T>)
    ensures c != null ==> fresh(c)
    ensures Deref(c) == Deref(p)
  {
    if p == null {
      c := null;
    } else {
      c := new Cell(p.value);
    }
  }

  method CloneSlice(a: array?<string>) returns (c: array?<string>)
    ensures c != null ==> fresh(c)
    ensures Elements(c) == Elements(a)
  {
    if a == null {
      c := null;
    } else {
      c := new string[a.Length](i requires 0 <= i < a.Length reads a => a[i]);
    }
  }

  method CloneProfile(user: UserObject, existing: UserObject, ghost value: User, ghost security: Security)
    returns (updated: UserObject)
    requires user.Valid() && user.Value() == value
    requires existing.Valid() && existing.SecurityValue() == security
    ensures updated.Holds(value.id, value.(security := security))
    ensures fresh(updated) && fresh(updated.Repr - existing.Repr) && existing !in updated.Repr
  {
    updated := CloneUser(user);
    updated.KeepSecurity(existing, security);
  }

  // What SetTOTP allocates.
  method NewSecurity(secret: string, now: int, hashes: array?<string>)
    returns (secretCell: Cell<string>, nowCell: Cell<int>, codes: array?<string>, ghost parts: set<object>)
    ensures fresh(parts) && secretCell in parts && nowCell in parts && (codes != null ==> codes in parts)
    ensures secretCell.value == secret && nowCell.value == now && Elements(codes) == Elements(hashes)
  {
    codes := CloneSlice(hashes);
    secretCell := new Cell(secret);
    nowCell := new Cell(now);
    parts := {secretCell, nowCell} + (if codes == null then {} else {codes as object});
  }

  // append(a[:i:i], a[i+1:]...)
  method Without(a: array<string>, i: nat) returns (c: array<string>)
    requires i < a.Length
    ensures fresh(c) && c[..] == a[..i] + a[i + 1..]
  {
    c := new string[a.Length - 1](k requires 0 <= k < a.Length - 1 reads a => if k < i then a[k] else a[k + 1]);
  }

  method CloneUser(u: UserObject) returns (c: UserObject)
    requires u.Valid()
    ensures c.Valid() && fresh(c.Repr)
    ensures c.Value() == u.Value() && c.Holds(u.id, u.Value()) && c.Apart()
  {
    var username := ClonePtr(u.username);
    var email := ClonePtr(u.email);
    var apiKeyHash := ClonePtr(u.apiKeyHash);
    var totpSecret := ClonePtr(u.totpSecret);
    var totpEnrolledAt := ClonePtr(u.totpEnrolledAt);
    var backupCodeHashes := CloneSlice(u.backupCodeHashes);
    c := new UserObject(u.id, username, email, u.passwordHash, u.createdAt, u.updatedAt, u.isTechnicalUser,
                        apiKeyHash, totpSecret, u.totpEnabled, totpEnrolledAt, backupCodeHashes,
                        u.totpFailedAttempts);
  }

  class MemoryStorage {
    const lower: Lower
    var users: map<UserId, UserObject>
    var usersByUsername: map<string, UserObject>
    var usersByEmail: map<string, UserObject>
    ghost var Contents: Table  // the stored users as values
    ghost var Repr: set<object>

    // The storage holds all that is reachable from its users, and no user is reachable from
    // another one.
    ghost predicate Owns()
      reads this, Repr
    {
      && this in Repr
      && users.Keys == Contents.Keys
      && (forall id {:trigger Focus(id)} | Focus(id) && id in users ::
            && users[id] in Repr && users[id].Repr <= Repr && this !in users[id].Repr
            && users[id].Holds(id, Contents[id]))
      && (forall a, b {:trigger Focus(a), Focus(b)} | Focus(a) && Focus(b) && a in users && b in users && a != b ::
            users[a] !in users[b].Repr)
    }

    ghost predicate Valid()
      reads this, Repr
    {
      && Owns()
      && IndexedBy(lower, Username, users, Contents, usersByUsername)
      && IndexedBy(lower, Email, users, Contents, usersByEmail)
    }

    // A user that may be stored: neither it nor the storage can reach the other.
    ghost predicate Separate(stored: UserObject)
      reads this, Repr, stored
    {
      && stored !in Repr && this !in stored.Repr
      && forall id {:trigger Focus(id)} | Focus(id) && id in users :: users[id] !in stored.Repr
    }

    lemma DistinctObjects()
      requires Owns()
      ensures forall a, b | a in users && b in users && a != b :: users[a] != users[b]
    {
      forall a, b | a in users && b in users && a != b
        ensures users[a] != users[b]
      {
        assert Focus(a) && Focus(b);
      }
    }

    lemma IdentifiersAreUnique()
      requires Valid()
      ensures UniqueIdentifiers(lower, Contents)
    {
      DistinctObjects();
      forall f, a, b | a in Contents && b in Contents
                       && Key(lower, f, Contents[a]).Some? && Key(lower, f, Contents[a]) == Key(lower, f, Contents[b])
        ensures a == b
      {
        assert Focus(a) && Focus(b);
      }
    }

    // What an index entry points to is what a search finds.
    lemma Found(f: Field, identifier: string, index: map<string, UserObject>) returns (id: UserId)
      requires Valid() && IndexedBy(lower, f, users, Contents, index) && lower(identifier) in index
      ensures id in users && users[id] == index[lower(identifier)]
      ensures Find(lower, f, Contents, identifier) == Some(Contents[id])
    {
      IdentifiersAreUnique();
      id :| Entry(lower, f, users, Contents, lower(identifier), index[lower(identifier)], id);
    }

    constructor (lower: Lower)
      ensures Valid() && fresh(Repr) && this.lower == lower
      ensures Contents == map[]
    {
      this.lower := lower;
      users, usersByUsername, usersByEmail := map[], map[], map[];
      Contents, Repr := map[], {this};
    }

    method CreateUser(user: UserObject) returns (r: Answer)
      requires Valid() && user.Valid()
      modifies this
      ensures Valid() && fresh(Repr - old(Repr))
      ensures (Contents, r) == Users.CreateUser(lower, old(Contents), old(user.Value()))
      ensures r.Refused? ==>
                users == old(users) && usersByUsername == old(usersByUsername) && usersByEmail == old(usersByEmail)
    {
      ghost var value := user.Value();
      if user.id in users {
        return Refused(UserAlreadyExists);
      }
      var taken := IdentifierTaken(user, value);
      if taken {
        return Refused(UserAlreadyExists);
      }
      StoreClone(user, value);
      r := Done;
    }

    method StoreClone(user: UserObject, ghost value: User)
      requires Valid() && user.Valid() && user.Value() == value
      requires value.id !in users && !Clashes(lower, Contents, value)
      modifies this
      ensures Valid() && fresh(Repr - old(Repr))
      ensures Contents == old(Contents)[value.id := value]
    {
      var stored := CloneUser(user);
      Insert(stored, value);
    }

    method GetUserByID(id: UserId) returns (user: UserObject?)
      requires Valid()
      ensures user == null <==> id !in Contents
      ensures user != null ==> fresh(user.Repr) && user.Holds(id, Contents[id]) && user.Apart()
    {
      if id !in users {
        return null;
      }
      assert Focus(id);
      user := CloneUser(users[id]);
    }

    method GetUserByUsername(username: string) returns (user: UserObject?)
      requires Valid()
      ensures user == null <==> Find(lower, Username, Contents, username).None?
      ensures user != null ==>
        var value := Find(lower, Username, Contents, username).value;
        fresh(user.Repr) && user.Holds(value.id, value) && user.Apart()
    {
      var key := lower(username);
      EntryMeans(lower, Username, users, Contents, usersByUsername, key);
      if key !in usersByUsername {
        return null;
      }
      ghost var id := Found(Username, username, usersByUsername);
      assert Focus(id);
      user := CloneUser(usersByUsername[key]);
    }

    method GetUserByEmail(email: string) returns (user: UserObject?)
      requires Valid()
      ensures user == null <==> Find(lower, Email, Contents, email).None?
      ensures user != null ==>
        var value := Find(lower, Email, Contents, email).value;
        fresh(user.Repr) && user.Holds(value.id, value) && user.Apart()
    {
      var key := lower(email);
      EntryMeans(lower, Email, users, Contents, usersByEmail, key);
      if key !in usersByEmail {
        return null;
      }
      ghost var id := Found(Email, email, usersByEmail);
      assert Focus(id);
      user := CloneUser(usersByEmail[key]);
    }

    // Writes the profile fields and keeps the stored security state.
    method UpdateUser(user: UserObject) returns (r: Answer)
      requires Valid() && user.Valid()
      modifies this
      ensures Valid() && fresh(Repr - old(Repr))
      ensures (Contents, r) == Users.UpdateUser(lower, old(Contents), old(user.Value()))
      ensures r.Refused? ==>
                users == old(users) && usersByUsername == old(usersByUsername) && usersByEmail == old(usersByEmail)
    {
      ghost var value := user.Value();
      if user.id !in users {
        return Refused(UserNotFound);
      }
      var taken := IdentifierTaken(user, value);
      if taken {
        return Refused(UserAlreadyExists);
      }
      ghost var kept := value.(security := Contents[value.id].security);
      UpdateAsReplacement(lower, Contents, value, kept);
      assert Focus(user.id);
      var existing := users[user.id];
      var updated := UpdatedUser(user, existing, value, kept);
      Replace(existing, updated, kept);
      r := Done;
    }

    // The clone that UpdateUser stores: the given profile, and the security fields of the
    // stored user, pointers and slice included.
    method UpdatedUser(user: UserObject, existing: UserObject, ghost value: User, ghost kept: User)
      returns (updated: UserObject)
      requires Owns() && value.id in users && users[value.id] == existing
      requires user.Valid() && user.Value() == value && kept == value.(security := Contents[value.id].security)
      ensures Separate(updated) && fresh(updated.Repr - Repr)
      ensures updated.Holds(kept.id, kept)
    {
      assert Focus(value.id);
      updated := CloneProfile(user, existing, value, Contents[value.id].security);
      forall id | Focus(id) && id in users ensures users[id] !in updated.Repr {
        assert Focus(value.id);
      }
    }

    method Replace(existing: UserObject, updated: UserObject, ghost value: User)
      requires Valid() && existing.id in users && users[existing.id] == existing
      requires Separate(updated) && updated.Holds(value.id, value) && value.id == existing.id
      requires !Clashes(lower, Contents - {value.id}, value)
      modifies this
      ensures Valid() && Repr == old(Repr) + updated.Repr
      ensures Contents == (old(Contents) - {value.id})[value.id := value]
    {
      Remove(existing);
      Insert(updated, value);
    }

    method DeleteUser(id: UserId) returns (r: Answer)
      requires Valid()
      modifies this
      ensures Valid() && fresh(Repr - old(Repr))
      ensures (Contents, r) == Users.DeleteUser(old(Contents), id)
      ensures r.Refused? ==>
                users == old(users) && usersByUsername == old(usersByUsername) && usersByEmail == old(usersByEmail)
    {
      if id !in users {
        return Refused(UserNotFound);
      }
      assert Focus(id);
      Remove(users[id]);
      r := Done;
    }

    method ConsumeTOTPAttempt(id: UserId, max: int) returns (r: Answer)
      requires Valid()
      modifies Repr
      ensures Valid() && fresh(Repr - old(Repr))
      ensures (Contents, r) == Users.ConsumeTOTPAttempt(old(Contents), id, max)
      ensures r.Remaining? <==> id in old(Contents) && old(Contents)[id].security.totpFailedAttempts < max
      ensures r.Remaining? ==> id in Contents && r.attempts == max - Contents[id].security.totpFailedAttempts
    {
      if id !in users {
        return Refused(UserNotFound);
      }
      assert Focus(id);
      var u := users[id];
      var failed := u.totpFailedAttempts;
      if failed >= max {
        return Refused(AttemptsExhausted);
      }
      ghost var value := Users.ConsumeTOTPAttempt(Contents, id, max).0[id];
      IndexKeepBoth(lower, users, Contents, usersByUsername, usersByEmail, id, value);
      CountAttempts(u, id, failed + 1, value);
      r := Remaining(max - (failed + 1));
    }

    method ResetTOTPAttempts(id: UserId) returns (r: Answer)
      requires Valid()
      modifies Repr
      ensures Valid() && fresh(Repr - old(Repr))
      ensures (Contents, r) == Users.ResetTOTPAttempts(old(Contents), id)
    {
      if id !in users {
        return Refused(UserNotFound);
      }
      assert Focus(id);
      ghost var value := Users.ResetTOTPAttempts(Contents, id).0[id];
      IndexKeepBoth(lower, users, Contents, usersByUsername, usersByEmail, id, value);
      CountAttempts(users[id], id, 0, value);
      r := Done;
    }

    method ConsumeBackupCode(id: UserId, hash: string, now: int) returns (r: Answer)
      requires Valid()
      modifies Repr
      ensures Valid() && fresh(Repr - old(Repr))
      ensures (Contents, r) == Users.ConsumeBackupCode(old(Contents), id, hash, now)
    {
      if id !in users {
        return Refused(UserNotFound);
      }
      assert Focus(id);
      ghost var value := Users.ConsumeBackupCode(Contents, id, hash, now).0[id];
      IndexKeepBoth(lower, users, Contents, usersByUsername, usersByEmail, id, value);
      assert Contents[id := value] == Users.ConsumeBackupCode(Contents, id, hash, now).0;
      var removed := DropCode(users[id], id, hash, now, value);
      r := Removed(removed);
    }

    method SetTOTP(id: UserId, secret: string, backupCodeHashes: array?<string>, now: int) returns (r: Answer)
      requires Valid()
      modifies Repr
      ensures Valid() && fresh(Repr - old(Repr))
      ensures (Contents, r) == Users.SetTOTP(old(Contents), id, secret, old(Elements(backupCodeHashes)), now)
    {
      if id !in users {
        return Refused(UserNotFound);
      }
      assert Focus(id);
      ghost var value := Users.SetTOTP(Contents, id, secret, Elements(backupCodeHashes), now).0[id];
      IndexKeepBoth(lower, users, Contents, usersByUsername, usersByEmail, id, value);
      Enrol(users[id], id, secret, backupCodeHashes, now, value);
      r := Done;
    }

    method ClearTOTP(id: UserId, now: int) returns (r: Answer)
      requires Valid()
      modifies Repr
      ensures Valid() && fresh(Repr - old(Repr))
      ensures (Contents, r) == Users.ClearTOTP(old(Contents), id, now)
    {
      if id !in users {
        return Refused(UserNotFound);
      }
      assert Focus(id);
      ghost var value := Users.ClearTOTP(Contents, id, now).0[id];
      IndexKeepBoth(lower, users, Contents, usersByUsername, usersByEmail, id, value);
      AssignSecurity(users[id], id, null, false, null, null, now, {}, value);
      r := Done;
    }

    // ---- Changes in place: the stored object takes a new value, and so does its entry ----

    method CountAttempts(u: UserObject, ghost id: UserId, n: int, ghost value: User)
      requires Owns() && id in users && users[id] == u
      requires value == Contents[id].(security := Contents[id].security.(totpFailedAttempts := n))
      modifies u, this`Contents, this`Repr
      ensures Owns() && fresh(Repr - old(Repr))
      ensures Contents == old(Contents)[id := value]
    {
      assert Focus(id);
      u.SetFailedAttempts(n);
      Settle(u, id, value);
    }

    method DropCode(u: UserObject, ghost id: UserId, hash: string, now: int, ghost value: User) returns (removed: bool)
      requires Owns() && id in users && users[id] == u
      requires value == Users.ConsumeBackupCode(Contents, id, hash, now).0[id]
      modifies u, this`Contents, this`Repr
      ensures Owns() && fresh(Repr - old(Repr))
      ensures Contents == old(Contents)[id := value]
      ensures removed == (hash in old(Contents)[id].security.backupCodeHashes)
    {
      assert Focus(id);
      removed := u.DropCode(hash, now);
      Settle(u, id, value);
    }

    method Enrol(u: UserObject, ghost id: UserId, secret: string, hashes: array?<string>, now: int, ghost value: User)
      requires Owns() && id in users && users[id] == u
      requires value == User(id, Contents[id].profile.(updatedAt := now),
                             Security(Some(secret), true, Some(now), Elements(hashes), 0))
      modifies u, this`Contents, this`Repr
      ensures Owns() && fresh(Repr - old(Repr))
      ensures Contents == old(Contents)[id := value]
    {
      var secretCell, nowCell, codes, parts := NewSecurity(secret, now, hashes);
      AssignSecurity(u, id, secretCell, true, nowCell, codes, now, parts, value);
    }

    method AssignSecurity(u: UserObject, ghost id: UserId, secret: Cell?<string>, enabled: bool, at: Cell?<int>,
                          codes: array?<string>, now: int, ghost parts: set<object>, ghost value: User)
      requires (secret != null ==> secret in parts) && (at != null ==> at in parts)
      requires (codes != null ==> codes in parts)
      requires parts !! Repr
      requires Owns() && id in users && users[id] == u
      requires value == User(id, Contents[id].profile.(updatedAt := now),
                             Security(Deref(secret), enabled, Deref(at), Elements(codes), 0))
      modifies u, this`Contents, this`Repr
      ensures Owns() && Repr == old(Repr) + parts
      ensures Contents == old(Contents)[id := value]
    {
      assert Focus(id);
      u.AssignSecurity(secret, enabled, at, codes, 0, now, parts);
      Settle(u, id, value);
    }

    // All of Owns but what it says of the user u that has just been changed in place.
    ghost predicate OwnsAllBut(u: UserObject)
      reads this, Repr
    {
      && this in Repr
      && users.Keys == Contents.Keys
      && (forall id {:trigger Focus(id)} | Focus(id) && id in users ::
            && users[id] in Repr && this !in users[id].Repr
            && (users[id] != u ==> users[id].Repr <= Repr && users[id].Holds(id, Contents[id])))
      && (forall a, b {:trigger Focus(a), Focus(b)} | Focus(a) && Focus(b) && a in users && b in users && a != b ::
            users[a] !in users[b].Repr)
    }

    ghost method Settle(u: UserObject, id: UserId, value: User)
      requires OwnsAllBut(u) && u.Holds(id, value)
      requires id in users && users[id] == u
      modifies this`Contents, this`Repr
      ensures Owns() && Repr == old(Repr) + u.Repr
      ensures Contents == old(Contents)[id := value]
    {
      assert Focus(id);
      Contents, Repr := Contents[id := value], Repr + u.Repr;
    }

    // The map deletions of UpdateUser and of DeleteUser.
    method Remove(existing: UserObject)
      requires Valid() && existing.id in users && users[existing.id] == existing
      modifies this
      ensures Valid() && Repr == old(Repr)
      ensures Contents == old(Contents) - {existing.id}
      ensures users == old(users) - {existing.id}
    {
      ghost var id := existing.id;
      DistinctObjects();
      IndexRemove(lower, Username, users, Contents, usersByUsername, id);
      IndexRemove(lower, Email, users, Contents, usersByEmail, id);
      RemoveByName(existing);
      RemoveById(existing);
    }

    method RemoveByName(existing: UserObject)
      requires Owns() && existing.id in users && users[existing.id] == existing
      modifies this`usersByUsername, this`usersByEmail
      ensures Owns()
      ensures usersByUsername == IndexWithout(lower, Username, old(usersByUsername), Contents[existing.id])
      ensures usersByEmail == IndexWithout(lower, Email, old(usersByEmail), Contents[existing.id])
    {
      assert Focus(existing.id);
      var byUsername, byEmail := usersByUsername, usersByEmail;
      if existing.username != null {
        byUsername := byUsername - {lower(existing.username.value)};
      }
      if existing.email != null {
        byEmail := byEmail - {lower(existing.email.value)};
      }
      usersByUsername, usersByEmail := byUsername, byEmail;
    }

    method RemoveById(existing: UserObject)
      requires Owns() && existing.id in users && users[existing.id] == existing
      modifies this`users, this`Contents
      ensures Owns()
      ensures Contents == old(Contents) - {existing.id}
      ensures users == old(users) - {existing.id}
    {
      users := users - {existing.id};
      Contents := Contents - {existing.id};
    }

    // The checks of both indexes by CreateUser and UpdateUser. The former has no test for
    // the entry's own ID, and needs none: its user is not stored.
    method IdentifierTaken(user: UserObject, ghost value: User) returns (taken: bool)
      requires Valid() && user.Valid() && user.Value() == value
      ensures taken == Clashes(lower, Contents, value)
    {
      DistinctObjects();
      ClashesAsIndexed(lower, users, Contents, usersByUsername, usersByEmail, value);
      if user.username != null {
        var username := lower(user.username.value);
        if username in usersByUsername {
          ghost var id :| Entry(lower, Username, users, Contents, username, usersByUsername[username], id);
          assert Focus(id);
        }
        if username in usersByUsername && usersByUsername[username].id != user.id {
          return true;
        }
      }
      if user.email != null {
        var email := lower(user.email.value);
        if email in usersByEmail {
          ghost var id :| Entry(lower, Email, users, Contents, email, usersByEmail[email], id);
          assert Focus(id);
        }
        if email in usersByEmail && usersByEmail[email].id != user.id {
          return true;
        }
      }
      taken := false;
    }

    // The map writes at the end of CreateUser and of UpdateUser.
    method Insert(stored: UserObject, ghost value: User)
      requires Valid() && Separate(stored) && stored.id !in users
      requires stored.Holds(value.id, value)
      requires !Clashes(lower, Contents, value)
      modifies this
      ensures Valid() && Repr == old(Repr) + stored.Repr
      ensures Contents == old(Contents)[value.id := value]
    {
      IndexInsertBoth(lower, users, Contents, usersByUsername, usersByEmail, stored, value);
      InsertById(stored, value);
      InsertByName(stored, value);
    }

    method InsertById(stored: UserObject, ghost value: User)
      requires Owns() && Separate(stored) && stored.id !in users
      requires stored.Holds(value.id, value)
      modifies this`users, this`Contents, this`Repr
      ensures Owns() && Repr == old(Repr) + stored.Repr
      ensures Contents == old(Contents)[value.id := value]
      ensures users == old(users)[value.id := stored]
    {
      users := users[stored.id := stored];
      Contents := Contents[stored.id := value];
      Repr := Repr + stored.Repr;
    }

    method InsertByName(stored: UserObject, ghost value: User)
      requires Owns() && stored.id in users && users[stored.id] == stored && Contents[stored.id] == value
      modifies this`usersByUsername, this`usersByEmail
      ensures Owns()
      ensures usersByUsername == IndexWith(lower, Username, old(usersByUsername), stored, value)
      ensures usersByEmail == IndexWith(lower, Email, old(usersByEmail), stored, value)
    {
      assert Focus(stored.id);
      var byUsername, byEmail := usersByUsername, usersByEmail;
      if stored.username != null {
        byUsername := byUsername[lower(stored.username.value) := stored];
      }
      if stored.email != null {
        byEmail := byEmail[lower(stored.email.value) := stored];
      }
      usersByUsername, usersByEmail := byUsername, byEmail;
    }
  }

  // ---- The indexes, as relations between maps ----

  ghost function IndexWith(lower: Lower, f: Field, index: map<string, UserObject>, stored: UserObject, value: User)
    : map<string, UserObject>
  {
    if Key(lower, f, value).None? then index else index[Key(lower, f, value).value := stored]
  }

  // Each index entry is the very object stored under its ID, keyed by the folded
  // identifier of that object, and every identifier is indexed.
  ghost predicate IndexedBy(lower: Lower, f: Field, users: map<UserId, UserObject>, t: Table,
                            index: map<string, UserObject>)
  {
    && users.Keys == t.Keys
    && (forall key | key in index :: exists id :: Entry(lower, f, users, t, key, index[key], id))
    && (forall id {:trigger Focus(id)} | Focus(id) && id in users && Key(lower, f, t[id]).Some? ::
          var key := Key(lower, f, t[id]).value;
          key in index && index[key] == users[id])
  }

  ghost predicate Entry(lower: Lower, f: Field, users: map<UserId, UserObject>, t: Table, key: string, o: UserObject,
                        id: UserId)
  {
    id in users && id in t && users[id] == o && Key(lower, f, t[id]) == Some(key)
  }

  lemma EntryMeans(lower: Lower, f: Field, users: map<UserId, UserObject>, t: Table, index: map<string, UserObject>,
                   key: string)
    requires IndexedBy(lower, f, users, t, index)
    ensures key in index ==> exists id :: Entry(lower, f, users, t, key, index[key], id)
    ensures key !in index ==> forall id | id in t :: Key(lower, f, t[id]) != Some(key)
  {
    forall id | id in t && Key(lower, f, t[id]) == Some(key)
      ensures key in index
    {
      assert Focus(id);
    }
  }

  ghost function IndexWithout(lower: Lower, f: Field, index: map<string, UserObject>, value: User)
    : map<string, UserObject>
  {
    if Key(lower, f, value).None? then index else index - {Key(lower, f, value).value}
  }

  lemma IndexRemove(lower: Lower, f: Field, users: map<UserId, UserObject>, t: Table, index: map<string, UserObject>,
                    id: UserId)
    requires IndexedBy(lower, f, users, t, index) && id in users
    requires forall a, b | a in users && b in users && a != b :: users[a] != users[b]
    ensures IndexedBy(lower, f, users - {id}, t - {id}, IndexWithout(lower, f, index, t[id]))
  {
    var users', t', index' := users - {id}, t - {id}, IndexWithout(lower, f, index, t[id]);
    assert Focus(id);
    forall key | key in index'
      ensures exists i :: Entry(lower, f, users', t', key, index'[key], i)
    {
      var i :| Entry(lower, f, users, t, key, index[key], i);
      assert Entry(lower, f, users', t', key, index'[key], i);
    }
  }

  lemma IndexKeep(lower: Lower, f: Field, users: map<UserId, UserObject>, t: Table, index: map<string, UserObject>,
                  id: UserId, value: User)
    requires IndexedBy(lower, f, users, t, index) && id in users
    requires Key(lower, f, value) == Key(lower, f, t[id])
    ensures IndexedBy(lower, f, users, t[id := value], index)
  {
    var t' := t[id := value];
    forall key | key in index
      ensures exists i :: Entry(lower, f, users, t', key, index[key], i)
    {
      var i :| Entry(lower, f, users, t, key, index[key], i);
      assert Entry(lower, f, users, t', key, index[key], i);
    }
  }

  lemma IndexKeepBoth(lower: Lower, users: map<UserId, UserObject>, t: Table, byUsername: map<string, UserObject>,
                      byEmail: map<string, UserObject>, id: UserId, value: User)
    requires IndexedBy(lower, Username, users, t, byUsername) && IndexedBy(lower, Email, users, t, byEmail)
    requires id in users
    requires value.profile.username == t[id].profile.username && value.profile.email == t[id].profile.email
    ensures IndexedBy(lower, Username, users, t[id := value], byUsername)
    ensures IndexedBy(lower, Email, users, t[id := value], byEmail)
  {
    IndexKeep(lower, Username, users, t, byUsername, id, value);
    IndexKeep(lower, Email, users, t, byEmail, id, value);
  }

  // An accepted update is a removal and an insertion.
  lemma UpdateAsReplacement(lower: Lower, t: Table, u: User, kept: User)
    requires u.id in t && !Clashes(lower, t, u) && kept == u.(security := t[u.id].security)
    ensures !Clashes(lower, t - {kept.id}, kept)
    ensures ((t - {kept.id})[kept.id := kept], Done) == Users.UpdateUser(lower, t, u)
  {
    assert (t - {kept.id})[kept.id := kept] == t[kept.id := kept];
  }

  lemma IndexInsertBoth(lower: Lower, users: map<UserId, UserObject>, t: Table, byUsername: map<string, UserObject>,
                        byEmail: map<string, UserObject>, stored: UserObject, value: User)
    requires IndexedBy(lower, Username, users, t, byUsername) && IndexedBy(lower, Email, users, t, byEmail)
    requires value.id !in users && !Clashes(lower, t, value)
    ensures IndexedBy(lower, Username, users[value.id := stored], t[value.id := value],
                      IndexWith(lower, Username, byUsername, stored, value))
    ensures IndexedBy(lower, Email, users[value.id := stored], t[value.id := value],
                      IndexWith(lower, Email, byEmail, stored, value))
  {
    IndexInsert(lower, Username, users, t, byUsername, stored, value);
    IndexInsert(lower, Email, users, t, byEmail, stored, value);
  }

  // The entry for u's identifier, when there is one for another object than u's.
  ghost predicate OtherEntry(lower: Lower, f: Field, users: map<UserId, UserObject>, index: map<string, UserObject>,
                             u: User)
  {
    var key := Key(lower, f, u);
    key.Some? && key.value in index && (u.id in users ==> index[key.value] != users[u.id])
  }

  lemma OtherEntryMeans(lower: Lower, f: Field, users: map<UserId, UserObject>, t: Table,
                        index: map<string, UserObject>, u: User)
    requires IndexedBy(lower, f, users, t, index)
    requires forall a, b | a in users && b in users && a != b :: users[a] != users[b]
    ensures OtherEntry(lower, f, users, index, u) <==> ClashesOn(lower, f, t, u)
  {
    if Key(lower, f, u).Some? {
      var key := Key(lower, f, u).value;
      if OtherEntry(lower, f, users, index, u) {
        var id :| Entry(lower, f, users, t, key, index[key], id);
      }
      if id :| id in t && id != u.id && Key(lower, f, t[id]) == Key(lower, f, u) {
        assert Focus(id);
      }
    }
  }

  // The two index checks of CreateUser and of UpdateUser find exactly the clashes.
  lemma ClashesAsIndexed(lower: Lower, users: map<UserId, UserObject>, t: Table,
                         byUsername: map<string, UserObject>, byEmail: map<string, UserObject>, u: User)
    requires IndexedBy(lower, Username, users, t, byUsername) && IndexedBy(lower, Email, users, t, byEmail)
    requires forall a, b | a in users && b in users && a != b :: users[a] != users[b]
    ensures Clashes(lower, t, u)
            <==> OtherEntry(lower, Username, users, byUsername, u) || OtherEntry(lower, Email, users, byEmail, u)
  {
    OtherEntryMeans(lower, Username, users, t, byUsername, u);
    OtherEntryMeans(lower, Email, users, t, byEmail, u);
  }

  lemma IndexInsert(lower: Lower, f: Field, users: map<UserId, UserObject>, t: Table, index: map<string, UserObject>,
                    stored: UserObject, value: User)
    requires IndexedBy(lower, f, users, t, index) && value.id !in users
    requires Key(lower, f, value).Some? ==> Key(lower, f, value).value !in index
    ensures IndexedBy(lower, f, users[value.id := stored], t[value.id := value],
                      IndexWith(lower, f, index, stored, value))
  {
    var users', t' := users[value.id := stored], t[value.id := value];
    var index' := IndexWith(lower, f, index, stored, value);
    forall key | key in index'
      ensures exists id :: Entry(lower, f, users', t', key, index'[key], id)
    {
      if Some(key) == Key(lower, f, value) {
        assert Entry(lower, f, users', t', key, index'[key], value.id);
      } else {
        var id :| Entry(lower, f, users, t, key, index[key], id);
        assert Entry(lower, f, users', t', key, index'[key], id);
      }
    }
  }
}
