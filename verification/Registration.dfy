/** What a registration stores, when it is refused, and that the password registered is the one
    that logs in (handler.go:202-325). */
module Registration {
  import opened Wrappers
  import opened Users
  import opened StorageRuns
  import opened StorageLaws
  import opened PasswordHash
  import opened Protocol
  import opened SoloRuns
  import opened Replies
  import opened LegacyUpgrade
  import opened HandlerLaws
  import Base64
  import PasswordHashLaws

  // A stored user has this username or this e-mail, letter case aside.
  ghost predicate InUse(cfg: Config, t: Table, username: Option<string>, email: Option<string>) {
    exists id :: id in t
                 && (|| (username.Some? && t[id].profile.username.Some?
                         && cfg.lower(t[id].profile.username.value) == cfg.lower(username.value))
                     || (email.Some? && t[id].profile.email.Some?
                         && cfg.lower(t[id].profile.email.value) == cfg.lower(email.value)))
  }

  lemma InUseIsFound(cfg: Config, t: Table, username: Option<string>, email: Option<string>)
    ensures InUse(cfg, t, username, email)
            <==> || (username.Some? && Find(cfg.lower, Username, t, username.value).Some?)
                 || (email.Some? && Find(cfg.lower, Email, t, email.value).Some?)
  {
    if username.Some? {
      LookupLaw(cfg.lower, Username, t, username.value);
    }
    if email.Some? {
      LookupLaw(cfg.lower, Email, t, email.value);
    }
    if id :| id in t && username.Some? && HasIdentifier(cfg.lower, Username, t[id], username.value) {
      assert InUse(cfg, t, username, email);
    }
    if id :| id in t && email.Some? && HasIdentifier(cfg.lower, Email, t[id], email.value) {
      assert InUse(cfg, t, username, email);
    }
    if InUse(cfg, t, username, email) {
      var id :| id in t
                && (|| (username.Some? && t[id].profile.username.Some?
                        && cfg.lower(t[id].profile.username.value) == cfg.lower(username.value))
                    || (email.Some? && t[id].profile.email.Some?
                        && cfg.lower(t[id].profile.email.value) == cfg.lower(email.value)));
      assert || (username.Some? && HasIdentifier(cfg.lower, Username, t[id], username.value))
             || (email.Some? && HasIdentifier(cfg.lower, Email, t[id], email.value));
    }
  }

  // A registration goes through exactly when it names an identifier, each it names is of a
  // kind that is enabled and in nobody's use, the password can be hashed and the ID is new.
  lemma RegisterAnswers(cfg: Config, t: Table, ses: Cookie, username: Option<string>, email: Option<string>,
                        password: string, x: Readings)
    requires Keyed(t) && |x.salt| == cfg.saltLength
    ensures
      var reply := RegisterReply(cfg, t, ses, username, email, password, x);
      && reply.status
         == (if || (username == None && email == None) || (username != None && !cfg.enableUsernameLogin)
                || (email != None && !cfg.enableEmailLogin) then InvalidRequest
             else if InUse(cfg, t, username, email) then UserExists
             else if !cfg.hash(password, x.salt).Hash? || x.newId in t then InternalError
             else Success)
      && (reply.status != Success ==> reply == Reply(t, ses, [], reply.status))
  {
    InUseIsFound(cfg, t, username, email);
    if cfg.hash(password, x.salt).Hash? && !InUse(cfg, t, username, email) {
      FreeIsNotTaken(cfg, t, username, email, Fresh(username, email, cfg.hash(password, x.salt).text, x));
    }
  }

  lemma FreeIsNotTaken(cfg: Config, t: Table, username: Option<string>, email: Option<string>, user: User)
    requires user.profile.username == username && user.profile.email == email && !InUse(cfg, t, username, email)
    ensures CreateUser(cfg.lower, t, user).1 == Done <==> user.id !in t
  {
    CreationLaw(cfg.lower, t, user);
  }

  // The user that a registration stores: the identifiers and times given, the hash made of the
  // password, and nothing else.
  function Fresh(username: Option<string>, email: Option<string>, hash: string, x: Readings): User {
    var profile := Profile(username, email, hash, x.writtenAt, x.writtenAt, false, None);
    User(x.newId, profile, Security(None, false, None, [], 0))
  }

  lemma RegisterStores(cfg: Config, t: Table, ses: Cookie, username: Option<string>, email: Option<string>,
                       password: string, x: Readings)
    requires Keyed(t) && |x.salt| == cfg.saltLength
    requires RegisterReply(cfg, t, ses, username, email, password, x).status == Success
    ensures
      var reply := RegisterReply(cfg, t, ses, username, email, password, x);
      && cfg.hash(password, x.salt).Hash? && x.newId !in t
      && reply.store == t[x.newId := Fresh(username, email, cfg.hash(password, x.salt).text, x)]
      && reply.values == Cookie(Some(x.newId), ses.pendingUser, ses.pendingExpiry, ses.pendingSecret)
      && reply.saved == [reply.values]
  {
  }

  // This identifier, as a login reads it, is one of those registered, letter case aside.
  predicate Names(cfg: Config, username: Option<string>, email: Option<string>, identifier: string) {
    if '@' in identifier then email.Some? && cfg.lower(email.value) == cfg.lower(identifier)
    else username.Some? && cfg.lower(username.value) == cfg.lower(identifier)
  }

  lemma RegisteredIsMeant(cfg: Config, t: Table, ses: Cookie, username: Option<string>, email: Option<string>,
                          password: string, x: Readings, identifier: string)
    requires Keyed(t) && UniqueIdentifiers(cfg.lower, t) && |x.salt| == cfg.saltLength
    requires RegisterReply(cfg, t, ses, username, email, password, x).status == Success
    requires Names(cfg, username, email, identifier)
    ensures
      var t' := RegisterReply(cfg, t, ses, username, email, password, x).store;
      Keyed(t') && UniqueIdentifiers(cfg.lower, t') && Meant(cfg, t', identifier, x.newId)
  {
    RegisterAnswers(cfg, t, ses, username, email, password, x);
    RegisterStores(cfg, t, ses, username, email, password, x);
    var user := Fresh(username, email, cfg.hash(password, x.salt).text, x);
    IdentifiersStayUniqueStep(cfg.lower, t, Create(user));
    assert RegisterReply(cfg, t, ses, username, email, password, x).store == CreateUser(cfg.lower, t, user).0;
  }

  // The new user logs in, by either identifier, with the password registered, and with another
  // only if Argon2 makes the same output of it, when the hashing parameters are within the
  // verifier's limits. Otherwise the legacy verifier alone decides.
  lemma RegisteredLogsIn(cfg: Config, argon: Argon, p: Params, t: Table, ses: Cookie, ses': Cookie,
                         username: Option<string>, email: Option<string>, password: string, x: Readings,
                         identifier: string, tried: string, x': Readings)
    requires HashesWith(cfg, argon, p) && |x.salt| == p.saltLength && |x'.salt| == p.saltLength
    requires Keyed(t) && UniqueIdentifiers(cfg.lower, t) && Names(cfg, username, email, identifier)
    requires RegisterReply(cfg, t, ses, username, email, password, x).status == Success
    ensures
      var registered := RegisterReply(cfg, t, ses, username, email, password, x);
      var login := LoginReply(cfg, registered.store, ses', identifier, tried, x');
      && x.newId in registered.store
      && login.status
         == (if && 32_768 <= p.memory <= 131_072 && 1 <= p.iterations <= 50 && 1 <= p.parallelism <= 8
                && p.saltLength >= 16 && p.keyLength >= 16 then
               if argon(tried, x.salt, p.iterations, p.memory, p.parallelism, p.keyLength)
                  == argon(password, x.salt, p.iterations, p.memory, p.parallelism, p.keyLength) then Success
               else InvalidCredentials
             else if && cfg.legacy.Some?
                     && cfg.legacy.value(tried, registered.store[x.newId].profile.passwordHash) == LegacyMatch then
               Success
             else InvalidCredentials)
      && (login.status == Success ==> login.values == ses'.(userId := Some(x.newId)))
  {
    var t' := RegisterReply(cfg, t, ses, username, email, password, x).store;
    RegisterStores(cfg, t, ses, username, email, password, x);
    RegisteredIsMeant(cfg, t, ses, username, email, password, x, identifier);
    assert cfg.hash(password, x.salt) == HashPassword(argon, password, p, x.salt);
    PasswordHashLaws.OwnHashInLimits(argon, password, p, x.salt, tried);
    NeverPanics(argon, password, p, x.salt, tried, x'.salt);
    assert cfg.hash(tried, x'.salt) == HashPassword(argon, tried, p, x'.salt);
    LoginAnswers(cfg, t', ses', identifier, x.newId, tried, x');
    MeantIsFound(cfg, t', identifier, x.newId);
  }

  lemma NeverPanics(argon: Argon, password: string, p: Params, salt: seq<Base64.Byte>, tried: string,
                    salt': seq<Base64.Byte>)
    requires |salt| == p.saltLength && |salt'| == p.saltLength && HashPassword(argon, password, p, salt).Hash?
    ensures !HashPassword(argon, tried, p, salt').Panicked?
  {
  }
}
