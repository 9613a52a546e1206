/** The legacy re-hash under races (handler.go:416-443): what its fresh read protects, and
    what the admitted window between that read and the write can lose. */
module RehashRace {
  import opened Wrappers
  import opened Users
  import opened Base64
  import opened Text
  import PasswordHash
  import Settings
  import opened Protocol
  import opened ProtocolInvariant
  import opened AttemptBudget
  import opened SessionProvenance
  import opened SoloRuns

  // Request r re-read the user at i, still with the hash it had verified, and wrote at j
  // that very user with nothing but the hash and the time of the update changed.
  ghost predicate RehashAt(cfg: Config, t: Table, log: seq<Event>, i: nat, j: nat) {
    && i < j < |log| && log[i].Reread? && log[j].Rehashed? && log[i].r == log[j].r
    && Stored(cfg, t, log[..i], log[i].user)
    && VerifiedHash(cfg, log[..i], log[i].r, log[i].user.id, log[i].user.profile.passwordHash)
    && var was, now := log[i].user, log[j].user;
       now == was.(profile :=
         was.profile.(passwordHash := now.profile.passwordHash, updatedAt := now.profile.updatedAt))
  }

  lemma RehashFollowsReread(cfg: Config, t: Table, log: seq<Event>, j: nat) returns (i: nat)
    requires Justified(cfg, t, log) && j < |log| && log[j].Rehashed?
    ensures RehashAt(cfg, t, log, i, j)
  {
    assert EventOk(cfg, t, log[..j], log[j]);
    var u := log[j].user;
    var was: User :|
      && Reread(log[j].r, was) in log[..j] && was.id == u.id
      && u == was.(profile := was.profile.(passwordHash := u.profile.passwordHash, updatedAt := u.profile.updatedAt));
    i := IndexOf(log[..j], Reread(log[j].r, was));
    assert EventOk(cfg, t, log[..i], log[i]);
  }

  // The stored hash of the user is another one at every point from m on, before j.
  ghost predicate OtherHash(cfg: Config, t: Table, log: seq<Event>, id: UserId, hash: string, m: nat, j: nat)
    requires j <= |log|
  {
    forall n | m <= n < j ::
      id in Replay(cfg, t, log[..n]) ==> Replay(cfg, t, log[..n])[id].profile.passwordHash != hash
  }

  // A login accepts one user's password only.
  lemma OnePasswordPerRequest(cfg: Config, t: Table, log: seq<Event>, a: nat, b: nat)
    requires Justified(cfg, t, log) && a < |log| && b < |log|
    requires log[a].PasswordOk? && log[b].PasswordOk? && log[a].r == log[b].r
    ensures a == b
  {
    if a < b {
      RankRises(cfg, t, log, a, b);
    } else if b < a {
      RankRises(cfg, t, log, b, a);
    }
  }

  // What request r re-read is the hash that its login had verified.
  lemma RereadFindsVerifiedHash(cfg: Config, t: Table, log: seq<Event>, p: nat, i: nat, j: nat)
    requires Justified(cfg, t, log) && RehashAt(cfg, t, log, i, j)
    requires p < |log| && log[p].PasswordOk? && log[p].r == log[j].r
    ensures
      var user := log[p].user;
      user.id in Replay(cfg, t, log[..i])
          && Replay(cfg, t, log[..i])[user.id].profile.passwordHash == user.profile.passwordHash
  {
    var r, was := log[i].r, log[i].user;
    var user: User, password: string :|
      && user.id == was.id && user.profile.passwordHash == was.profile.passwordHash
      && PasswordOk(r, user, password) in log[..i];
    var q := IndexOf(log[..i], PasswordOk(r, user, password));
    OnePasswordPerRequest(cfg, t, log, p, q);
  }

  // A password reset that lands before the fresh read is never overwritten: when the
  // stored hash is no longer the verified one from m on, only a re-hash that had re-read
  // the user before m can still write.
  lemma EarlierResetsSurvive(cfg: Config, t: Table, log: seq<Event>, p: nat, m: nat, j: nat)
    requires Keyed(t) && LogOfRun(cfg, t, log)
    requires
      && p < |log| && m <= j < |log| && log[p].PasswordOk? && log[j].Rehashed? && log[j].r == log[p].r
      && OtherHash(cfg, t, log, log[p].user.id, log[p].user.profile.passwordHash, m, j)
    ensures
      exists i: nat :: i < m && RehashAt(cfg, t, log, i, j)
  {
    RunsAreJustified(cfg, t, log);
    var i := RehashFollowsReread(cfg, t, log, j);
    RereadFindsVerifiedHash(cfg, t, log, p, i, j);
  }

  // ---- The window ----

  // A write that replaces the user, or its profile.
  function ProfileWriteOf(id: UserId): Event -> bool {
    (e: Event) =>
      || ((e.Updated? || e.Rehashed? || e.Registered? || e.Provisioned?) && e.user.id == id)
      || (e.Deleted? && e.id == id)
  }

  ghost predicate SameButTime(a: Profile, b: Profile) {
    a.(updatedAt := b.updatedAt) == b
  }

  ghost predicate HasProfile(cfg: Config, t: Table, log: seq<Event>, id: UserId, p: Profile) {
    id in Replay(cfg, t, log) && SameButTime(Replay(cfg, t, log)[id].profile, p)
  }

  lemma OthersKeepProfile(cfg: Config, t: Table, e: Event, id: UserId)
    requires id in t && !ProfileWriteOf(id)(e)
    ensures id in Effect(cfg, t, e) && SameButTime(Effect(cfg, t, e)[id].profile, t[id].profile)
  {
  }

  lemma {:induction false} QuietWindow(cfg: Config, t: Table, log: seq<Event>, id: UserId, p: Profile, i: nat, j: nat)
    requires i <= j <= |log| && HasProfile(cfg, t, log[..i], id, p) && NoneIn(log, i, j, ProfileWriteOf(id))
    ensures HasProfile(cfg, t, log[..j], id, p)
    decreases j
  {
    if i == j {
    } else {
      QuietWindow(cfg, t, log, id, p, i, j - 1);
      PrefixReplay(cfg, t, log, j - 1);
      assert !ProfileWriteOf(id)(log[j - 1]);
      OthersKeepProfile(cfg, Replay(cfg, t, log[..j - 1]), log[j - 1], id);
    }
  }

  // What the re-hash writes over: with no profile write in its window, the stored profile is
  // still the one re-read, but for the update time, so the write changes the hash only.
  lemma QuietWindowLosesNothing(cfg: Config, t: Table, log: seq<Event>, j: nat)
    requires Keyed(t) && LogOfRun(cfg, t, log)
    requires j < |log| && log[j].Rehashed?
    ensures
      exists i: nat ::
        && RehashAt(cfg, t, log, i, j)
        && (NoneIn(log, i, j, ProfileWriteOf(log[j].user.id)) ==>
              HasProfile(cfg, t, log[..j], log[j].user.id, log[i].user.profile))
  {
    RunsAreJustified(cfg, t, log);
    var i := RehashFollowsReread(cfg, t, log, j);
    var id, p := log[j].user.id, log[i].user.profile;
    if NoneIn(log, i, j, ProfileWriteOf(id)) {
      QuietWindow(cfg, t, log, id, p, i, j);
    }
  }

  // The write of a re-hash takes effect: the stored profile is the written one.
  lemma RehashLands(cfg: Config, t: Table, log: seq<Event>, j: nat)
    requires Keyed(t) && LogOfRun(cfg, t, log)
    requires j < |log| && log[j].Rehashed?
    ensures
      var id := log[j].user.id;
      id in Replay(cfg, t, log[..j + 1]) && Replay(cfg, t, log[..j + 1])[id].profile == log[j].user.profile
  {
    RunsAreJustified(cfg, t, log);
    assert EventOk(cfg, t, log[..j], log[j]);
    PrefixReplay(cfg, t, log, j);
  }

  lemma RereadIsNoWrite(cfg: Config, t: Table, log: seq<Event>, i: nat, m: nat, j: nat)
    requires RehashAt(cfg, t, log, i, j) && i <= m < j && ProfileWriteOf(log[j].user.id)(log[m])
    ensures i < m
  {
  }

  // The same profile but for the hash and the update time.
  predicate SameButHash(a: Profile, b: Profile) {
    a.(passwordHash := b.passwordHash, updatedAt := b.updatedAt) == b
  }

  // A re-hash leaves exactly the profile it had re-read, with the new hash. So what a write
  // within its window did to the profile is undone, whatever else happened in between: where
  // the profile differed after the write from the one re-read, or had another hash than the
  // re-hash writes, it no longer is what the write had made it.
  lemma WindowLosesWrites(cfg: Config, t: Table, log: seq<Event>, i: nat, m: nat, j: nat)
    requires Keyed(t) && LogOfRun(cfg, t, log)
    requires RehashAt(cfg, t, log, i, j) && i <= m < j && ProfileWriteOf(log[j].user.id)(log[m])
    ensures i < m
    ensures
      var id := log[j].user.id;
      && id in Replay(cfg, t, log[..j + 1])
      && var after := Replay(cfg, t, log[..j + 1])[id].profile;
         && after.passwordHash == log[j].user.profile.passwordHash && SameButHash(after, log[i].user.profile)
         && (id in Replay(cfg, t, log[..m + 1]) ==>
               var written := Replay(cfg, t, log[..m + 1])[id].profile;
               && (!SameButHash(written, log[i].user.profile) ==> !SameButHash(after, written))
               && (written.passwordHash != log[j].user.profile.passwordHash ==>
                     after.passwordHash != written.passwordHash))
  {
    RehashLands(cfg, t, log, j);
  }

  // So a reset is lost to a re-hash only within the window, and there always: when a write at
  // m takes the verified hash away and the re-hash of a login comes after it, at j, then the
  // fresh read was before m, and j has put its own hash in the place of the reset.
  lemma ResetsAreLostInWindowOnly(cfg: Config, t: Table, log: seq<Event>, p: nat, m: nat, j: nat)
    requires Keyed(t) && LogOfRun(cfg, t, log)
    requires
      && p < |log| && m < j < |log| && log[p].PasswordOk? && log[j].Rehashed? && log[j].r == log[p].r
      && ProfileWriteOf(log[j].user.id)(log[m])
      && OtherHash(cfg, t, log, log[p].user.id, log[p].user.profile.passwordHash, m + 1, j)
    ensures exists i: nat :: i < m && RehashAt(cfg, t, log, i, j)
    ensures
      var id := log[j].user.id;
      id in Replay(cfg, t, log[..j + 1]) && Replay(cfg, t, log[..j + 1])[id].profile == log[j].user.profile
  {
    EarlierResetsSurvive(cfg, t, log, p, m + 1, j);
    var i: nat :| i < m + 1 && RehashAt(cfg, t, log, i, j);
    RereadIsNoWrite(cfg, t, log, i, m, j);
    RehashLands(cfg, t, log, j);
  }

  // ---- A run that loses one ----

  // Passwords like this one were imported under a hash that only the legacy verifier takes,
  // and newHash is what the re-hash makes of it.
  ghost predicate Imports(cfg: Config, salt: seq<Byte>, newHash: string) {
    && cfg.enableUsernameLogin && !cfg.verify("pw", "old").valid && cfg.verify("pw", "old").error.Some?
    && LegacyAccepts(cfg, "pw", "old") && |salt| == cfg.saltLength && cfg.hash("pw", salt) == PasswordHash.Hash(newHash)
  }

  function Ada(hash: string): User {
    User(1, Profile(Some("ada"), None, hash, 0, 0, false, None), NO_TFA)
  }

  function Onward(salt: seq<Byte>): Action {
    Advance(0, Choice(0, 0, "", salt, [], [], false))
  }

  function LoginThen(salt: seq<Byte>, n: nat): seq<Action> {
    if n == 0 then [Login(NO_VALUES, "ada", "pw")] else LoginThen(salt, n - 1) + [Onward(salt)]
  }

  ghost predicate Reaches(s: State, hash: string, q: Request) {
    s.store == map[1 := Ada(hash)] && s.requests == map[0 := q] && s.next > 0
  }

  lemma AdaIsRead(cfg: Config, salt: seq<Byte>, newHash: string, s: State)
    requires Imports(cfg, salt, newHash) && Reaches(s, "old", LoginRead(NO_VALUES, "ada", "pw"))
    ensures Reaches(Step(cfg, s, Onward(salt)), "old", LoginVerify(NO_VALUES, Ada("old"), "pw"))
  {
    assert Key(cfg.lower, Username, s.store[1]) == Some(cfg.lower("ada"));
    assert Find(cfg.lower, Username, s.store, "ada") == Some(Ada("old"));
  }

  lemma AdaIsAccepted(cfg: Config, salt: seq<Byte>, newHash: string, s: State)
    requires Imports(cfg, salt, newHash) && Reaches(s, "old", LoginVerify(NO_VALUES, Ada("old"), "pw"))
    ensures Reaches(Step(cfg, s, Onward(salt)), "old", LoginRehash(NO_VALUES, Ada("old"), "pw"))
  {
  }

  lemma AdaIsHashed(cfg: Config, salt: seq<Byte>, newHash: string, s: State)
    requires Imports(cfg, salt, newHash) && Reaches(s, "old", LoginRehash(NO_VALUES, Ada("old"), "pw"))
    ensures Reaches(Step(cfg, s, Onward(salt)), "old", LoginReread(NO_VALUES, Ada("old"), "pw", newHash))
  {
  }

  function Window(newHash: string): Request {
    LoginRewrite(NO_VALUES, Ada("old"), "pw", Ada("old"), Ada(newHash))
  }

  lemma AdaIsReread(cfg: Config, salt: seq<Byte>, newHash: string, s: State)
    requires Reaches(s, "old", LoginReread(NO_VALUES, Ada("old"), "pw", newHash))
    ensures Reaches(Step(cfg, s, Onward(salt)), "old", Window(newHash))
  {
  }

  lemma LoginBegins(cfg: Config, s0: State, salt: seq<Byte>)
    requires s0 == Initial(map[1 := Ada("old")])
    ensures Reaches(Exec(cfg, s0, LoginThen(salt, 0)), "old", LoginRead(NO_VALUES, "ada", "pw"))
  {
    assert LoginThen(salt, 0) == [] + [Login(NO_VALUES, "ada", "pw")];
    ExecMore(cfg, s0, [], Login(NO_VALUES, "ada", "pw"));
  }

  lemma LoginReachesWindow(cfg: Config, salt: seq<Byte>, newHash: string, s0: State)
    requires Imports(cfg, salt, newHash) && s0 == Initial(map[1 := Ada("old")])
    ensures Reaches(Exec(cfg, s0, LoginThen(salt, 4)), "old", Window(newHash))
  {
    LoginBegins(cfg, s0, salt);
    AdaIsRead(cfg, salt, newHash, Exec(cfg, s0, LoginThen(salt, 0)));
    OneMore(cfg, s0, salt, 1);
    AdaIsAccepted(cfg, salt, newHash, Exec(cfg, s0, LoginThen(salt, 1)));
    OneMore(cfg, s0, salt, 2);
    AdaIsHashed(cfg, salt, newHash, Exec(cfg, s0, LoginThen(salt, 2)));
    OneMore(cfg, s0, salt, 3);
    AdaIsReread(cfg, salt, newHash, Exec(cfg, s0, LoginThen(salt, 3)));
    OneMore(cfg, s0, salt, 4);
  }

  lemma OneMore(cfg: Config, s: State, salt: seq<Byte>, n: nat)
    requires n > 0
    ensures Exec(cfg, s, LoginThen(salt, n)) == Step(cfg, Exec(cfg, s, LoginThen(salt, n - 1)), Onward(salt))
  {
    ExecMore(cfg, s, LoginThen(salt, n - 1), Onward(salt));
  }

  // After these actions a reset of the user's hash lands, and the last one puts another in its place.
  ghost predicate LosesReset(cfg: Config, t: Table, actions: seq<Action>, reset: User, last: Action) {
    && reset.id in t && reset.profile.passwordHash != t[reset.id].profile.passwordHash && last.Advance?
    && var landed := Exec(cfg, Initial(t), actions + [Write(reset)]);
       && landed.store == t[reset.id := reset]
       && var store := Step(cfg, landed, last).store;
          reset.id in store && store[reset.id].profile.passwordHash != reset.profile.passwordHash
  }

  lemma RaceLosesReset(cfg: Config, salt: seq<Byte>, newHash: string)
    requires Imports(cfg, salt, newHash) && newHash != "reset"
    ensures LosesReset(cfg, map[1 := Ada("old")], LoginThen(salt, 4), Ada("reset"), Onward(salt))
  {
    var t, reset := map[1 := Ada("old")], Ada("reset");
    var s0 := Initial(t);
    LoginReachesWindow(cfg, salt, newHash, s0);
    ExecMore(cfg, s0, LoginThen(salt, 4), Write(reset));
    ResetLands(cfg, newHash, Exec(cfg, s0, LoginThen(salt, 4)));
    ResetIsLost(cfg, salt, newHash, Exec(cfg, s0, LoginThen(salt, 4) + [Write(reset)]));
    assert t[reset.id := reset] == map[1 := reset];
  }

  lemma ResetLands(cfg: Config, newHash: string, s: State)
    requires Reaches(s, "old", Window(newHash))
    ensures Reaches(Step(cfg, s, Write(Ada("reset"))), "reset", Window(newHash))
  {
  }

  lemma ResetIsLost(cfg: Config, salt: seq<Byte>, newHash: string, s: State)
    requires Reaches(s, "reset", Window(newHash))
    ensures Step(cfg, s, Onward(salt)).store == map[1 := Ada(newHash)]
  {
  }

  // The window is real: with this library's own hashing, whatever its parameters and
  // whatever Argon2 computes, and a legacy verifier that takes one foreign hash, some run
  // has a reset land after the fresh read and the re-hash of the old password take its place.
  lemma ResetLostInWindow(st: Settings.BasicAuthSettings, u: Unicode, argon: PasswordHash.Argon,
                          totp: (string, string, Time) -> bool)
    requires st.enableUsernameLogin && st.hashingParams.iterations > 0 && st.hashingParams.parallelism > 0
    requires LegacyAccepts(Settings.Configured(st, u, argon, totp), "pw", "old")
    ensures exists t: Table, actions: seq<Action>, reset: User, last: Action ::
              Keyed(t) && LosesReset(Settings.Configured(st, u, argon, totp), t, actions, reset, last)
  {
    var cfg := Settings.Configured(st, u, argon, totp);
    var salt: seq<Byte> := seq(st.hashingParams.saltLength, _ => 0);
    var newHash := ImportedHash(st, u, argon, totp, salt);
    RaceLosesReset(cfg, salt, newHash);
    assert Keyed(map[1 := Ada("old")]);
  }

  lemma ImportedHash(st: Settings.BasicAuthSettings, u: Unicode, argon: PasswordHash.Argon,
                     totp: (string, string, Time) -> bool, salt: seq<Byte>) returns (newHash: string)
    requires st.enableUsernameLogin && st.hashingParams.iterations > 0 && st.hashingParams.parallelism > 0
    requires LegacyAccepts(Settings.Configured(st, u, argon, totp), "pw", "old")
    requires |salt| == st.hashingParams.saltLength
    ensures Imports(Settings.Configured(st, u, argon, totp), salt, newHash) && newHash != "reset"
  {
    var p := st.hashingParams;
    assert PasswordHash.VerifyPassword(argon, "pw", "old") == PasswordHash.Rejected(PasswordHash.InvalidHash) by {
      ForeignHash(argon);
    }
    assert PasswordHash.HashableLength("pw") by {
      assert "pw"[1..] == "w" && "w"[1..] == "";
    }
    newHash := PasswordHash.HashPassword(argon, "pw", p, salt).text;
    PasswordHash.StartsWithDollar(p, salt, argon("pw", salt, p.iterations, p.memory, p.parallelism, p.keyLength));
  }

  lemma ForeignHash(argon: PasswordHash.Argon)
    ensures PasswordHash.VerifyPassword(argon, "pw", "old") == PasswordHash.Rejected(PasswordHash.InvalidHash)
  {
    SplitPlain("old", '$');
  }
}
