# go-basicauth in Dafny

A model of the authentication library go-basicauth and proofs about it. It has four connected parts.

**The storage** (`Users.dfy`, `StorageLaws.dfy`, `StorageRuns.dfy`, `MemoryStorage.dfy`, `Isolation.dfy`). `Users` gives every operation of the
`Storage` interface its meaning on a plain table from user ID to user value. `MemoryStorage` is the in-memory storage as a heap
class: three maps that share user objects, which the narrow operations change in place. Each method is proved to do to its
`Contents` exactly what `Users` says, so a lookup by username or email, through the shared objects, equals a search of the table.
`Isolation` gives a client a heap of its own, with the users it built and those it was handed out, lets it write to all of it
and redirect and share any pointers in it between calls, and proves that this never changes what is stored. `StorageRuns` proves what any sequence of calls keeps.

**The login protocol** (`Protocol.dfy` and the files built on it). The handlers are split into steps that touch shared state at
most once. A run is any sequence of actions: a new request that presents any cookie ever emitted (or none), the next step of any
request in flight, the abrupt end of a request, or a storage call by the application itself. So every interleaving, on any number
of replicas, with any replay, is a run. Each step leaves at most one event in a log. `ProtocolInvariant` proves by induction over
runs that every event is justified by earlier ones and that the storage is the replay of the log. The theorems then speak of the
logs of runs (`LogOfRun`):
`SessionProvenance`, `MixedCookies`, `StaleSecrets`, `AttemptBudget` (with `Tallies`), `BackupCodeRaces`, `RehashRace`,
`ReachableStores`; `WitnessRuns` has runs that show their limits.

**The handlers** (`Handlers.dfy`, `Replies.dfy`, `HandlerLaws.dfy`, `Registration.dfy`, `SoloRuns.dfy`, `ReplyRuns.dfy`). `Handlers` has the handlers as methods that set
and delete the session's values and call `MemoryStorage`. Each is proved against a function of `Replies`, which fixes the storage,
the session's values, the cookies saved and the status; `ReplyRuns` proves that each reply is what the protocol's own steps lead to
when nothing interferes, from any state. So the machine about which the theorems are proved does what the handlers do.

**Texts** (`Text.dfy`, `Base64.dfy`, `PasswordHash.dfy`, `PasswordHashLaws.dfy`, `BackupCodes.dfy`, `BackupCodeLaws.dfy`,
`PathAccess.dfy`, `PathAccessLaws.dfy`, `LegacyUpgrade.dfy`, `Settings.dfy`).
The printer and the parser of the argon2id hash text, unpadded base64 (section 4 of RFC 4648, padding omitted as section 3.2
allows), issue and redemption of backup codes, path rules and the gate, and the upgrade of imported password hashes.
`Settings` puts these functions into the protocol's configuration. Argon2 (section 3.1 of RFC 9106) is a function of which only
the output length is known; TOTP is a predicate on secret, code and time; a legacy verifier is any deterministic function.

The modules whose names end in `Laws`, and `Registration`, say what each operation comes to, case by case, in terms of stored
fields, settings, letters, bytes and numbers, apart from the functions by which the operations are specified.

What the code guarantees, and no more, is what is proved:

- A pending cookie is not revoked when its challenge ends: it opens again until it expires (`CookiesAreNeverRevoked`,
  `ChallengeLivesExactly`).
- One cookie may carry the user ID of one user and a challenge of another (`MixedCookieArises`), since `createSession` keeps
  other values: exactly when it runs on a session that holds the challenge (`MixedCookiesWereGranted`, `GrantsMixExactly`).
- A TOTP code is checked against the secret that the request read, which an enrolment in between may have replaced
  (`StaleSecretIsChecked`): exactly when, says `CheckedSecretIsStoredExactly`.
- A password reset that lands between the re-hash's fresh read and its write is lost (`ResetLostInWindow`, `WindowLosesWrites`);
  one that lands before that read never is (`EarlierResetsSurvive`, `ResetsAreLostInWindowOnly`).
- The secret that an enrolment stores may come from another user's setup (`SecretsMayCrossUsers`): only when `createSession`
  ran for the enrolled user on a session that still held it (`EnrolledSecretsWereBrought`, `OwnGrantsEnrolOwnSecrets`).
- `HashPassword` does not check its parameters. With parameters outside the limits it makes a text that nothing verifies
  against (`OwnHashVerifiesExactly`), and a re-hash with them can lock a user out (`UpgradeLocksOut`; exactly when, says
  `AcceptedAgainExactly`).
- A whole-user write can change what another user may be called, so erasing it can change how the creation of a user is
  answered, and then what the run keeps of that user (`CreationsBreakErasure`); of every other user it never touches the
  security fields (`ErasureExactly`, `UpdatesErasable`).
- The error text of `HashPassword` speaks of 1 to 72 characters; the code counts bytes, and so does the model.
- A path rule with an empty path never counts, whatever its type (`handler.go:573`).

## Model

| member | source | states |
|---|---|---|
| Users.RemoveFirstCounts | storage_memory.go:181-188 | consuming a hash lowers its own multiplicity by one if it is there, and no other's |
| Users.RemoveFirstAt | storage_memory.go:181-187 | the hash leaves at its first index, the others keep their order |
| StorageLaws.CreationLaw | storage_memory.go:27-61 | a user is stored, exactly as given, iff its ID is new and nobody has its username or email up to letter case; else it is refused as existing and nothing changes |
| StorageLaws.UpdateLaw | storage_memory.go:101-144 | an update writes the whole profile and no security field of a stored user, iff nobody else has the identifiers; unknown and taken are told apart |
| StorageLaws.DeletionLaw | storage_memory.go:219-239 | the user is gone and the others stay; an unknown one is reported |
| StorageLaws.AttemptLaw | storage_memory.go:158-169 | an attempt is taken iff the counter is below the limit; what remains is the limit less the counter stored afterwards, so none iff that counter has reached it; else exhausted or not found, and nothing changes |
| StorageLaws.ResetLaw | storage_memory.go:171-176 | the counter of a stored user is zero, and nothing else changes |
| StorageLaws.BackupCodeLaw | storage_memory.go:178-192 | the first stored copy of the hash goes, iff there is one, and the others keep their order |
| StorageLaws.EnrolmentLaw | storage_memory.go:194-205 | secret, codes and time are stored with a zero counter; the profile keeps all but its update time |
| StorageLaws.DisenrolmentLaw | storage_memory.go:207-217 | no secret, no codes, no time, a zero counter; the profile keeps all but its update time |
| StorageLaws.LookupLaw | storage_memory.go:63-85 | a lookup finds a stored user with this username or email up to letter case, iff there is one |
| StorageRuns.IdentifiersStayUnique | storage_memory.go:27-144 | after every sequence of operations no two users share a case-folded username or email |
| StorageRuns.UpdateRefusedExactly | storage_memory.go:105-119 | an update is refused exactly when the user is unknown or the result would break that uniqueness |
| StorageRuns.OwnLetterCase | storage_memory.go:110-119 | a user may change the letter case of its own identifiers, and no security field changes |
| StorageRuns.ErasureExactly | storage_interface.go:5-19 | erasing every whole-user write keeps a user's presence and security fields at every point of a run iff each creation of that very user finds its identifiers taken or free as before |
| StorageRuns.UpdatesErasable | storage_memory.go:99-144 | so it does for every user that the run does not create, and for every user stored at its start that it does not delete, whatever else it creates |
| StorageRuns.UpdatesNeverTouchSecurity | storage_interface.go:5-19 | over a fixed set of users it does for all of them |
| StorageRuns.NarrowOpsIgnoreProfiles | storage_memory.go:158-239 | each narrow operation acts on the security fields of a user alone, and so does its answer for that user |
| StorageRuns.CreationsBreakErasure | storage_memory.go:35-47 | a user created in the run can lose by the erasure: a concrete run |
| StorageRuns.EnrolmentStaysConsistent | storage_memory.go:178-217 | enabled iff a secret iff an enrolment time, and no codes without enrolment, after every sequence of operations; login and middleware agree |
| MemoryStore.UserObject.KeepSecurity | storage_memory.go:129-133 | the clone takes over the five stored security fields, pointers and list included |
| MemoryStore.UserObject.DropCode | storage_memory.go:181-189 | the loop drops the first equal hash, stamps the update, and tells whether it did |
| MemoryStore.ClonePtr | storage_memory.go:254-260 | a fresh cell with the same value, or nil |
| MemoryStore.CloneUser | storage_memory.go:243-252 | an equal user that shares no object with the original |
| MemoryStore.MemoryStorage.constructor | storage_memory.go:19-25 | an empty storage |
| MemoryStore.MemoryStorage.CreateUser | storage_memory.go:27-61 | the table gains the user, or is refused with all three maps as they were |
| MemoryStore.MemoryStorage.GetUserByID | storage_memory.go:87-97 | a fresh copy of the stored user |
| MemoryStore.MemoryStorage.GetUserByUsername | storage_memory.go:63-73 | a fresh copy of what a search of the table by folded username finds |
| MemoryStore.MemoryStorage.GetUserByEmail | storage_memory.go:75-85 | the same by email |
| MemoryStore.MemoryStorage.UpdateUser | storage_memory.go:101-144 | the profile is replaced, the stored security fields stay; a refusal leaves all three maps as they were |
| MemoryStore.MemoryStorage.DeleteUser | storage_memory.go:219-239 | the user leaves the table and both indexes |
| MemoryStore.MemoryStorage.ConsumeTOTPAttempt | storage_memory.go:158-169 | one attempt is counted and the rest returned, or it is refused at the limit |
| MemoryStore.MemoryStorage.ResetTOTPAttempts | storage_memory.go:171-176 | the counter is zero, nothing else changes |
| MemoryStore.MemoryStorage.ConsumeBackupCode | storage_memory.go:178-192 | one occurrence of the hash is removed, or nothing changes |
| MemoryStore.MemoryStorage.SetTOTP | storage_memory.go:194-205 | the enrolment is stored with a zero counter |
| MemoryStore.MemoryStorage.ClearTOTP | storage_memory.go:207-217 | all two-factor data is gone |
| MemoryStore.MemoryStorage.IdentifierTaken | storage_memory.go:110-119 | the two index checks find exactly the clashes with other stored users |
| MemoryStore.MemoryStorage.Found | storage_memory.go:67-72 | an index entry points to the very object stored under the ID that a search finds |
| MemoryStore.MemoryStorage.IdentifiersAreUnique | storage_memory.go:35-47 | a valid heap has unique folded identifiers |
| Isolation.Client.Run | storage_memory.go:241-260 | any program of a client that writes to the strings, times, lists and users it has, points any user at any of them or at nothing, so that users share them, and passes users and lists in, sees the storage behave as a table of values and its own heap change by its own doing alone |
| Isolation.Client.PointString | storage_memory.go:243-260 | a pointer of a user the client has may be set to any of its strings or to nil |
| Isolation.Client.KeepUser | storage_memory.go:243-252 | a user handed out comes with strings, a time and a list that nobody else has |
| Isolation.Client.Enrol | storage_memory.go:194-205 | the list passed to SetTOTP stays the client's own |
| Text.NormalizeVariant | tfa.go:97 | trimming and lowercasing undo any surrounding white space and any letter case that lowercases back |
| Text.SplitJoin | util.go:75 | splitting undoes joining for parts free of the separator |
| Text.SplitExactly | util.go:75 | the parts of a text are those without the separator that give the text again when joined |
| Text.DecimalRoundTrip | util.go:69-71 | a printed number reads back as itself |
| Base64.DecodeEncode | util.go:64-66 | decoding undoes encoding for every byte string, and no `$` is produced |
| Base64.EncodesBits | util.go:64-66 | each group of characters holds the bits of its three bytes by the alphabet of RFC 4648, and of one or two bytes left over with zeros after them |
| Base64.DecodesBits | util.go:106-114 | a text decodes iff, line ends apart, it has alphabet characters only and not one over after groups of four, and then to the bytes whose bits they hold |
| PasswordHash.DecodeParamsLoop | util.go:132-172 | the loop over the items computes the parameters or fails as specified |
| PasswordHash.DecodeParamsExactly | util.go:132-172 | it succeeds exactly on the orderings of one m, one t and one p field with positive values in range, and returns these |
| PasswordHash.OrderOfParamsIrrelevant | util.go:141-166 | permuting the three items does not change the result |
| PasswordHash.VerifyPassword | util.go:74-130 | an error means not valid; without an error the cost parameters are within the limits |
| PasswordHash.HashVerifies | util.go:52-130 | for in-limit parameters the printed hash verifies with exactly these, for another password only if the Argon2 outputs are equal; otherwise no password verifies |
| PasswordHash.OwnHashVerifiesExactly | util.go:52-130 | a password verifies against its own hash if and only if the parameters are within the limits |
| PasswordHashLaws.HashedText | util.go:52-72 | a password is hashed iff it has 1 to 72 bytes and there is a round and a thread, and the text is `$argon2id$v=19$m=…,t=…,p=…$salt$output` |
| PasswordHashLaws.BytesAdd | util.go:53 | a password's length counts one to four bytes per character, by UTF-8 |
| PasswordHashLaws.ParsesExactly | util.go:149-152 | a number is read iff it has digits only, at least one, and is below 2^32 |
| PasswordHashLaws.VersionExactly | util.go:83-86 | a version is read from exactly the texts of "v=", blanks, a sign or none, digits, and anything after |
| PasswordHashLaws.VerdictGiven | util.go:74-130 | on a text of six parts, the second argon2id, version 19, parameters within the numbers of the limits and 16 bytes each of salt and output, the verdict is without error, and valid iff Argon2 makes that output |
| PasswordHashLaws.VerdictOnlyFor | util.go:74-130 | a verdict without error is given on such a text only |
| PasswordHashLaws.VersionErrors | util.go:83-89 | the version error is given iff the version of such a text is a number other than 19 |
| PasswordHashLaws.LimitErrors | util.go:91-102 | the limit error is given iff the version is 19 and the parameters read are beyond the limits |
| PasswordHashLaws.ForeignTextsFail | util.go:75-89 | a text with another name, number of parts or version verifies no password |
| PasswordHashLaws.OwnHashInLimits | util.go:52-130 | a made hash verifies, and only for the same Argon2 output, iff memory is 32768 to 131072, iterations 1 to 50, threads 1 to 8, salt and output at least 16 bytes; otherwise nothing verifies |
| BackupCodes.GenerateBackupCodes | tfa.go:53-91 | the nested loops issue exactly the specified codes and hashes, or fail as specified |
| BackupCodes.FindBackupCodeMatch | tfa.go:96-105 | the loop returns the first hash that the normalised code opens |
| BackupCodeLaws.IssuedLetters | tfa.go:53-91 | as many codes as asked for, each of the length asked for, letter j of code k being the lowercased alphabet's letter at draws[k][j], and hash k made from code k with salt k |
| BackupCodeLaws.IssuedExactly | tfa.go:53-91 | codes are issued iff the length is positive, two letters differ in lower case, and every code drawn can be hashed; the two other errors exactly otherwise |
| BackupCodeLaws.DrawsTellCodesApart | tfa.go:73-83 | over an alphabet without repeated letters two codes are equal iff their draws are |
| BackupCodeLaws.EveryCodeCanBeDrawn | tfa.go:73-83 | every hashable string of that length over the alphabet is issued for some draw, with the other codes as before |
| BackupCodeLaws.NormalizeExactly | tfa.go:97 | a submission loses the white space at its two ends and no other, and is lowercased |
| BackupCodeLaws.MatchExactly | tfa.go:96-105 | the match is the first hash against which the code verifies without error, and there is none iff it verifies against none |
| BackupCodes.RedeemStep | tfa.go:96-105 | a submission is accepted iff its code is still there, and takes away one copy of it |
| BackupCodes.AcceptedExactly | tfa.go:93-105 | in any sequence of submissions each is accepted iff its code was not used up by those before |
| BackupCodes.OneShotExactly | tfa.go:93-105 | a code works as often as it was issued and no more, whatever else is submitted |
| BackupCodes.IssuedArePaired | tfa.go:73-89 | among any strings of which none collides with an issued code, each issued code opens its own hash and no other string does |
| BackupCodes.IssuedOneShot | tfa.go:53-105 | in any sequence of submissions none of which collides with an issued code, each code works as often as it was issued |
| BackupCodes.RedemptionInAnyOrder | tfa.go:53-105 | if distinct issued codes never cross-verify, all redeem once each in any permutation, letter case and padding, and then none does |
| PathAccess.FindLongestMatchingRule | handler.go:553-582 | the loop returns the earliest longest rule with a non-empty path that matches, of the public paths followed by the rules |
| PathAccess.EqualLengthsEqualPaths | handler.go:584-593 | two matching rules of equal length have equal paths |
| PathAccess.OrderIndependentExactly | handler.go:569-579 | no permutation changes any decision if and only if rules that share a path agree on access |
| PathAccess.RequireAuth | handler.go:472-551 | the middleware decides as its declarative form |
| PathAccess.GateHolds | handler.go:478-543 | no rule opens a protected auth path or closes a public one, no rule means a user is needed, and in required mode a passing user is enrolled or on a setup path |
| PathAccessLaws.GateExactly | handler.go:472-551 | the decision written out by `request == path` and `request[..len(path)] == path`, with the eight auth paths below the base or `/auth` |
| PathAccessLaws.RuleDecides | handler.go:553-593 | a rule with no longer path in the settings decides every request that it covers |
| PathAccessLaws.PrefixDecides | handler.go:553-593 | a public prefix opens every path below it that is no auth path, a private one closes it, when no path in the settings is longer |
| PathAccessLaws.PublicPathOpens | handler.go:513-516 | so does a public path for what it covers |
| PathAccessLaws.ExactDecidesItsOwn | handler.go:584-593 | an exact rule decides its own path, however long the other paths are |
| PathAccessLaws.ExactSaysNothingElse | handler.go:584-593 | and adding it anywhere changes no decision on any other path, those below it included |
| ProtocolInvariant.StepKeepsInv | handler_tfa.go:168-283 | every step of every request, and every storage call of the application, keeps the invariant |
| ProtocolInvariant.RunsKeepInv | handler_tfa.go:168-283 | in every run each event is justified by earlier ones, the storage is the replay of the log, and each request in flight has what its next step relies on |
| ProtocolInvariant.RankRises | handler_tfa.go:207-256 | a request leaves its events in one order, each kind at most once |
| SoloRuns.SoloIsRun | handler_tfa.go:168-277 | one request run alone is a sequence of actions of the machine, which leaves the other requests as they were |
| SessionProvenance.SessionsAreEarned | handler.go:129-160 | every cookie with a user ID is preceded by a registration, by a password taken by the hash read or by a match of the legacy verifier, from a stored snapshot that needed no second factor, or by a code passed on a live challenge emitted by the very login that accepted the password |
| SessionProvenance.LoginsFit | handler.go:390-414 | every password that a login accepts is valid by the hash read, or that hash is foreign and the legacy verifier reports a match; its failure is no match |
| SessionProvenance.NewSessionsAreOwn | handler.go:129-135 | the request that puts a user ID into a cookie earned it itself |
| SessionProvenance.PromotionsAreTimely | handler_tfa.go:175-182 | every code that passes belongs to a request that began before t0 + d, where a login that had itself accepted the password of the same user emitted its challenge at t0, and d is the time set, or 300 seconds when none is |
| SessionProvenance.ChallengeIsEarned | handler.go:327-367 | every challenge was emitted by the login that accepted the password |
| SessionProvenance.EnrolledSecretsWereSetUp | handler_tfa.go:101-122 | every secret enrolled was emitted by an earlier setup, and the enrolling request proved the password and a code for it |
| MixedCookies.EnrolledSecretsWereBrought | handler_tfa.go:101-122 | every secret enrolled for a user came from a setup of the user's own, or from createSession for the user on a session that still held it |
| MixedCookies.OwnGrantsEnrolOwnSecrets | handler.go:129-135 | if createSession never ran for the user on a session with a secret of somebody else, the user is enrolled with secrets of its own setups only |
| MixedCookies.GrantsOwnSecretExactly | handler.go:129-135 | the cookie of a grant holds no secret, or one its user set up, iff the session on which createSession runs does |
| Replies.EnableStoresPendingSecret | handler_tfa.go:101-122 | an enrolment stores the secret of the session for the session's user, whoever set it up, and no other user changes |
| Replies.SecretsMayCrossUsers | handler.go:129-135 | otherwise another user's secret is enrolled: setup by one user, login of another with that cookie, enable |
| MixedCookies.MixedCookiesWereGranted | handler.go:129-160 | a cookie with a user ID and a challenge exists only after createSession ran for that user, by registration or password alone, on a session with that challenge |
| MixedCookies.GrantsMixExactly | handler.go:129-135 | the cookie of a grant holds a challenge iff the session does, which after a second factor it does not |
| WitnessRuns.MixedCookieArises | handler.go:129-160 | from any storage with a user that needs a second factor and one that does not, a run makes a cookie with the ID of one and a challenge of the other |
| StaleSecrets.CheckedSecretIsStoredExactly | handler_tfa.go:196-229 | in every run, a TOTP code that passes was checked against the secret then stored iff no enrolment of the user began or ended since the read, or the last that did enrolled the same secret |
| StaleSecrets.SecretAfterTurn | storage_memory.go:194-239 | after the last such turn the stored secret is that of the enrolment, or there is none |
| WitnessRuns.StaleSecretIsChecked | handler_tfa.go:196-229 | for any enrolled user that can log in, a run in which a code passes against the old secret while a new one is stored |
| SessionProvenance.PendingComesWithExpiry | handler.go:147-156 | the challenged user and the expiry are in a cookie together or not at all |
| SessionProvenance.ChallengeCookies | handler.go:147-156 | the cookie of a challenge made at t0 holds no user ID, and expires at t0 + d, as Unix milliseconds |
| SessionProvenance.ChallengeLivesExactly | handler_tfa.go:176-182 | it starts a check exactly before t0 + d cut to milliseconds, so at every time a millisecond or more before t0 + d and at none after it, and else is only dropped |
| SessionProvenance.CookiesAreNeverRevoked | handler_tfa.go:279-283 | an emitted cookie can be presented after any further run |
| AttemptBudget.CounterCountsReservations | storage_memory.go:158-176 | between resets the stored counter grows by the reservations made and never passes max when it starts no higher |
| AttemptBudget.ExhaustedUntilReset | handler_tfa.go:207-226 | at the limit no reservation succeeds until a reset, and a code still checked was reserved before |
| AttemptBudget.ChecksOwnReservations | handler_tfa.go:207-231 | each check has an earlier reservation of its own request, so checks never outnumber reservations |
| AttemptBudget.ReservationsFitBudgets | storage_memory.go:158-176 | reservations plus what the counter still allows are at most max per budget |
| AttemptBudget.ResetsArePaid | handler.go:137-143 | each reset comes after a password proved or a code passed by its own request, and resets never outnumber these proofs |
| AttemptBudget.ChecksFitBudgets | handler_tfa.go:207-256 | checks are at most max per budget, and the budgets at most one plus the proofs and deletions |
| AttemptBudget.ChecksAreBounded | handler_tfa.go:207-256 | over every interleaving and replay, the codes checked for a user are at most max * (1 + passwords proved and codes passed + deletions) |
| BackupCodeRaces.EnrolmentConserves | storage_memory.go:178-192 | within one enrolment, consumed plus remaining copies of each hash equal those issued |
| BackupCodeRaces.SessionsFitCodes | handler_tfa.go:231-241 | sessions granted to requests that spent codes of one enrolment are at most the codes issued, and per hash at most its copies |
| ReachableStores.StoreIsRun | storage_interface.go:12-43 | the storage of a run is what its storage calls build |
| ReachableStores.ReachableStoresAreSound | handler.go:354 | in every reachable state identifiers are unique, enrolment is consistent, and login and middleware agree on who is enrolled |
| ReachableStores.PrefixesAreReached | storage_interface.go:5-11 | every prefix of the log was the log of a state of the run, with its replay as the storage |
| RehashRace.EarlierResetsSurvive | handler.go:425-443 | a re-hash never overwrites a reset that landed before its fresh read |
| RehashRace.QuietWindowLosesNothing | handler.go:436-442 | without a profile write in its window the re-hash changes the hash and the update time only |
| RehashRace.WindowLosesWrites | handler.go:428-443 | over every run, a re-hash leaves the profile it had re-read with the new hash, so what a write in its window made of the profile, hash included, is gone |
| RehashRace.ResetsAreLostInWindowOnly | handler.go:425-443 | a re-hash that lands while the hash it had verified is replaced by a reset made its fresh read before that reset, and takes its place |
| RehashRace.ResetLostInWindow | handler.go:428-430 | with this library's own hashing and any legacy verifier that takes one foreign hash, a concrete run loses a reset |
| ReplyRuns.VerifyCompletes | handler_tfa.go:168-283 | an undisturbed handleTFAVerify takes nothing but its own steps of the protocol, to the stated storage and the cookies in order |
| ReplyRuns.LoginCompletes | handler.go:327-383 | the same for handleLogin with the upgrade in it |
| ReplyRuns.RegisterCompletes | handler.go:202-325 | the same for handleRegister |
| ReplyRuns.SetupCompletes | handler_tfa.go:44-75 | the same for handleTFASetup |
| ReplyRuns.EnableCompletes | handler_tfa.go:77-134 | the same for handleTFAEnable |
| ReplyRuns.DisableCompletes | handler_tfa.go:136-166 | the same for handleTFADisable |
| Handlers.Session.Save | handler_tfa.go:260 | a cookie with the present values is written |
| Handlers.Handler.EndPendingTFA | handler_tfa.go:279-283 | the challenge and its expiry leave the values, which are saved |
| Handlers.Handler.CreateSession | handler.go:129-135 | the user ID is set, the other values stay, and they are saved |
| Handlers.Handler.CreatePendingTFASession | handler.go:137-160 | the counter is reset, then the user ID is replaced by a challenge with its expiry; or nothing, when the reset fails |
| Handlers.Handler.CheckCode | handler_tfa.go:226-241 | TOTP first, then the atomic consumption of a matching backup hash |
| Handlers.Handler.ReserveAttempt | handler_tfa.go:207-224 | an attempt is reserved before anything is checked; an exhausted budget ends the challenge |
| Handlers.Handler.HandleTFAVerify | handler_tfa.go:168-277 | the storage, values, cookies and status are those of the reply that runs of the protocol lead to |
| Handlers.Handler.UpgradePasswordHash | handler.go:431-443 | the fresh copy gets the new hash and is written, unless the stored hash is no longer the verified one |
| Handlers.Handler.VerifyLoginPassword | handler.go:390-414 | the password is checked natively, then by the legacy verifier only when the hash does not parse |
| Handlers.Handler.GetUserByIdentifier | handler.go:185-200 | the user a search finds by email or by username, as the settings allow |
| Handlers.Handler.HandleLogin | handler.go:327-383 | as for handleTFAVerify |
| Handlers.Handler.GetUserFromSession | handler.go:110-127 | the stored user of the session's user ID |
| Handlers.Handler.HandleRegister | handler.go:202-325 | as for handleTFAVerify, after the checks of the texts submitted |
| Handlers.Handler.HandleTFASetup | handler_tfa.go:44-75 | as for handleTFAVerify |
| Handlers.Handler.HandleTFAEnable | handler_tfa.go:77-134 | as for handleTFAVerify |
| Handlers.Handler.HandleTFADisable | handler_tfa.go:136-166 | as for handleTFAVerify |
| HandlerLaws.VerifyAnswers | handler_tfa.go:168-277 | which status handleTFAVerify answers, in each case of challenge, user, enrolment, budget and code |
| HandlerLaws.VerifySucceeds | handler_tfa.go:248-277 | a right code within the budget puts the user into the session and takes the challenge out, zeroes the counter and spends a backup code that was needed, and nothing else |
| HandlerLaws.WrongCodeCosts | handler_tfa.go:243-252 | a wrong code counts one attempt; when the stored counter is then at the limit the challenge leaves the session, which is saved once; below it the challenge stays and nothing is saved |
| HandlerLaws.WrongCodeIsFree | handler_tfa.go:207-252 | without a limit a wrong code changes nothing |
| HandlerLaws.VerifyRefuses | handler_tfa.go:168-224 | no code is checked without a live challenge, an enrolled user and an attempt left; the challenge ends when it expired or the budget is spent |
| HandlerLaws.LoginAnswers | handler.go:327-383 | the login of the user meant is accepted iff the hash takes the password or, being foreign, the legacy verifier reports a match; a second factor is asked of an enrolled user |
| HandlerLaws.LoginRefuses | handler.go:327-345 | any other login changes nothing and saves nothing |
| HandlerLaws.LoginSucceeds | handler.go:129-160 | the session gets the user, or in place of it a challenge that expires the time set, or 300 seconds, after now, with a zero counter |
| HandlerLaws.LoginRewritesHash | handler.go:416-443 | the profile changes only in hash and update time, and only when the legacy verifier was needed, the password can be hashed and the write succeeds |
| HandlerLaws.SetupLaw | handler_tfa.go:44-75 | the session of a stored user not yet enrolled gets the secret; otherwise nothing changes |
| HandlerLaws.EnableAnswers | handler_tfa.go:77-134 | which status handleTFAEnable answers, in each case; nothing changes unless it succeeds |
| HandlerLaws.EnableSucceeds | handler_tfa.go:101-134 | the secret of the session and the hashes of the new codes are stored with a zero counter, and the secret leaves the session |
| HandlerLaws.DisableLaw | handler_tfa.go:136-166 | with the password of an enrolled user all its two-factor data goes, otherwise nothing changes |
| Registration.RegisterAnswers | handler.go:202-325 | a registration goes through iff it names an identifier, of enabled kinds only, that nobody uses, the password can be hashed and the ID is new; otherwise nothing changes |
| Registration.RegisterStores | handler.go:282-312 | it adds the user with the identifiers and times given, the hash of the password and no two-factor data, and puts it into the session |
| Registration.RegisteredLogsIn | handler.go:282-383 | the user registered then logs in by either identifier, with that password and no other that Argon2 tells apart, when the hashing parameters are within the limits; otherwise the legacy verifier alone decides |
| LegacyUpgrade.CheckChangesOnlyTheHash | handler.go:431-443 | the check changes no other user, and of this one only the hash, to the argon2id form of the very password, and the update time |
| LegacyUpgrade.MovesToNewHash | handler.go:431-443 | unless the password was taken natively, cannot be hashed, or the write fails, the user moves to the new hash |
| LegacyUpgrade.AcceptedAgainExactly | handler.go:390-443 | an accepted password is accepted again iff it was taken natively, cannot be hashed, the write fails, the hashing parameters are in limits, or the legacy verifier takes the new hash |
| LegacyUpgrade.UpgradePreservesLogin | handler.go:416-443 | with in-limit parameters every password accepted once is accepted again, and after a re-hash without further change |
| LegacyUpgrade.StaysOnLegacyHash | handler.go:420-423 | passwords over 72 bytes, and failed writes, stay on the old hash |
| Settings.ConfiguredHashes | util.go:52-130 | the configured protocol hashes and verifies with this library's functions |
| Settings.UpgradeLocksOut | handler.go:416-443 | with 51 iterations and a legacy verifier that knows the old hash only, a password is accepted once and then refused |
| Settings.BackupCheckRedeems | handler_tfa.go:231-241 | a backup code at handleTFAVerify is redeemed against the stored hashes, and nothing else changes |
| Settings.EnrolledCodesRedeem | handler_tfa.go:112-122 | if distinct issued codes never cross-verify, the codes of an enrolment all pass the check once each, in any order and letter case, and then none passes |

## Left out

- Gin routing, JSON binding and its required fields, HTTP status codes, messages and response bodies: plumbing.
- The cookie's encoding, encryption and signature, and the codec's own maximum age: a presented cookie is accepted iff it was once emitted.
- `session.Save` never fails in the handler methods; in the protocol a request may end at any step instead.
- The string-keyed `session.Values` map: the four keys are optional fields, a user ID is stored as itself and not as text, so texts that do not parse as one do not occur.
- The insides of Argon2, bcrypt, TOTP and the random source: functions and parameters; failures of the random source are ends of requests.
- Argon2 with zero rounds or threads panics (`Panicked`): the handler then answers with an error and saves nothing.
- Key length zero, for which Argon2 has no output, is treated as any other length.
- The width of Go's `int` for counters and times: they are unbounded; the parameters of the hash text have their exact widths.
- Strings are sequences of characters; bytes matter only for the length limit, which `ByteLength` counts in UTF-8. `strings.ToLower` and `unicode.IsSpace` act character by character through a parameter.
- The application itself calls only `CreateUser`, for users without two-factor data, `UpdateUser`, with any user at any time, and `DeleteUser`; it leaves the narrow operations to the handlers.
- The status of a reply is no part of the protocol's state: `Replies` fixes it for the handlers alone.
- A client's list is an array of its own: two lists that overlap in one backing array are not modelled, nor is a nil list handed out told from an empty one.
- The `RWMutex`: each storage operation is one atomic step.
- Removing the last code keeps the backing array of the list; the model always makes a new list, and no one else holds the old one.
- MemoryStorage's writes fail only with its own errors; `writeFails` in the protocol stands for other storages.
- The checks of `handleRegister` on the texts submitted (`validation.go`): they run before anything modelled.
- `handleMe`, `handleLogout` as a method, `UserTransformer`, contexts, `AccountLabel`, key generation: thin glue or single branches.
