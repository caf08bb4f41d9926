/**
 Administrator sessions and TOTP replay protection (src/auth/mod.rs:171-294,
 src/auth/mod.rs:306-648, src/auth/mod.rs:820-838): the handlers as atomic steps on the
 user rows, and what holds over every run of them.
 */
module Session {
  import opened Wrappers
  import opened Strings
  import opened Totp

  const MAX_VERSION: int := 0x7fff_ffff

  /** A generated secret; `id` tells generations apart even if the bytes should coincide. */
  datatype Secret = Secret(id: nat, bytes: seq<byte>)

  datatype User = User(
    passwordHash: string, sessionVersion: int, totpEnabled: bool, secret: Option<Secret>, lastStep: Option<nat>)

  datatype Claims = Claims(sub: string, sessionVersion: int, exp: int)

  datatype Reply = Done | Token(claims: Claims) | Rejected(why: Rejection)

  datatype Rejection =
    RateLimited | Unauthorized | TotpRequired | TotpInvalid | BadRequest | Conflict | Internal

  /** The primitives that are not modelled: password hashing and HMAC. */
  datatype Env = Env(verifyPassword: (string, string) -> bool, hmac: Hmac)

  type Users = map<string, User>

  // ------------------------------------------------------------- the tokens

  /** The expiry leeway of the JWT library, in seconds. */
  const LEEWAY: nat := 60

  /** current_username: the signature is taken for granted, expiry and version are checked. */
  predicate Validates(users: Users, c: Claims, now: int) {
    now <= c.exp + LEEWAY && c.sub in users && users[c.sub].sessionVersion == c.sessionVersion
  }

  /** UPDATE ... SET session_version = session_version + 1; the column is a 32-bit integer. */
  function Bumped(u: User): Option<User> {
    if u.sessionVersion >= MAX_VERSION then None else Some(u.(sessionVersion := u.sessionVersion + 1))
  }

  // ----------------------------------------------------------- the handlers

  /** Consuming a code: the step it hits must lie beyond the last one consumed. */
  function Consume(env: Env, u: User, code: string, now: nat): Option<nat> {
    if u.secret.None? then None
    else match Verdict(env.hmac, u.secret.value.bytes, code, now)
      case Some(s) => if u.lastStep.None? || u.lastStep.value < s then Some(s) else None
      case None => None
  }

  /** login after the rate limit: the row it leaves, the answer, and the TOTP step it consumed. */
  function Login(env: Env, name: string, u: User, password: string, code: string, now: nat, ttl: nat): (User, Reply, Option<nat>) {
    if !env.verifyPassword(u.passwordHash, password) then (u, Rejected(Unauthorized), None)
    else if !u.totpEnabled then (u, Token(Claims(name, u.sessionVersion, now + ttl)), None)
    else if Trim(code) == "" then (u, Rejected(TotpRequired), None)
    else match Consume(env, u, Trim(code), now)
      case Some(s) => (u.(lastStep := Some(s)), Token(Claims(name, u.sessionVersion, now + ttl)), Some(s))
      case None => (u, Rejected(TotpInvalid), None)
  }

  function Setup(env: Env, u: User, password: string, generated: Secret): (User, Reply) {
    if !env.verifyPassword(u.passwordHash, password) then (u, Rejected(BadRequest))
    else if u.totpEnabled then (u, Rejected(Conflict))
    else (u.(secret := Some(generated), totpEnabled := false), Done)
  }

  function Enable(env: Env, u: User, code: string, now: nat): (User, Reply, Option<nat>) {
    if u.totpEnabled || u.secret.None? then (u, Rejected(BadRequest), None)
    else match Verdict(env.hmac, u.secret.value.bytes, code, now)
      case None => (u, Rejected(TotpInvalid), None)
      case Some(s) =>
        match Bumped(u)
        case None => (u, Rejected(Internal), None)
        case Some(b) => (b.(totpEnabled := true, lastStep := Some(s)), Done, Some(s))
  }

  function Disable(env: Env, u: User, password: string, code: string, now: nat): (User, Reply, Option<nat>) {
    if !u.totpEnabled || !env.verifyPassword(u.passwordHash, password) || u.secret.None? then
      (u, Rejected(BadRequest), None)
    else match Consume(env, u, code, now)
      case None => (u, Rejected(TotpInvalid), None)
      case Some(s) =>
        match Bumped(u)
        case None => (u, Rejected(Internal), None)
        case Some(b) => (b.(totpEnabled := false, secret := None, lastStep := None), Done, Some(s))
  }

  function ChangePassword(env: Env, u: User, oldPassword: string, newPassword: string, newHash: string): (User, Reply) {
    if |newPassword| < 8 || newPassword == oldPassword then (u, Rejected(BadRequest))
    else if !env.verifyPassword(u.passwordHash, oldPassword) then (u, Rejected(BadRequest))
    else match Bumped(u)
      case None => (u, Rejected(Internal))
      case Some(b) => (b.(passwordHash := newHash), Done)
  }

  function SensitiveVerify(env: Env, u: User, password: string, code: string, now: nat): (User, Reply, Option<nat>) {
    if !env.verifyPassword(u.passwordHash, password) then (u, Rejected(BadRequest), None)
    else if !u.totpEnabled then (u, Done, None)
    else if Trim(code) == "" || u.secret.None? then (u, Rejected(BadRequest), None)
    else match Consume(env, u, Trim(code), now)
      case Some(s) => (u.(lastStep := Some(s)), Done, Some(s))
      case None => (u, Rejected(BadRequest), None)
  }

  // ------------------------------------------------------ what they ask for

  /** The earliest step at most one away from now's whose code it is. */
  ghost predicate Names(env: Env, u: User, code: string, now: nat, s: nat) {
    && u.secret.Some? && now / 30 - 1 <= s <= now / 30 + 1
    && CodeAt(env.hmac, u.secret.value.bytes, s) == Trim(code)
    && forall t: nat :: now / 30 - 1 <= t < s ==> CodeAt(env.hmac, u.secret.value.bytes, t) != Trim(code)
  }

  /** And it lies beyond the last step consumed. */
  ghost predicate Consumes(env: Env, u: User, code: string, now: nat, s: nat) {
    Names(env, u, code, now, s) && (u.lastStep == None || u.lastStep.value < s)
  }

  lemma VerdictNames(env: Env, u: User, code: string, now: nat, s: nat)
    ensures Names(env, u, code, now, s) <==>
      u.secret.Some? && Verdict(env.hmac, u.secret.value.bytes, code, now) == Some(s)
  {
    if u.secret.Some? {
      var secret := u.secret.value.bytes;
      VerdictIs(env.hmac, secret, code, now);
      hide Verdict, CodeAt;
      if Names(env, u, code, now, s) {
        NamedIsVerdict(env, u, code, now, s);
        VerdictUnique(env.hmac, secret, code, now, Some(s), Verdict(env.hmac, secret, code, now));
      }
    }
  }

  lemma NamedIsVerdict(env: Env, u: User, code: string, now: nat, s: nat)
    requires Names(env, u, code, now, s)
    ensures IsVerdict(env.hmac, u.secret.value.bytes, code, now, Some(s))
  {
    assert SixDigits(CodeAt(env.hmac, u.secret.value.bytes, s));
    hide CodeAt;
  }

  lemma ConsumeConsumes(env: Env, u: User, code: string, now: nat, s: nat)
    ensures Consumes(env, u, code, now, s) <==> Consume(env, u, code, now) == Some(s)
    ensures Consumes(env, u, code, now, s) <==> Consume(env, u, Trim(code), now) == Some(s)
  {
    hide Names, Verdict;
    TrimIsTrimmed(code);
    VerdictNames(env, u, code, now, s);
    VerdictNames(env, u, Trim(code), now, s);
    SameNames(env, u, code, now, s);
  }

  lemma SameNames(env: Env, u: User, code: string, now: nat, s: nat)
    ensures Names(env, u, Trim(code), now, s) <==> Names(env, u, code, now, s)
  {
    TrimIsTrimmed(code);
  }

  /** The password, and with TOTP on a code that has not been used. */
  ghost predicate Proves(env: Env, u: User, password: string, code: string, now: nat) {
    env.verifyPassword(u.passwordHash, password)
    && (u.totpEnabled ==> exists s: nat :: Consumes(env, u, code, now, s))
  }

  /** A session is given for a proof, and only for one; with TOTP on its step is consumed. */
  ghost predicate LoginMeans(env: Env, name: string, u: User, password: string, code: string, now: nat, ttl: nat, v: User, reply: Reply) {
    if Proves(env, u, password, code, now) then
      && reply == Token(Claims(name, u.sessionVersion, now + ttl))
      && if u.totpEnabled then exists s: nat :: Consumes(env, u, code, now, s) && v == u.(lastStep := Some(s)) else v == u
    else
      && v == u
      && reply == Rejected(if !env.verifyPassword(u.passwordHash, password) then Unauthorized
                           else if AllSpace(code) then TotpRequired else TotpInvalid)
  }

  lemma LoginIs(env: Env, name: string, u: User, password: string, code: string, now: nat, ttl: nat)
    ensures var r := Login(env, name, u, password, code, now, ttl); LoginMeans(env, name, u, password, code, now, ttl, r.0, r.1)
  {
    hide Consumes, Consume;
    BlankIsSpace(code);
    BlankConsumesNothing(env, u, code, now);
    forall s: nat ensures Consumes(env, u, code, now, s) <==> Consume(env, u, Trim(code), now) == Some(s) {
      ConsumeConsumes(env, u, code, now, s);
    }
  }

  lemma BlankConsumesNothing(env: Env, u: User, code: string, now: nat)
    ensures AllSpace(code) ==> forall s: nat :: !Consumes(env, u, code, now, s)
  {
    BlankIsSpace(code);
  }

  lemma SetupIs(env: Env, u: User, password: string, generated: Secret)
    ensures var r := Setup(env, u, password, generated);
      && (r.1 == Done <==> env.verifyPassword(u.passwordHash, password) && !u.totpEnabled)
      && r.0 == (if r.1 == Done then User(u.passwordHash, u.sessionVersion, false, Some(generated), u.lastStep) else u)
      && (r.1 == Done || r.1 == Rejected(if env.verifyPassword(u.passwordHash, password) then Conflict else BadRequest))
  {
  }

  /** TOTP is switched on by a code of the pending secret; that revokes every session and consumes the code. */
  lemma EnableIs(env: Env, u: User, code: string, now: nat)
    ensures var r := Enable(env, u, code, now);
      if u.totpEnabled || u.secret == None then r == (u, Rejected(BadRequest), None)
      else if !exists s: nat :: Names(env, u, code, now, s) then r == (u, Rejected(TotpInvalid), None)
      else if u.sessionVersion >= 0x7fff_ffff then r == (u, Rejected(Internal), None)
      else
        exists s: nat :: Names(env, u, code, now, s) &&
          r == (User(u.passwordHash, u.sessionVersion + 1, true, u.secret, Some(s)), Done, Some(s))
  {
    hide Names, Verdict;
    forall s: nat ensures Names(env, u, code, now, s) <==> u.secret.Some? && Verdict(env.hmac, u.secret.value.bytes, code, now) == Some(s) {
      VerdictNames(env, u, code, now, s);
    }
  }

  /** It is switched off by the password and an unused code; that revokes every session and clears secret and cursor. */
  lemma DisableIs(env: Env, u: User, password: string, code: string, now: nat)
    ensures var r := Disable(env, u, password, code, now);
      if !u.totpEnabled || !env.verifyPassword(u.passwordHash, password) || u.secret == None then r == (u, Rejected(BadRequest), None)
      else if !exists s: nat :: Consumes(env, u, code, now, s) then r == (u, Rejected(TotpInvalid), None)
      else if u.sessionVersion >= 0x7fff_ffff then r == (u, Rejected(Internal), None)
      else
        exists s: nat :: Consumes(env, u, code, now, s) &&
          r == (User(u.passwordHash, u.sessionVersion + 1, false, None, None), Done, Some(s))
  {
    hide Consumes, Consume;
    forall s: nat ensures Consumes(env, u, code, now, s) <==> Consume(env, u, code, now) == Some(s) {
      ConsumeConsumes(env, u, code, now, s);
    }
  }

  /** A new password takes the old one, and at least eight characters that differ from it; it revokes every session. */
  lemma ChangePasswordIs(env: Env, u: User, oldPassword: string, newPassword: string, newHash: string)
    ensures var r := ChangePassword(env, u, oldPassword, newPassword, newHash);
      if |newPassword| < 8 || newPassword == oldPassword || !env.verifyPassword(u.passwordHash, oldPassword) then
        r == (u, Rejected(BadRequest))
      else if u.sessionVersion >= 0x7fff_ffff then r == (u, Rejected(Internal))
      else r == (User(newHash, u.sessionVersion + 1, u.totpEnabled, u.secret, u.lastStep), Done)
  {
  }

  /** A sensitive operation takes what a login takes. */
  lemma SensitiveVerifyIs(env: Env, u: User, password: string, code: string, now: nat)
    ensures var r := SensitiveVerify(env, u, password, code, now);
      if !Proves(env, u, password, code, now) then r == (u, Rejected(BadRequest), None)
      else if !u.totpEnabled then r == (u, Done, None)
      else exists s: nat :: Consumes(env, u, code, now, s) && r == (u.(lastStep := Some(s)), Done, Some(s))
  {
    hide Consumes, Consume;
    BlankIsSpace(code);
    BlankConsumesNothing(env, u, code, now);
    forall s: nat ensures Consumes(env, u, code, now, s) <==> Consume(env, u, Trim(code), now) == Some(s) {
      ConsumeConsumes(env, u, code, now, s);
    }
    if u.secret.None? {
      assert Consume(env, u, Trim(code), now) == None by { NoSecretNoStep(env, u, Trim(code), now); }
    }
  }

  lemma NoSecretNoStep(env: Env, u: User, code: string, now: nat)
    requires u.secret.None?
    ensures Consume(env, u, code, now) == None
  {
  }

  /** A session ends its lifetime, and the minute after, or when the version moves on. */
  lemma SessionLifetime(env: Env, name: string, u: User, password: string, code: string, now: nat, ttl: nat, users: Users, later: int)
    requires Login(env, name, u, password, code, now, ttl).1.Token?
    ensures Validates(users, Login(env, name, u, password, code, now, ttl).1.claims, later) <==>
      later <= now + ttl + 60 && name in users && users[name].sessionVersion == u.sessionVersion
  {
    hide Consume;
  }

  /** The admin_users table as the handlers see and update it. */
  class AdminUsers {
    var users: Users

    constructor (initial: Users)
      ensures users == initial
    {
      users := initial;
    }

    method HandleLogin(env: Env, name: string, password: string, code: string, now: nat, ttl: nat, withinRate: bool)
      returns (reply: Reply)
      modifies this
      ensures !withinRate ==> reply == Rejected(RateLimited) && users == old(users)
      ensures withinRate && name !in old(users) ==> reply == Rejected(Unauthorized) && users == old(users)
      ensures withinRate && name in old(users) ==>
        var r := Login(env, name, old(users)[name], password, code, now, ttl);
        reply == r.1 && users == old(users)[name := r.0]
      ensures reply.Token? <==> withinRate && name in old(users) && Proves(env, old(users)[name], password, code, now)
      ensures withinRate && name in old(users) ==>
        name in users && LoginMeans(env, name, old(users)[name], password, code, now, ttl, users[name], reply)
    {
      hide Proves;
      if !withinRate {
        return Rejected(RateLimited);
      }
      if name !in users {
        return Rejected(Unauthorized);
      }
      var u := users[name];
      assert users == users[name := u];
      LoginIs(env, name, u, password, code, now, ttl);
      if !env.verifyPassword(u.passwordHash, password) {
        return Rejected(Unauthorized);
      }
      if u.totpEnabled {
        var trimmed := Trim(code);
        if trimmed == "" {
          return Rejected(TotpRequired);
        }
        var step: Option<nat> := None;
        if u.secret.Some? {
          step := Verify(env.hmac, u.secret.value.bytes, trimmed, now);
        }
        if step.None? || (u.lastStep.Some? && u.lastStep.value >= step.value) {
          return Rejected(TotpInvalid);
        }
        users := users[name := u.(lastStep := step)];
      }
      reply := Token(Claims(name, u.sessionVersion, now + ttl));
    }

    method HandleSetup(env: Env, c: Claims, password: string, generated: Secret, now: nat, withinRate: bool) returns (reply: Reply)
      modifies this
      ensures !Validates(old(users), c, now) ==> reply == Rejected(Unauthorized) && users == old(users)
      ensures Validates(old(users), c, now) && !withinRate ==> reply == Rejected(RateLimited) && users == old(users)
      ensures Validates(old(users), c, now) && withinRate ==>
        var r := Setup(env, old(users)[c.sub], password, generated);
        reply == r.1 && users == old(users)[c.sub := r.0]
    {
      if !Validates(users, c, now) {
        return Rejected(Unauthorized);
      }
      if !withinRate {
        return Rejected(RateLimited);
      }
      var u := users[c.sub];
      assert users == users[c.sub := u];
      if !env.verifyPassword(u.passwordHash, password) {
        return Rejected(BadRequest);
      }
      if u.totpEnabled {
        return Rejected(Conflict);
      }
      users := users[c.sub := u.(secret := Some(generated), totpEnabled := false)];
      reply := Done;
    }

    method HandleChangePassword(
      env: Env, c: Claims, oldPassword: string, newPassword: string, newHash: string, now: nat, withinRate: bool)
      returns (reply: Reply)
      modifies this
      ensures !Validates(old(users), c, now) ==> reply == Rejected(Unauthorized) && users == old(users)
      ensures Validates(old(users), c, now) && !withinRate ==> reply == Rejected(RateLimited) && users == old(users)
      ensures Validates(old(users), c, now) && withinRate ==>
        var r := ChangePassword(env, old(users)[c.sub], oldPassword, newPassword, newHash);
        reply == r.1 && users == old(users)[c.sub := r.0]
    {
      if !Validates(users, c, now) {
        return Rejected(Unauthorized);
      }
      if !withinRate {
        return Rejected(RateLimited);
      }
      var u := users[c.sub];
      assert users == users[c.sub := u];
      if |newPassword| < 8 || newPassword == oldPassword {
        return Rejected(BadRequest);
      }
      if !env.verifyPassword(u.passwordHash, oldPassword) {
        return Rejected(BadRequest);
      }
      if u.sessionVersion >= MAX_VERSION {
        return Rejected(Internal);
      }
      users := users[c.sub := u.(passwordHash := newHash, sessionVersion := u.sessionVersion + 1)];
      reply := Done;
    }

    method HandleSensitiveVerify(env: Env, name: string, password: string, code: string, now: nat, withinRate: bool)
      returns (reply: Reply)
      modifies this
      ensures !withinRate ==> reply == Rejected(RateLimited) && users == old(users)
      ensures withinRate && name !in old(users) ==> reply == Rejected(Unauthorized) && users == old(users)
      ensures withinRate && name in old(users) ==>
        var r := SensitiveVerify(env, old(users)[name], password, code, now);
        reply == r.1 && users == old(users)[name := r.0]
    {
      if !withinRate {
        return Rejected(RateLimited);
      }
      if name !in users {
        return Rejected(Unauthorized);
      }
      var u := users[name];
      assert users == users[name := u];
      if !env.verifyPassword(u.passwordHash, password) {
        return Rejected(BadRequest);
      }
      if u.totpEnabled {
        var trimmed := Trim(code);
        if trimmed == "" || u.secret.None? {
          return Rejected(BadRequest);
        }
        var step := Verify(env.hmac, u.secret.value.bytes, trimmed, now);
        if step.None? || (u.lastStep.Some? && u.lastStep.value >= step.value) {
          return Rejected(BadRequest);
        }
        users := users[name := u.(lastStep := step)];
      }
      reply := Done;
    }

    method HandleEnable(env: Env, c: Claims, code: string, now: nat, withinRate: bool) returns (reply: Reply)
      modifies this
      ensures !Validates(old(users), c, now) ==> reply == Rejected(Unauthorized) && users == old(users)
      ensures Validates(old(users), c, now) && !withinRate ==> reply == Rejected(RateLimited) && users == old(users)
      ensures Validates(old(users), c, now) && withinRate ==>
        var r := Enable(env, old(users)[c.sub], code, now);
        reply == r.1 && users == old(users)[c.sub := r.0]
    {
      if !Validates(users, c, now) {
        return Rejected(Unauthorized);
      }
      if !withinRate {
        return Rejected(RateLimited);
      }
      var u := users[c.sub];
      assert users == users[c.sub := u];
      if u.totpEnabled || u.secret.None? {
        return Rejected(BadRequest);
      }
      var step := Verify(env.hmac, u.secret.value.bytes, code, now);
      if step.None? {
        return Rejected(TotpInvalid);
      }
      if u.sessionVersion >= MAX_VERSION {
        return Rejected(Internal);
      }
      users := users[c.sub := u.(totpEnabled := true, lastStep := step, sessionVersion := u.sessionVersion + 1)];
      reply := Done;
    }

    method HandleDisable(env: Env, c: Claims, password: string, code: string, now: nat, withinRate: bool) returns (reply: Reply)
      modifies this
      ensures !Validates(old(users), c, now) ==> reply == Rejected(Unauthorized) && users == old(users)
      ensures Validates(old(users), c, now) && !withinRate ==> reply == Rejected(RateLimited) && users == old(users)
      ensures Validates(old(users), c, now) && withinRate ==>
        var r := Disable(env, old(users)[c.sub], password, code, now);
        reply == r.1 && users == old(users)[c.sub := r.0]
    {
      if !Validates(users, c, now) {
        return Rejected(Unauthorized);
      }
      if !withinRate {
        return Rejected(RateLimited);
      }
      var u := users[c.sub];
      assert users == users[c.sub := u];
      if !u.totpEnabled || !env.verifyPassword(u.passwordHash, password) || u.secret.None? {
        return Rejected(BadRequest);
      }
      var step := Verify(env.hmac, u.secret.value.bytes, code, now);
      if step.None? || (u.lastStep.Some? && step.value <= u.lastStep.value) {
        return Rejected(TotpInvalid);
      }
      if u.sessionVersion >= MAX_VERSION {
        return Rejected(Internal);
      }
      users := users[c.sub := u.(totpEnabled := false, secret := None, lastStep := None,
                                 sessionVersion := u.sessionVersion + 1)];
      reply := Done;
    }
  }

  // ------------------------------------------------------------------- runs

  /** A TOTP step that some handler accepted for a user's secret. */
  datatype Accept = Accept(name: string, secretId: nat, step: nat)

  /** `nextSecret` numbers the secrets generated so far; `issued` and `accepted` are histories. */
  datatype Sys = Sys(users: Users, nextSecret: nat, issued: set<Claims>, accepted: seq<Accept>)

  /** Handlers that got past the rate limit; `c` are claims of a token that validates. */
  datatype Step =
    | DoLogin(name: string, password: string, code: string, now: nat, ttl: nat)
    | DoSetup(c: Claims, password: string, bytes: seq<byte>, now: nat)
    | DoEnable(c: Claims, code: string, now: nat)
    | DoDisable(c: Claims, password: string, code: string, now: nat)
    | DoChangePassword(c: Claims, oldPassword: string, newPassword: string, newHash: string, now: nat)
    | DoSensitiveVerify(name: string, password: string, code: string, now: nat)

  function NameOf(step: Step): string {
    match step
    case DoLogin(name, _, _, _, _) => name
    case DoSensitiveVerify(name, _, _, _) => name
    case _ => step.c.sub
  }

  predicate Enabled(s: Sys, step: Step) {
    && NameOf(step) in s.users
    && (step.DoLogin? || step.DoSensitiveVerify? || Validates(s.users, step.c, step.now))
  }

  /** The row, the answer and the consumed step of the handler that `step` runs. */
  function Handled(env: Env, s: Sys, step: Step): (User, Reply, Option<nat>)
    requires Enabled(s, step)
  {
    var u := s.users[NameOf(step)];
    match step
    case DoLogin(name, password, code, now, ttl) => Login(env, name, u, password, code, now, ttl)
    case DoSetup(_, password, bytes, _) =>
      var r := Setup(env, u, password, Secret(s.nextSecret, bytes));
      (r.0, r.1, None)
    case DoEnable(_, code, now) => Enable(env, u, code, now)
    case DoDisable(_, password, code, now) => Disable(env, u, password, code, now)
    case DoChangePassword(_, oldPassword, newPassword, newHash, _) =>
      var r := ChangePassword(env, u, oldPassword, newPassword, newHash);
      (r.0, r.1, None)
    case DoSensitiveVerify(_, password, code, now) => SensitiveVerify(env, u, password, code, now)
  }

  function Apply(env: Env, s: Sys, step: Step): Sys
    requires Enabled(s, step)
  {
    var name, r := NameOf(step), Handled(env, s, step);
    Sys(s.users[name := r.0],
        if step.DoSetup? then s.nextSecret + 1 else s.nextSecret,
        if r.1.Token? then s.issued + {r.1.claims} else s.issued,
        if r.2.Some? && s.users[name].secret.Some?
          then s.accepted + [Accept(name, s.users[name].secret.value.id, r.2.value)] else s.accepted)
  }

  predicate Admissible(env: Env, s: Sys, steps: seq<Step>)
    decreases |steps|
  {
    steps == [] || (Enabled(s, steps[0]) && Admissible(env, Apply(env, s, steps[0]), steps[1..]))
  }

  function After(env: Env, s: Sys, steps: seq<Step>): Sys
    requires Admissible(env, s, steps)
    decreases |steps|
  {
    if steps == [] then s else After(env, Apply(env, s, steps[0]), steps[1..])
  }

  // -------------------------------------------------------------- invariant

  ghost predicate RowOk(u: User, nextSecret: nat) {
    && (!u.totpEnabled ==> u.lastStep.None?)
    && (u.secret.Some? ==> u.secret.value.id < nextSecret)
  }

  /** An accepted step of the secret still in place is covered by the replay cursor. */
  ghost predicate Covered(s: Sys, a: Accept) {
    && a.secretId < s.nextSecret
    && a.name in s.users
    && var u := s.users[a.name];
       (u.secret.Some? && u.secret.value.id == a.secretId ==>
          u.totpEnabled && u.lastStep.Some? && a.step <= u.lastStep.value)
  }

  ghost predicate Increasing(accepted: seq<Accept>) {
    forall i, j :: 0 <= i < j < |accepted| ==>
      (accepted[i].name == accepted[j].name && accepted[i].secretId == accepted[j].secretId) ==>
        accepted[i].step < accepted[j].step
  }

  ghost predicate Inv(s: Sys) {
    && (forall n :: n in s.users ==> RowOk(s.users[n], s.nextSecret))
    && (forall i :: 0 <= i < |s.accepted| ==> Covered(s, s.accepted[i]))
    && Increasing(s.accepted)
    && (forall c :: c in s.issued && c.sub in s.users ==> c.sessionVersion <= s.users[c.sub].sessionVersion)
  }

  /** What a handler may do to a row, seen from the replay cursor. */
  ghost predicate RowStep(u: User, v: User, consumed: Option<nat>, newId: Option<nat>) {
    && v.sessionVersion >= u.sessionVersion
    && match consumed
       case Some(s) =>
         && u.secret.Some?
         && (u.totpEnabled ==> u.lastStep.None? || u.lastStep.value < s)
         && ((v.secret == u.secret && v.totpEnabled && v.lastStep == Some(s))
             || (v.secret.None? && !v.totpEnabled && v.lastStep.None?))
       case None =>
         || (v.secret == u.secret && v.totpEnabled == u.totpEnabled && v.lastStep == u.lastStep)
         || (!u.totpEnabled && !v.totpEnabled && v.lastStep == u.lastStep
             && v.secret.Some? && newId == Some(v.secret.value.id))
  }

  lemma HandledIsRowStep(env: Env, s: Sys, step: Step)
    requires Enabled(s, step)
    ensures var r := Handled(env, s, step);
      && RowStep(s.users[NameOf(step)], r.0, r.2, if step.DoSetup? then Some(s.nextSecret) else None)
      && (r.1.Token? ==> r.1.claims.sub == NameOf(step) && r.1.claims.sessionVersion == r.0.sessionVersion)
  {
  }

  lemma InvStep(env: Env, s: Sys, step: Step)
    requires Inv(s) && Enabled(s, step)
    ensures Inv(Apply(env, s, step))
  {
    HandledIsRowStep(env, s, step);
    var t, name, r := Apply(env, s, step), NameOf(step), Handled(env, s, step);
    var u := s.users[name];
    forall i | 0 <= i < |s.accepted| ensures Covered(t, s.accepted[i]) {
      assert Covered(s, s.accepted[i]);
    }
    if |t.accepted| > |s.accepted| {
      var a := t.accepted[|s.accepted|];
      forall i | 0 <= i < |s.accepted| && s.accepted[i].name == a.name && s.accepted[i].secretId == a.secretId
        ensures s.accepted[i].step < a.step
      {
        assert Covered(s, s.accepted[i]);
      }
    }
  }

  lemma {:induction false} InvRun(env: Env, s: Sys, steps: seq<Step>)
    requires Inv(s) && Admissible(env, s, steps)
    ensures Inv(After(env, s, steps))
    decreases |steps|
  {
    if steps != [] {
      InvStep(env, s, steps[0]);
      InvRun(env, Apply(env, s, steps[0]), steps[1..]);
    }
  }

  /** The table as it stands before any token was issued or code accepted. */
  ghost predicate Fresh(s: Sys) {
    s.issued == {} && s.accepted == [] && forall n :: n in s.users ==> RowOk(s.users[n], s.nextSecret)
  }

  // ------------------------------------------------------- where tokens come from

  /** `step` is a login that proved who it was to the table `users`, and `c` is what it got. */
  ghost predicate Earned(env: Env, users: Users, step: Step, c: Claims) {
    && step.DoLogin? && step.name in users
    && Proves(env, users[step.name], step.password, step.code, step.now)
    && c == Claims(step.name, users[step.name].sessionVersion, step.now + step.ttl)
  }

  lemma IssuedByStep(env: Env, s: Sys, step: Step, c: Claims)
    requires Enabled(s, step) && c in Apply(env, s, step).issued && c !in s.issued
    ensures Earned(env, s.users, step, c)
  {
    hide Consume, Proves;
    if step.DoLogin? {
      LoginIs(env, step.name, s.users[step.name], step.password, step.code, step.now, step.ttl);
    }
  }

  /** Every token in circulation was earned: some login before proved the password, and with TOTP on an unused code,
      against the table as it then stood. */
  lemma {:induction false} TokensAreEarned(env: Env, s: Sys, steps: seq<Step>, c: Claims) returns (i: nat)
    requires Admissible(env, s, steps) && c in After(env, s, steps).issued && c !in s.issued
    ensures i < |steps| && Admissible(env, s, steps[..i])
    ensures Earned(env, After(env, s, steps[..i]).users, steps[i], c)
    decreases |steps|
  {
    hide Apply, Enabled, Earned;
    var next := Apply(env, s, steps[0]);
    if c in next.issued {
      i := 0;
      IssuedByStep(env, s, steps[0], c);
    } else {
      var j := TokensAreEarned(env, next, steps[1..], c);
      i := j + 1;
      assert steps[..i][0] == steps[0] && steps[..i][1..] == steps[1..][..j];
    }
  }

  // -------------------------------------------------------------- theorems

  /** Within one secret's lifetime accepted steps strictly increase, so no step is accepted twice. */
  lemma StepsStrictlyIncrease(env: Env, s: Sys, steps: seq<Step>, i: nat, j: nat)
    requires Fresh(s) && Admissible(env, s, steps)
    requires var a := After(env, s, steps).accepted;
      i < j < |a| && a[i].name == a[j].name && a[i].secretId == a[j].secretId
    ensures var a := After(env, s, steps).accepted; a[i].step < a[j].step
  {
    InvRun(env, s, steps);
  }

  /** While TOTP is not enabled the replay cursor is empty. */
  lemma CursorEmptyWhileDisabled(env: Env, s: Sys, steps: seq<Step>, name: string)
    requires Fresh(s) && Admissible(env, s, steps) && name in After(env, s, steps).users
    ensures !After(env, s, steps).users[name].totpEnabled ==> After(env, s, steps).users[name].lastStep.None?
  {
    InvRun(env, s, steps);
  }

  /** The handlers that revoke: a successful password change, enable or disable. */
  predicate Revokes(env: Env, s: Sys, step: Step)
    requires Enabled(s, step)
  {
    (step.DoEnable? || step.DoDisable? || step.DoChangePassword?) && Handled(env, s, step).1 == Done
  }

  lemma {:induction false} VersionsGrow(env: Env, s: Sys, steps: seq<Step>, name: string)
    requires Admissible(env, s, steps) && name in s.users
    ensures name in After(env, s, steps).users
    ensures s.users[name].sessionVersion <= After(env, s, steps).users[name].sessionVersion
    decreases |steps|
  {
    if steps != [] {
      HandledIsRowStep(env, s, steps[0]);
      VersionsGrow(env, Apply(env, s, steps[0]), steps[1..], name);
    }
  }

  lemma RevokingBumps(env: Env, s: Sys, step: Step)
    requires Enabled(s, step) && Revokes(env, s, step)
    ensures NameOf(step) in Apply(env, s, step).users
    ensures Apply(env, s, step).users[NameOf(step)].sessionVersion == s.users[NameOf(step)].sessionVersion + 1
  {
  }

  lemma RevokedByStep(env: Env, s: Sys, step: Step, later: seq<Step>, c: Claims, now: int)
    requires Inv(s) && Enabled(s, step) && Revokes(env, s, step)
    requires c in s.issued && c.sub == NameOf(step)
    requires Admissible(env, Apply(env, s, step), later)
    ensures !Validates(After(env, Apply(env, s, step), later).users, c, now)
  {
    RevokingBumps(env, s, step);
    VersionsGrow(env, Apply(env, s, step), later, c.sub);
  }

  /** A token issued to a user before a revoking step of that user never validates again. */
  lemma RevokedForever(
    env: Env, start: Sys, before: seq<Step>, step: Step, later: seq<Step>, c: Claims, now: int)
    requires Fresh(start) && Admissible(env, start, before)
    requires Enabled(After(env, start, before), step) && Revokes(env, After(env, start, before), step)
    requires c in After(env, start, before).issued && c.sub == NameOf(step)
    requires Admissible(env, Apply(env, After(env, start, before), step), later)
    ensures !Validates(After(env, Apply(env, After(env, start, before), step), later).users, c, now)
  {
    InvRun(env, start, before);
    RevokedByStep(env, After(env, start, before), step, later, c, now);
  }

  /** The other handlers leave every token of every user as valid as it was. */
  lemma OthersRevokeNothing(env: Env, s: Sys, step: Step, c: Claims, now: int)
    requires Enabled(s, step) && !(Revokes(env, s, step) && c.sub == NameOf(step))
    ensures Validates(Apply(env, s, step).users, c, now) <==> Validates(s.users, c, now)
  {
  }

  /** A token that login hands out validates at once, and the code it consumed does not log in again. */
  lemma LoginConsumes(env: Env, name: string, u: User, password: string, code: string, now: nat, ttl: nat, later: nat, ttl2: nat)
    requires Login(env, name, u, password, code, now, ttl).2.Some?
    requires now / STEP_SECS == later / STEP_SECS
    ensures var r := Login(env, name, u, password, code, now, ttl);
      && r.1.Token? && Validates(map[name := r.0], r.1.claims, now)
      && Login(env, name, r.0, password, code, later, ttl2).1 == Rejected(TotpInvalid)
  {
  }
}
