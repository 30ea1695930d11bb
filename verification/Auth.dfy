/** Users, devices and tokens: who owns a device, and how long a revoked one stays usable. */
module AuthSpec {
  datatype Account = Account(userId: string, communityId: string)

  datatype Device = Device(userId: string, communityId: string, revoked: bool, lastSeenAt: int)

  /** Times of tokens are whole seconds, as section 4.1.4 of RFC 7519 and the token library have them. */
  datatype Token = Access(userId: string, deviceId: string, exp: int) | Refresh(userId: string, deviceId: string, exp: int)

  /** The environment's settings. */
  datatype Config = Config(accessMinutes: nat, refreshDays: nat)

  /** Lifetimes in seconds. */
  function AccessTtl(cfg: Config): nat {
    cfg.accessMinutes * 60
  }

  function RefreshTtl(cfg: Config): nat {
    cfg.refreshDays * 24 * 60 * 60
  }

  /** `clock` is in milliseconds; `issued` holds every token ever signed. */
  datatype Auth = Auth(clock: int, accounts: map<string, Account>, devices: map<string, Device>, issued: seq<Token>)

  datatype Op =
    | VerifyOtp(phone: string, otpValid: bool, communityKnown: bool, communityId: string, deviceId: string, newUserId: string)
    | RefreshTokens(token: Token)
    | Revoke(deviceId: string, communityId: string)
    | Tick(to: int)

  predicate Unexpired(t: Token, clock: int) {
    clock / 1000 < t.exp
  }

  /** The signature check: only what was signed, and not expired. */
  predicate Verifies(s: Auth, t: Token) {
    t in s.issued && Unexpired(t, s.clock)
  }

  function Sign(cfg: Config, s: Auth, userId: string, deviceId: string): Auth {
    s.(issued := s.issued + [Access(userId, deviceId, s.clock / 1000 + AccessTtl(cfg)),
                             Refresh(userId, deviceId, s.clock / 1000 + RefreshTtl(cfg))])
  }

  datatype Response = Ok | HttpError(code: int)

  /** The account is created before the device is looked at, even when the device is then refused. */
  function OnVerifyOtp(cfg: Config, s: Auth, op: Op): (Auth, Response)
    requires op.VerifyOtp?
  {
    if !op.otpValid then (s, HttpError(401))
    else if !op.communityKnown then (s, HttpError(400))
    else
      var s1 := if op.phone in s.accounts then s
                else s.(accounts := s.accounts[op.phone := Account(op.newUserId, op.communityId)]);
      var user := s1.accounts[op.phone];
      var d := op.deviceId;
      if d in s1.devices && s1.devices[d].revoked then (s1, HttpError(403))
      else if d in s1.devices && s1.devices[d].userId != user.userId then (s1, HttpError(409))
      else
        var s2 := s1.(devices := s1.devices[d := Device(user.userId, user.communityId, false, s1.clock)]);
        (Sign(cfg, s2, user.userId, d), Ok)
  }

  function OnRefresh(cfg: Config, s: Auth, t: Token): (Auth, Response) {
    if !(t.Refresh? && Verifies(s, t)) then (s, HttpError(401))
    else if !(exists phone | phone in s.accounts :: s.accounts[phone].userId == t.userId) || t.deviceId !in s.devices then
      (s, HttpError(401))
    else if s.devices[t.deviceId].revoked then (s, HttpError(403))
    else
      var s1 := s.(devices := s.devices[t.deviceId := s.devices[t.deviceId].(lastSeenAt := s.clock)]);
      (Sign(cfg, s1, t.userId, t.deviceId), Ok)
  }

  function OnRevoke(s: Auth, d: string, communityId: string): (Auth, Response) {
    if d !in s.devices || s.devices[d].communityId != communityId then (s, HttpError(404))
    else (s.(devices := s.devices[d := s.devices[d].(revoked := true)]), Ok)
  }

  predicate CanDo(s: Auth, op: Op) {
    op.Tick? ==> s.clock <= op.to
  }

  function Do(cfg: Config, s: Auth, op: Op): Auth {
    match op
    case VerifyOtp(_, _, _, _, _, _) => OnVerifyOtp(cfg, s, op).0
    case RefreshTokens(t) => OnRefresh(cfg, s, t).0
    case Revoke(d, c) => OnRevoke(s, d, c).0
    case Tick(to) => s.(clock := to)
  }

  predicate CanDoAll(cfg: Config, s: Auth, ops: seq<Op>)
    decreases ops
  {
    ops == [] || (CanDo(s, ops[0]) && CanDoAll(cfg, Do(cfg, s, ops[0]), ops[1..]))
  }

  function DoAll(cfg: Config, s: Auth, ops: seq<Op>): Auth
    decreases ops
  {
    if ops == [] then s else DoAll(cfg, Do(cfg, s, ops[0]), ops[1..])
  }

  /** Tokens name a device and its owner, and live no longer than their lifetime from now. */
  ghost predicate AuthInv(cfg: Config, s: Auth) {
    forall t :: t in s.issued ==>
      t.deviceId in s.devices && s.devices[t.deviceId].userId == t.userId
      && t.exp <= s.clock / 1000 + if t.Access? then AccessTtl(cfg) else RefreshTtl(cfg)
  }

  /** Devices stay, keep their owner, and stay revoked. */
  ghost predicate Bound(s: Auth, s': Auth) {
    forall d :: d in s.devices ==>
      d in s'.devices && s'.devices[d].userId == s.devices[d].userId && (s.devices[d].revoked ==> s'.devices[d].revoked)
  }

  /** No token is signed for a revoked device. */
  ghost predicate Quiet(s: Auth, s': Auth) {
    s.clock <= s'.clock
    && forall t :: t in s'.issued && t !in s.issued ==> !(t.deviceId in s.devices && s.devices[t.deviceId].revoked)
  }

  lemma LoginLaw(cfg: Config, s: Auth, op: Op)
    requires AuthInv(cfg, s) && op.VerifyOtp?
    ensures var s' := OnVerifyOtp(cfg, s, op).0; AuthInv(cfg, s') && Bound(s, s') && Quiet(s, s')
  {}

  lemma RefreshLaw(cfg: Config, s: Auth, t: Token)
    requires AuthInv(cfg, s)
    ensures var s' := OnRefresh(cfg, s, t).0; AuthInv(cfg, s') && Bound(s, s') && Quiet(s, s')
  {}

  lemma RevokeLaw(cfg: Config, s: Auth, d: string, communityId: string)
    requires AuthInv(cfg, s)
    ensures var s' := OnRevoke(s, d, communityId).0; AuthInv(cfg, s') && Bound(s, s') && Quiet(s, s')
  {}

  lemma DoLaw(cfg: Config, s: Auth, op: Op)
    requires AuthInv(cfg, s) && CanDo(s, op)
    ensures AuthInv(cfg, Do(cfg, s, op)) && Bound(s, Do(cfg, s, op)) && Quiet(s, Do(cfg, s, op))
  {
    match op
    case VerifyOtp(_, _, _, _, _, _) => LoginLaw(cfg, s, op);
    case RefreshTokens(t) => RefreshLaw(cfg, s, t);
    case Revoke(d, c) => RevokeLaw(cfg, s, d, c);
    case Tick(to) => assert s.clock / 1000 <= to / 1000;
  }

  /** Over any run, a device's owner never changes and a revocation is never undone; every token in
      circulation names the owner of its device. */
  lemma {:induction false} BindingHolds(cfg: Config, s: Auth, ops: seq<Op>)
    requires AuthInv(cfg, s) && CanDoAll(cfg, s, ops)
    ensures AuthInv(cfg, DoAll(cfg, s, ops)) && Bound(s, DoAll(cfg, s, ops)) && s.clock <= DoAll(cfg, s, ops).clock
    decreases ops
  {
    if ops != [] {
      DoLaw(cfg, s, ops[0]);
      BindingHolds(cfg, Do(cfg, s, ops[0]), ops[1..]);
    }
  }

  lemma {:induction false} NoNewTokens(cfg: Config, s: Auth, ops: seq<Op>, d: string)
    requires AuthInv(cfg, s) && CanDoAll(cfg, s, ops) && d in s.devices && s.devices[d].revoked
    ensures forall t :: t in DoAll(cfg, s, ops).issued && t.deviceId == d ==> t in s.issued
    decreases ops
  {
    if ops != [] {
      DoLaw(cfg, s, ops[0]);
      NoNewTokens(cfg, Do(cfg, s, ops[0]), ops[1..], d);
    }
  }

  /** The revocation bound: from one access-token lifetime after the moment a device was revoked, no access
      token for it is accepted, whatever was issued before and whatever is requested after. */
  lemma RevocationBound(cfg: Config, s: Auth, d: string, communityId: string, ops: seq<Op>, t: Token)
    requires AuthInv(cfg, s) && OnRevoke(s, d, communityId).1.Ok?
    requires CanDoAll(cfg, Do(cfg, s, Revoke(d, communityId)), ops)
    requires var s' := DoAll(cfg, Do(cfg, s, Revoke(d, communityId)), ops);
             t.Access? && t.deviceId == d && Verifies(s', t)
    ensures DoAll(cfg, Do(cfg, s, Revoke(d, communityId)), ops).clock < s.clock + cfg.accessMinutes * 60_000
  {
    var revoked := Do(cfg, s, Revoke(d, communityId));
    DoLaw(cfg, s, Revoke(d, communityId));
    NoNewTokens(cfg, revoked, ops, d);
    var clock := DoAll(cfg, revoked, ops).clock;
    assert clock / 1000 < s.clock / 1000 + AccessTtl(cfg);
  }

  /** And it is tight: a token signed just before the revocation is accepted until then. */
  lemma BoundIsReached(cfg: Config, s: Auth, phone: string, d: string, later: int)
    requires AuthInv(cfg, s) && cfg.accessMinutes > 0 && s.clock % 1000 == 0
    requires phone in s.accounts && d in s.devices && !s.devices[d].revoked
    requires s.devices[d].userId == s.accounts[phone].userId && s.clock <= later < s.clock + cfg.accessMinutes * 60_000
    ensures var login := VerifyOtp(phone, true, true, s.accounts[phone].communityId, d, "");
            var s1 := Do(cfg, s, login);
            var s2 := Do(cfg, s1, Revoke(d, s1.devices[d].communityId));
            var s3 := Do(cfg, s2, Tick(later));
            s2.devices[d].revoked && exists t: Token :: t.Access? && t.deviceId == d && Verifies(s3, t)
  {
    var login := VerifyOtp(phone, true, true, s.accounts[phone].communityId, d, "");
    var s1 := Do(cfg, s, login);
    var s2 := Do(cfg, s1, Revoke(d, s1.devices[d].communityId));
    var s3 := Do(cfg, s2, Tick(later));
    var t := Access(s.accounts[phone].userId, d, s.clock / 1000 + AccessTtl(cfg));
    assert s1.issued[|s.issued|] == t;
    assert t in s3.issued;
    assert later / 1000 < s.clock / 1000 + AccessTtl(cfg);
  }

  /** Accounts and signed tokens are never taken back. */
  ghost predicate Grows(s: Auth, s': Auth) {
    && s.issued <= s'.issued
    && (forall phone :: phone in s.accounts ==> phone in s'.accounts && s'.accounts[phone] == s.accounts[phone])
    && (forall d :: d in s.devices ==> d in s'.devices)
  }

  lemma DoGrows(cfg: Config, s: Auth, op: Op)
    ensures Grows(s, Do(cfg, s, op))
  {}

  lemma {:induction false} DoAllGrows(cfg: Config, s: Auth, ops: seq<Op>)
    ensures Grows(s, DoAll(cfg, s, ops))
    decreases ops
  {
    if ops != [] {
      DoGrows(cfg, s, ops[0]);
      DoAllGrows(cfg, Do(cfg, s, ops[0]), ops[1..]);
    }
  }

  /** A token that refreshes now refreshes later exactly while it has not expired and its device is not revoked. */
  lemma RefreshLasts(cfg: Config, s: Auth, s': Auth, t: Token)
    requires OnRefresh(cfg, s, t).1.Ok? && Grows(s, s')
    ensures OnRefresh(cfg, s', t).1.Ok? <==> s'.clock / 1000 < t.exp && !s'.devices[t.deviceId].revoked
  {
    var phone :| phone in s.accounts && s.accounts[phone].userId == t.userId;
    assert phone in s'.accounts && s'.accounts[phone].userId == t.userId;
  }

  /** Rotation takes nothing from the old refresh token: after it was used, and whatever is requested since,
      it is accepted again if and only if it has not expired and its device has not been revoked. */
  lemma UsedRefreshTokenLives(cfg: Config, s: Auth, t: Token, ops: seq<Op>)
    requires OnRefresh(cfg, s, t).1.Ok?
    ensures var s' := DoAll(cfg, Do(cfg, s, RefreshTokens(t)), ops);
            t.deviceId in s'.devices
            && (OnRefresh(cfg, s', t).1.Ok? <==> s'.clock / 1000 < t.exp && !s'.devices[t.deviceId].revoked)
  {
    var used := Do(cfg, s, RefreshTokens(t));
    DoGrows(cfg, s, RefreshTokens(t));
    DoAllGrows(cfg, used, ops);
    RefreshLasts(cfg, s, DoAll(cfg, used, ops), t);
  }

  /** In particular it is accepted a second time at once. */
  lemma RefreshTwice(cfg: Config, s: Auth, t: Token)
    requires OnRefresh(cfg, s, t).1.Ok?
    ensures OnRefresh(cfg, OnRefresh(cfg, s, t).0, t).1.Ok?
  {
    UsedRefreshTokenLives(cfg, s, t, []);
  }

  // ----- exactly when a request is granted, and what it then does -----

  /** Whose the login is: the account of the number, or the one just made for it. */
  function LoginUser(s: Auth, op: Op): Account
    requires op.VerifyOtp?
  {
    if op.phone in s.accounts then s.accounts[op.phone] else Account(op.newUserId, op.communityId)
  }

  /** No one has the device, or its owner does and it is not revoked. */
  predicate DeviceFree(s: Auth, d: string, userId: string) {
    d in s.devices ==> !s.devices[d].revoked && s.devices[d].userId == userId
  }

  /** Two tokens, and no others, for this user and device, to expire after the set minutes and days. */
  predicate SignsFor(cfg: Config, s: Auth, s': Auth, userId: string, deviceId: string) {
    s'.issued == s.issued + [Access(userId, deviceId, s.clock / 1000 + cfg.accessMinutes * 60),
                             Refresh(userId, deviceId, s.clock / 1000 + cfg.refreshDays * 86_400)]
  }

  lemma LoginExactly(cfg: Config, s: Auth, op: Op)
    requires op.VerifyOtp?
    ensures var (s', r) := OnVerifyOtp(cfg, s, op);
            var user := LoginUser(s, op);
            var registered := s.accounts[op.phone := user];
            && (r.Ok? <==> op.otpValid && op.communityKnown && DeviceFree(s, op.deviceId, user.userId))
            && (!op.otpValid ==> r == HttpError(401) && s' == s)
            && (op.otpValid && !op.communityKnown ==> r == HttpError(400) && s' == s)
            && (op.otpValid && op.communityKnown && !r.Ok? ==>
                  r == HttpError(if s.devices[op.deviceId].revoked then 403 else 409) && s' == s.(accounts := registered))
            && (r.Ok? ==>
                  && SignsFor(cfg, s, s', user.userId, op.deviceId) && s'.clock == s.clock && s'.accounts == registered
                  && s'.devices == s.devices[op.deviceId := Device(user.userId, user.communityId, false, s.clock)])
  {}

  predicate KnownUser(s: Auth, userId: string) {
    exists phone | phone in s.accounts :: s.accounts[phone].userId == userId
  }

  lemma RefreshExactly(cfg: Config, s: Auth, t: Token)
    ensures var (s', r) := OnRefresh(cfg, s, t);
            var genuine := t.Refresh? && t in s.issued && s.clock / 1000 < t.exp && KnownUser(s, t.userId) && t.deviceId in s.devices;
            && (r.Ok? <==> genuine && !s.devices[t.deviceId].revoked)
            && (!r.Ok? ==> r == HttpError(if genuine then 403 else 401) && s' == s)
            && (r.Ok? ==>
                  && SignsFor(cfg, s, s', t.userId, t.deviceId) && s'.clock == s.clock && s'.accounts == s.accounts
                  && s'.devices == s.devices[t.deviceId := s.devices[t.deviceId].(lastSeenAt := s.clock)])
  {}

  lemma RevokeExactly(s: Auth, d: string, communityId: string)
    ensures var (s', r) := OnRevoke(s, d, communityId);
            && (r.Ok? <==> d in s.devices && s.devices[d].communityId == communityId)
            && (!r.Ok? ==> r == HttpError(404) && s' == s)
            && (r.Ok? ==> s' == s.(devices := s.devices[d := s.devices[d].(revoked := true)]) && s'.devices[d].revoked)
  {}

  /** The request grants this token: a login with a code the provider granted, or a refresh with a signed,
      unexpired refresh token of the same user and device; for a device that is free, and not revoked. */
  predicate Grants(s: Auth, op: Op, t: Token) {
    || (op.VerifyOtp? && op.otpValid && op.communityKnown && t.deviceId == op.deviceId && t.userId == LoginUser(s, op).userId
        && DeviceFree(s, t.deviceId, t.userId))
    || (op.RefreshTokens? && op.token.Refresh? && op.token in s.issued && s.clock / 1000 < op.token.exp
        && t.userId == op.token.userId && t.deviceId == op.token.deviceId
        && t.deviceId in s.devices && !s.devices[t.deviceId].revoked)
  }

  lemma DoGrants(cfg: Config, s: Auth, op: Op, t: Token)
    requires t in Do(cfg, s, op).issued && t !in s.issued
    ensures Grants(s, op, t)
  {
    match op
    case VerifyOtp(_, _, _, _, _, _) => LoginExactly(cfg, s, op);
    case RefreshTokens(token) => RefreshExactly(cfg, s, token);
    case _ =>
  }

  /** Over any run, every token that was not there at the start was granted by one of its requests. */
  lemma {:induction false} TokensAreGranted(cfg: Config, s: Auth, ops: seq<Op>, t: Token)
    requires t in DoAll(cfg, s, ops).issued && t !in s.issued
    ensures exists i :: 0 <= i < |ops| && Grants(DoAll(cfg, s, ops[..i]), ops[i], t)
    decreases ops
  {
    if ops != [] {
      var s1 := Do(cfg, s, ops[0]);
      if t in s1.issued {
        DoGrants(cfg, s, ops[0], t);
        assert DoAll(cfg, s, ops[..0]) == s;
      } else {
        TokensAreGranted(cfg, s1, ops[1..], t);
        var i :| 0 <= i < |ops[1..]| && Grants(DoAll(cfg, s1, ops[1..][..i]), ops[1..][i], t);
        assert ops[..i + 1][0] == ops[0] && ops[..i + 1][1..] == ops[1..][..i];
        assert Grants(DoAll(cfg, s, ops[..i + 1]), ops[i + 1], t);
      }
    }
  }
}

module AuthController {
  import opened AuthSpec
  import OtpSpec
  import OtpProvider

  class Controller {
    const cfg: Config
    const otpProvider: OtpProvider.MockOtpProvider
    var accounts: map<string, Account>
    var devices: map<string, Device>
    ghost var issued: seq<Token>

    ghost function State(clock: int): Auth
      reads this
    {
      Auth(clock, accounts, devices, issued)
    }

    constructor (cfg: Config, otpProvider: OtpProvider.MockOtpProvider)
      ensures this.cfg == cfg && this.otpProvider == otpProvider && accounts == map[] && devices == map[] && issued == []
    {
      this.cfg, this.otpProvider, accounts, devices, issued := cfg, otpProvider, map[], map[], [];
    }

    /** Every attempt is a verification in the provider's history, and only one that the history grants logs
        in; a granted code is used up even when the login is then refused. */
    method VerifyOtp(phoneNumber: string, code: string, communityKnown: bool, communityId: string, deviceId: string,
                     newUserId: string, clock: int)
      returns (r: Response)
      requires otpProvider.Valid() && OtpSpec.Chronological(otpProvider.history + [OtpSpec.Verify(phoneNumber, code, clock)])
      modifies this, otpProvider
      ensures otpProvider.Valid() && otpProvider.history == old(otpProvider.history) + [OtpSpec.Verify(phoneNumber, code, clock)]
      ensures (State(clock), r) == OnVerifyOtp(cfg, old(State(clock)), AuthSpec.VerifyOtp(phoneNumber, OtpSpec.Granted(otpProvider.history),
                                                                                        communityKnown, communityId, deviceId, newUserId))
      ensures var before := old(State(clock));
              var user := if phoneNumber in before.accounts then before.accounts[phoneNumber] else Account(newUserId, communityId);
              && (r.Ok? <==> OtpSpec.Granted(otpProvider.history) && communityKnown && DeviceFree(before, deviceId, user.userId))
              && (!OtpSpec.Granted(otpProvider.history) ==> r == HttpError(401) && State(clock) == before)
              && (!r.Ok? ==> issued == before.issued && devices == before.devices)
              && (r.Ok? ==> SignsFor(cfg, before, State(clock), user.userId, deviceId))
    {
      var valid := otpProvider.VerifyOtp(phoneNumber, code, clock);
      LoginExactly(cfg, State(clock), AuthSpec.VerifyOtp(phoneNumber, valid, communityKnown, communityId, deviceId, newUserId));
      if !valid { return HttpError(401); }
      if !communityKnown { return HttpError(400); }
      if phoneNumber !in accounts {
        accounts := accounts[phoneNumber := Account(newUserId, communityId)];
      }
      var user := accounts[phoneNumber];
      if deviceId in devices && devices[deviceId].revoked { return HttpError(403); }
      if deviceId in devices && devices[deviceId].userId != user.userId { return HttpError(409); }
      devices := devices[deviceId := Device(user.userId, user.communityId, false, clock)];
      issued := Sign(cfg, State(clock), user.userId, deviceId).issued;
      r := Ok;
    }

    /** `signed` is the outcome of the token library's check. */
    method Refresh(t: Token, signed: bool, clock: int) returns (r: Response)
      requires signed <==> t.Refresh? && Verifies(State(clock), t)
      modifies this
      ensures (State(clock), r) == old(OnRefresh(cfg, State(clock), t))
      ensures r.Ok? ==> SignsFor(cfg, old(State(clock)), State(clock), t.userId, t.deviceId)
      ensures !r.Ok? ==> State(clock) == old(State(clock))
    {
      if !signed { return HttpError(401); }
      var known := exists phone | phone in accounts :: accounts[phone].userId == t.userId;
      if !known || t.deviceId !in devices { return HttpError(401); }
      if devices[t.deviceId].revoked { return HttpError(403); }
      devices := devices[t.deviceId := devices[t.deviceId].(lastSeenAt := clock)];
      issued := Sign(cfg, State(clock), t.userId, t.deviceId).issued;
      r := Ok;
    }

    method RevokeDevice(deviceId: string, communityId: string, clock: int) returns (r: Response)
      modifies this
      ensures (State(clock), r) == old(OnRevoke(State(clock), deviceId, communityId))
      ensures r.Ok? <==> old(deviceId in devices && devices[deviceId].communityId == communityId)
      ensures !r.Ok? ==> State(clock) == old(State(clock))
    {
      if deviceId !in devices || devices[deviceId].communityId != communityId { return HttpError(404); }
      devices := devices[deviceId := devices[deviceId].(revoked := true)];
      r := Ok;
    }
  }
}
