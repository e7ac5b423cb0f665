/** One-time tokens: e-mail verification, password reset, and invitations with a bounded number of uses. */
module AuthTokens {
  import opened Ids
  import opened Lists

  type Email = nat
  /** A token is named by its secret, which is generated with it. */
  type TokenId = string

  datatype TokenType = EmailVerify | PasswordReset | Invite

  datatype AuthToken = AuthToken(
    kind: TokenType,
    email: Option<Email>,
    userId: Option<UserId>,
    maxUses: nat,
    usedCount: nat,
    expiresAt: int,
    revokedAt: Option<int>)

  type Tokens = map<TokenId, AuthToken>

  datatype TokenError = Invalid | WrongEmail | EmailTaken | NotFound

  const MIN_SECRET: nat := 16
  const MAX_INVITE_USES: nat := 500
  const MAX_INVITE_DAYS: nat := 90
  const DAY_MS: nat := 24 * 60 * 60 * 1000

  function Clamp(x: int, lo: int, hi: int): (r: int)
    requires lo <= hi
    ensures lo <= r <= hi && (lo <= x <= hi ==> r == x) && (x < lo ==> r == lo) && (x > hi ==> r == hi)
  {
    var atLeast := if x < lo then lo else x;
    if atLeast > hi then hi else atLeast
  }

  /** `findValidToken`. */
  predicate IsValid(tokens: Tokens, id: TokenId, kind: TokenType, now: int) {
    && |id| >= MIN_SECRET
    && id in tokens && tokens[id].kind == kind && tokens[id].revokedAt.None? && tokens[id].expiresAt >= now
    && tokens[id].usedCount < tokens[id].maxUses
  }

  /** The use of a token, which revokes it when it was the last one allowed. */
  function Used(t: AuthToken, now: int): AuthToken {
    t.(usedCount := t.usedCount + 1, revokedAt := if t.usedCount + 1 >= t.maxUses then Some(now) else t.revokedAt)
  }

  /** `issueToken`: a verification or reset token replaces the unrevoked ones of the same kind and user. */
  function Issue(tokens: Tokens, id: TokenId, kind: TokenType, email: Option<Email>, user: Option<UserId>,
                 maxUses: nat, ttl: nat, now: int): Tokens
  {
    var older := map i | i in tokens.Keys ::
                   if kind != Invite && user.Some? && tokens[i].kind == kind && tokens[i].userId == user &&
                      tokens[i].revokedAt.None?
                   then tokens[i].(revokedAt := Some(now)) else tokens[i];
    older[id := AuthToken(kind, email, user, maxUses, 0, now + ttl, None)]
  }

  function InviteUses(email: Option<Email>, asked: Option<int>): nat {
    if email.Some? then 1 else Clamp(if asked.Some? then asked.value else 25, 1, MAX_INVITE_USES)
  }

  function InviteDays(asked: Option<int>): nat {
    Clamp(if asked.Some? then asked.value else 7, 1, MAX_INVITE_DAYS)
  }

  /** The table with a new invitation. */
  function NewInvite(tokens: Tokens, id: TokenId, email: Option<Email>, days: Option<int>, uses: Option<int>, now: int)
    : Tokens
  {
    Issue(tokens, id, Invite, email, None, InviteUses(email, uses), InviteDays(days) * DAY_MS, now)
  }

  function Consume(tokens: Tokens, id: TokenId, kind: TokenType, now: int): (Tokens, Result<AuthToken, TokenError>) {
    if !IsValid(tokens, id, kind, now) then (tokens, Err(Invalid))
    else
      var used := Used(tokens[id], now);
      (tokens[id := used], Ok(used))
  }

  /** `assertInviteForRegister`. */
  function InviteFor(tokens: Tokens, id: TokenId, email: Email, now: int): Result<TokenId, TokenError> {
    if !IsValid(tokens, id, Invite, now) then Err(Invalid)
    else if tokens[id].email.Some? && tokens[id].email.value != email then Err(WrongEmail)
    else Ok(id)
  }

  /** `consumeInvite`, which looks the token up again and does not check it again. */
  function InviteConsumed(tokens: Tokens, id: TokenId, now: int): Tokens {
    if id in tokens then tokens[id := Used(tokens[id], now)] else tokens
  }

  // ---------------------------------------------------------------- runs

  /** The token table, the registered e-mails, who registered with which invitation, and the verification and reset
      tokens consumed so far. */
  datatype Desk = Desk(
    tokens: Tokens,
    emails: set<Email>,
    registrations: seq<(TokenId, Email)>,
    consumed: seq<TokenId>)

  const EMPTY_DESK := Desk(map[], {}, [], [])

  datatype Errand =
    /** `requestEmailVerification` and `forgotPassword`. */
    | IssuePersonal(id: TokenId, kind: TokenType, email: Email, user: UserId, ttl: nat, now: int)
    | CreateInvite(id: TokenId, addressee: Option<Email>, days: Option<int>, uses: Option<int>, now: int)
    | ConsumePersonal(id: TokenId, kind: TokenType, now: int)
    | RegisterWith(email: Email, invite: Option<TokenId>, now: int)
    | RevokeInvite(id: TokenId, now: int)
    /** An account is deactivated, which frees its address. */
    | FreeEmail(address: Email)

  /** `register` without interruption; module `InviteRaces` takes it apart. */
  function Registered(d: Desk, email: Email, invite: Option<TokenId>, now: int): (Desk, Result<(), TokenError>) {
    if email in d.emails then (d, Err(EmailTaken))
    else if invite.None? then (d.(emails := d.emails + {email}), Ok(()))
    else
      var checked := InviteFor(d.tokens, invite.value, email, now);
      if checked.Err? then (d, Err(checked.error))
      else (d.(emails := d.emails + {email}, tokens := InviteConsumed(d.tokens, invite.value, now),
               registrations := d.registrations + [(invite.value, email)]), Ok(()))
  }

  function Ran(d: Desk, e: Errand): Desk {
    match e
    case IssuePersonal(id, kind, email, user, ttl, now) =>
      if id in d.tokens || kind == Invite then d
      else d.(tokens := Issue(d.tokens, id, kind, Some(email), Some(user), 1, ttl, now))
    case CreateInvite(id, email, days, uses, now) =>
      if id in d.tokens || (email.Some? && email.value in d.emails) then d
      else d.(tokens := NewInvite(d.tokens, id, email, days, uses, now))
    case ConsumePersonal(id, kind, now) =>
      var (next, r) := Consume(d.tokens, id, kind, now);
      if kind == Invite then d else d.(tokens := next, consumed := if r.Ok? then d.consumed + [id] else d.consumed)
    case RegisterWith(email, invite, now) => Registered(d, email, invite, now).0
    case RevokeInvite(id, now) =>
      if id in d.tokens && d.tokens[id].kind == Invite
      then d.(tokens := d.tokens[id := d.tokens[id].(revokedAt := Some(now))]) else d
    case FreeEmail(address) => d.(emails := d.emails - {address})
  }

  function RanAll(d: Desk, es: seq<Errand>): Desk {
    if es == [] then d else Ran(RanAll(d, es[..|es| - 1]), es[|es| - 1])
  }

  /** How many accounts were registered with an invitation. */
  function Uses(registrations: seq<(TokenId, Email)>, id: TokenId): nat {
    if registrations == [] then 0
    else Uses(registrations[..|registrations| - 1], id) + if registrations[|registrations| - 1].0 == id then 1 else 0
  }

  ghost predicate PersonalToken(tokens: Tokens, i: TokenId, kind: TokenType, u: UserId) {
    i in tokens && kind != Invite && tokens[i].kind == kind && tokens[i].userId == Some(u) && tokens[i].revokedAt.None?
  }

  ghost predicate TokenOk(d: Desk, id: TokenId) {
    id in d.tokens ==>
      var t := d.tokens[id];
      && 1 <= t.maxUses <= MAX_INVITE_USES
      && t.usedCount <= t.maxUses
      && (t.usedCount == t.maxUses ==> t.revokedAt.Some?)
      && (t.kind == Invite ==> t.usedCount == Uses(d.registrations, id) && (t.email.Some? ==> t.maxUses == 1))
      && (t.kind != Invite ==> t.maxUses == 1 && t.userId.Some? && (t.usedCount == 1 <==> id in d.consumed))
  }

  ghost predicate DeskOk(d: Desk) {
    && (forall id :: TokenOk(d, id))
    && (forall i, j, kind, u :: PersonalToken(d.tokens, i, kind, u) && PersonalToken(d.tokens, j, kind, u) ==> i == j)
    && NoDup(d.consumed) && (forall id :: id in d.consumed ==> id in d.tokens && d.tokens[id].kind != Invite)
    && (forall r :: r in d.registrations ==> r.0 in d.tokens && d.tokens[r.0].kind == Invite &&
                                             (d.tokens[r.0].email.Some? ==> d.tokens[r.0].email.value == r.1))
  }

  lemma {:induction false} UnusedInvite(registrations: seq<(TokenId, Email)>, id: TokenId)
    requires forall r :: r in registrations ==> r.0 != id
    ensures Uses(registrations, id) == 0
  {
    if registrations != [] {
      var init, last := registrations[..|registrations| - 1], registrations[|registrations| - 1];
      assert last in registrations && forall r :: r in init ==> r in registrations;
      UnusedInvite(init, id);
    }
  }

  lemma UsesSnoc(registrations: seq<(TokenId, Email)>, r: (TokenId, Email), id: TokenId)
    ensures Uses(registrations + [r], id) == Uses(registrations, id) + if r.0 == id then 1 else 0
  {
    assert (registrations + [r])[..|registrations|] == registrations;
  }

  lemma IssueKeepsDeskOk(d: Desk, e: Errand)
    requires DeskOk(d) && (e.IssuePersonal? || e.CreateInvite?)
    ensures DeskOk(Ran(d, e))
  {
    var next := Ran(d, e);
    if next != d {
      assert e.id !in d.consumed;
      forall r | r in d.registrations ensures r.0 != e.id {
      }
      UnusedInvite(d.registrations, e.id);
      forall id ensures TokenOk(next, id) {
        assert TokenOk(d, id);
      }
      forall i, kind, u | PersonalToken(next.tokens, i, kind, u)
        ensures i != e.id ==> PersonalToken(d.tokens, i, kind, u)
        ensures i != e.id ==> !(e.IssuePersonal? && kind == e.kind && u == e.user)
        ensures i == e.id ==> e.IssuePersonal? && kind == e.kind && u == e.user
      {
      }
    }
  }

  lemma ConsumeKeepsDeskOk(d: Desk, e: Errand)
    requires DeskOk(d) && (e.ConsumePersonal? || e.RevokeInvite? || e.FreeEmail?)
    ensures DeskOk(Ran(d, e))
  {
    var next := Ran(d, e);
    if e.ConsumePersonal? {
      assert TokenOk(d, e.id);
    }
    forall id ensures TokenOk(next, id) {
      assert TokenOk(d, id);
    }
    assert forall i, kind, u :: PersonalToken(next.tokens, i, kind, u) ==> PersonalToken(d.tokens, i, kind, u);
  }

  lemma InvitedKeepsDeskOk(d: Desk, email: Email, id: TokenId, now: int)
    requires DeskOk(d) && email !in d.emails && InviteFor(d.tokens, id, email, now).Ok?
    ensures DeskOk(Registered(d, email, Some(id), now).0)
  {
    var next := Registered(d, email, Some(id), now).0;
    assert TokenOk(d, id);
    forall i ensures TokenOk(next, i) {
      assert TokenOk(d, i);
      UsesSnoc(d.registrations, (id, email), i);
    }
    assert forall i, kind, u :: PersonalToken(next.tokens, i, kind, u) ==> PersonalToken(d.tokens, i, kind, u);
  }

  lemma RegisterKeepsDeskOk(d: Desk, email: Email, invite: Option<TokenId>, now: int)
    requires DeskOk(d)
    ensures DeskOk(Registered(d, email, invite, now).0)
  {
    var (next, r) := Registered(d, email, invite, now);
    if r.Ok? && invite.Some? {
      InvitedKeepsDeskOk(d, email, invite.value, now);
    } else {
      forall id ensures TokenOk(next, id) {
        assert TokenOk(d, id);
      }
    }
  }

  lemma {:induction false} EveryDeskIsOk(es: seq<Errand>)
    ensures DeskOk(RanAll(EMPTY_DESK, es))
  {
    if es != [] {
      var before, e := RanAll(EMPTY_DESK, es[..|es| - 1]), es[|es| - 1];
      EveryDeskIsOk(es[..|es| - 1]);
      match e
      case IssuePersonal(_, _, _, _, _, _) => IssueKeepsDeskOk(before, e);
      case CreateInvite(_, _, _, _, _) => IssueKeepsDeskOk(before, e);
      case RegisterWith(email, invite, now) => RegisterKeepsDeskOk(before, email, invite, now);
      case _ => ConsumeKeepsDeskOk(before, e);
    }
  }

  /** In every run of whole operations: one unrevoked verification and one unrevoked reset token per user at most; none
      of these is consumed twice; an invitation's counter is the number of accounts registered with it, which never
      exceeds its limit; and an invitation for one e-mail address admits only that address. */
  lemma TokenSafety(es: seq<Errand>)
    ensures var d := RanAll(EMPTY_DESK, es);
            && (forall i, j, kind, u ::
                  PersonalToken(d.tokens, i, kind, u) && PersonalToken(d.tokens, j, kind, u) ==> i == j)
            && NoDup(d.consumed)
            && (forall id :: id in d.tokens && d.tokens[id].kind == Invite ==>
                  d.tokens[id].usedCount == Uses(d.registrations, id) <= d.tokens[id].maxUses <= MAX_INVITE_USES)
            && (forall r :: r in d.registrations ==>
                  r.0 in d.tokens && (d.tokens[r.0].email.Some? ==> d.tokens[r.0].email.value == r.1))
  {
    EveryDeskIsOk(es);
    var d := RanAll(EMPTY_DESK, es);
    forall id | id in d.tokens && d.tokens[id].kind == Invite
      ensures d.tokens[id].usedCount == Uses(d.registrations, id) <= d.tokens[id].maxUses <= MAX_INVITE_USES
    {
      assert TokenOk(d, id);
    }
  }

  // ---------------------------------------------------------------- the service

  class AuthTokenService {
    var tokens: Tokens

    constructor ()
      ensures tokens == map[]
    {
      tokens := map[];
    }

    method IssueToken(id: TokenId, kind: TokenType, email: Option<Email>, user: Option<UserId>,
                      maxUses: nat, ttl: nat, now: int)
      requires id !in tokens
      modifies this
      ensures tokens == Issue(old(tokens), id, kind, email, user, maxUses, ttl, now)
    {
      if (kind == EmailVerify || kind == PasswordReset) && user.Some? {
        tokens := map i | i in tokens.Keys ::
          if tokens[i].kind == kind && tokens[i].userId == user && tokens[i].revokedAt.None?
          then tokens[i].(revokedAt := Some(now)) else tokens[i];
      }
      tokens := tokens[id := AuthToken(kind, email, user, maxUses, 0, now + ttl, None)];
      assert tokens == Issue(old(tokens), id, kind, email, user, maxUses, ttl, now);
    }

    method ConsumeToken(id: TokenId, kind: TokenType, now: int) returns (r: Result<AuthToken, TokenError>)
      modifies this
      ensures (tokens, r) == Consume(old(tokens), id, kind, now)
    {
      if !IsValid(tokens, id, kind, now) {
        return Err(Invalid);
      }
      var record := tokens[id];
      record := record.(usedCount := record.usedCount + 1);
      if record.usedCount >= record.maxUses {
        record := record.(revokedAt := Some(now));
      }
      tokens := tokens[id := record];
      return Ok(record);
    }

    method ConsumeInvite(id: TokenId, now: int)
      modifies this
      ensures tokens == InviteConsumed(old(tokens), id, now)
    {
      if id !in tokens {
        return;
      }
      var record := tokens[id];
      record := record.(usedCount := record.usedCount + 1);
      if record.usedCount >= record.maxUses {
        record := record.(revokedAt := Some(now));
      }
      tokens := tokens[id := record];
    }

    method CreateInviteToken(id: TokenId, emails: set<Email>, email: Option<Email>,
                             days: Option<int>, uses: Option<int>, now: int)
      returns (r: Result<AuthToken, TokenError>)
      requires id !in tokens
      modifies this
      ensures r.Err? <==> email.Some? && email.value in emails
      ensures tokens == if r.Ok? then NewInvite(old(tokens), id, email, days, uses, now) else old(tokens)
      ensures r.Ok? ==> r.value == AuthToken(Invite, email, None, InviteUses(email, uses), 0,
                                             now + InviteDays(days) * DAY_MS, None)
    {
      if email.Some? && email.value in emails {
        return Err(EmailTaken);
      }
      var lifetime := InviteDays(days) * DAY_MS;
      IssueToken(id, Invite, email, None, InviteUses(email, uses), lifetime, now);
      return Ok(tokens[id]);
    }

    method RevokeInviteToken(id: TokenId, now: int) returns (r: Result<(), TokenError>)
      modifies this
      ensures r.Ok? <==> id in old(tokens) && old(tokens)[id].kind == Invite
      ensures tokens == if r.Ok? then old(tokens)[id := old(tokens)[id].(revokedAt := Some(now))] else old(tokens)
    {
      if id !in tokens || tokens[id].kind != Invite {
        return Err(NotFound);
      }
      tokens := tokens[id := tokens[id].(revokedAt := Some(now))];
      return Ok(());
    }
  }

  class AuthService {
    const authTokens: AuthTokenService
    var emails: set<Email>
    var registrations: seq<(TokenId, Email)>

    constructor (authTokens: AuthTokenService)
      ensures this.authTokens == authTokens && emails == {} && registrations == []
    {
      this.authTokens, emails, registrations := authTokens, {}, [];
    }

    function AsDesk(): Desk
      reads this, authTokens
    {
      Desk(authTokens.tokens, emails, registrations, [])
    }

    method Register(email: Email, invite: Option<TokenId>, now: int) returns (r: Result<(), TokenError>)
      modifies this, authTokens
      ensures (AsDesk(), r) == Registered(old(AsDesk()), email, invite, now)
    {
      if email in emails {
        return Err(EmailTaken);
      }
      if invite.Some? {
        var checked := InviteFor(authTokens.tokens, invite.value, email, now);
        if checked.Err? {
          return Err(checked.error);
        }
      }
      emails := emails + {email};
      if invite.Some? {
        authTokens.ConsumeInvite(invite.value, now);
        registrations := registrations + [(invite.value, email)];
      }
      return Ok(());
    }
  }
}
