/** Refresh tokens: issuing, rotation, and the operations that revoke all tokens of a user. */
module RefreshTokens {
  import opened Ids
  import opened Lists

  type Hash = nat

  datatype Account = Account(isActive: bool, deleted: bool)
  datatype RefreshToken = RefreshToken(userId: UserId, expiresAt: int, revoked: bool)

  type Accounts = map<UserId, Account>
  type Tokens = map<Hash, RefreshToken>

  datatype AuthError = Unauthorized | Forbidden | UserNotFound

  ghost predicate IsLive(tokens: Tokens, h: Hash, u: UserId, now: int) {
    h in tokens && tokens[h].userId == u && !tokens[h].revoked && tokens[h].expiresAt >= now
  }

  ghost function Live(tokens: Tokens, u: UserId, now: int): set<Hash> {
    set h | h in tokens && IsLive(tokens, h, u, now)
  }

  function Issued(tokens: Tokens, h: Hash, u: UserId, expiresAt: int): Tokens {
    tokens[h := RefreshToken(u, expiresAt, false)]
  }

  /** `update({ userId, revoked: false }, { revoked: true })`. */
  function AllRevoked(tokens: Tokens, u: UserId): (r: Tokens)
    ensures r.Keys == tokens.Keys
    ensures forall h :: h in tokens ==> r[h] == if tokens[h].userId == u then tokens[h].(revoked := true) else tokens[h]
  {
    map h | h in tokens.Keys ::
      if tokens[h].userId == u && !tokens[h].revoked then tokens[h].(revoked := true) else tokens[h]
  }

  function Redeem(accounts: Accounts, tokens: Tokens, h: Hash, newHash: Hash, signed: bool, now: int, ttl: nat)
    : (Tokens, Result<UserId, AuthError>)
  {
    // the token row is joined with its user, which drops rows of deleted users
    if !signed || h !in tokens || tokens[h].userId !in accounts || accounts[tokens[h].userId].deleted then
      (tokens, Err(Unauthorized))
    else if tokens[h].revoked || tokens[h].expiresAt < now then (tokens, Err(Unauthorized))
    else if !accounts[tokens[h].userId].isActive then (tokens, Err(Forbidden))
    else (Issued(tokens[h := tokens[h].(revoked := true)], newHash, tokens[h].userId, now + ttl), Ok(tokens[h].userId))
  }

  // ---------------------------------------------------------------- single operations

  /** The account exists and is not deleted. */
  ghost predicate Stands(accounts: Accounts, u: UserId) {
    u in accounts && !accounts[u].deleted
  }

  /** The token may be exchanged, if its user is active. */
  ghost predicate Presentable(accounts: Accounts, tokens: Tokens, h: Hash, signed: bool, now: int) {
    signed && h in tokens && !tokens[h].revoked && tokens[h].expiresAt >= now && Stands(accounts, tokens[h].userId)
  }

  /** A refresh succeeds exactly for a signed, stored, unrevoked and unexpired token of an active account that is there;
      then the token is revoked, and the new one is its user's, unrevoked, for the time to live from now. */
  lemma RedeemOutcome(accounts: Accounts, tokens: Tokens, h: Hash, newHash: Hash, signed: bool, now: int, ttl: nat)
    requires newHash !in tokens
    ensures var (next, r) := Redeem(accounts, tokens, h, newHash, signed, now, ttl);
            var presentable := Presentable(accounts, tokens, h, signed, now);
            && (r.Ok? <==> presentable && accounts[tokens[h].userId].isActive)
            && (r == Err(Forbidden) <==> presentable && !accounts[tokens[h].userId].isActive)
            && (r == Err(Unauthorized) <==> !presentable)
            && (r.Err? ==> next == tokens)
            && (r.Ok? ==>
                  && r.value == tokens[h].userId
                  && next.Keys == tokens.Keys + {newHash}
                  && next[newHash].userId == r.value && !next[newHash].revoked && next[newHash].expiresAt == now + ttl
                  && next[h].revoked && next[h] == tokens[h].(revoked := true)
                  && (forall k :: k in tokens && k != h ==> next[k] == tokens[k]))
  {
  }

  /** Rotation exchanges one live token of the user for one new token and touches nobody else. */
  lemma RotationKeepsCount(accounts: Accounts, tokens: Tokens, h: Hash, newHash: Hash, signed: bool, now: int,
                           ttl: nat, v: UserId)
    requires newHash !in tokens
    requires Redeem(accounts, tokens, h, newHash, signed, now, ttl).1.Ok?
    ensures var (next, r) := Redeem(accounts, tokens, h, newHash, signed, now, ttl);
            && Live(next, r.value, now) == Live(tokens, r.value, now) - {h} + {newHash}
            && |Live(next, r.value, now)| == |Live(tokens, r.value, now)|
            && (v != r.value ==> Live(next, v, now) == Live(tokens, v, now))
  {
    var (next, r) := Redeem(accounts, tokens, h, newHash, signed, now, ttl);
    var live := Live(tokens, r.value, now);
    assert h in live && newHash !in live;
    assert Live(next, r.value, now) == live - {h} + {newHash};
  }

  lemma RevocationClears(tokens: Tokens, u: UserId, v: UserId, now: int)
    ensures Live(AllRevoked(tokens, u), u, now) == {}
    ensures v != u ==> Live(AllRevoked(tokens, u), v, now) == Live(tokens, v, now)
  {
  }

  // ---------------------------------------------------------------- runs

  /** The tables, and every token that was ever exchanged, in order. */
  datatype Vault = Vault(accounts: Accounts, tokens: Tokens, redeemed: seq<Hash>)

  datatype Visit =
    | Register(u: UserId, h: Hash, now: int, ttl: nat)
    /** The password was right. */
    | Login(u: UserId, h: Hash, now: int, ttl: nat)
    | Refresh(h: Hash, newHash: Hash, signed: bool, now: int, ttl: nat)
    | LogoutOne(u: UserId, h: Hash)
    | LogoutAll(u: UserId)
    | ChangePassword(u: UserId)
    | ResetPassword(u: UserId)
    | Deactivate(u: UserId)

  predicate RevokesAllOf(v: Visit, u: UserId) {
    (v.LogoutAll? || v.ChangePassword? || v.ResetPassword? || v.Deactivate?) && v.u == u
  }

  predicate Usable(accounts: Accounts, u: UserId) {
    u in accounts && accounts[u].isActive && !accounts[u].deleted
  }

  /** Tokens and user ids are generated, hence new. */
  function Visited(s: Vault, v: Visit): Vault {
    match v
    case Register(u, h, now, ttl) =>
      if u in s.accounts || h in s.tokens then s
      else s.(accounts := s.accounts[u := Account(true, false)], tokens := Issued(s.tokens, h, u, now + ttl))
    case Login(u, h, now, ttl) =>
      if !Usable(s.accounts, u) || h in s.tokens then s else s.(tokens := Issued(s.tokens, h, u, now + ttl))
    case Refresh(h, newHash, signed, now, ttl) =>
      if newHash in s.tokens then s
      else
        var (next, r) := Redeem(s.accounts, s.tokens, h, newHash, signed, now, ttl);
        s.(tokens := next, redeemed := if r.Ok? then s.redeemed + [h] else s.redeemed)
    case LogoutOne(u, h) =>
      if h in s.tokens && s.tokens[h].userId == u then s.(tokens := s.tokens[h := s.tokens[h].(revoked := true)]) else s
    case Deactivate(u) =>
      if u !in s.accounts || s.accounts[u].deleted then s
      else s.(accounts := s.accounts[u := Account(false, true)], tokens := AllRevoked(s.tokens, u))
    case _ => s.(tokens := AllRevoked(s.tokens, v.u))
  }

  function VisitedAll(s: Vault, vs: seq<Visit>): Vault {
    if vs == [] then s else Visited(VisitedAll(s, vs[..|vs| - 1]), vs[|vs| - 1])
  }

  ghost predicate VaultOk(s: Vault) {
    && NoDup(s.redeemed)
    && (forall h :: h in s.redeemed ==> h in s.tokens && s.tokens[h].revoked)
    && (forall h :: h in s.tokens ==> s.tokens[h].userId in s.accounts)
    && (forall h :: h in s.tokens && s.accounts[s.tokens[h].userId].deleted ==> s.tokens[h].revoked)
  }

  lemma VisitKeepsVaultOk(s: Vault, v: Visit)
    requires VaultOk(s)
    ensures VaultOk(Visited(s, v))
    ensures forall h :: h in s.tokens && s.tokens[h].revoked ==>
                          h in Visited(s, v).tokens && Visited(s, v).tokens[h].revoked
  {
  }

  /** From any sound vault on, no refresh token is exchanged twice. */
  lemma {:induction false} RedeemedAtMostOnce(s: Vault, vs: seq<Visit>)
    requires VaultOk(s)
    ensures VaultOk(VisitedAll(s, vs)) && NoDup(VisitedAll(s, vs).redeemed)
  {
    if vs != [] {
      RedeemedAtMostOnce(s, vs[..|vs| - 1]);
      VisitKeepsVaultOk(VisitedAll(s, vs[..|vs| - 1]), vs[|vs| - 1]);
    }
  }

  /** What each visit does: registering adds an active account and its first token, logging in a token for an account
      that may; logging out one device revokes that token of that user and no other; deactivation deletes the account
      and revokes all its tokens, as logging out everywhere and a new password do. */
  lemma VisitOutcome(s: Vault, v: Visit)
    ensures var next := Visited(s, v);
            && (v.Register? && v.u !in s.accounts && v.h !in s.tokens ==>
                  && next.accounts == s.accounts[v.u := Account(true, false)]
                  && next.tokens == s.tokens[v.h := RefreshToken(v.u, v.now + v.ttl, false)])
            && (v.Login? && v.h !in s.tokens ==>
                  && next.accounts == s.accounts
                  && next.tokens == if Stands(s.accounts, v.u) && s.accounts[v.u].isActive
                                    then s.tokens[v.h := RefreshToken(v.u, v.now + v.ttl, false)] else s.tokens)
            && (v.LogoutOne? ==>
                  && next.accounts == s.accounts && next.tokens.Keys == s.tokens.Keys
                  && forall h :: h in s.tokens ==>
                       var hit := h == v.h && s.tokens[h].userId == v.u;
                       next.tokens[h] == s.tokens[h].(revoked := s.tokens[h].revoked || hit))
            && (v.LogoutAll? || v.ChangePassword? || v.ResetPassword? ==>
                  next.accounts == s.accounts && RevokedFor(s.tokens, next.tokens, v.u))
            && (v.Deactivate? && Stands(s.accounts, v.u) ==>
                  && next.accounts == s.accounts[v.u := next.accounts[v.u]]
                  && next.accounts[v.u].deleted && !next.accounts[v.u].isActive
                  && RevokedFor(s.tokens, next.tokens, v.u))
            && (!v.Refresh? ==> next.redeemed == s.redeemed)
  {
  }

  /** Exactly the user's tokens are revoked. */
  ghost predicate RevokedFor(tokens: Tokens, next: Tokens, u: UserId) {
    && next.Keys == tokens.Keys
    && forall h :: h in tokens ==> next[h] == tokens[h].(revoked := tokens[h].revoked || tokens[h].userId == u)
  }

  /** The visit takes the token or the account away from its user, other than by exchanging the token. */
  predicate Withdraws(v: Visit, u: UserId, h: Hash) {
    RevokesAllOf(v, u) || (v.LogoutOne? && v.u == u && v.h == h)
  }

  /** The token can be exchanged until it expires, or was exchanged. */
  ghost predicate Refreshable(s: Vault, u: UserId, h: Hash, until: int) {
    && h in s.tokens && s.tokens[h].userId == u && s.tokens[h].expiresAt == until
    && u in s.accounts && s.accounts[u].isActive && !s.accounts[u].deleted
    && (s.tokens[h].revoked ==> h in s.redeemed)
  }

  lemma StaysRefreshable(s: Vault, v: Visit, u: UserId, h: Hash, until: int)
    requires Refreshable(s, u, h, until) && !Withdraws(v, u, h)
    ensures Refreshable(Visited(s, v), u, h, until)
  {
    if v.Refresh? && v.newHash !in s.tokens {
      RedeemOutcome(s.accounts, s.tokens, v.h, v.newHash, v.signed, v.now, v.ttl);
    } else {
      VisitOutcome(s, v);
    }
  }

  lemma {:induction false} RefreshableAllAlong(s: Vault, vs: seq<Visit>, u: UserId, h: Hash, until: int)
    requires Refreshable(s, u, h, until) && forall v :: v in vs ==> !Withdraws(v, u, h)
    ensures Refreshable(VisitedAll(s, vs), u, h, until)
  {
    if vs != [] {
      var init, last := vs[..|vs| - 1], vs[|vs| - 1];
      assert last in vs && forall v :: v in init ==> v in vs;
      RefreshableAllAlong(s, init, u, h, until);
      StaysRefreshable(VisitedAll(s, init), last, u, h, until);
    }
  }

  /** A token given out by registering or logging in can be exchanged at any time before it expires, however the run
      goes on, unless it was exchanged already, or its user logged it out, logged out everywhere, changed or reset the
      password, or was deactivated. */
  lemma TokenServesUntilItExpires(s: Vault, v: Visit, vs: seq<Visit>, newHash: Hash, now: int, ttl: nat)
    requires (v.Register? && v.u !in s.accounts) || (v.Login? && Stands(s.accounts, v.u) && s.accounts[v.u].isActive)
    requires v.h !in s.tokens && forall w :: w in vs ==> !Withdraws(w, v.u, v.h)
    requires var end := VisitedAll(Visited(s, v), vs);
             v.h !in end.redeemed && newHash !in end.tokens
    requires now <= v.now + v.ttl
    ensures var end := VisitedAll(Visited(s, v), vs);
            Redeem(end.accounts, end.tokens, v.h, newHash, true, now, ttl).1 == Ok(v.u)
  {
    VisitOutcome(s, v);
    RefreshableAllAlong(Visited(s, v), vs, v.u, v.h, v.now + v.ttl);
    var end := VisitedAll(Visited(s, v), vs);
    RedeemOutcome(end.accounts, end.tokens, v.h, newHash, true, now, ttl);
  }

  const EMPTY_VAULT := Vault(map[], map[], [])

  /** In every run of the service the tokens exchanged are distinct, and none of them can be exchanged any more. */
  lemma RotationSafety(vs: seq<Visit>)
    ensures var s := VisitedAll(EMPTY_VAULT, vs);
            && NoDup(s.redeemed)
            && (forall h, newHash, signed, now, ttl :: h in s.redeemed ==>
                  Redeem(s.accounts, s.tokens, h, newHash, signed, now, ttl).1 == Err(Unauthorized))
            && (forall h, now :: h in s.tokens && IsLive(s.tokens, h, s.tokens[h].userId, now) ==>
                  s.tokens[h].userId in s.accounts && !s.accounts[s.tokens[h].userId].deleted)
  {
    RedeemedAtMostOnce(EMPTY_VAULT, vs);
  }

  ghost predicate Unrevoked(s: Vault, u: UserId, h: Hash) {
    h in s.tokens && s.tokens[h].userId == u && !s.tokens[h].revoked
  }

  /** A user without unrevoked tokens gets new ones only by logging in or registering. */
  lemma OnlyLoginRevives(s: Vault, v: Visit, u: UserId)
    requires forall h :: !Unrevoked(s, u, h)
    requires !((v.Login? || v.Register?) && v.u == u)
    ensures forall h :: !Unrevoked(Visited(s, v), u, h)
  {
    forall h ensures !Unrevoked(Visited(s, v), u, h) {
      assert !Unrevoked(s, u, h);
      if v.Refresh? {
        assert !Unrevoked(s, u, v.h);
      }
    }
  }

  /** After logging out everywhere, changing or resetting the password, or deactivation, none of the user's tokens
      can be refreshed, however long the run goes on, until the user logs in again. */
  lemma {:induction false} RevocationLasts(s: Vault, v: Visit, u: UserId, vs: seq<Visit>, now: int)
    requires VaultOk(s) && RevokesAllOf(v, u)
    requires forall w :: w in vs ==> !((w.Login? || w.Register?) && w.u == u)
    ensures forall h :: !Unrevoked(VisitedAll(Visited(s, v), vs), u, h)
    ensures Live(VisitedAll(Visited(s, v), vs).tokens, u, now) == {}
  {
    if vs == [] {
      forall h ensures !Unrevoked(Visited(s, v), u, h) {
        assert h in s.tokens ==> s.tokens[h].userId in s.accounts;
      }
    } else {
      var init, last := vs[..|vs| - 1], vs[|vs| - 1];
      assert last in vs && forall w :: w in init ==> w in vs;
      RevocationLasts(s, v, u, init, now);
      OnlyLoginRevives(VisitedAll(Visited(s, v), init), last, u);
    }
    assert forall h :: IsLive(VisitedAll(Visited(s, v), vs).tokens, h, u, now) ==>
                         Unrevoked(VisitedAll(Visited(s, v), vs), u, h);
  }

  /** A deactivated account never holds a live token again, whatever happens. */
  lemma {:induction false} DeactivationIsFinal(s: Vault, u: UserId, vs: seq<Visit>, now: int)
    requires VaultOk(s) && u in s.accounts && s.accounts[u].deleted
    ensures var t := VisitedAll(s, vs);
            VaultOk(t) && u in t.accounts && t.accounts[u].deleted && Live(t.tokens, u, now) == {}
  {
    if vs != [] {
      DeactivationIsFinal(s, u, vs[..|vs| - 1], now);
      VisitKeepsVaultOk(VisitedAll(s, vs[..|vs| - 1]), vs[|vs| - 1]);
    }
  }

  // ---------------------------------------------------------------- the service

  class RefreshService {
    var accounts: Accounts
    var tokens: Tokens

    constructor ()
      ensures accounts == map[] && tokens == map[]
    {
      accounts, tokens := map[], map[];
    }

    method IssueTokens(u: UserId, h: Hash, now: int, ttl: nat)
      requires h !in tokens
      modifies this`tokens
      ensures tokens == Issued(old(tokens), h, u, now + ttl)
    {
      tokens := tokens[h := RefreshToken(u, now + ttl, false)];
    }

    /** One transaction; the row is locked from the read to the save. */
    method RefreshSession(h: Hash, newHash: Hash, signed: bool, now: int, ttl: nat)
      returns (r: Result<UserId, AuthError>)
      requires newHash !in tokens
      modifies this`tokens
      ensures (tokens, r) == Redeem(accounts, old(tokens), h, newHash, signed, now, ttl)
    {
      if !signed {
        return Err(Unauthorized);
      }
      if h !in tokens || tokens[h].userId !in accounts || accounts[tokens[h].userId].deleted {
        return Err(Unauthorized);
      }
      var stored := tokens[h];
      if stored.revoked || stored.expiresAt < now {
        return Err(Unauthorized);
      }
      if !accounts[stored.userId].isActive {
        return Err(Forbidden);
      }
      tokens := tokens[h := stored.(revoked := true)];
      IssueTokens(stored.userId, newHash, now, ttl);
      return Ok(stored.userId);
    }

    method Logout(u: UserId, token: Option<Hash>)
      modifies this`tokens
      ensures tokens == match token
                        case Some(h) => Visited(Vault(accounts, old(tokens), []), LogoutOne(u, h)).tokens
                        case None => AllRevoked(old(tokens), u)
    {
      match token
      case Some(h) =>
        if h in tokens && tokens[h].userId == u {
          tokens := tokens[h := tokens[h].(revoked := true)];
        }
      case None => RevokeAll(u);
    }

    /** The bulk update shared by logout, password change, password reset and deactivation. */
    method RevokeAll(u: UserId)
      modifies this`tokens
      ensures tokens == AllRevoked(old(tokens), u)
    {
      tokens := map h | h in tokens.Keys ::
        if tokens[h].userId == u && !tokens[h].revoked then tokens[h].(revoked := true) else tokens[h];
    }

    method DeactivateUser(u: UserId) returns (r: Result<(), AuthError>)
      modifies this
      ensures r.Ok? <==> u in old(accounts) && !old(accounts)[u].deleted
      ensures Vault(accounts, tokens, []) == Visited(Vault(old(accounts), old(tokens), []), Deactivate(u))
    {
      if u !in accounts || accounts[u].deleted {
        return Err(UserNotFound);
      }
      accounts := accounts[u := accounts[u].(isActive := false)];
      RevokeAll(u);
      accounts := accounts[u := accounts[u].(deleted := true)];
      return Ok(());
    }
  }
}
