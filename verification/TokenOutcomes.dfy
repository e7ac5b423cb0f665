/** The full outcome of every operation on one-time tokens: each refusal, each field afterwards, and what stays. */
module TokenOutcomes {
  import opened AuthTokens
  import opened Ids
  import opened Lists

  /** A token that may be used: known by its secret, of its kind, not revoked, not expired, with a use left. */
  ghost predicate MayUse(tokens: Tokens, id: TokenId, kind: TokenType, now: int) {
    |id| >= 16 && id in tokens &&
    var t := tokens[id];
    t.kind == kind && t.revokedAt.None? && now <= t.expiresAt && t.usedCount < t.maxUses
  }

  /** One use more, and revoked now if that was the last one. */
  ghost predicate UsedOnce(t: AuthToken, after: AuthToken, now: int) {
    && after == t.(usedCount := after.usedCount, revokedAt := after.revokedAt)
    && after.usedCount == t.usedCount + 1
    && (after.usedCount < t.maxUses ==> after.revokedAt == t.revokedAt)
    && (after.usedCount >= t.maxUses ==> after.revokedAt == Some(now))
  }

  ghost predicate OnlyToken(tokens: Tokens, next: Tokens, id: TokenId) {
    next.Keys == tokens.Keys && forall i :: i in tokens && i != id ==> next[i] == tokens[i]
  }

  lemma ConsumeOutcome(tokens: Tokens, id: TokenId, kind: TokenType, now: int)
    ensures var (next, r) := Consume(tokens, id, kind, now);
            && (r.Ok? <==> MayUse(tokens, id, kind, now))
            && (r.Err? ==> r == Err(Invalid) && next == tokens)
            && (r.Ok? ==> OnlyToken(tokens, next, id) && UsedOnce(tokens[id], next[id], now) && r.value == next[id])
  {
  }

  lemma InviteUseOutcome(tokens: Tokens, id: TokenId, now: int)
    ensures var next := InviteConsumed(tokens, id, now);
            OnlyToken(tokens, next, id) && (id in tokens ==> UsedOnce(tokens[id], next[id], now))
  {
  }

  /** An invitation is good for an address if it may be used and is for nobody else. */
  lemma InviteCheckOutcome(tokens: Tokens, id: TokenId, email: Email, now: int)
    ensures var r := InviteFor(tokens, id, email, now);
            var usable := MayUse(tokens, id, Invite, now);
            && (r == Err(Invalid) <==> !usable)
            && (r == Err(WrongEmail) <==> usable && tokens[id].email.Some? && tokens[id].email != Some(email))
            && (r.Ok? <==> usable && (tokens[id].email.None? || tokens[id].email == Some(email)))
            && (r.Ok? ==> r.value == id)
  {
  }

  /** A new token is unused and valid for its time; the older unrevoked verification or reset tokens of the same kind
      and user are revoked now; every other token stays. */
  lemma IssueOutcome(tokens: Tokens, id: TokenId, kind: TokenType, email: Option<Email>, user: Option<UserId>,
                     maxUses: nat, ttl: nat, now: int)
    requires id !in tokens
    ensures var next := Issue(tokens, id, kind, email, user, maxUses, ttl, now);
            && next.Keys == tokens.Keys + {id}
            && next[id].kind == kind && next[id].email == email && next[id].userId == user
            && next[id].maxUses == maxUses && next[id].usedCount == 0
            && next[id].expiresAt == now + ttl && next[id].revokedAt.None?
            && forall i :: i in tokens ==>
                 var replaced := (kind == EmailVerify || kind == PasswordReset) && user.Some? &&
                                 tokens[i].kind == kind && tokens[i].userId == user && tokens[i].revokedAt.None?;
                 next[i] == if replaced then tokens[i].(revokedAt := Some(now)) else tokens[i]
  {
  }

  /** A new invitation: for one use if it names an address, and otherwise for as many as asked, 25 by default, within 1
      and 500; for as many days as asked, 7 by default, within 1 and 90; no other token changes. */
  lemma NewInviteOutcome(tokens: Tokens, id: TokenId, email: Option<Email>, days: Option<int>, uses: Option<int>,
                         now: int)
    requires id !in tokens
    ensures var next := NewInvite(tokens, id, email, days, uses, now);
            && next.Keys == tokens.Keys + {id} && (forall i :: i in tokens ==> next[i] == tokens[i])
            && var t := next[id];
            && t.kind == Invite && t.email == email && t.userId.None? && t.usedCount == 0 && t.revokedAt.None?
            && (email.Some? ==> t.maxUses == 1)
            && (email.None? && uses.None? ==> t.maxUses == 25)
            && (email.None? && uses.Some? && 1 <= uses.value <= 500 ==> t.maxUses == uses.value)
            && (email.None? && uses.Some? && uses.value < 1 ==> t.maxUses == 1)
            && (email.None? && uses.Some? && uses.value > 500 ==> t.maxUses == 500)
            && (days.None? ==> t.expiresAt == now + 7 * 86400000)
            && (days.Some? && 1 <= days.value <= 90 ==> t.expiresAt == now + days.value * 86400000)
            && (days.Some? && days.value < 1 ==> t.expiresAt == now + 86400000)
            && (days.Some? && days.value > 90 ==> t.expiresAt == now + 90 * 86400000)
  {
    IssueOutcome(tokens, id, Invite, email, None, InviteUses(email, uses), InviteDays(days) * DAY_MS, now);
  }

  /** Registering is refused exactly for a taken address and a bad invitation; otherwise the address is taken and the
      invitation, if there is one, is used once. */
  lemma RegisterOutcome(d: Desk, email: Email, invite: Option<TokenId>, now: int)
    ensures var (next, r) := Registered(d, email, invite, now);
            var usable := invite.Some? ==> MayUse(d.tokens, invite.value, Invite, now);
            var forThem := invite.Some? && invite.value in d.tokens && d.tokens[invite.value].email.Some? ==>
                             d.tokens[invite.value].email == Some(email);
            && (r == Err(EmailTaken) <==> email in d.emails)
            && (r == Err(Invalid) <==> email !in d.emails && !usable)
            && (r == Err(WrongEmail) <==> email !in d.emails && usable && !forThem)
            && (r.Ok? <==> email !in d.emails && usable && forThem)
            && (r.Err? ==> next == d)
            && (r.Ok? ==> next.emails == d.emails + {email} && next.consumed == d.consumed)
            && (r.Ok? && invite.None? ==> next.tokens == d.tokens && next.registrations == d.registrations)
            && (r.Ok? && invite.Some? ==>
                  && OnlyToken(d.tokens, next.tokens, invite.value)
                  && UsedOnce(d.tokens[invite.value], next.tokens[invite.value], now)
                  && next.registrations == d.registrations + [(invite.value, email)])
  {
    if invite.Some? {
      InviteCheckOutcome(d.tokens, invite.value, email, now);
      InviteUseOutcome(d.tokens, invite.value, now);
    }
  }

  /** The other errands: an invitation is made unless it names a registered address, a personal token is for one use,
      a revocation marks an existing invitation, and a deactivation frees the address; nothing else changes. */
  lemma ErrandOutcome(d: Desk, e: Errand)
    ensures var next := Ran(d, e);
            && (e.CreateInvite? ==>
                  && next == d.(tokens := next.tokens)
                  && if e.id in d.tokens || (e.addressee.Some? && e.addressee.value in d.emails) then next == d
                  else next.tokens == NewInvite(d.tokens, e.id, e.addressee, e.days, e.uses, e.now))
            && (e.IssuePersonal? && e.id !in d.tokens && e.kind != Invite ==>
                  && next == d.(tokens := next.tokens) && e.id in next.tokens
                  && next.tokens[e.id] == AuthToken(e.kind, Some(e.email), Some(e.user), 1, 0, e.now + e.ttl, None))
            && (e.RevokeInvite? ==>
                  && next == d.(tokens := next.tokens) && OnlyToken(d.tokens, next.tokens, e.id)
                  && (e.id in d.tokens ==>
                        next.tokens[e.id] == if d.tokens[e.id].kind == Invite
                                             then d.tokens[e.id].(revokedAt := Some(e.now)) else d.tokens[e.id]))
            && (e.FreeEmail? ==> next == d.(emails := d.emails - {e.address}))
  {
    if e.IssuePersonal? && e.id !in d.tokens {
      IssueOutcome(d.tokens, e.id, e.kind, Some(e.email), Some(e.user), 1, e.ttl, e.now);
    }
  }
}
