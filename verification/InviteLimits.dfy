/** How many accounts an invitation brings in when registrations interleave: for open invitations and for those to one
    address, the exact condition under which the limit holds in every continuation. */
module InviteLimits {
  import opened AuthTokens
  import opened InviteRaces
  import opened Lists

  function UsesOf(s: Race, i: TokenId): nat {
    Uses(s.desk.registrations, i)
  }

  ghost function FlightsOn(s: Race, i: TokenId): set<RegId> {
    set r | r in s.flights && s.flights[r].invite == i
  }

  // ---------------------------------------------------------------- whether an invitation can pass a check

  /** A check can succeed, at the right time and for the right address. */
  predicate CanPass(i: TokenId, t: AuthToken) {
    |i| >= MIN_SECRET && t.kind == Invite && t.revokedAt.None? && t.usedCount < t.maxUses
  }

  lemma CanPassIsValid(tokens: Tokens, i: TokenId)
    requires i in tokens
    ensures CanPass(i, tokens[i]) <==> exists now :: IsValid(tokens, i, Invite, now)
  {
    assert CanPass(i, tokens[i]) ==> IsValid(tokens, i, Invite, tokens[i].expiresAt);
  }

  /** No check can succeed, and no use under way will put back a record with which one could. */
  ghost predicate Closed(s: Race, i: TokenId) {
    && i in s.desk.tokens && !CanPass(i, s.desk.tokens[i])
    && forall r :: r in s.flights && s.flights[r].Using? && s.flights[r].invite == i ==>
         !CanPass(i, Used(s.flights[r].record, 0))
  }

  lemma SaveKeepsClosed(s: Race, m: Move, i: TokenId)
    requires RaceOk(s) && IsInvite(s, i) && Closed(s, i) && (m.SaveUse? || m.SaveRevoke?)
    ensures Closed(Step(s, m), i)
  {
    MoveKeepsInvite(s, m, i);
  }

  lemma OtherKeepsClosed(s: Race, m: Move, i: TokenId)
    requires RaceOk(s) && IsInvite(s, i) && Closed(s, i) && !m.SaveUse? && !m.SaveRevoke?
    ensures Closed(Step(s, m), i)
  {
    MoveKeepsInvite(s, m, i);
  }

  /** While no check can succeed, a registration with the invitation can only end, with a use at best. */
  lemma ClosedCount(s: Race, m: Move, i: TokenId)
    requires Closed(s, i)
    ensures UsesOf(Step(s, m), i) + |FlightsOn(Step(s, m), i)| <= UsesOf(s, i) + |FlightsOn(s, i)|
  {
    var next := Step(s, m);
    NoNewFlights(s, m, i);
    SubsetSize(FlightsOn(next, i), FlightsOn(s, i));
    if m.SaveUse? && next != s {
      UsesSnoc(s.desk.registrations, (s.flights[m.r].invite, s.flights[m.r].email), i);
      if s.flights[m.r].invite == i {
        assert FlightsOn(next, i) == FlightsOn(s, i) - {m.r};
      }
    } else {
      SameUses(s, m);
    }
  }

  lemma NoNewFlights(s: Race, m: Move, i: TokenId)
    requires Closed(s, i)
    ensures FlightsOn(Step(s, m), i) <= FlightsOn(s, i)
  {
  }

  lemma SameUses(s: Race, m: Move)
    requires m.SaveUse? ==> Step(s, m) == s
    ensures Step(s, m).desk.registrations == s.desk.registrations
  {
    if m.Meanwhile? && !Interruptible(m.e) {
      assert Ran(s.desk, m.e).registrations == s.desk.registrations;
    }
  }

  /** An invitation stays what it is; its record only changes by being saved. */
  lemma MoveKeepsInvite(s: Race, m: Move, i: TokenId)
    requires RaceOk(s) && IsInvite(s, i)
    ensures IsInvite(Step(s, m), i) && SameToken(Step(s, m).desk.tokens[i], s.desk.tokens[i])
    ensures !m.SaveUse? && !m.SaveRevoke? ==> Step(s, m).desk.tokens[i] == s.desk.tokens[i]
  {
    match m
    case SaveUse(r, _) =>
      if r in s.flights {
        assert FlightOk(s, s.flights[r]);
      }
    case SaveRevoke(k, _) =>
      if k in s.tasks {
        assert TaskOk(s, s.tasks[k]);
      }
    case SaveConsume(k, _) =>
      if k in s.tasks {
        assert TaskOk(s, s.tasks[k]);
      }
    case Meanwhile(e) => if !Interruptible(e) { ErrandKeepsToken(s.desk, e, i); }
    case _ =>
  }

  lemma {:induction false} InviteForever(s: Race, ms: seq<Move>, i: TokenId)
    requires RaceOk(s) && IsInvite(s, i)
    ensures IsInvite(Steps(s, ms), i) && SameToken(Steps(s, ms).desk.tokens[i], s.desk.tokens[i])
    decreases |ms|
  {
    if ms != [] {
      MoveKeepsRaceOk(s, ms[0]);
      MoveKeepsInvite(s, ms[0], i);
      InviteForever(Step(s, ms[0]), ms[1..], i);
    }
  }

  lemma {:induction false} StaysClosed(s: Race, ms: seq<Move>, i: TokenId)
    requires RaceOk(s) && IsInvite(s, i) && Closed(s, i)
    ensures Closed(Steps(s, ms), i) && UsesOf(Steps(s, ms), i) <= UsesOf(s, i) + |FlightsOn(s, i)|
    decreases |ms|
  {
    if ms != [] {
      MoveKeepsRaceOk(s, ms[0]);
      MoveKeepsInvite(s, ms[0], i);
      if ms[0].SaveUse? || ms[0].SaveRevoke? {
        SaveKeepsClosed(s, ms[0], i);
      } else {
        OtherKeepsClosed(s, ms[0], i);
      }
      ClosedCount(s, ms[0], i);
      StaysClosed(Step(s, ms[0]), ms[1..], i);
    }
  }

  /** An invitation is refused for good, in every continuation, if and only if it is refused now and no use under way
      holds a record read before it was revoked that leaves a use over. */
  lemma ClosedExactly(s: Race, i: TokenId)
    requires RaceOk(s) && IsInvite(s, i)
    ensures (forall ms, now :: !IsValid(Steps(s, ms).desk.tokens, i, Invite, now)) <==> Closed(s, i)
  {
    if Closed(s, i) {
      forall ms, now ensures !IsValid(Steps(s, ms).desk.tokens, i, Invite, now) {
        StaysClosed(s, ms, i);
        CanPassIsValid(Steps(s, ms).desk.tokens, i);
      }
    } else {
      var ms := Reopens(s, i);
      CanPassIsValid(Steps(s, ms).desk.tokens, i);
    }
  }

  lemma Reopens(s: Race, i: TokenId) returns (ms: seq<Move>)
    requires i in s.desk.tokens && !Closed(s, i)
    ensures i in Steps(s, ms).desk.tokens && CanPass(i, Steps(s, ms).desk.tokens[i])
    ensures RaceOk(s) && IsInvite(s, i) ==> SameToken(Steps(s, ms).desk.tokens[i], s.desk.tokens[i])
  {
    if CanPass(i, s.desk.tokens[i]) {
      ms := [];
    } else {
      var r :| r in s.flights && s.flights[r].Using? && s.flights[r].invite == i &&
               CanPass(i, Used(s.flights[r].record, 0));
      ms := [SaveUse(r, 0)];
      StepsSnoc(s, [], SaveUse(r, 0));
      assert [] + ms == ms;
      if RaceOk(s) && IsInvite(s, i) {
        MoveKeepsInvite(s, SaveUse(r, 0), i);
      }
    }
  }

  /** So a revocation holds in every continuation if and only if, when it is saved, no use under way holds a record
      that leaves a use over and was not revoked yet. */
  lemma RevocationHoldsExactly(s: Race, k: TaskId, now: int)
    requires RaceOk(s) && k in s.tasks && s.tasks[k].Revoking?
    ensures var i, next := s.tasks[k].id, Step(s, SaveRevoke(k, now));
            (forall ms, at :: !IsValid(Steps(next, ms).desk.tokens, i, Invite, at)) <==>
            forall r :: r in s.flights && s.flights[r].Using? && s.flights[r].invite == i ==>
                          !CanPass(i, Used(s.flights[r].record, 0))
  {
    var i, next := s.tasks[k].id, Step(s, SaveRevoke(k, now));
    assert TaskOk(s, s.tasks[k]);
    MoveKeepsRaceOk(s, SaveRevoke(k, now));
    MoveKeepsInvite(s, SaveRevoke(k, now), i);
    ClosedExactly(next, i);
  }

  // ---------------------------------------------------------------- bringing registrations to their end

  /** A use under way is saved. */
  lemma UseFinishes(s: Race, r: RegId) returns (ms: seq<Move>)
    requires r in s.flights && s.flights[r].Using?
    ensures AllComplete(ms) && Finished(s, Steps(s, ms), r)
    ensures Steps(s, ms).desk.emails == s.desk.emails
  {
    ms := [SaveUse(r, 0)];
    StepsSnoc(s, [], SaveUse(r, 0));
    assert [] + ms == ms;
    UsesSnoc(s.desk.registrations, (s.flights[r].invite, s.flights[r].email), s.flights[r].invite);
  }

  /** A registration whose user is saved uses its invitation. */
  lemma OwedFinishes(s: Race, r: RegId) returns (ms: seq<Move>)
    requires r in s.flights && !s.flights[r].Checked? && s.flights[r].invite in s.desk.tokens
    ensures AllComplete(ms) && Finished(s, Steps(s, ms), r)
    ensures Steps(s, ms).desk.emails == s.desk.emails
  {
    if s.flights[r].Using? {
      ms := UseFinishes(s, r);
    } else {
      var next := Step(s, ReadUse(r));
      var rest := UseFinishes(next, r);
      StepsCons(s, ReadUse(r), rest);
      ms := [ReadUse(r)] + rest;
      assert Finished(s, Steps(s, ms), r);
    }
  }

  /** Whatever stands in its way, a registration can end with a use, once its address is given free. */
  lemma FlightFinishes(s: Race, r: RegId) returns (ms: seq<Move>)
    requires r in s.flights && s.flights[r].invite in s.desk.tokens
    ensures Finished(s, Steps(s, ms), r)
  {
    if s.flights[r].Checked? {
      var free, save := Meanwhile(FreeEmail(s.flights[r].email)), SaveUser(r);
      var next := Step(Step(s, free), save);
      assert next.flights == s.flights[r := Saved(s.flights[r].email, s.flights[r].invite)];
      var rest := OwedFinishes(next, r);
      StepsCons(s, free, [save] + rest);
      StepsCons(Step(s, free), save, rest);
      ms := [free] + ([save] + rest);
      assert Finished(s, Steps(s, ms), r);
    } else {
      ms := OwedFinishes(s, r);
    }
  }

  /** The registration is over and has used its invitation; other registrations stand where they stood. */
  ghost predicate Finished(s: Race, next: Race, r: RegId)
    requires r in s.flights
  {
    && next.flights == s.flights - {r}
    && next.desk.tokens.Keys == s.desk.tokens.Keys + {s.flights[r].invite}
    && UsesOf(next, s.flights[r].invite) == UsesOf(s, s.flights[r].invite) + 1
  }

  /** All registrations with the invitation can end with a use. */
  lemma {:induction false} AllFinish(s: Race, i: TokenId) returns (ms: seq<Move>)
    requires i in s.desk.tokens
    ensures UsesOf(Steps(s, ms), i) == UsesOf(s, i) + |FlightsOn(s, i)|
    decreases |FlightsOn(s, i)|
  {
    if FlightsOn(s, i) == {} {
      ms := [];
    } else {
      var r :| r in FlightsOn(s, i);
      var first := FlightFinishes(s, r);
      var next := Steps(s, first);
      assert FlightsOn(next, i) == FlightsOn(s, i) - {r};
      var rest := AllFinish(next, i);
      StepsConcat(s, first, rest);
      ms := first + rest;
    }
  }

  // ---------------------------------------------------------------- open invitations

  /** A number not in a finite set. */
  lemma {:induction false} Fresh(rs: set<nat>) returns (n: nat)
    ensures n !in rs && forall r :: r in rs ==> r < n
  {
    if rs == {} {
      n := 0;
    } else {
      var r :| r in rs;
      var m := Fresh(rs - {r});
      assert forall q :: q in rs ==> q == r || q in rs - {r};
      n := if m > r then m else r + 1;
    }
  }

  /** Any number of registrations with new addresses pass the check. */
  lemma {:induction false} ManyPass(s: Race, i: TokenId, k: nat) returns (ms: seq<Move>)
    requires i in s.desk.tokens && CanPass(i, s.desk.tokens[i]) && s.desk.tokens[i].email.None?
    ensures Steps(s, ms).desk == s.desk && |FlightsOn(Steps(s, ms), i)| >= k
  {
    if k == 0 {
      ms := [];
    } else {
      ms := ManyPass(s, i, k - 1);
      var before := Steps(s, ms);
      var r := Fresh(before.flights.Keys);
      var e := Fresh(s.desk.emails);
      var check := Check(r, e, i, s.desk.tokens[i].expiresAt);
      StepsSnoc(s, ms, check);
      assert FlightsOn(Step(before, check), i) == FlightsOn(before, i) + {r};
      ms := ms + [check];
    }
  }

  /** An invitation that can pass a check and names no address has no bound at all. */
  lemma OpenHasNoBound(s: Race, i: TokenId, k: nat) returns (ms: seq<Move>)
    requires i in s.desk.tokens && CanPass(i, s.desk.tokens[i]) && s.desk.tokens[i].email.None?
    ensures UsesOf(Steps(s, ms), i) >= k
  {
    var checks := ManyPass(s, i, k);
    var rest := AllFinish(Steps(s, checks), i);
    StepsConcat(s, checks, rest);
    ms := checks + rest;
  }

  lemma OpenOvershoots(s: Race, i: TokenId) returns (ms: seq<Move>)
    requires RaceOk(s) && IsInvite(s, i) && s.desk.tokens[i].email.None?
    requires !Closed(s, i) || UsesOf(s, i) + |FlightsOn(s, i)| > s.desk.tokens[i].maxUses
    ensures UsesOf(Steps(s, ms), i) > s.desk.tokens[i].maxUses
  {
    if !Closed(s, i) {
      var first := Reopens(s, i);
      var rest := OpenHasNoBound(Steps(s, first), i, s.desk.tokens[i].maxUses + 1);
      StepsConcat(s, first, rest);
      ms := first + rest;
    } else {
      ms := AllFinish(s, i);
    }
  }

  /** The limit of an open invitation holds in every continuation - any checks, saves, crashes, revocations,
      deactivations - if and only if no check can succeed any more and the registrations under way fit into the uses
      that are left. */
  lemma OpenLimitExactly(s: Race, i: TokenId)
    requires RaceOk(s) && IsInvite(s, i) && s.desk.tokens[i].email.None?
    ensures (forall ms :: UsesOf(Steps(s, ms), i) <= s.desk.tokens[i].maxUses) <==>
            Closed(s, i) && UsesOf(s, i) + |FlightsOn(s, i)| <= s.desk.tokens[i].maxUses
  {
    if Closed(s, i) && UsesOf(s, i) + |FlightsOn(s, i)| <= s.desk.tokens[i].maxUses {
      forall ms ensures UsesOf(Steps(s, ms), i) <= s.desk.tokens[i].maxUses {
        StaysClosed(s, ms, i);
      }
    } else {
      var ms := OpenOvershoots(s, i);
      assert UsesOf(Steps(s, ms), i) > s.desk.tokens[i].maxUses;
    }
  }

  // ---------------------------------------------------------------- while no address is given free

  /** Registrations whose user is saved and whose use is not. */
  ghost function OwedOn(s: Race, i: TokenId): set<RegId> {
    set r | r in s.flights && s.flights[r].invite == i && !s.flights[r].Checked?
  }

  ghost function CheckedOn(s: Race, i: TokenId): set<RegId> {
    set r | r in s.flights && s.flights[r].invite == i && s.flights[r].Checked?
  }

  /** Addresses with which a checked registration can still be saved. */
  ghost function HeadingFor(s: Race, i: TokenId): set<Email> {
    set r | r in CheckedOn(s, i) && s.flights[r].email !in s.desk.emails :: s.flights[r].email
  }

  /** The uses saved, those owed by saved users, and those that checked registrations can still bring. */
  ghost function Potential(s: Race, i: TokenId): nat {
    UsesOf(s, i) + |OwedOn(s, i)| + |HeadingFor(s, i)|
  }

  predicate Completes(m: Move) {
    m.SaveUser? || m.ReadUse? || m.SaveUse? || m.Crash?
  }

  ghost predicate AllComplete(ms: seq<Move>) {
    forall m :: m in ms ==> Completes(m)
  }

  /** Checked registrations go away or addresses are taken. */
  lemma FewerHeading(s: Race, next: Race, i: TokenId)
    requires s.desk.emails <= next.desk.emails
    requires forall r :: r in CheckedOn(next, i) ==> r in s.flights && s.flights[r] == next.flights[r]
    ensures HeadingFor(next, i) <= HeadingFor(s, i) && |HeadingFor(next, i)| <= |HeadingFor(s, i)|
  {
    forall x | x in HeadingFor(next, i) ensures x in HeadingFor(s, i) {
      var r :| r in CheckedOn(next, i) && next.flights[r].email == x;
      assert r in CheckedOn(s, i);
    }
    SubsetSize(HeadingFor(next, i), HeadingFor(s, i));
  }

  /** Saving the user of a free address keeps what registrations under way can still use. */
  lemma SaveFree(s: Race, r: RegId, i: TokenId)
    requires r in CheckedOn(s, i) && s.flights[r].email !in s.desk.emails
    ensures var next := Step(s, SaveUser(r));
            && next.desk.tokens == s.desk.tokens && UsesOf(next, i) == UsesOf(s, i)
            && OwedOn(next, i) == OwedOn(s, i) + {r} && |OwedOn(next, i)| == |OwedOn(s, i)| + 1
            && |HeadingFor(next, i)| == |HeadingFor(s, i)| - 1
  {
    var e, next := s.flights[r].email, Step(s, SaveUser(r));
    assert OwedOn(next, i) == OwedOn(s, i) + {r};
    HeadingAfter(s, r, i);
    assert r in CheckedOn(s, i);
    assert e in HeadingFor(s, i);
  }

  lemma HeadingAfter(s: Race, r: RegId, i: TokenId)
    requires r in CheckedOn(s, i) && s.flights[r].email !in s.desk.emails
    ensures HeadingFor(Step(s, SaveUser(r)), i) == HeadingFor(s, i) - {s.flights[r].email}
  {
    var e, next := s.flights[r].email, Step(s, SaveUser(r));
    assert CheckedOn(next, i) == CheckedOn(s, i) - {r};
    forall x | x in HeadingFor(s, i) && x != e ensures x in HeadingFor(next, i) {
      var q :| q in CheckedOn(s, i) && s.flights[q].email == x;
      assert q in CheckedOn(next, i) && next.flights[q].email == x;
    }
  }

  lemma UsePotential(s: Race, r: RegId, now: int, i: TokenId)
    requires r in s.flights && s.flights[r].Using?
    ensures Potential(Step(s, SaveUse(r, now)), i) <= Potential(s, i)
  {
    var next := Step(s, SaveUse(r, now));
    FewerHeading(s, next, i);
    UsesSnoc(s.desk.registrations, (s.flights[r].invite, s.flights[r].email), i);
    if s.flights[r].invite == i {
      assert OwedOn(next, i) == OwedOn(s, i) - {r};
    } else {
      assert OwedOn(next, i) == OwedOn(s, i);
    }
  }

  lemma CompletionPotential(s: Race, m: Move, i: TokenId)
    requires Completes(m)
    ensures Potential(Step(s, m), i) <= Potential(s, i)
  {
    var next := Step(s, m);
    if m.SaveUser? && m.r in CheckedOn(s, i) && s.flights[m.r].email !in s.desk.emails {
      SaveFree(s, m.r, i);
    } else if m.SaveUse? && next != s {
      UsePotential(s, m.r, m.now, i);
    } else {
      FewerHeading(s, next, i);
      assert OwedOn(next, i) <= OwedOn(s, i);
      SubsetSize(OwedOn(next, i), OwedOn(s, i));
    }
  }

  /** Completing registrations, in whatever order, brings no more uses than were under way. */
  lemma {:induction false} CompletionsStayBelow(s: Race, ms: seq<Move>, i: TokenId)
    requires AllComplete(ms)
    ensures UsesOf(Steps(s, ms), i) <= Potential(s, i)
    decreases |ms|
  {
    if ms != [] {
      assert Completes(ms[0]);
      CompletionPotential(s, ms[0], i);
      CompletionsStayBelow(Step(s, ms[0]), ms[1..], i);
    }
  }

  lemma OwedDone(s: Race, next: Race, r: RegId, i: TokenId)
    requires r in OwedOn(s, i) && Finished(s, next, r) && next.desk.emails == s.desk.emails
    ensures |OwedOn(next, i)| == |OwedOn(s, i)| - 1 && HeadingFor(next, i) == HeadingFor(s, i)
    ensures UsesOf(next, i) == UsesOf(s, i) + 1
  {
    assert OwedOn(next, i) == OwedOn(s, i) - {r};
    assert CheckedOn(next, i) == CheckedOn(s, i);
    FewerHeading(s, next, i);
    FewerHeading(next, s, i);
  }

  /** And some order of completion brings all of them. */
  lemma {:induction false} SomeCompletionUsesAll(s: Race, i: TokenId) returns (ms: seq<Move>)
    requires i in s.desk.tokens
    ensures AllComplete(ms) && UsesOf(Steps(s, ms), i) == Potential(s, i)
    decreases |OwedOn(s, i)| + 2 * |HeadingFor(s, i)|
  {
    if OwedOn(s, i) != {} {
      var r :| r in OwedOn(s, i);
      var first := OwedFinishes(s, r);
      OwedDone(s, Steps(s, first), r, i);
      var rest := SomeCompletionUsesAll(Steps(s, first), i);
      StepsConcat(s, first, rest);
      ms := first + rest;
    } else if HeadingFor(s, i) != {} {
      var e :| e in HeadingFor(s, i);
      var r :| r in CheckedOn(s, i) && s.flights[r].email == e;
      SaveFree(s, r, i);
      var rest := SomeCompletionUsesAll(Step(s, SaveUser(r)), i);
      StepsCons(s, SaveUser(r), rest);
      ms := [SaveUser(r)] + rest;
    } else {
      ms := [];
    }
  }

  /** When nothing happens but the completion of the registrations under way, the limit of any invitation holds if and
      only if the uses saved, owed and still possible are within it. */
  lemma CompletionsKeepLimit(s: Race, i: TokenId)
    requires i in s.desk.tokens
    ensures (forall ms :: AllComplete(ms) ==> UsesOf(Steps(s, ms), i) <= s.desk.tokens[i].maxUses) <==>
            Potential(s, i) <= s.desk.tokens[i].maxUses
  {
    if Potential(s, i) <= s.desk.tokens[i].maxUses {
      forall ms | AllComplete(ms) ensures UsesOf(Steps(s, ms), i) <= s.desk.tokens[i].maxUses {
        CompletionsStayBelow(s, ms, i);
      }
    } else {
      var ms := SomeCompletionUsesAll(s, i);
      assert AllComplete(ms) && UsesOf(Steps(s, ms), i) > s.desk.tokens[i].maxUses;
    }
  }

  /** Registrations under way for different free addresses each count. */
  lemma {:induction false} DistinctAddressesAllCount(s: Race, i: TokenId)
    requires forall r, q :: r in CheckedOn(s, i) && q in CheckedOn(s, i) && r != q ==>
                              s.flights[r].email != s.flights[q].email
    requires forall r :: r in CheckedOn(s, i) ==> s.flights[r].email !in s.desk.emails
    ensures Potential(s, i) == UsesOf(s, i) + |FlightsOn(s, i)|
  {
    assert FlightsOn(s, i) == OwedOn(s, i) + CheckedOn(s, i);
    AsManyAddresses(s, CheckedOn(s, i), HeadingFor(s, i));
  }

  lemma {:induction false} AsManyAddresses(s: Race, rs: set<RegId>, addresses: set<Email>)
    requires rs <= s.flights.Keys
    requires forall r, q :: r in rs && q in rs && r != q ==> s.flights[r].email != s.flights[q].email
    requires addresses == set r | r in rs :: s.flights[r].email
    ensures |addresses| == |rs|
  {
    if rs != {} {
      var r :| r in rs;
      var e := s.flights[r].email;
      forall x | x in addresses && x != e ensures x in (set q | q in rs - {r} :: s.flights[q].email) {
        var q :| q in rs && s.flights[q].email == x;
        assert q in rs - {r};
      }
      assert addresses - {e} == set q | q in rs - {r} :: s.flights[q].email;
      AsManyAddresses(s, rs - {r}, addresses - {e});
    }
  }

  // ---------------------------------------------------------------- invitations for one address

  /** The address an invitation is for. */
  ghost predicate Addressed(s: Race, i: TokenId, a: Email) {
    IsInvite(s, i) && s.desk.tokens[i].email == Some(a)
  }

  /** No more than one use, saved, owed or possible; and while a use is owed and the invitation can pass a check, the
      address is taken. */
  ghost predicate SafeFor(s: Race, i: TokenId, a: Email) {
    && Addressed(s, i, a)
    && Potential(s, i) <= 1
    && (OwedOn(s, i) != {} && CanPass(i, s.desk.tokens[i]) ==> a in s.desk.emails)
  }

  /** All registrations with it are for its address. */
  lemma FlownBy(s: Race, i: TokenId, a: Email)
    requires RaceOk(s) && Addressed(s, i, a)
    ensures forall r :: r in s.flights && s.flights[r].invite == i ==> s.flights[r].email == a
    ensures HeadingFor(s, i) == if a in s.desk.emails || CheckedOn(s, i) == {} then {} else {a}
  {
    forall r | r in s.flights && s.flights[r].invite == i ensures s.flights[r].email == a {
      assert FlightOk(s, s.flights[r]);
    }
    if CheckedOn(s, i) != {} && a !in s.desk.emails {
      var r :| r in CheckedOn(s, i);
      assert s.flights[r].email == a;
      assert a in HeadingFor(s, i);
    }
  }

  /** A record saved for a single use is revoked. */
  lemma SaveRevokes(s: Race, m: Move, i: TokenId, a: Email)
    requires RaceOk(s) && Addressed(s, i, a) && (m.SaveUse? || m.SaveRevoke?)
    ensures Addressed(Step(s, m), i, a)
    ensures Step(s, m).desk.tokens[i] == s.desk.tokens[i] || !CanPass(i, Step(s, m).desk.tokens[i])
  {
    MoveKeepsInvite(s, m, i);
    assert CounterOk(s, i);
    if m.SaveUse? && m.r in s.flights && s.flights[m.r].Using? {
      assert FlightOk(s, s.flights[m.r]);
    }
  }

  lemma CheckKeepsSafe(s: Race, m: Move, i: TokenId, a: Email)
    requires RaceOk(s) && SafeFor(s, i, a) && m.Check?
    ensures SafeFor(Step(s, m), i, a)
  {
    var next := Step(s, m);
    if next != s {
      assert OwedOn(next, i) == OwedOn(s, i);
      MoveKeepsRaceOk(s, m);
      FlownBy(next, i, a);
      assert CounterOk(s, i);
      if m.invite != i {
        assert CheckedOn(next, i) == CheckedOn(s, i);
        FlownBy(s, i, a);
      }
    }
  }

  lemma SaveUseKeepsSafe(s: Race, m: Move, i: TokenId, a: Email)
    requires RaceOk(s) && SafeFor(s, i, a) && m.SaveUse?
    ensures SafeFor(Step(s, m), i, a)
  {
    CompletionPotential(s, m, i);
    SaveRevokes(s, m, i, a);
    assert OwedOn(Step(s, m), i) <= OwedOn(s, i);
  }

  lemma SaveUserKeepsSafe(s: Race, m: Move, i: TokenId, a: Email)
    requires RaceOk(s) && SafeFor(s, i, a) && m.SaveUser?
    ensures SafeFor(Step(s, m), i, a)
  {
    CompletionPotential(s, m, i);
    var next := Step(s, m);
    FlownBy(s, i, a);
    if OwedOn(s, i) == {} && OwedOn(next, i) != {} {
      var q :| q in OwedOn(next, i);
      assert q != m.r ==> q in OwedOn(s, i);
    }
  }

  lemma ReadKeepsSafe(s: Race, m: Move, i: TokenId, a: Email)
    requires RaceOk(s) && SafeFor(s, i, a) && (m.ReadUse? || m.Crash?)
    ensures SafeFor(Step(s, m), i, a)
  {
    CompletionPotential(s, m, i);
    assert OwedOn(Step(s, m), i) <= OwedOn(s, i);
  }

  lemma SaveRevokeKeepsSafe(s: Race, m: Move, i: TokenId, a: Email)
    requires RaceOk(s) && SafeFor(s, i, a) && m.SaveRevoke?
    ensures SafeFor(Step(s, m), i, a)
  {
    SaveRevokes(s, m, i, a);
    var next := Step(s, m);
    assert OwedOn(next, i) == OwedOn(s, i) && CheckedOn(next, i) == CheckedOn(s, i);
    FewerHeading(s, next, i);
  }

  /** Registrations, the invitation and its uses are as before, and its address is not given free. */
  lemma SameFlightsSafe(s: Race, next: Race, i: TokenId, a: Email)
    requires RaceOk(s) && RaceOk(next) && SafeFor(s, i, a)
    requires next.flights == s.flights && next.desk.registrations == s.desk.registrations
    requires i in next.desk.tokens && next.desk.tokens[i] == s.desk.tokens[i]
    requires a in s.desk.emails ==> a in next.desk.emails
    ensures SafeFor(next, i, a)
  {
    FlownBy(s, i, a);
    FlownBy(next, i, a);
    assert OwedOn(next, i) == OwedOn(s, i) && CheckedOn(next, i) == CheckedOn(s, i);
  }

  lemma OtherKeepsSafe(s: Race, m: Move, i: TokenId, a: Email)
    requires RaceOk(s) && SafeFor(s, i, a) && !Completes(m) && !m.Check? && !m.SaveRevoke? && !Frees(m, a)
    ensures SafeFor(Step(s, m), i, a)
  {
    MoveKeepsInvite(s, m, i);
    MoveKeepsRaceOk(s, m);
    SameUses(s, m);
    EmailsAfter(s, m, a);
    SameFlightsSafe(s, Step(s, m), i, a);
  }

  lemma EmailsAfter(s: Race, m: Move, a: Email)
    requires !Frees(m, a)
    ensures a in s.desk.emails ==> a in Step(s, m).desk.emails
  {
  }

  /** To give the address of an invitation free is too early when a use is saved or owed and a registration that passed
      the check remains, or a use is owed and the invitation can pass another check. */
  ghost predicate FreesTooEarly(s: Race, i: TokenId) {
    i in s.desk.tokens &&
    ((UsesOf(s, i) + |OwedOn(s, i)| >= 1 && CheckedOn(s, i) != {})
     || (OwedOn(s, i) != {} && CanPass(i, s.desk.tokens[i])))
  }

  predicate Frees(m: Move, a: Email) {
    m.Meanwhile? && m.e == FreeEmail(a)
  }

  lemma FreeingKeepsSafe(s: Race, i: TokenId, a: Email)
    requires RaceOk(s) && SafeFor(s, i, a)
    ensures SafeFor(Step(s, Meanwhile(FreeEmail(a))), i, a) <==> !FreesTooEarly(s, i)
  {
    var next := Step(s, Meanwhile(FreeEmail(a)));
    MoveKeepsRaceOk(s, Meanwhile(FreeEmail(a)));
    FlownBy(next, i, a);
    assert OwedOn(next, i) == OwedOn(s, i) && CheckedOn(next, i) == CheckedOn(s, i);
  }

  lemma MoveKeepsSafe(s: Race, m: Move, i: TokenId, a: Email)
    requires RaceOk(s) && SafeFor(s, i, a) && (Frees(m, a) ==> !FreesTooEarly(s, i))
    ensures SafeFor(Step(s, m), i, a)
  {
    if m.Check? {
      CheckKeepsSafe(s, m, i, a);
    } else if m.SaveUse? {
      SaveUseKeepsSafe(s, m, i, a);
    } else if m.SaveUser? {
      SaveUserKeepsSafe(s, m, i, a);
    } else if m.ReadUse? || m.Crash? {
      ReadKeepsSafe(s, m, i, a);
    } else if Frees(m, a) {
      FreeingKeepsSafe(s, i, a);
    } else if m.SaveRevoke? {
      SaveRevokeKeepsSafe(s, m, i, a);
    } else {
      OtherKeepsSafe(s, m, i, a);
    }
  }

  ghost predicate NeverFrees(ms: seq<Move>, a: Email) {
    forall m :: m in ms ==> !Frees(m, a)
  }

  lemma {:induction false} StaysSafe(s: Race, ms: seq<Move>, i: TokenId, a: Email)
    requires RaceOk(s) && SafeFor(s, i, a) && NeverFrees(ms, a)
    ensures SafeFor(Steps(s, ms), i, a)
    decreases |ms|
  {
    if ms != [] {
      assert !Frees(ms[0], a);
      MoveKeepsRaceOk(s, ms[0]);
      MoveKeepsSafe(s, ms[0], i, a);
      StaysSafe(Step(s, ms[0]), ms[1..], i, a);
    }
  }

  lemma UnsafeOvershoots(s: Race, i: TokenId, a: Email) returns (ms: seq<Move>)
    requires RaceOk(s) && Addressed(s, i, a) && !SafeFor(s, i, a)
    ensures NeverFrees(ms, a) && UsesOf(Steps(s, ms), i) > 1
  {
    if Potential(s, i) > 1 {
      ms := SomeCompletionUsesAll(s, i);
      assert forall m :: m in ms ==> Completes(m);
    } else {
      var r := Fresh(s.flights.Keys);
      var check := Check(r, a, i, s.desk.tokens[i].expiresAt);
      var next := Step(s, check);
      assert next.flights == s.flights[r := Checked(a, i)];
      assert OwedOn(next, i) == OwedOn(s, i);
      assert r in CheckedOn(next, i);
      assert a in HeadingFor(next, i);
      var q :| q in OwedOn(s, i);
      assert |OwedOn(s, i)| >= 1 && |HeadingFor(next, i)| >= 1;
      var rest := SomeCompletionUsesAll(next, i);
      StepsCons(s, check, rest);
      ms := [check] + rest;
      assert forall m :: m in rest ==> Completes(m);
    }
  }

  /** While its address is not given free, an invitation for one address is used at most once in every continuation if
      and only if it is safe now. */
  lemma AddressedLimitExactly(s: Race, i: TokenId, a: Email)
    requires RaceOk(s) && Addressed(s, i, a)
    ensures (forall ms :: NeverFrees(ms, a) ==> UsesOf(Steps(s, ms), i) <= 1) <==> SafeFor(s, i, a)
  {
    if SafeFor(s, i, a) {
      forall ms | NeverFrees(ms, a) ensures UsesOf(Steps(s, ms), i) <= 1 {
        StaysSafe(s, ms, i, a);
      }
    } else {
      var ms := UnsafeOvershoots(s, i, a);
      assert NeverFrees(ms, a);
    }
  }

  /** The one step that can endanger such an invitation: freeing its address is harmless, in every continuation that
      does not free it again, if and only if it is not too early. */
  lemma FreeingExactly(s: Race, i: TokenId, a: Email)
    requires RaceOk(s) && SafeFor(s, i, a)
    ensures var next := Step(s, Meanwhile(FreeEmail(a)));
            (forall ms :: NeverFrees(ms, a) ==> UsesOf(Steps(next, ms), i) <= 1) <==> !FreesTooEarly(s, i)
  {
    FreeingKeepsSafe(s, i, a);
    MoveKeepsRaceOk(s, Meanwhile(FreeEmail(a)));
    AddressedLimitExactly(Step(s, Meanwhile(FreeEmail(a))), i, a);
  }

  // ---------------------------------------------------------------- every run

  /** No address is given free too early for an invitation addressed to it. */
  ghost predicate Timely(s: Race, ms: seq<Move>)
    decreases |ms|
  {
    ms != [] ==> (forall i, a :: Addressed(s, i, a) && Frees(ms[0], a) ==> !FreesTooEarly(s, i)) &&
                 Timely(Step(s, ms[0]), ms[1..])
  }

  ghost predicate AllAddressedSafe(s: Race) {
    forall i, a :: Addressed(s, i, a) ==> SafeFor(s, i, a)
  }

  lemma NewInviteIsSafe(s: Race, m: Move, i: TokenId, a: Email)
    requires RaceOk(s) && i !in s.desk.tokens && Addressed(Step(s, m), i, a)
    ensures SafeFor(Step(s, m), i, a)
  {
    var next := Step(s, m);
    forall r | r in s.flights ensures s.flights[r].invite != i {
      assert FlightOk(s, s.flights[r]);
    }
    forall k | k in s.tasks ensures s.tasks[k].id != i {
      assert TaskOk(s, s.tasks[k]);
    }
    assert next.flights == s.flights && next.desk.registrations == s.desk.registrations;
    assert OwedOn(next, i) == {} && HeadingFor(next, i) == {};
    OwnUses(s, i);
  }

  lemma MoveKeepsAllSafe(s: Race, m: Move)
    requires RaceOk(s) && AllAddressedSafe(s)
    requires forall i, a :: Addressed(s, i, a) && Frees(m, a) ==> !FreesTooEarly(s, i)
    ensures AllAddressedSafe(Step(s, m))
  {
    var next := Step(s, m);
    forall i, a | Addressed(next, i, a) ensures SafeFor(next, i, a) {
      if i !in s.desk.tokens {
        NewInviteIsSafe(s, m, i, a);
      } else {
        StaysInvite(s, m, i);
        MoveKeepsInvite(s, m, i);
        MoveKeepsSafe(s, m, i, a);
      }
    }
  }

  /** A token that is an invitation was one before. */
  lemma StaysInvite(s: Race, m: Move, i: TokenId)
    requires RaceOk(s) && i in s.desk.tokens && IsInvite(Step(s, m), i)
    ensures IsInvite(s, i)
  {
    match m
    case SaveUse(r, _) =>
      if r in s.flights {
        assert FlightOk(s, s.flights[r]);
      }
    case SaveRevoke(k, _) =>
      if k in s.tasks {
        assert TaskOk(s, s.tasks[k]);
      }
    case SaveConsume(k, _) =>
      if k in s.tasks {
        assert TaskOk(s, s.tasks[k]);
      }
    case Meanwhile(e) => if !Interruptible(e) { ErrandKeepsToken(s.desk, e, i); }
    case _ =>
  }

  lemma {:induction false} SafeAllAlong(s: Race, ms: seq<Move>)
    requires RaceOk(s) && AllAddressedSafe(s) && Timely(s, ms)
    ensures RaceOk(Steps(s, ms)) && AllAddressedSafe(Steps(s, ms))
    decreases |ms|
  {
    if ms != [] {
      MoveKeepsRaceOk(s, ms[0]);
      MoveKeepsAllSafe(s, ms[0]);
      SafeAllAlong(Step(s, ms[0]), ms[1..]);
    }
  }

  /** Invitations for one address are never used twice, however registrations, uses and revocations interleave, as long
      as the address is not given free too early. */
  lemma AddressedNeverOvershoot(ms: seq<Move>)
    requires Timely(EMPTY_RACE, ms)
    ensures var s := Steps(EMPTY_RACE, ms);
            forall i, a :: Addressed(s, i, a) ==> s.desk.tokens[i].usedCount <= UsesOf(s, i) <= 1
  {
    SafeAllAlong(EMPTY_RACE, ms);
    var s := Steps(EMPTY_RACE, ms);
    forall i, a | Addressed(s, i, a) ensures s.desk.tokens[i].usedCount <= UsesOf(s, i) <= 1 {
      assert CounterOk(s, i) && SafeFor(s, i, a);
      OwnUses(s, i);
    }
  }

  /** Addresses are given free only while no registration for them is under way. */
  ghost predicate Quiet(s: Race, ms: seq<Move>)
    decreases |ms|
  {
    ms != [] ==> (forall r :: r in s.flights ==> !Frees(ms[0], s.flights[r].email)) && Quiet(Step(s, ms[0]), ms[1..])
  }

  lemma {:induction false} QuietRunsAreTimely(s: Race, ms: seq<Move>)
    requires RaceOk(s) && Quiet(s, ms)
    ensures Timely(s, ms)
    decreases |ms|
  {
    if ms != [] {
      forall i, a | Addressed(s, i, a) && Frees(ms[0], a) ensures !FreesTooEarly(s, i) {
        FlownBy(s, i, a);
        assert OwedOn(s, i) == {} && CheckedOn(s, i) == {};
      }
      MoveKeepsRaceOk(s, ms[0]);
      QuietRunsAreTimely(Step(s, ms[0]), ms[1..]);
    }
  }

  // ---------------------------------------------------------------- instances, from the empty service

  /** One invitation for a single use, and two registrations that both pass the check. */
  lemma BothPass(invited: Option<Email>, first: Email, second: Email) returns (ms: seq<Move>)
    requires invited.Some? ==> first == second == invited.value
    ensures var s := Steps(EMPTY_RACE, ms);
            && s.desk == EMPTY_DESK.(tokens := map[SECRET := AuthToken(Invite, invited, None, 1, 0, 7 * DAY_MS, None)])
            && s.flights == map[1 := Checked(first, SECRET), 2 := Checked(second, SECRET)] && s.tasks == map[]
  {
    ms := [Meanwhile(CreateInvite(SECRET, invited, None, Some(1), 0))];
    StepsSnoc(EMPTY_RACE, [], ms[0]);
    assert [] + ms == ms;
    StepsSnoc(EMPTY_RACE, ms, Check(1, first, SECRET, 0));
    ms := ms + [Check(1, first, SECRET, 0)];
    StepsSnoc(EMPTY_RACE, ms, Check(2, second, SECRET, 0));
    ms := ms + [Check(2, second, SECRET, 0)];
  }

  /** Two people with one open invitation for a single use. */
  lemma OpenInvitationOvershoots() returns (ms: seq<Move>)
    ensures var s := Steps(EMPTY_RACE, ms);
            && IsInvite(s, SECRET) && s.desk.tokens[SECRET].email.None? && s.desk.tokens[SECRET].maxUses == 1
            && UsesOf(s, SECRET) == 2
  {
    ms := BothPass(None, 11, 12);
    ms := BothUse(ms, 11, 12);
  }

  /** The same with one address: the account is deactivated before the second registration saves its user. */
  lemma FreedAddressOvershoots() returns (ms: seq<Move>)
    ensures Addressed(Steps(EMPTY_RACE, ms), SECRET, 11) && UsesOf(Steps(EMPTY_RACE, ms), SECRET) == 2
  {
    ms := BothPass(Some(11), 11, 11);
    ms := BothUse(ms, 11, 11);
  }

  /** The first registration uses the invitation, its address is given free, and the second one uses it too. */
  lemma BothUse(start: seq<Move>, first: Email, second: Email) returns (ms: seq<Move>)
    requires var s := Steps(EMPTY_RACE, start);
             && IsInvite(s, SECRET) && s.desk.registrations == []
             && s.flights == map[1 := Checked(first, SECRET), 2 := Checked(second, SECRET)]
    ensures var s, next := Steps(EMPTY_RACE, start), Steps(EMPTY_RACE, ms);
            && IsInvite(next, SECRET) && SameToken(next.desk.tokens[SECRET], s.desk.tokens[SECRET])
            && UsesOf(next, SECRET) == 2
  {
    var s := Steps(EMPTY_RACE, start);
    EveryRaceIsOk(EMPTY_RACE, start);
    var one := FlightFinishes(s, 1);
    var two := FlightFinishes(Steps(s, one), 2);
    StepsConcat(EMPTY_RACE, start, one);
    StepsConcat(EMPTY_RACE, start + one, two);
    StepsConcat(s, one, two);
    InviteForever(s, one + two, SECRET);
    ms := start + one + two;
  }
}
