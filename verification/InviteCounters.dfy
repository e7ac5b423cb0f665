/** When the counter of a one-time token is the number of its uses, and when a token for a single use is used once. */
module InviteCounters {
  import opened AuthTokens
  import opened Ids
  import opened InviteRaces
  import opened Lists

  /** The counter is the number of uses. */
  ghost predicate Exact(s: Race, i: TokenId) {
    i in s.desk.tokens ==> s.desk.tokens[i].usedCount == UseCount(s.desk, i)
  }

  /** And so it was whenever a record now held was read. */
  ghost predicate Tracks(s: Race, i: TokenId) {
    && Exact(s, i)
    && (forall r :: r in s.flights && s.flights[r].Using? && s.flights[r].invite == i ==>
          s.flights[r].record.usedCount == s.flights[r].seen)
    && (forall k :: k in s.tasks && s.tasks[k].id == i ==> s.tasks[k].record.usedCount == s.tasks[k].seen)
  }

  /** A record of the token is saved although another use was saved since it was read. */
  ghost predicate Overtaken(s: Race, m: Move, i: TokenId) {
    match m
    case SaveUse(r, _) =>
      r in s.flights && s.flights[r].Using? && s.flights[r].invite == i && s.flights[r].seen < UseCount(s.desk, i)
    case SaveRevoke(k, _) =>
      k in s.tasks && s.tasks[k].Revoking? && s.tasks[k].id == i && s.tasks[k].seen < UseCount(s.desk, i)
    case SaveConsume(k, _) =>
      k in s.tasks && s.tasks[k].Consuming? && s.tasks[k].id == i && s.tasks[k].seen < UseCount(s.desk, i)
    case _ => false
  }

  lemma SaveTracks(s: Race, m: Move, i: TokenId)
    requires RaceOk(s) && Tracks(s, i) && (m.SaveUse? || m.SaveRevoke? || m.SaveConsume?)
    ensures Exact(Step(s, m), i) <==> !Overtaken(s, m, i)
    ensures !Overtaken(s, m, i) ==> Tracks(Step(s, m), i)
  {
    match m
    case SaveUse(r, _) =>
      if r in s.flights && s.flights[r].Using? {
        assert FlightOk(s, s.flights[r]);
        UsesSnoc(s.desk.registrations, (s.flights[r].invite, s.flights[r].email), i);
      }
    case SaveRevoke(k, _) =>
      if k in s.tasks {
        assert TaskOk(s, s.tasks[k]);
      }
    case SaveConsume(k, _) =>
      if k in s.tasks {
        assert TaskOk(s, s.tasks[k]);
        TimesSnoc(s.desk.consumed, s.tasks[k].id, i);
      }
  }

  lemma ErrandTracks(s: Race, e: Errand, i: TokenId)
    requires RaceOk(s) && Tracks(s, i) && !Interruptible(e)
    ensures Tracks(Step(s, Meanwhile(e)), i)
  {
    if i in s.desk.tokens {
      ErrandKeepsToken(s.desk, e, i);
    } else {
      OwnUses(s, i);
    }
  }

  lemma OtherMoveTracks(s: Race, m: Move, i: TokenId)
    requires RaceOk(s) && Tracks(s, i) && !m.SaveUse? && !m.SaveRevoke? && !m.SaveConsume?
    ensures Tracks(Step(s, m), i) && !Overtaken(s, m, i)
  {
    if m.Meanwhile? && !Interruptible(m.e) {
      ErrandTracks(s, m.e, i);
    }
  }

  ghost predicate AlwaysExact(s: Race, ms: seq<Move>, i: TokenId)
    decreases |ms|
  {
    Exact(s, i) && (ms != [] ==> AlwaysExact(Step(s, ms[0]), ms[1..], i))
  }

  ghost predicate NeverOvertaken(s: Race, ms: seq<Move>, i: TokenId)
    decreases |ms|
  {
    ms != [] ==> !Overtaken(s, ms[0], i) && NeverOvertaken(Step(s, ms[0]), ms[1..], i)
  }

  /** A token's counter is the number of its uses throughout a run if and only if no use of it is saved between another
      task's reading and saving of its record. */
  lemma {:induction false} CountersExactly(s: Race, ms: seq<Move>, i: TokenId)
    requires RaceOk(s) && Tracks(s, i)
    ensures AlwaysExact(s, ms, i) <==> NeverOvertaken(s, ms, i)
    decreases |ms|
  {
    if ms != [] {
      var m, next := ms[0], Step(s, ms[0]);
      MoveKeepsRaceOk(s, m);
      if m.SaveUse? || m.SaveRevoke? || m.SaveConsume? {
        SaveTracks(s, m, i);
      } else {
        OtherMoveTracks(s, m, i);
      }
      if !Overtaken(s, m, i) {
        CountersExactly(next, ms[1..], i);
      } else {
        assert !AlwaysExact(next, ms[1..], i);
      }
    }
  }

  // ---------------------------------------------------------------- verification and reset tokens

  ghost predicate IsPersonal(s: Race, i: TokenId) {
    i in s.desk.tokens && s.desk.tokens[i].kind != Invite
  }

  ghost predicate AlwaysOnce(s: Race, ms: seq<Move>, i: TokenId)
    decreases |ms|
  {
    Times(s.desk.consumed, i) <= 1 && (ms != [] ==> AlwaysOnce(Step(s, ms[0]), ms[1..], i))
  }

  lemma PersonalStep(s: Race, m: Move, i: TokenId)
    requires RaceOk(s) && Tracks(s, i) && IsPersonal(s, i) && Times(s.desk.consumed, i) <= 1
    ensures IsPersonal(Step(s, m), i)
    ensures Times(Step(s, m).desk.consumed, i) <= 1 <==> !Overtaken(s, m, i)
  {
    OwnUses(s, i);
    match m
    case SaveUse(r, _) =>
      if r in s.flights {
        assert FlightOk(s, s.flights[r]);
      }
    case SaveRevoke(k, _) =>
      if k in s.tasks {
        assert TaskOk(s, s.tasks[k]);
      }
    case SaveConsume(k, _) =>
      if k in s.tasks && s.tasks[k].Consuming? {
        assert TaskOk(s, s.tasks[k]);
        TimesSnoc(s.desk.consumed, s.tasks[k].id, i);
      }
    case Meanwhile(e) => if !Interruptible(e) { ErrandKeepsToken(s.desk, e, i); }
    case _ =>
  }

  /** A verification or reset token is consumed at most once throughout a run if and only if no consumption of it is
      saved between another one's reading and saving. */
  lemma {:induction false} ConsumedOnceExactly(s: Race, ms: seq<Move>, i: TokenId)
    requires RaceOk(s) && Tracks(s, i) && IsPersonal(s, i) && Times(s.desk.consumed, i) <= 1
    ensures AlwaysOnce(s, ms, i) <==> NeverOvertaken(s, ms, i)
    decreases |ms|
  {
    if ms != [] {
      var m, next := ms[0], Step(s, ms[0]);
      MoveKeepsRaceOk(s, m);
      PersonalStep(s, m, i);
      if m.SaveUse? || m.SaveRevoke? || m.SaveConsume? {
        SaveTracks(s, m, i);
      } else {
        OtherMoveTracks(s, m, i);
      }
      if !Overtaken(s, m, i) {
        ConsumedOnceExactly(next, ms[1..], i);
      } else {
        assert !AlwaysOnce(next, ms[1..], i);
      }
    }
  }
  // ---------------------------------------------------------------- instances, from the empty service

  /** An open invitation for two uses, and two registrations whose users are saved. */
  lemma TwoOwed() returns (ms: seq<Move>)
    ensures var s := Steps(EMPTY_RACE, ms);
            && s.desk == Desk(map[SECRET := AuthToken(Invite, None, None, 2, 0, 7 * DAY_MS, None)], {11, 12}, [], [])
            && s.flights == map[1 := Saved(11, SECRET), 2 := Saved(12, SECRET)] && s.tasks == map[]
  {
    var issue := Meanwhile(CreateInvite(SECRET, None, None, Some(2), 0));
    StepsSnoc(EMPTY_RACE, [], issue);
    ms := [] + [issue];
    var s := Steps(EMPTY_RACE, ms);
    assert s.desk.tokens == map[SECRET := AuthToken(Invite, None, None, 2, 0, 7 * DAY_MS, None)];
    FourMoves(EMPTY_RACE, ms, Check(1, 11, SECRET, 0), Check(2, 12, SECRET, 0), SaveUser(1), SaveUser(2));
    var s2 := Step(Step(s, Check(1, 11, SECRET, 0)), Check(2, 12, SECRET, 0));
    assert s2.desk == s.desk && s2.flights == map[1 := Checked(11, SECRET), 2 := Checked(12, SECRET)];
    ms := ms + [Check(1, 11, SECRET, 0), Check(2, 12, SECRET, 0), SaveUser(1), SaveUser(2)];
  }

  lemma TwoReads(s: Race, t: AuthToken)
    requires s.desk.tokens == map[SECRET := t] && s.flights == map[1 := Saved(11, SECRET), 2 := Saved(12, SECRET)]
    ensures var next := Step(Step(s, ReadUse(1)), ReadUse(2));
            && next.desk == s.desk
            && next.flights == map[1 := Using(11, SECRET, t, UseCount(s.desk, SECRET)),
                                   2 := Using(12, SECRET, t, UseCount(s.desk, SECRET))]
  {
  }

  lemma TwoSaves(s: Race, t: AuthToken, n: nat)
    requires s.flights == map[1 := Using(11, SECRET, t, n), 2 := Using(12, SECRET, t, n)]
    ensures var next := Step(Step(s, SaveUse(1, 0)), SaveUse(2, 0));
            && next.desk.tokens == s.desk.tokens[SECRET := Used(t, 0)]
            && next.desk.registrations == s.desk.registrations + [(SECRET, 11)] + [(SECRET, 12)]
  {
  }

  /** Two registrations read the invitation before either saves it: two uses are counted as one, and the invitation
      for two uses can still pass a check. */
  lemma UseIsLost() returns (ms: seq<Move>)
    ensures var d := Steps(EMPTY_RACE, ms).desk;
            && SECRET in d.tokens && d.tokens[SECRET].maxUses == 2 == Uses(d.registrations, SECRET)
            && d.tokens[SECRET].usedCount == 1 && IsValid(d.tokens, SECRET, Invite, 0)
  {
    ms := TwoOwed();
    var s, t := Steps(EMPTY_RACE, ms), AuthToken(Invite, None, None, 2, 0, 7 * DAY_MS, None);
    FourMoves(EMPTY_RACE, ms, ReadUse(1), ReadUse(2), SaveUse(1, 0), SaveUse(2, 0));
    TwoReads(s, t);
    TwoSaves(Step(Step(s, ReadUse(1)), ReadUse(2)), t, UseCount(s.desk, SECRET));
    ms := ms + [ReadUse(1), ReadUse(2), SaveUse(1, 0), SaveUse(2, 0)];
    UsesSnoc([], (SECRET, 11), SECRET);
    UsesSnoc([] + [(SECRET, 11)], (SECRET, 12), SECRET);
  }

  /** An invitation is revoked between the reading and the saving of a use: the save takes the revocation back. */
  lemma RevocationIsUndone() returns (ms: seq<Move>)
    ensures SaveRevoke(0, 0) in ms
    ensures IsValid(Steps(EMPTY_RACE, ms).desk.tokens, SECRET, Invite, 0)
  {
    ms := TwoOwed();
    var s := Steps(EMPTY_RACE, ms);
    FourMoves(EMPTY_RACE, ms, ReadUse(1), ReadRevoke(0, SECRET), SaveRevoke(0, 0), SaveUse(1, 0));
    var s2 := Step(Step(s, ReadUse(1)), ReadRevoke(0, SECRET));
    assert s2.flights[1] == Using(11, SECRET, s.desk.tokens[SECRET], 0);
    assert Step(s2, SaveRevoke(0, 0)).flights == s2.flights;
    ms := ms + [ReadUse(1), ReadRevoke(0, SECRET), SaveRevoke(0, 0), SaveUse(1, 0)];
  }

  /** One password-reset link opened twice at once resets the password twice. */
  lemma ResetTwice() returns (ms: seq<Move>)
    ensures Steps(EMPTY_RACE, ms).desk.consumed == [SECRET, SECRET]
  {
    var issue := Meanwhile(IssuePersonal(SECRET, PasswordReset, 11, UserId("a"), 0, 0));
    StepsSnoc(EMPTY_RACE, [], issue);
    ms := [] + [issue];
    var s := Steps(EMPTY_RACE, ms);
    assert IsValid(s.desk.tokens, SECRET, PasswordReset, 0) && s.tasks == map[];
    var read0, read1 := ReadConsume(0, SECRET, PasswordReset, 0), ReadConsume(1, SECRET, PasswordReset, 0);
    FourMoves(EMPTY_RACE, ms, read0, read1, SaveConsume(0, 0), SaveConsume(1, 0));
    var s2 := Step(Step(s, read0), read1);
    assert s2.desk == s.desk && 0 in s2.tasks && 1 in s2.tasks && s2.tasks[0].Consuming? && s2.tasks[1].Consuming?;
    ms := ms + [read0, read1, SaveConsume(0, 0), SaveConsume(1, 0)];
  }
}
