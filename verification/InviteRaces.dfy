/** One-time tokens used and revoked by several requests at once. `register` is four steps with waiting in between: the
    checks, the save of the user, which the unique index on addresses can still refuse, and the use of the invitation,
    which reads its record and then saves it. Revoking an invitation and consuming a verification or reset token read
    and save likewise. The steps of any number of these, and everything else that happens to tokens and accounts, mix
    in any order. A save writes back the whole record that was read, whatever became of the row since. */
module InviteRaces {
  import opened AuthTokens
  import opened Lists

  type RegId = nat
  type TaskId = nat

  /** Where a registration with an invitation stands: it passed the checks; its user is saved; or it has read the
      invitation's record, when so many uses had been saved, and is about to save it with one use more. A registration
      without an invitation acts on nothing before its user is saved, and is an errand. */
  datatype Flight =
    | Checked(email: Email, invite: TokenId)
    | Saved(email: Email, invite: TokenId)
    | Using(email: Email, invite: TokenId, record: AuthToken, seen: nat)

  /** Another task that holds a record: it revokes an invitation, or consumes a verification or reset token. */
  datatype Task =
    | Revoking(id: TokenId, record: AuthToken, seen: nat)
    | Consuming(id: TokenId, record: AuthToken, seen: nat)

  datatype Race = Race(desk: Desk, flights: map<RegId, Flight>, tasks: map<TaskId, Task>)

  const SECRET: TokenId := seq(64, _ => 'a')

  const EMPTY_RACE := Race(EMPTY_DESK, map[], map[])

  datatype Move =
    | Check(r: RegId, email: Email, invite: TokenId, now: int)
    | SaveUser(r: RegId)
    | ReadUse(r: RegId)
    | SaveUse(r: RegId, now: int)
    | Crash(r: RegId)
    | ReadRevoke(k: TaskId, id: TokenId)
    | SaveRevoke(k: TaskId, now: int)
    | ReadConsume(k: TaskId, id: TokenId, kind: TokenType, now: int)
    | SaveConsume(k: TaskId, now: int)
    | Abandon(k: TaskId)
    | Meanwhile(e: Errand)

  /** How often an id occurs. */
  function Times(ids: seq<TokenId>, i: TokenId): nat {
    if ids == [] then 0 else Times(ids[..|ids| - 1], i) + if ids[|ids| - 1] == i then 1 else 0
  }

  /** The uses of a token that were saved: accounts registered with an invitation, consumptions of any other token. */
  function UseCount(d: Desk, i: TokenId): nat {
    Uses(d.registrations, i) + Times(d.consumed, i)
  }

  /** Errands that are taken apart here. */
  predicate Interruptible(e: Errand) {
    e.RevokeInvite? || e.ConsumePersonal? || (e.RegisterWith? && e.invite.Some?)
  }

  /** A move that is not enabled, and a refusal, change no table. */
  function Step(s: Race, m: Move): Race {
    var d := s.desk;
    match m
    case Check(r, email, invite, now) =>
      if r in s.flights || email in d.emails || InviteFor(d.tokens, invite, email, now).Err? then s
      else s.(flights := s.flights[r := Checked(email, invite)])
    case SaveUser(r) =>
      if r !in s.flights || !s.flights[r].Checked? then s
      else
        var f := s.flights[r];
        if f.email in d.emails then s.(flights := s.flights - {r})
        else s.(desk := d.(emails := d.emails + {f.email}), flights := s.flights[r := Saved(f.email, f.invite)])
    case ReadUse(r) =>
      if r !in s.flights || !s.flights[r].Saved? then s
      else
        var f := s.flights[r];
        if f.invite !in d.tokens then s.(flights := s.flights - {r})
        else s.(flights := s.flights[r := Using(f.email, f.invite, d.tokens[f.invite], UseCount(d, f.invite))])
    case SaveUse(r, now) =>
      if r !in s.flights || !s.flights[r].Using? then s
      else
        var f := s.flights[r];
        s.(desk := d.(tokens := d.tokens[f.invite := Used(f.record, now)],
                      registrations := d.registrations + [(f.invite, f.email)]),
           flights := s.flights - {r})
    case Crash(r) => s.(flights := s.flights - {r})
    case ReadRevoke(k, id) =>
      if k in s.tasks || id !in d.tokens || d.tokens[id].kind != Invite then s
      else s.(tasks := s.tasks[k := Revoking(id, d.tokens[id], UseCount(d, id))])
    case SaveRevoke(k, now) =>
      if k !in s.tasks || !s.tasks[k].Revoking? then s
      else
        var t := s.tasks[k];
        s.(desk := d.(tokens := d.tokens[t.id := t.record.(revokedAt := Some(now))]), tasks := s.tasks - {k})
    case ReadConsume(k, id, kind, now) =>
      if k in s.tasks || kind == Invite || !IsValid(d.tokens, id, kind, now) then s
      else s.(tasks := s.tasks[k := Consuming(id, d.tokens[id], UseCount(d, id))])
    case SaveConsume(k, now) =>
      if k !in s.tasks || !s.tasks[k].Consuming? then s
      else
        var t := s.tasks[k];
        s.(desk := d.(tokens := d.tokens[t.id := Used(t.record, now)], consumed := d.consumed + [t.id]),
           tasks := s.tasks - {k})
    case Abandon(k) => s.(tasks := s.tasks - {k})
    case Meanwhile(e) => if Interruptible(e) then s else s.(desk := Ran(d, e))
  }

  /** A crash, or an abandoned task, forgets what was under way and leaves everything else as it was. */
  lemma GivenUp(s: Race, r: RegId, k: TaskId)
    ensures var q := Step(s, Crash(r));
            && q.desk == s.desk && q.tasks == s.tasks && r !in q.flights
            && forall i :: i in s.flights && i != r ==> i in q.flights && q.flights[i] == s.flights[i]
    ensures var q := Step(s, Abandon(k));
            && q.desk == s.desk && q.flights == s.flights && k !in q.tasks
            && forall i :: i in s.tasks && i != k ==> i in q.tasks && q.tasks[i] == s.tasks[i]
  {
  }

  function Steps(s: Race, ms: seq<Move>): Race
    decreases |ms|
  {
    if ms == [] then s else Steps(Step(s, ms[0]), ms[1..])
  }

  lemma {:induction false} StepsConcat(s: Race, a: seq<Move>, b: seq<Move>)
    ensures Steps(s, a + b) == Steps(Steps(s, a), b)
    decreases |a|
  {
    if a == [] {
      assert a + b == b;
    } else {
      assert (a + b)[1..] == a[1..] + b;
      StepsConcat(Step(s, a[0]), a[1..], b);
    }
  }

  lemma StepsCons(s: Race, m: Move, ms: seq<Move>)
    ensures Steps(s, [m] + ms) == Steps(Step(s, m), ms)
  {
    assert ([m] + ms)[1..] == ms;
  }

  lemma StepsSnoc(s: Race, ms: seq<Move>, m: Move)
    ensures Steps(s, ms + [m]) == Step(Steps(s, ms), m)
  {
    StepsConcat(s, ms, [m]);
    assert [m][1..] == [];
  }

  lemma FourMoves(s: Race, ms: seq<Move>, a: Move, b: Move, c: Move, d: Move)
    ensures Steps(s, ms + [a, b, c, d]) == Step(Step(Step(Step(Steps(s, ms), a), b), c), d)
  {
    StepsSnoc(s, ms, a);
    StepsSnoc(s, ms + [a], b);
    StepsSnoc(s, ms + [a] + [b], c);
    StepsSnoc(s, ms + [a] + [b] + [c], d);
    assert ms + [a] + [b] + [c] + [d] == ms + [a, b, c, d];
  }

  /** Without interruption the steps are the whole operations. */
  lemma UninterruptedRegistration(s: Race, r: RegId, email: Email, invite: TokenId, now: int)
    requires r !in s.flights
    ensures Steps(s, [Check(r, email, invite, now), SaveUser(r), ReadUse(r), SaveUse(r, now)]) ==
            s.(desk := Registered(s.desk, email, Some(invite), now).0)
  {
    var m1, m2, m3, m4 := Check(r, email, invite, now), SaveUser(r), ReadUse(r), SaveUse(r, now);
    assert [m1, m2, m3, m4] == [m1] + ([m2] + ([m3] + ([m4] + [])));
    StepsCons(s, m1, [m2] + ([m3] + ([m4] + [])));
    var s1 := Step(s, m1);
    StepsCons(s1, m2, [m3] + ([m4] + []));
    var s2 := Step(s1, m2);
    StepsCons(s2, m3, [m4] + []);
    var s3 := Step(s2, m3);
    StepsCons(s3, m4, []);
    assert Step(s3, m4).flights == s.flights;
  }

  lemma UninterruptedRevocation(s: Race, k: TaskId, id: TokenId, now: int)
    requires k !in s.tasks
    ensures Steps(s, [ReadRevoke(k, id), SaveRevoke(k, now)]) == s.(desk := Ran(s.desk, RevokeInvite(id, now)))
  {
    var read, save := ReadRevoke(k, id), SaveRevoke(k, now);
    StepsSnoc(s, [read], save);
    StepsSnoc(s, [], read);
    assert [] + [read] == [read];
    assert [read] + [save] == [read, save];
    assert Step(Step(s, read), save).tasks == s.tasks;
  }

  lemma UninterruptedConsumption(s: Race, k: TaskId, id: TokenId, kind: TokenType, now: int)
    requires k !in s.tasks && kind != Invite
    ensures Steps(s, [ReadConsume(k, id, kind, now), SaveConsume(k, now)]) ==
            s.(desk := Ran(s.desk, ConsumePersonal(id, kind, now)))
  {
    var read, save := ReadConsume(k, id, kind, now), SaveConsume(k, now);
    StepsSnoc(s, [read], save);
    StepsSnoc(s, [], read);
    assert [] + [read] == [read];
    assert [read] + [save] == [read, save];
    assert Step(Step(s, read), save).tasks == s.tasks;
  }

  // ---------------------------------------------------------------- what every interleaving keeps

  ghost predicate IsInvite(s: Race, i: TokenId) {
    i in s.desk.tokens && s.desk.tokens[i].kind == Invite
  }

  /** A token's fixed fields. */
  predicate SameToken(t: AuthToken, u: AuthToken) {
    && t.kind == u.kind && t.email == u.email && t.userId == u.userId
    && t.maxUses == u.maxUses && t.expiresAt == u.expiresAt
  }

  /** A counter never runs ahead of the uses; a token at its limit is revoked; and a token for a single use stays
      revoked once it was used. */
  ghost predicate CounterOk(s: Race, i: TokenId) {
    i in s.desk.tokens ==>
      var t := s.desk.tokens[i];
      && 1 <= t.maxUses <= MAX_INVITE_USES
      && (t.kind != Invite || t.email.Some? ==> t.maxUses == 1)
      && t.usedCount <= UseCount(s.desk, i)
      && (t.usedCount >= t.maxUses ==> t.revokedAt.Some?)
      && (t.maxUses == 1 && UseCount(s.desk, i) >= 1 ==> t.revokedAt.Some?)
  }

  /** A record as it was read. */
  ghost predicate HeldOk(s: Race, i: TokenId, record: AuthToken, seen: nat) {
    i in s.desk.tokens && SameToken(record, s.desk.tokens[i]) && record.usedCount <= seen <= UseCount(s.desk, i)
  }

  ghost predicate FlightOk(s: Race, f: Flight) {
    && IsInvite(s, f.invite)
    && (s.desk.tokens[f.invite].email.Some? ==> s.desk.tokens[f.invite].email.value == f.email)
    && (f.Using? ==> HeldOk(s, f.invite, f.record, f.seen))
  }

  ghost predicate TaskOk(s: Race, t: Task) {
    && HeldOk(s, t.id, t.record, t.seen)
    && (t.Revoking? <==> t.record.kind == Invite)
    && (t.Consuming? ==> t.record.usedCount == 0)
  }

  ghost predicate LogsOk(s: Race) {
    && (forall g :: g in s.desk.registrations ==> IsInvite(s, g.0))
    && (forall i :: i in s.desk.consumed ==> i in s.desk.tokens && s.desk.tokens[i].kind != Invite)
  }

  ghost predicate RaceOk(s: Race) {
    && (forall i :: CounterOk(s, i))
    && (forall r :: r in s.flights ==> FlightOk(s, s.flights[r]))
    && (forall k :: k in s.tasks ==> TaskOk(s, s.tasks[k]))
    && LogsOk(s)
  }

  lemma TimesSnoc(ids: seq<TokenId>, id: TokenId, i: TokenId)
    ensures Times(ids + [id], i) == Times(ids, i) + if id == i then 1 else 0
  {
    assert (ids + [id])[..|ids|] == ids;
  }

  lemma {:induction false} NoTimes(ids: seq<TokenId>, i: TokenId)
    requires i !in ids
    ensures Times(ids, i) == 0
  {
    if ids != [] {
      NoTimes(ids[..|ids| - 1], i);
    }
  }

  /** Only a token's own kind of use counts. */
  lemma OwnUses(s: Race, i: TokenId)
    requires LogsOk(s)
    ensures IsInvite(s, i) || i !in s.desk.tokens ==> Times(s.desk.consumed, i) == 0
    ensures !IsInvite(s, i) ==> Uses(s.desk.registrations, i) == 0
  {
    if i !in s.desk.consumed {
      NoTimes(s.desk.consumed, i);
    }
    if !IsInvite(s, i) {
      UnusedInvite(s.desk.registrations, i);
    }
  }

  /** Nothing the errands do touches a token that is there, except that issuing one revokes older ones. */
  lemma ErrandKeepsToken(d: Desk, e: Errand, i: TokenId)
    requires i in d.tokens && !Interruptible(e)
    ensures i in Ran(d, e).tokens && Ran(d, e).registrations == d.registrations && Ran(d, e).consumed == d.consumed
    ensures Ran(d, e).tokens[i] == d.tokens[i] ||
            (d.tokens[i].kind != Invite && exists t :: Ran(d, e).tokens[i] == d.tokens[i].(revokedAt := Some(t)))
    ensures Ran(d, e).emails == if e.FreeEmail? then d.emails - {e.address}
                                else if e.RegisterWith? then d.emails + {e.email} else d.emails
  {
  }

  lemma NewTokenOk(s: Race, e: Errand, i: TokenId)
    requires RaceOk(s) && !Interruptible(e) && i !in s.desk.tokens
    ensures CounterOk(Step(s, Meanwhile(e)), i)
  {
    OwnUses(s, i);
  }

  lemma ErrandKeepsRaceOk(s: Race, e: Errand)
    requires RaceOk(s) && !Interruptible(e)
    ensures RaceOk(Step(s, Meanwhile(e)))
  {
    var next := Step(s, Meanwhile(e));
    assert next.desk.registrations == s.desk.registrations && next.desk.consumed == s.desk.consumed;
    forall i | i in s.desk.tokens
      ensures i in next.desk.tokens && SameToken(next.desk.tokens[i], s.desk.tokens[i])
    {
      ErrandKeepsToken(s.desk, e, i);
    }
    forall i ensures CounterOk(next, i) {
      assert CounterOk(s, i);
      if i in s.desk.tokens {
        ErrandKeepsToken(s.desk, e, i);
      } else {
        NewTokenOk(s, e, i);
      }
    }
    forall r | r in next.flights ensures FlightOk(next, next.flights[r]) {
      assert FlightOk(s, s.flights[r]);
    }
    forall k | k in next.tasks ensures TaskOk(next, next.tasks[k]) {
      assert TaskOk(s, s.tasks[k]);
    }
  }

  /** A record is saved, as a use or not, and its holder is done. */
  lemma SavingKeepsRaceOk(s: Race, next: Race, i: TokenId, record: AuthToken, seen: nat, saved: AuthToken, use: bool)
    requires RaceOk(s) && HeldOk(s, i, record, seen)
    requires next.desk.tokens == s.desk.tokens[i := saved] && SameToken(saved, record)
    requires forall j :: UseCount(next.desk, j) == UseCount(s.desk, j) + if use && j == i then 1 else 0
    requires saved.usedCount == record.usedCount + if use then 1 else 0
    requires saved.usedCount >= saved.maxUses || !use ==> saved.revokedAt.Some?
    requires forall r :: r in next.flights ==> r in s.flights && next.flights[r] == s.flights[r]
    requires forall k :: k in next.tasks ==> k in s.tasks && next.tasks[k] == s.tasks[k]
    requires LogsOk(next)
    ensures RaceOk(next)
  {
    forall j ensures CounterOk(next, j) {
      assert CounterOk(s, j);
    }
    forall r | r in next.flights ensures FlightOk(next, next.flights[r]) {
      assert FlightOk(s, s.flights[r]);
    }
    forall k | k in next.tasks ensures TaskOk(next, next.tasks[k]) {
      assert TaskOk(s, s.tasks[k]);
    }
  }

  lemma UseIsLogged(s: Race, r: RegId, now: int)
    requires RaceOk(s) && r in s.flights && s.flights[r].Using?
    ensures LogsOk(Step(s, SaveUse(r, now)))
  {
    var next, f := Step(s, SaveUse(r, now)), s.flights[r];
    assert FlightOk(s, f);
    assert next.desk.registrations == s.desk.registrations + [(f.invite, f.email)];
    forall g | g in next.desk.registrations ensures IsInvite(next, g.0) {
      assert g in s.desk.registrations || g == (f.invite, f.email);
    }
    forall i | i in next.desk.consumed ensures i in next.desk.tokens && next.desk.tokens[i].kind != Invite {
    }
  }

  lemma SaveUseKeepsRaceOk(s: Race, r: RegId, now: int)
    requires RaceOk(s) && r in s.flights && s.flights[r].Using?
    ensures RaceOk(Step(s, SaveUse(r, now)))
  {
    var next, f := Step(s, SaveUse(r, now)), s.flights[r];
    assert FlightOk(s, f);
    forall j ensures UseCount(next.desk, j) == UseCount(s.desk, j) + if j == f.invite then 1 else 0 {
      UsesSnoc(s.desk.registrations, (f.invite, f.email), j);
    }
    UseIsLogged(s, r, now);
    SavingKeepsRaceOk(s, next, f.invite, f.record, f.seen, Used(f.record, now), true);
  }

  lemma SaveTaskKeepsRaceOk(s: Race, m: Move)
    requires RaceOk(s) && (m.SaveRevoke? || m.SaveConsume?) && m.k in s.tasks
    requires s.tasks[m.k].Revoking? <==> m.SaveRevoke?
    ensures RaceOk(Step(s, m))
  {
    var next, t := Step(s, m), s.tasks[m.k];
    assert TaskOk(s, t);
    forall j ensures UseCount(next.desk, j) == UseCount(s.desk, j) + if m.SaveConsume? && j == t.id then 1 else 0 {
      TimesSnoc(s.desk.consumed, t.id, j);
    }
    SavingKeepsRaceOk(s, next, t.id, t.record, t.seen, next.desk.tokens[t.id], m.SaveConsume?);
  }

  /** Moves that touch no token and no log. */
  lemma SameDeskKeepsRaceOk(s: Race, next: Race)
    requires RaceOk(s) && next.desk.tokens == s.desk.tokens
    requires next.desk.registrations == s.desk.registrations && next.desk.consumed == s.desk.consumed
    requires forall r :: r in next.flights && !(r in s.flights && s.flights[r] == next.flights[r]) ==>
                           FlightOk(s, next.flights[r])
    requires forall k :: k in next.tasks && !(k in s.tasks && s.tasks[k] == next.tasks[k]) ==> TaskOk(s, next.tasks[k])
    ensures RaceOk(next)
  {
    forall i ensures CounterOk(next, i) {
      assert CounterOk(s, i);
    }
    forall r | r in next.flights ensures FlightOk(next, next.flights[r]) {
      assert FlightOk(s, next.flights[r]);
    }
    forall k | k in next.tasks ensures TaskOk(next, next.tasks[k]) {
      assert TaskOk(s, next.tasks[k]);
    }
  }

  lemma FlightMoveKeepsRaceOk(s: Race, m: Move)
    requires RaceOk(s) && (m.Check? || m.SaveUser? || m.ReadUse? || m.Crash?)
    ensures RaceOk(Step(s, m))
  {
    if !m.Check? && m.r in s.flights {
      assert FlightOk(s, s.flights[m.r]);
      assert CounterOk(s, s.flights[m.r].invite);
    }
    SameDeskKeepsRaceOk(s, Step(s, m));
  }

  lemma TaskMoveKeepsRaceOk(s: Race, m: Move)
    requires RaceOk(s) && (m.ReadRevoke? || m.ReadConsume? || m.Abandon?)
    ensures RaceOk(Step(s, m))
  {
    if !m.Abandon? {
      assert CounterOk(s, m.id);
    }
    SameDeskKeepsRaceOk(s, Step(s, m));
  }

  lemma MoveKeepsRaceOk(s: Race, m: Move)
    requires RaceOk(s)
    ensures RaceOk(Step(s, m))
  {
    match m
    case SaveUse(r, now) => if Step(s, m) != s { SaveUseKeepsRaceOk(s, r, now); }
    case SaveRevoke(_, _) => if Step(s, m) != s { SaveTaskKeepsRaceOk(s, m); }
    case SaveConsume(_, _) => if Step(s, m) != s { SaveTaskKeepsRaceOk(s, m); }
    case Meanwhile(e) => if !Interruptible(e) { ErrandKeepsRaceOk(s, e); }
    case ReadRevoke(_, _) => TaskMoveKeepsRaceOk(s, m);
    case ReadConsume(_, _, _, _) => TaskMoveKeepsRaceOk(s, m);
    case Abandon(_) => TaskMoveKeepsRaceOk(s, m);
    case _ => FlightMoveKeepsRaceOk(s, m);
  }

  /** In every interleaving no counter runs ahead of the uses that were saved, a token at its limit is revoked, a token
      for a single use stays revoked once it was used, and an invitation for an address is only ever taken up for it. */
  lemma {:induction false} EveryRaceIsOk(s: Race, ms: seq<Move>)
    requires RaceOk(s)
    ensures RaceOk(Steps(s, ms))
    decreases |ms|
  {
    if ms != [] {
      MoveKeepsRaceOk(s, ms[0]);
      EveryRaceIsOk(Step(s, ms[0]), ms[1..]);
    }
  }
}
