/** The sliding-window limit on call invitations. */
module InviteWindow {
  import opened Ids
  import opened Lists

  const CALL_INVITE_WINDOW_MS: nat := 60000
  const CALL_INVITE_MAX_PER_WINDOW: nat := 5

  /** `stamps.filter((ts) => now - ts < CALL_INVITE_WINDOW_MS)`. */
  function Recent(stamps: seq<nat>, now: nat): (r: seq<nat>)
    ensures |r| <= |stamps|
  {
    if stamps == [] then []
    else
      Recent(stamps[..|stamps| - 1], now) +
      if now - stamps[|stamps| - 1] < CALL_INVITE_WINDOW_MS then [stamps[|stamps| - 1]] else []
  }

  function Stored(rates: map<UserId, seq<nat>>, u: UserId): seq<nat> {
    if u in rates then rates[u] else []
  }

  function Taken(rates: map<UserId, seq<nat>>, u: UserId, now: nat): (map<UserId, seq<nat>>, bool) {
    var recent := Recent(Stored(rates, u), now);
    if |recent| >= CALL_INVITE_MAX_PER_WINDOW then (rates, false) else (rates[u := recent + [now]], true)
  }

  /** The stamps less than 60 s old, as places in the list. */
  ghost function Fresh(stamps: seq<nat>, now: nat): set<nat> {
    set i: nat | i < |stamps| && now < stamps[i] + 60000
  }

  lemma {:induction false} RecentCounts(stamps: seq<nat>, now: nat)
    ensures |Recent(stamps, now)| == |Fresh(stamps, now)|
    ensures forall ts :: ts in Recent(stamps, now) <==> ts in stamps && now < ts + 60000
  {
    if stamps == [] {
      assert Fresh(stamps, now) == {};
    } else {
      var n := |stamps| - 1;
      RecentCounts(stamps[..n], now);
      assert stamps == stamps[..n] + [stamps[n]];
      assert Fresh(stamps, now) == Fresh(stamps[..n], now) + if now < stamps[n] + 60000 then {n} else {};
    }
  }

  /** An invitation is accepted exactly while fewer than five of the user's stamps are less than 60 s old; then it is
      stamped and older stamps go; a refusal changes nothing, and nobody else's stamps ever change. */
  lemma SlotOutcome(rates: map<UserId, seq<nat>>, u: UserId, now: nat)
    ensures var (next, ok) := Taken(rates, u, now);
            && (ok <==> u !in rates || |Fresh(rates[u], now)| < 5)
            && (!ok ==> next == rates)
            && (ok ==> next == rates[u := next[u]] && next[u] != [] && next[u][|next[u]| - 1] == now &&
                       forall ts :: ts in next[u] <==> ts == now || (u in rates && ts in rates[u] && now < ts + 60000))
  {
    RecentCounts(Stored(rates, u), now);
  }

  class InviteLimiter {
    var inviteRateByUser: map<UserId, seq<nat>>

    constructor ()
      ensures inviteRateByUser == map[]
    {
      inviteRateByUser := map[];
    }

    method TakeCallInviteSlot(u: UserId, now: nat) returns (accepted: bool)
      modifies this
      ensures (inviteRateByUser, accepted) == Taken(old(inviteRateByUser), u, now)
    {
      var recent := Recent(if u in inviteRateByUser then inviteRateByUser[u] else [], now);
      if |recent| >= CALL_INVITE_MAX_PER_WINDOW {
        return false;
      }
      recent := recent + [now];
      inviteRateByUser := inviteRateByUser[u := recent];
      return true;
    }
  }

  // ---------------------------------------------------------------- the full history

  /** What the service keeps, beside every accepted invitation ever made, and the clock. */
  datatype Log = Log(rates: map<UserId, seq<nat>>, accepted: map<UserId, seq<nat>>, clock: nat)

  datatype Attempt = Attempt(user: UserId, at: nat)

  /** Attempts are made under a clock that never goes back. */
  function Tried(l: Log, a: Attempt): Log {
    if a.at < l.clock then l
    else
      var (rates, ok) := Taken(l.rates, a.user, a.at);
      Log(rates, if ok then l.accepted[a.user := Stored(l.accepted, a.user) + [a.at]] else l.accepted, a.at)
  }

  function TriedAll(l: Log, attempts: seq<Attempt>): Log {
    if attempts == [] then l else Tried(TriedAll(l, attempts[..|attempts| - 1]), attempts[|attempts| - 1])
  }

  const EMPTY_LOG := Log(map[], map[], 0)

  /** The stamps inside the half-open window of 60 s from `a` on. */
  function Window(stamps: seq<nat>, a: int): seq<nat> {
    if stamps == [] then []
    else
      Window(stamps[..|stamps| - 1], a) +
      if a <= stamps[|stamps| - 1] < a + CALL_INVITE_WINDOW_MS then [stamps[|stamps| - 1]] else []
  }

  /** The kept stamps tell as much about any later window as the whole history does. */
  ghost predicate UserOk(kept: seq<nat>, history: seq<nat>, clock: nat) {
    && (forall i :: 0 <= i < |history| ==> history[i] <= clock)
    && (forall now: nat :: clock <= now ==> Recent(kept, now) == Recent(history, now))
    && (forall a: int :: |Window(history, a)| <= CALL_INVITE_MAX_PER_WINDOW)
  }

  ghost predicate LogOk(l: Log) {
    forall u :: UserOk(Stored(l.rates, u), Stored(l.accepted, u), l.clock)
  }

  lemma RecentSnoc(stamps: seq<nat>, ts: nat, now: nat)
    ensures Recent(stamps + [ts], now) == Recent(stamps, now) + if now - ts < CALL_INVITE_WINDOW_MS then [ts] else []
  {
    assert (stamps + [ts])[..|stamps|] == stamps;
  }

  /** Filtering twice, the second time later, is filtering once. */
  lemma {:induction false} RecentTwice(stamps: seq<nat>, now: nat, later: nat)
    requires now <= later
    ensures Recent(Recent(stamps, now), later) == Recent(stamps, later)
  {
    if stamps != [] {
      var init, last := stamps[..|stamps| - 1], stamps[|stamps| - 1];
      RecentTwice(init, now, later);
      if now - last < CALL_INVITE_WINDOW_MS {
        RecentSnoc(Recent(init, now), last, later);
      } else {
        assert Recent(stamps, now) == Recent(init, now);
      }
    }
  }

  lemma WindowSnoc(stamps: seq<nat>, ts: nat, a: int)
    ensures Window(stamps + [ts], a) == Window(stamps, a) + if a <= ts < a + CALL_INVITE_WINDOW_MS then [ts] else []
  {
    assert (stamps + [ts])[..|stamps|] == stamps;
  }

  /** A window that reaches `now` lies within the trailing 60 s. */
  lemma {:induction false} WindowIsRecent(stamps: seq<nat>, a: int, now: nat)
    requires a <= now < a + CALL_INVITE_WINDOW_MS
    ensures |Window(stamps, a)| <= |Recent(stamps, now)|
  {
    if stamps != [] {
      WindowIsRecent(stamps[..|stamps| - 1], a, now);
    }
  }

  lemma AcceptedKeepsUserOk(kept: seq<nat>, history: seq<nat>, clock: nat, now: nat)
    requires UserOk(kept, history, clock) && clock <= now
    requires |Recent(kept, now)| < CALL_INVITE_MAX_PER_WINDOW
    ensures UserOk(Recent(kept, now) + [now], history + [now], now)
  {
    forall later: nat | now <= later
      ensures Recent(Recent(kept, now) + [now], later) == Recent(history + [now], later)
    {
      RecentSnoc(Recent(kept, now), now, later);
      RecentSnoc(history, now, later);
      RecentTwice(kept, now, later);
    }
    forall a: int ensures |Window(history + [now], a)| <= CALL_INVITE_MAX_PER_WINDOW {
      WindowSnoc(history, now, a);
      if a <= now < a + CALL_INVITE_WINDOW_MS {
        WindowIsRecent(history, a, now);
      }
    }
  }

  lemma TriedKeepsLogOk(l: Log, a: Attempt)
    requires LogOk(l)
    ensures LogOk(Tried(l, a))
  {
    if l.clock <= a.at {
      var next := Tried(l, a);
      forall u ensures UserOk(Stored(next.rates, u), Stored(next.accepted, u), next.clock) {
        assert UserOk(Stored(l.rates, u), Stored(l.accepted, u), l.clock);
        if u == a.user && Taken(l.rates, u, a.at).1 {
          AcceptedKeepsUserOk(Stored(l.rates, u), Stored(l.accepted, u), l.clock, a.at);
        }
      }
    }
  }

  lemma {:induction false} EveryLogIsOk(attempts: seq<Attempt>)
    ensures LogOk(TriedAll(EMPTY_LOG, attempts))
  {
    if attempts != [] {
      EveryLogIsOk(attempts[..|attempts| - 1]);
      TriedKeepsLogOk(TriedAll(EMPTY_LOG, attempts[..|attempts| - 1]), attempts[|attempts| - 1]);
    }
  }

  /** In every run an invitation is refused exactly when the user already made five accepted ones in the trailing
      60 s, counted over the whole history although old stamps were thrown away. */
  lemma RefusalIsExact(attempts: seq<Attempt>, u: UserId, now: nat)
    requires TriedAll(EMPTY_LOG, attempts).clock <= now
    ensures var l := TriedAll(EMPTY_LOG, attempts);
            !Taken(l.rates, u, now).1 <==> |Fresh(Stored(l.accepted, u), now)| >= 5
  {
    RecentCounts(Stored(TriedAll(EMPTY_LOG, attempts).accepted, u), now);
    EveryLogIsOk(attempts);
    var l := TriedAll(EMPTY_LOG, attempts);
    assert UserOk(Stored(l.rates, u), Stored(l.accepted, u), l.clock);
  }

  /** Consequently no 60 s window anywhere holds more than five accepted invitations of a user. */
  lemma NoWindowOverflows(attempts: seq<Attempt>, u: UserId, a: int)
    ensures |Window(Stored(TriedAll(EMPTY_LOG, attempts).accepted, u), a)| <= CALL_INVITE_MAX_PER_WINDOW
  {
    EveryLogIsOk(attempts);
    var l := TriedAll(EMPTY_LOG, attempts);
    assert UserOk(Stored(l.rates, u), Stored(l.accepted, u), l.clock);
  }
}
