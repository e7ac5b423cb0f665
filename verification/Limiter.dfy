/** The in-flight limiter in front of the microservice proxy, and `send`, which acquires and finally releases it. */
module Limiter {
  import opened Lists

  type Ticket = nat

  /** The limiter's fields; a waiter is the ticket of the call whose promise it would resolve. */
  datatype State = State(max: nat, active: nat, waiters: seq<Ticket>)

  /** Whether the caller may go ahead at once. */
  function Acquired(s: State, t: Ticket): (State, bool) {
    if s.active < s.max then (s.(active := s.active + 1), true)
    else (s.(waiters := s.waiters + [t]), false)
  }

  /** The waiter let in, if any. */
  function Released(s: State): (State, Option<Ticket>) {
    if s.waiters != [] then (s.(waiters := s.waiters[1..]), Some(s.waiters[0]))
    else (s.(active := if s.active > 0 then s.active - 1 else 0), None)
  }

  /** The counter never goes below zero: a release that nobody is owed leaves an idle limiter idle. */
  lemma IdleRelease(max: nat)
    ensures Released(State(max, 0, [])) == (State(max, 0, []), None)
  {
  }

  class InflightLimiter {
    const max: nat
    var active: nat
    var waiters: seq<Ticket>

    ghost function Fields(): State
      reads this
    {
      State(max, active, waiters)
    }

    constructor (max: nat)
      ensures Fields() == State(max, 0, [])
    {
      this.max := max;
      active, waiters := 0, [];
    }

    method Acquire(t: Ticket) returns (granted: bool)
      modifies this
      ensures (Fields(), granted) == Acquired(old(Fields()), t)
    {
      if active < max {
        active := active + 1;
        return true;
      }
      waiters := waiters + [t];
      return false;
    }

    method Release() returns (next: Option<Ticket>)
      modifies this
      ensures (Fields(), next) == Released(old(Fields()))
    {
      if |waiters| > 0 {
        next := Some(waiters[0]);
        waiters := waiters[1..];
        return;
      }
      active := if active - 1 > 0 then active - 1 else 0;
      next := None;
    }
  }

  // ---------------------------------------------------------------- the law

  /** The limiter with its history: calls in order of arrival, calls in order of admission, and releases. */
  datatype Traffic = Traffic(state: State, arrived: seq<Ticket>, granted: seq<Ticket>, released: nat)

  function Admissible(tr: Traffic): nat {
    if |tr.arrived| <= tr.state.max + tr.released then |tr.arrived| else tr.state.max + tr.released
  }

  /** Admissions are a prefix of the arrivals, as long as the limit and the releases allow; the rest waits. */
  ghost predicate Law(tr: Traffic) {
    && tr.granted == tr.arrived[..Admissible(tr)]
    && tr.state.waiters == tr.arrived[Admissible(tr)..]
    && tr.released <= |tr.granted|
    && tr.state.active == |tr.granted| - tr.released
  }

  function Arrive(tr: Traffic, t: Ticket): Traffic {
    var (next, now) := Acquired(tr.state, t);
    Traffic(next, tr.arrived + [t], if now then tr.granted + [t] else tr.granted, tr.released)
  }

  function Depart(tr: Traffic): Traffic {
    var (next, admitted) := Released(tr.state);
    Traffic(next, tr.arrived, if admitted.Some? then tr.granted + [admitted.value] else tr.granted, tr.released + 1)
  }

  lemma LawBounds(tr: Traffic)
    requires Law(tr)
    ensures tr.state.active <= tr.state.max
    ensures tr.state.waiters != [] ==> tr.state.active == tr.state.max
  {
  }

  lemma ArriveKeepsLaw(tr: Traffic, t: Ticket)
    requires Law(tr)
    ensures Law(Arrive(tr, t))
  {
    var next := Arrive(tr, t);
    if tr.state.active < tr.state.max {
      assert Admissible(tr) == |tr.arrived|;
      assert next.granted == next.arrived[..Admissible(next)];
    } else {
      assert Admissible(next) == Admissible(tr);
      assert next.arrived[..Admissible(next)] == tr.arrived[..Admissible(tr)];
    }
  }

  lemma HolderReleaseKeepsLaw(tr: Traffic)
    requires Law(tr) && (tr.released < |tr.granted| || tr.state.waiters != [])
    ensures Law(Depart(tr)) && tr.granted <= Depart(tr).granted
  {
    var next := Depart(tr);
    if tr.state.waiters != [] {
      var n := Admissible(tr);
      assert Admissible(next) == n + 1;
      assert tr.arrived[..n + 1] == tr.arrived[..n] + [tr.arrived[n]];
      assert tr.arrived[n..][1..] == tr.arrived[n + 1..];
    } else {
      assert Admissible(next) == Admissible(tr);
    }
  }

  /** A release keeps the law exactly when the one releasing holds an admission, or somebody waits to take it over. */
  lemma ReleaseLaw(tr: Traffic)
    requires Law(tr)
    ensures Law(Depart(tr)) <==> tr.released < |tr.granted| || tr.state.waiters != []
  {
    if tr.released < |tr.granted| || tr.state.waiters != [] {
      HolderReleaseKeepsLaw(tr);
    }
  }

  // ---------------------------------------------------------------- send

  /** Calls through `send`: those that have finished, with or without an error, are the ones that released. */
  datatype Proxy = Proxy(traffic: Traffic, finished: set<Ticket>)

  datatype Happening =
    | SendCall(t: Ticket)
    /** The upstream answered, failed, or timed out: `finally` releases. */
    | Settle(t: Ticket)

  ghost predicate Running(p: Proxy, t: Ticket) {
    t in p.traffic.granted && t !in p.finished
  }

  ghost function RunningSet(p: Proxy): set<Ticket> {
    Elems(p.traffic.granted) - p.finished
  }

  /** Tickets are per call; only a running call can settle. */
  ghost function Happen(p: Proxy, h: Happening): Proxy {
    match h
    case SendCall(t) => if t in p.traffic.arrived then p else p.(traffic := Arrive(p.traffic, t))
    case Settle(t) => if !Running(p, t) then p else Proxy(Depart(p.traffic), p.finished + {t})
  }

  ghost function HappenAll(p: Proxy, hs: seq<Happening>): Proxy {
    if hs == [] then p else Happen(HappenAll(p, hs[..|hs| - 1]), hs[|hs| - 1])
  }

  function Fresh(max: nat): Proxy {
    Proxy(Traffic(State(max, 0, []), [], [], 0), {})
  }

  ghost predicate ProxyOk(p: Proxy) {
    && Law(p.traffic)
    && NoDup(p.traffic.arrived)
    && p.finished <= Elems(p.traffic.granted)
    && |p.finished| == p.traffic.released
  }

  /** The limiter's counter is the number of calls really in flight. */
  lemma ActiveIsInFlight(p: Proxy)
    requires ProxyOk(p)
    ensures |RunningSet(p)| == p.traffic.state.active <= p.traffic.state.max
  {
    LawBounds(p.traffic);
    NoDupSize(p.traffic.granted);
    assert Elems(p.traffic.granted) == RunningSet(p) + p.finished;
  }

  lemma SettleKeepsProxyOk(p: Proxy, t: Ticket)
    requires ProxyOk(p) && Running(p, t)
    ensures ProxyOk(Happen(p, Settle(t)))
  {
    ActiveIsInFlight(p);
    assert t in RunningSet(p);
    HolderReleaseKeepsLaw(p.traffic);
    var next := Happen(p, Settle(t)).traffic;
    assert Elems(p.traffic.granted) <= Elems(next.granted) by {
      assert forall i :: 0 <= i < |p.traffic.granted| ==> p.traffic.granted[i] == next.granted[i];
    }
    assert next.arrived == p.traffic.arrived;
    assert |p.finished + {t}| == next.released;
  }

  lemma SendKeepsProxyOk(p: Proxy, t: Ticket)
    requires ProxyOk(p) && t !in p.traffic.arrived
    ensures ProxyOk(Happen(p, SendCall(t)))
  {
    ArriveKeepsLaw(p.traffic, t);
    var next := Happen(p, SendCall(t)).traffic;
    assert forall i :: 0 <= i < |p.traffic.granted| ==> p.traffic.granted[i] == next.granted[i];
  }

  lemma HappenKeepsProxyOk(p: Proxy, h: Happening)
    requires ProxyOk(p)
    ensures ProxyOk(Happen(p, h)) && Happen(p, h).traffic.state.max == p.traffic.state.max
  {
    match h
    case SendCall(t) => if t !in p.traffic.arrived { SendKeepsProxyOk(p, t); }
    case Settle(t) => if Running(p, t) { SettleKeepsProxyOk(p, t); }
  }

  /** In every run of concurrent calls: at most `max` are in flight, the counter is exact, calls are admitted in
      order of arrival as soon as limit and releases allow, and nobody waits while there is room. */
  lemma {:induction false} LimiterLaw(max: nat, hs: seq<Happening>)
    ensures var p := HappenAll(Fresh(max), hs);
            && ProxyOk(p) && p.traffic.state.max == max
            && p.traffic.granted == p.traffic.arrived[..Admissible(p.traffic)]
            && |RunningSet(p)| == p.traffic.state.active == |p.traffic.granted| - p.traffic.released <= max
            && (p.traffic.state.waiters != [] ==> |RunningSet(p)| == max)
  {
    if hs != [] {
      LimiterLaw(max, hs[..|hs| - 1]);
      HappenKeepsProxyOk(HappenAll(Fresh(max), hs[..|hs| - 1]), hs[|hs| - 1]);
    }
    var p := HappenAll(Fresh(max), hs);
    ActiveIsInFlight(p);
    LawBounds(p.traffic);
  }
}
