/** The synchronous half of one replica's Lease elector (turma/leader.js): what each
    continuation of the election loop does to the replica's own fields, as functions on
    values and as the in-place object whose methods are proved against them. */
module Elector {
  import opened Basics

  type Id = string

  /** The shared Kubernetes Lease. Version 0 stands for "no such object"; an empty holder
      or a missing renewTime is a Lease whose spec does not carry the field. */
  datatype Lease = Absent | Lease(version: nat, holder: Id, renew: Option<int>, durS: int)

  datatype Kind = Renew | Acquire | Create | Abstain | Release

  /** One PUT or POST body: the version it is conditional on, the spec it writes, and the
      clock value (`now`) of the tick that issued it. */
  datatype Write = Write(kind: Kind, rv: nat, holder: Id, renew: int, durS: int, at: int)

  /** One replica's own fields. `events` is the list of values handed to the onChange callbacks. */
  datatype Rep = Rep(
    durMs: int, renewDeadlineMs: int,
    leader: bool, lastRenew: int, closed: bool, canLead: bool,
    events: seq<bool>)

  function Max(a: int, b: int): int { if a < b then b else a }

  /** The advertised duration: whole seconds, rounded up, at least one. */
  function LeaseSeconds(ms: int): (s: int)
    ensures s >= 1 && s * 1000 >= ms
    ensures ms >= 1 ==> s * 1000 < ms + 1000
  {
    Max(1, -((-ms) / 1000))
  }

  function Window(e: Rep): int { LeaseSeconds(e.durMs) * 1000 }

  predicate Leads(e: Rep, now: int) {
    e.leader && now - e.lastRenew <= Window(e)
  }

  function Ver(l: Lease): nat {
    match l case Absent => 0 case Lease(v, _, _, _) => v
  }

  /** What a replica with advertised duration `own` takes as the Lease's duration. */
  function DurMs(l: Lease, own: int): int
    requires l.Lease?
  {
    (if l.durS != 0 then l.durS else own) * 1000
  }

  predicate Expired(l: Lease, now: int, own: int)
    requires l.Lease?
  {
    l.renew.None? || now - l.renew.value > DurMs(l, own)
  }

  /** Flip the flag and notify, only on a real edge. */
  function Edge(e: Rep, next: bool): Rep {
    if next == e.leader then e else e.(leader := next, events := e.events + [next])
  }

  function AfterSetLeader(e: Rep, next: bool, renewedAt: int, now: int): Rep {
    if !next then Edge(e, false)
    else
      var stamp := Max(e.lastRenew, renewedAt);
      if now - stamp > Window(e) || e.closed || !e.canLead then Edge(e, false)
      else if e.leader && now - e.lastRenew > Window(e) then
        e.(lastRenew := stamp, events := e.events + [false, true])
      else
        Edge(e.(lastRenew := stamp), true)
  }

  function AfterMaybeExpire(e: Rep, now: int): Rep {
    if e.leader && now - e.lastRenew > e.renewDeadlineMs then Edge(e, false) else e
  }

  /** The tick after its GET answered `obs` at clock `now`: the new fields, and the write issued. */
  function AfterRead(id: Id, e: Rep, obs: Lease, now: int): (Rep, Option<Write>) {
    var own := LeaseSeconds(e.durMs);
    if !e.canLead then
      if !e.leader then (e, None)
      else
        (Edge(e, false),
         if obs.Lease? && obs.holder == id
         then Some(Write(Abstain, obs.version, id, now - e.durMs - 1000, obs.durS, now))
         else None)
    else if obs.Absent? then (e, Some(Write(Create, 0, id, now, own, now)))
    else if obs.holder == id then (e, Some(Write(Renew, obs.version, id, now, own, now)))
    else if Expired(obs, now, own) then (e, Some(Write(Acquire, obs.version, id, now, own, now)))
    else (Edge(e, false), None)
  }

  /** The continuation of a write that was answered. */
  function AfterWrite(e: Rep, w: Write, ok: bool, now: int): Rep {
    match w.kind
    case Renew => if ok then AfterSetLeader(e, true, w.at, now) else AfterMaybeExpire(e, now)
    case Acquire => AfterSetLeader(e, ok, w.at, now)
    case Create => AfterSetLeader(e, ok, w.at, now)
    case Abstain => e
    case Release => e.(leader := false)
  }

  /** A backdated renewTime reads as expired to every standby at once, which is the point of
      abstaining and of release(). The recorded duration is the holder's own advertised one. */
  lemma BackdateIsExpired(l: Lease, durMs: int, then_: int, now: int, own: int)
    requires durMs >= 1 && then_ <= now
    requires l.Lease? && l.durS == LeaseSeconds(durMs) && l.renew == Some(then_ - durMs - 1000)
    ensures Expired(l, now, own)
  {
    assert LeaseSeconds(durMs) * 1000 < durMs + 1000;
  }

  /** The elector object itself. The clock, `canLead` and the API responses are arguments. */
  class LeaderElector {
    const identity: Id
    const leaseDurationMs: int
    const renewDeadlineMs: int
    var leader: bool
    var lastRenew: int
    var closed: bool
    var emitted: seq<bool>

    constructor (identity: Id, leaseDurationMs: int, renewDeadlineMs: int)
      ensures this.identity == identity
      ensures View(true) == Rep(leaseDurationMs, renewDeadlineMs, false, 0, false, true, [])
    {
      this.identity := identity;
      this.leaseDurationMs := leaseDurationMs;
      this.renewDeadlineMs := renewDeadlineMs;
      leader, lastRenew, closed, emitted := false, 0, false, [];
    }

    ghost function View(canLead: bool): Rep
      reads this
    {
      Rep(leaseDurationMs, renewDeadlineMs, leader, lastRenew, closed, canLead, emitted)
    }

    method IsLeader(now: int, ghost canLead: bool) returns (b: bool)
      ensures b <==> Leads(View(canLead), now)
    {
      b := leader && now - lastRenew <= LeaseSeconds(leaseDurationMs) * 1000;
    }

    method SetLeader(want: bool, renewedAt: int, now: int, canLead: bool)
      modifies this
      ensures View(canLead) == AfterSetLeader(old(View(canLead)), want, renewedAt, now)
    {
      var next := want;
      if next {
        var stamp := Max(lastRenew, renewedAt);
        if now - stamp > LeaseSeconds(leaseDurationMs) * 1000 || closed || !canLead {
          next := false;
        } else {
          var lapsed := leader && now - lastRenew > LeaseSeconds(leaseDurationMs) * 1000;
          lastRenew := stamp;
          if lapsed {
            emitted := emitted + [false];
            emitted := emitted + [true];
            assert emitted == old(emitted) + [false, true];
            return;
          }
        }
      }
      if next == leader { return; }
      leader := next;
      emitted := emitted + [next];
    }

    method MaybeExpire(now: int, canLead: bool)
      modifies this
      ensures View(canLead) == AfterMaybeExpire(old(View(canLead)), now)
    {
      if leader && now - lastRenew > renewDeadlineMs {
        SetLeader(false, now, now, canLead);
      }
    }

    /** From the GET's answer to the request the tick issues next. */
    method Tick(observed: Lease, now: int, canLead: bool) returns (put: Option<Write>)
      modifies this
      ensures (View(canLead), put) == AfterRead(identity, old(View(canLead)), observed, now)
    {
      put := None;
      if !canLead {
        if leader {
          SetLeader(false, now, now, canLead);
          if observed.Lease? && observed.holder == identity {
            put := Some(Write(Abstain, observed.version, observed.holder,
                              now - leaseDurationMs - 1000, observed.durS, now));
          }
        }
        return;
      }
      var own := LeaseSeconds(leaseDurationMs);
      if observed.Absent? {
        put := Some(Write(Create, 0, identity, now, own, now));
        return;
      }
      var held := observed.holder == identity;
      var durMs := (if observed.durS != 0 then observed.durS else own) * 1000;
      var expired := observed.renew.None? || now - observed.renew.value > durMs;
      if held {
        put := Some(Write(Renew, observed.version, identity, now, own, now));
      } else if expired {
        put := Some(Write(Acquire, observed.version, identity, now, own, now));
      } else {
        SetLeader(false, now, now, canLead);
      }
    }

    method Answered(w: Write, ok: bool, now: int, canLead: bool)
      modifies this
      ensures View(canLead) == AfterWrite(old(View(canLead)), w, ok, now)
    {
      match w.kind
      case Renew => if ok { SetLeader(true, w.at, now, canLead); } else { MaybeExpire(now, canLead); }
      case Acquire => SetLeader(ok, w.at, now, canLead);
      case Create => SetLeader(ok, w.at, now, canLead);
      case Abstain =>
      case Release => leader := false;
    }

    method Stop(ghost canLead: bool)
      modifies this
      ensures View(canLead) == old(View(canLead)).(closed := true)
    {
      closed := true;
    }
  }
}
