/** Forwarding a request to the leader (turma/forward.js): the hop list that rides along, the
    decision a replica takes, and the wait that ends in an answer. */
module Forwarding {
  import opened Basics
  import opened Trimming

  type Id = string
  type Addr = string

  const MAX_HOPS: nat := 2

  // ---- the hop list on the wire ----------------------------------------------------------------

  function Joined(hops: seq<Id>): string {
    if hops == [] then "" else if |hops| == 1 then hops[0] else hops[0] + ("," + Joined(hops[1..]))
  }

  /** Up to the first comma. */
  function Upto(s: string): (n: nat)
    ensures n <= |s| && (n < |s| ==> s[n] == ',')
  {
    if s == "" || s[0] == ',' then 0 else 1 + Upto(s[1..])
  }

  /** Cut at commas, trimmed, blanks dropped. */
  function Parsed(s: string): seq<Id>
    decreases |s|
  {
    var n := Upto(s);
    var id := Trim(s[..n]);
    (if id == "" then [] else [id]) + if n < |s| then Parsed(s[n + 1..]) else []
  }

  /** A replica id that survives the header. */
  predicate Clean(id: Id) { id != "" && ',' !in id && !Blank(id[0]) && !Blank(id[|id| - 1]) }

  lemma {:induction false} UptoComma(id: string, rest: string)
    requires ',' !in id && (rest == "" || rest[0] == ',')
    ensures Upto(id + rest) == |id|
  {
    if id != "" {
      UptoComma(id[1..], rest);
      assert (id + rest)[1..] == id[1..] + rest;
    } else {
      assert id + rest == rest;
    }
  }

  lemma TrimClean(id: Id)
    requires Clean(id)
    ensures Trim(id) == id
  {
  }

  /** The first id, alone or with more behind its comma. */
  lemma ParsedFront(id: Id, rest: string)
    requires Clean(id)
    ensures Parsed(id) == [id] && Parsed(id + ("," + rest)) == [id] + Parsed(rest)
  {
    TrimClean(id);
    UptoComma(id, "");
    assert id + "" == id && id[..|id|] == id;
    var s := id + ("," + rest);
    UptoComma(id, "," + rest);
    assert s[..|id|] == id && s[|id| + 1..] == rest;
  }

  /** What one replica writes, the next one reads. */
  lemma {:induction false} HopListRoundTrip(hops: seq<Id>)
    requires forall i :: 0 <= i < |hops| ==> Clean(hops[i])
    ensures Parsed(Joined(hops)) == hops
  {
    if |hops| == 1 {
      ParsedFront(hops[0], "");
    } else if |hops| > 1 {
      HopListRoundTrip(hops[1..]);
      RoundTripStep(hops, Joined(hops[1..]));
    }
  }

  lemma RoundTripStep(hops: seq<Id>, rest: string)
    requires |hops| > 1 && Clean(hops[0]) && Parsed(rest) == hops[1..]
    ensures Parsed(hops[0] + ("," + rest)) == hops
  {
    ParsedFront(hops[0], rest);
    assert hops == [hops[0]] + hops[1..];
  }

  /** Whatever stands between the commas is read trimmed, and not at all when it is blank. */
  function NonBlanks(parts: seq<string>): seq<Id> {
    if parts == [] then []
    else (if Trim(parts[0]) == "" then [] else [Trim(parts[0])]) + NonBlanks(parts[1..])
  }

  lemma {:induction false} ParsedIsTrimmedParts(parts: seq<string>)
    requires forall i :: 0 <= i < |parts| ==> ',' !in parts[i]
    ensures Parsed(Joined(parts)) == NonBlanks(parts)
  {
    if |parts| == 1 {
      UptoComma(parts[0], "");
      assert parts[0] + "" == parts[0] && parts[0][..|parts[0]|] == parts[0];
    } else if |parts| > 1 {
      ParsedIsTrimmedParts(parts[1..]);
      FrontPart(parts[0], Joined(parts[1..]));
    }
  }

  lemma FrontPart(part: string, rest: string)
    requires ',' !in part
    ensures Parsed(part + ("," + rest)) == (if Trim(part) == "" then [] else [Trim(part)]) + Parsed(rest)
  {
    var s := part + ("," + rest);
    UptoComma(part, "," + rest);
    assert s[..|part|] == part && s[|part| + 1..] == rest;
  }

  /** Blanks around an id do not matter. */
  lemma PaddedIdReads(pre: string, id: Id, post: string)
    requires Clean(id) && AllBlank(pre) && AllBlank(post)
    ensures NonBlanks([pre + id + post]) == [id]
  {
    TrimStripsBlanks(pre, id, post);
    assert [pre + id + post][1..] == [];
  }

  /** The hop headers of a request: the list, and whether its proof is the replica's own keyed proof,
      fresh and not seen before; no key means lists are trusted as they come. */
  datatype Headers = Headers(list: Option<string>, keyed: bool, proven: bool)

  /** The verified hop list, or our own proof come back. */
  datatype Proof = Proof(hops: seq<Id>, loop: bool)

  function Verified(h: Headers, self: Id): Proof {
    if h.list.None? || h.list.value == "" then Proof([], false)
    else
      var hops := Parsed(h.list.value);
      if !h.keyed then Proof(hops, false)
      else if !h.proven then Proof([], false)
      else if hops != [] && hops[|hops| - 1] == self then Proof([], true)
      else Proof(hops, false)
  }

  /** What a forwarding replica puts on the request. */
  function HopHeaders(hops: seq<Id>, self: Id, keyed: bool, proven: bool): Headers {
    Headers(Some(Joined(hops + [self])), keyed, proven)
  }

  /** The next replica knows every hop; the forwarder itself, reached again, knows its own proof. */
  lemma NextReplicaKnows(hops: seq<Id>, self: Id, next: Id)
    requires Clean(self) && forall i :: 0 <= i < |hops| ==> Clean(hops[i])
    ensures Verified(HopHeaders(hops, self, true, true), next)
         == if next == self then Proof([], true) else Proof(hops + [self], false)
  {
    var list := hops + [self];
    HopListRoundTrip(list);
    assert list[|list| - 1] == self;
    assert Parsed("") == [];
  }

  /** Without a key a list is believed as it comes; with one, a list whose proof does not verify is ignored. */
  lemma OnlyProvenListsCount(hops: seq<Id>, self: Id, proven: bool)
    requires hops != [] && forall i :: 0 <= i < |hops| ==> Clean(hops[i])
    ensures Verified(Headers(Some(Joined(hops)), false, proven), self) == Proof(hops, false)
    ensures Verified(Headers(Some(Joined(hops)), true, false), self) == Proof([], false)
  {
    HopListRoundTrip(hops);
    assert Parsed("") == [];
  }

  // ---- one replica's decision --------------------------------------------------------------------

  datatype Leader = Leader(replica: Id, addr: Option<Addr>, seenAt: nat)

  datatype Replica = Replica(id: Id, endpoint: Option<Addr>, ttlMs: nat, cooldownMs: nat, holdMs: nat,
    leader: Option<Leader>, unreachable: map<Addr, nat>, aliases: map<Addr, nat>, draining: bool)

  /** What the decision consults besides the replica's own state. */
  datatype Env = Env(now: nat, enabled: bool, localPath: bool, canServe: bool, storeHealthy: bool, heldElsewhere: bool)

  datatype Decision = Local | Loop | Refuse | Hold | Forward(addr: Addr)

  predicate OwnAddr(r: Replica, addr: Addr, now: nat) {
    r.endpoint == Some(addr) || (addr in r.aliases && now < r.aliases[addr])
  }

  predicate Fresh(r: Replica, env: Env) {
    r.leader.Some? && (env.now - r.leader.value.seenAt < r.ttlMs || !env.storeHealthy)
  }

  function Decide(r: Replica, p: Proof, env: Env): Decision {
    if !env.enabled || env.localPath || env.canServe then Local
    else if p.loop then Loop
    else if !env.storeHealthy && env.heldElsewhere then Refuse
    else if !Fresh(r, env) || r.leader.value.replica == r.id then Hold
    else match r.leader.value.addr
      case None => Local
      case Some(addr) =>
        if OwnAddr(r, addr, env.now) then Hold
        else if r.leader.value.replica in p.hops || r.id in p.hops || |p.hops| >= MAX_HOPS then Hold
        else if addr in r.unreachable && env.now < r.unreachable[addr] then Hold
        else Forward(addr)
  }

  /** Entries that have run out are dropped as a decision meets them. */
  ghost predicate OnlyExpiredDropped(before: map<Addr, nat>, after: map<Addr, nat>, now: nat) {
    (forall a :: a in after ==> a in before && after[a] == before[a])
    && (forall a :: a in before && now < before[a] ==> a in after)
  }

  /** Dropping them changes no decision, now or later. */
  lemma SweepIsHarmless(r: Replica, s: Replica, p: Proof, now: nat, env: Env)
    requires Swept(r, s, now) && env.now >= now
    ensures Decide(s, p, env) == Decide(r, p, env)
  {
    if r.leader.Some? && r.leader.value.addr.Some? {
      var a := r.leader.value.addr.value;
      assert (a in r.aliases && env.now < r.aliases[a]) <==> (a in s.aliases && env.now < s.aliases[a]);
      assert (a in r.unreachable && env.now < r.unreachable[a]) <==> (a in s.unreachable && env.now < s.unreachable[a]);
    }
  }

  /** The same replica but for entries run out by `now`. */
  ghost predicate Swept(r: Replica, s: Replica, now: nat) {
    s == r.(unreachable := s.unreachable, aliases := s.aliases)
    && OnlyExpiredDropped(r.unreachable, s.unreachable, now) && OnlyExpiredDropped(r.aliases, s.aliases, now)
  }

  lemma SweptOn(r: Replica, s: Replica, u: Replica, now: nat, later: nat)
    requires Swept(r, s, now) && Swept(s, u, later) && now <= later
    ensures Swept(r, u, later)
  {
  }

  class Forwarder {
    const replicaId: Id
    const endpoint: Option<Addr>
    const ttlMs: nat
    const cooldownMs: nat
    const holdMs: nat
    var leader: Option<Leader>
    var unreachableUntil: map<Addr, nat>
    var ownAliases: map<Addr, nat>
    var draining: bool

    ghost function Now(): Replica reads this {
      Replica(replicaId, endpoint, ttlMs, cooldownMs, holdMs, leader, unreachableUntil, ownAliases, draining)
    }

    constructor (id: Id, at: Option<Addr>, ttl: nat, cooldown: nat, hold: nat)
      ensures Now() == Replica(id, at, ttl, cooldown, hold, None, map[], map[], false)
    {
      replicaId, endpoint, ttlMs, cooldownMs, holdMs := id, at, ttl, cooldown, hold;
      leader, unreachableUntil, ownAliases, draining := None, map[], map[], false;
    }

    method IsOwnAddr(addr: Addr, now: nat) returns (own: bool)
      modifies this`ownAliases
      ensures own <==> OwnAddr(old(Now()), addr, now)
      ensures OnlyExpiredDropped(old(ownAliases), ownAliases, now)
    {
      if endpoint == Some(addr) { return true; }
      if addr in ownAliases {
        if now < ownAliases[addr] { return true; }
        ownAliases := ownAliases - {addr};
      }
      return false;
    }

    method DecideNow(p: Proof, env: Env) returns (d: Decision)
      modifies this`ownAliases, this`unreachableUntil
      ensures d == Decide(old(Now()), p, env)
      ensures OnlyExpiredDropped(old(ownAliases), ownAliases, env.now)
      ensures OnlyExpiredDropped(old(unreachableUntil), unreachableUntil, env.now)
    {
      if !env.enabled || env.localPath || env.canServe { return Local; }
      if p.loop { return Loop; }
      if !env.storeHealthy && env.heldElsewhere { return Refuse; }
      if leader.None? { return Hold; }
      var e := leader.value;
      if !(env.now - e.seenAt < ttlMs || !env.storeHealthy) || e.replica == replicaId { return Hold; }
      if e.addr.None? { return Local; }
      var addr := e.addr.value;
      var own := IsOwnAddr(addr, env.now);
      if own { return Hold; }
      if e.replica in p.hops || replicaId in p.hops || |p.hops| >= MAX_HOPS { return Hold; }
      if addr in unreachableUntil {
        if env.now < unreachableUntil[addr] { return Hold; }
        unreachableUntil := unreachableUntil - {addr};
      }
      return Forward(addr);
    }

    method MarkUnreachable(addr: Addr, now: nat)
      modifies this`unreachableUntil
      ensures unreachableUntil == old(unreachableUntil)[addr := now + cooldownMs]
    {
      unreachableUntil := unreachableUntil[addr := now + cooldownMs];
    }

    /** The waiting loop. Between turns the leader entry and the drain flag change under it. */
    method Route(p: Proof, ms: seq<Moment>) returns (o: Option<Outcome>)
      requires forall i, j :: 0 <= i < j < |ms| ==> ms[i].env.now <= ms[j].env.now
      modifies this
      ensures o == Routed(old(Now()), p, ms, None)
    {
      var deadline: Option<nat> := None;
      ghost var spec := Now();
      ghost var t: nat := 0;
      var i := 0;
      assert ms[0..] == ms;
      while i < |ms|
        invariant i <= |ms| && Routed(old(Now()), p, ms, None) == Routed(spec, p, ms[i..], deadline)
        invariant Swept(spec, Now(), t) && forall j :: i <= j < |ms| ==> t <= ms[j].env.now
      {
        assert ms[i..][0] == ms[i] && ms[i..][1..] == ms[i + 1..];
        ghost var turn := TurnOf(spec, p, ms[i], deadline);
        o, deadline := TakeTurn(p, ms[i], deadline, spec, t);
        if o.Some? { return; }
        spec, t := turn.replica, ms[i].env.now;
        i := i + 1;
      }
      return None;
    }

    /** One turn, taken with whatever expired entries were already dropped. */
    method TakeTurn(p: Proof, m: Moment, deadline: Option<nat>, ghost spec: Replica, ghost t: nat)
      returns (o: Option<Outcome>, due: Option<nat>)
      requires Swept(spec, Now(), t) && t <= m.env.now
      modifies this
      ensures o.Some? ==> TurnOf(spec, p, m, deadline) == Ends(o.value)
      ensures o.None? ==> (
        var turn := TurnOf(spec, p, m, deadline);
        turn.Waits? && turn.deadline == due && Swept(turn.replica, Now(), m.env.now))
    {
      leader, draining, due := m.leader, m.draining, deadline;
      ghost var here, mid := At(spec, m), Now();
      if m.gone { return Some(Gone), due; }
      SweepIsHarmless(here, mid, p, t, m.env);
      var d := DecideNow(p, m.env);
      SweptOn(here, mid, Now(), t, m.env.now);
      match d {
        case Local => o := Some(Served(false));
        case Loop => o := Some(Looped);
        case Refuse => o := Some(Refused);
        case Forward(a) =>
          if m.dialOk { return Some(Forwarded(a)), due; }
          MarkUnreachable(a, m.dialEnds);
          o := None;
        case Hold =>
          if due.None? { due := Some(m.env.now + holdMs); }
          o := if m.env.now >= due.value || draining then Some(if draining then Refused else Served(true)) else None;
      }
    }
  }

  // ---- a request's way through the replicas --------------------------------------------------------

  /** A replica the request reaches, with whatever it believes then. */
  datatype Visit = Visit(replica: Replica, env: Env)

  predicate CleanIds(way: seq<Visit>) { forall i :: 0 <= i < |way| ==> Clean(way[i].replica.id) }

  /** The request, carrying these headers, is forwarded from each replica of the way to the next.
      Where an address leads is anyone's guess: the next replica can be any at all. `proven`: whether
      the proofs minted on the way verify where they arrive. */
  predicate Travels(h: Headers, way: seq<Visit>, proven: bool)
    decreases |way|
  {
    |way| <= 1 || (
      var v := way[0];
      var p := Verified(h, v.replica.id);
      Decide(v.replica, p, v.env).Forward?
      && Travels(HopHeaders(p.hops, v.replica.id, true, proven), way[1..], proven))
  }

  /** The replicas that forwarded, in order. */
  function Forwarders(way: seq<Visit>): seq<Id> {
    if |way| <= 1 then [] else [way[0].replica.id] + Forwarders(way[1..])
  }

  function Carried(hops: seq<Id>): Headers {
    if hops == [] then Headers(None, true, true) else Headers(Some(Joined(hops)), true, true)
  }

  predicate NoRepeats(s: seq<Id>) { forall i, j :: 0 <= i < j < |s| ==> s[i] != s[j] }

  lemma CarriedReads(hops: seq<Id>, self: Id)
    requires forall i :: 0 <= i < |hops| ==> Clean(hops[i])
    ensures Verified(Carried(hops), self) == if hops != [] && hops[|hops| - 1] == self then Proof([], true) else Proof(hops, false)
  {
    HopListRoundTrip(hops);
    assert Parsed("") == [];
  }

  /** A forward is only ever made by a replica not yet on the list, while there is room on it. */
  lemma ForwardNeedsRoom(r: Replica, p: Proof, env: Env)
    requires Decide(r, p, env).Forward?
    ensures !p.loop && r.id !in p.hops && |p.hops| < MAX_HOPS && r.leader.Some? && r.leader.value.replica !in p.hops
    ensures r.leader.value.replica != r.id
  {
  }

  /** With proofs that verify, whatever each replica believes and wherever addresses lead: the list
      stays free of repeats and at most two long, and no replica forwards the request twice. */
  lemma {:induction false} ForwardingIsBounded(hops: seq<Id>, way: seq<Visit>)
    requires NoRepeats(hops) && |hops| <= MAX_HOPS && forall i :: 0 <= i < |hops| ==> Clean(hops[i])
    requires CleanIds(way) && Travels(Carried(hops), way, true)
    ensures NoRepeats(hops + Forwarders(way)) && |hops + Forwarders(way)| <= MAX_HOPS
    decreases |way|
  {
    if |way| <= 1 {
      assert hops + [] == hops;
    } else {
      var id := way[0].replica.id;
      ForwardAddsHop(hops, way[0]);
      ForwardingIsBounded(hops + [id], way[1..]);
      Reassoc(hops, [id], Forwarders(way[1..]));
    }
  }

  lemma ForwardAddsHop(hops: seq<Id>, v: Visit)
    requires NoRepeats(hops) && Clean(v.replica.id) && forall i :: 0 <= i < |hops| ==> Clean(hops[i])
    requires Decide(v.replica, Verified(Carried(hops), v.replica.id), v.env).Forward?
    ensures var more := hops + [v.replica.id];
            Verified(Carried(hops), v.replica.id).hops == hops && HopHeaders(hops, v.replica.id, true, true) == Carried(more)
            && NoRepeats(more) && |more| <= MAX_HOPS && forall i :: 0 <= i < |more| ==> Clean(more[i])
  {
    CarriedReads(hops, v.replica.id);
    ForwardNeedsRoom(v.replica, Verified(Carried(hops), v.replica.id), v.env);
  }

  /** A request fresh from a client: at most two forwards, by two different replicas. */
  lemma ClientRequestIsBounded(way: seq<Visit>)
    requires CleanIds(way) && Travels(Headers(None, true, true), way, true)
    ensures |way| <= MAX_HOPS + 1 && NoRepeats(Forwarders(way))
  {
    ForwardingIsBounded([], way);
    assert [] + Forwarders(way) == Forwarders(way);
    ForwardersCount(way);
  }

  lemma {:induction false} ForwardersCount(way: seq<Visit>)
    ensures |way| >= 1 ==> |Forwarders(way)| == |way| - 1
  {
    if |way| > 1 { ForwardersCount(way[1..]); }
  }

  /** A forward that reaches its own sender is answered 508 unless that replica may now serve. */
  lemma OwnProofIsRefused(hops: seq<Id>, r: Replica, env: Env)
    requires Clean(r.id) && forall i :: 0 <= i < |hops| ==> Clean(hops[i])
    ensures var d := Decide(r, Verified(HopHeaders(hops, r.id, true, true), r.id), env);
            d == if !env.enabled || env.localPath || env.canServe then Local else Loop
  {
    NextReplicaKnows(hops, r.id, r.id);
  }

  /** With proofs that do not verify the list is ignored: one replica whose leader entry leads back to
      itself forwards the same request any number of times. */
  lemma {:induction false} IgnoredProofsForwardForever(v: Visit, h: Headers, n: nat)
    requires Verified(h, v.replica.id) == Proof([], false) && Decide(v.replica, Proof([], false), v.env).Forward?
    ensures Travels(h, seq(n, _ => v), false)
    decreases n
  {
    if n > 1 {
      IgnoredProofsForwardForever(v, HopHeaders([], v.replica.id, true, false), n - 1);
      assert seq(n, _ => v)[1..] == seq(n - 1, _ => v);
    }
  }

  // ---- the wait ------------------------------------------------------------------------------------

  /** One turn of the waiting loop: what the replica finds when it looks, and how a dial would end. */
  datatype Moment = Moment(gone: bool, env: Env, leader: Option<Leader>, draining: bool, dialOk: bool, dialEnds: nat)

  datatype Outcome = Gone | Served(degraded: bool) | Looped | Refused | Forwarded(addr: Addr)

  function At(r: Replica, m: Moment): Replica { r.(leader := m.leader, draining := m.draining) }

  function Marked(r: Replica, a: Addr, at: nat): Replica { r.(unreachable := r.unreachable[a := at + r.cooldownMs]) }

  datatype Turn = Ends(outcome: Outcome) | Waits(replica: Replica, deadline: Option<nat>)

  function TurnOf(r: Replica, p: Proof, m: Moment, deadline: Option<nat>): Turn {
    if m.gone then Ends(Gone)
    else match Decide(At(r, m), p, m.env)
      case Local => Ends(Served(false))
      case Loop => Ends(Looped)
      case Refuse => Ends(Refused)
      case Forward(a) => if m.dialOk then Ends(Forwarded(a)) else Waits(Marked(At(r, m), a, m.dialEnds), deadline)
      case Hold =>
        var due := if deadline.Some? then deadline.value else m.env.now + r.holdMs;
        if m.env.now >= due || m.draining then Ends(if m.draining then Refused else Served(true))
        else Waits(At(r, m), Some(due))
  }

  /** The loop over these moments; none while it is still waiting after the last. */
  ghost function Routed(r: Replica, p: Proof, ms: seq<Moment>, deadline: Option<nat>): Option<Outcome>
    decreases |ms|
  {
    if ms == [] then None
    else
      match TurnOf(r, p, ms[0], deadline)
      case Ends(o) => Some(o)
      case Waits(r', d') => Routed(r', p, ms[1..], d')
  }

  /** What a moment's leader entry offers, cooldowns aside: an address to dial. */
  function Offer(r: Replica, p: Proof, m: Moment): Option<Addr> {
    match Decide(At(r, m).(unreachable := map[]), p, m.env)
    case Forward(a) => Some(a)
    case _ => None
  }

  /** Until when an address is on cooldown at turn i: by the latest earlier turn that offered it, else as
      it was when the wait began. */
  function CoolUntil(r: Replica, p: Proof, ms: seq<Moment>, i: nat, a: Addr): nat
    requires i <= |ms|
  {
    if i == 0 then (if a in r.unreachable then r.unreachable[a] else 0)
    else if Offer(r, p, ms[i - 1]) == Some(a) then ms[i - 1].dialEnds + r.cooldownMs
    else CoolUntil(r, p, ms, i - 1, a)
  }

  /** Turn i finds a leader to dial, not on cooldown, and the dial fails. */
  predicate DialFails(r: Replica, p: Proof, ms: seq<Moment>, i: nat)
    requires i < |ms|
  {
    var m := ms[i];
    !m.gone && !m.dialOk && var o := Offer(r, p, m); o.Some? && CoolUntil(r, p, ms, i, o.value) <= m.env.now
  }

  /** The decision is the offer, unless that is on cooldown. */
  lemma OfferDecides(r: Replica, p: Proof, m: Moment)
    ensures var d, o := Decide(At(r, m), p, m.env), Offer(r, p, m);
            d.Forward? <==> o.Some? && !(o.value in r.unreachable && m.env.now < r.unreachable[o.value])
    ensures Decide(At(r, m), p, m.env).Forward? ==> Decide(At(r, m), p, m.env).addr == Offer(r, p, m).value
  {
  }

  lemma OfferIsSteady(r: Replica, p: Proof, m: Moment, k: Moment, a: Addr, at: nat)
    ensures Offer(Marked(At(r, k), a, at), p, m) == Offer(r, p, m)
  {
  }

  /** Cooldowns seen from the second turn on, the first having dialled. */
  lemma {:induction false} CoolUntilLater(r: Replica, p: Proof, ms: seq<Moment>, i: nat, a: Addr)
    requires 1 <= i <= |ms| && Offer(r, p, ms[0]).Some?
    ensures var a0 := Offer(r, p, ms[0]).value;
            CoolUntil(r, p, ms, i, a) == CoolUntil(Marked(At(r, ms[0]), a0, ms[0].dialEnds), p, ms[1..], i - 1, a)
  {
    var a0 := Offer(r, p, ms[0]).value;
    if i > 1 {
      CoolUntilLater(r, p, ms, i - 1, a);
      assert ms[1..][i - 2] == ms[i - 1];
      OfferIsSteady(r, p, ms[i - 1], ms[0], a0, ms[0].dialEnds);
    }
  }

  lemma DialFailsLater(r: Replica, p: Proof, ms: seq<Moment>, i: nat)
    requires 1 <= i < |ms| && Offer(r, p, ms[0]).Some?
    ensures DialFails(r, p, ms, i)
       <==> DialFails(Marked(At(r, ms[0]), Offer(r, p, ms[0]).value, ms[0].dialEnds), p, ms[1..], i - 1)
  {
    var a0 := Offer(r, p, ms[0]).value;
    OfferIsSteady(r, p, ms[i], ms[0], a0, ms[0].dialEnds);
    if Offer(r, p, ms[i]).Some? { CoolUntilLater(r, p, ms, i, Offer(r, p, ms[i]).value); }
  }

  lemma LateTurnExactly(r: Replica, p: Proof, ms: seq<Moment>, due: nat)
    requires ms != [] && ms[0].env.now >= due
    ensures TurnOf(r, p, ms[0], Some(due)).Waits? <==> DialFails(r, p, ms, 0)
    ensures DialFails(r, p, ms, 0) ==> (
      TurnOf(r, p, ms[0], Some(due)) == Waits(Marked(At(r, ms[0]), Offer(r, p, ms[0]).value, ms[0].dialEnds), Some(due)))
  {
    OfferDecides(r, p, ms[0]);
  }

  /** Past its deadline a wait is still going on exactly when every turn found a leader to dial, not on
      cooldown from the start or from an earlier turn, and every dial failed. */
  lemma {:induction false} WaitGoesOnExactly(r: Replica, p: Proof, ms: seq<Moment>, due: nat)
    requires forall i :: 0 <= i < |ms| ==> due <= ms[i].env.now
    ensures Routed(r, p, ms, Some(due)).None? <==> forall i :: 0 <= i < |ms| ==> DialFails(r, p, ms, i)
    decreases |ms|
  {
    if ms != [] {
      LateTurnExactly(r, p, ms, due);
      if DialFails(r, p, ms, 0) {
        var r' := Marked(At(r, ms[0]), Offer(r, p, ms[0]).value, ms[0].dialEnds);
        WaitGoesOnExactly(r', p, ms[1..], due);
        forall i | 1 <= i < |ms| ensures DialFails(r, p, ms, i) <==> DialFails(r', p, ms[1..], i - 1) {
          DialFailsLater(r, p, ms, i);
        }
        ShiftAll(r, r', p, ms);
      }
    }
  }

  lemma ShiftAll(r: Replica, r': Replica, p: Proof, ms: seq<Moment>)
    requires ms != [] && DialFails(r, p, ms, 0)
    requires forall i :: 1 <= i < |ms| ==> (DialFails(r, p, ms, i) <==> DialFails(r', p, ms[1..], i - 1))
    ensures (forall i :: 0 <= i < |ms| ==> DialFails(r, p, ms, i))
       <==> forall i :: 0 <= i < |ms| - 1 ==> DialFails(r', p, ms[1..], i)
  {
    if forall i :: 0 <= i < |ms| - 1 ==> DialFails(r', p, ms[1..], i) {
      forall i | 0 <= i < |ms| ensures DialFails(r, p, ms, i) {
        if i > 0 { assert DialFails(r', p, ms[1..], i - 1); }
      }
    }
    if forall i :: 0 <= i < |ms| ==> DialFails(r, p, ms, i) {
      forall i | 0 <= i < |ms| - 1 ensures DialFails(r', p, ms[1..], i) { assert DialFails(r, p, ms, i + 1); }
    }
  }

  /** In particular it ends within one turn more than there are addresses on offer, as long as none
      comes off cooldown meanwhile. */
  lemma {:induction false} FewLeadersEnd(r: Replica, p: Proof, ms: seq<Moment>, due: nat, addrs: set<Addr>)
    requires |ms| > |addrs| && forall i :: 0 <= i < |ms| ==> due <= ms[i].env.now
    requires forall i :: 0 <= i < |ms| ==> AllBefore(ms, ms[i].dialEnds + r.cooldownMs)
    requires forall i :: 0 <= i < |ms| ==> OffersAmong(r, p, ms[i], addrs)
    ensures Routed(r, p, ms, Some(due)).Some?
  {
    WaitGoesOnExactly(r, p, ms, due);
    if forall i :: 0 <= i < |ms| ==> DialFails(r, p, ms, i) {
      var dialled := Dialled(r, p, ms, |ms|, addrs);
      SubsetIsSmaller(dialled, addrs);
    }
  }

  /** Every turn comes before this time. */
  predicate AllBefore(ms: seq<Moment>, t: nat) { forall k :: 0 <= k < |ms| ==> ms[k].env.now < t }

  predicate OffersAmong(r: Replica, p: Proof, m: Moment, addrs: set<Addr>) {
    Offer(r, p, m).Some? ==> Offer(r, p, m).value in addrs
  }

  lemma SubsetIsSmaller(a: set<Addr>, b: set<Addr>)
    requires a <= b
    ensures |a| <= |b|
  {
    if a != {} {
      var x :| x in a;
      SubsetIsSmaller(a - {x}, b - {x});
    }
  }

  lemma StillCooling(r: Replica, p: Proof, ms: seq<Moment>, n: nat, a: Addr, b: Addr)
    requires 1 <= n <= |ms| && Offer(r, p, ms[n - 1]) == Some(a) && AllBefore(ms, ms[n - 1].dialEnds + r.cooldownMs)
    requires b == a || AllBefore(ms, CoolUntil(r, p, ms, n - 1, b))
    ensures AllBefore(ms, CoolUntil(r, p, ms, n, b))
  {
  }

  /** The n-th turn dials an address none of the earlier ones has dialled. */
  lemma DialledNext(r: Replica, p: Proof, ms: seq<Moment>, n: nat, e: set<Addr>) returns (a: Addr)
    requires 1 <= n <= |ms| && DialFails(r, p, ms, n - 1) && AllBefore(ms, ms[n - 1].dialEnds + r.cooldownMs)
    requires forall b :: b in e ==> AllBefore(ms, CoolUntil(r, p, ms, n - 1, b))
    ensures Offer(r, p, ms[n - 1]) == Some(a) && a !in e
    ensures forall b :: b in e + {a} ==> AllBefore(ms, CoolUntil(r, p, ms, n, b))
  {
    a := Offer(r, p, ms[n - 1]).value;
    forall b | b in e + {a} ensures AllBefore(ms, CoolUntil(r, p, ms, n, b)) { StillCooling(r, p, ms, n, a, b); }
  }

  /** The addresses of the first n turns, all different: each is on cooldown once dialled. */
  lemma {:induction false} Dialled(r: Replica, p: Proof, ms: seq<Moment>, n: nat, addrs: set<Addr>) returns (d: set<Addr>)
    requires n <= |ms| && forall i :: 0 <= i < |ms| ==> DialFails(r, p, ms, i) && OffersAmong(r, p, ms[i], addrs)
    requires forall i :: 0 <= i < |ms| ==> AllBefore(ms, ms[i].dialEnds + r.cooldownMs)
    ensures d <= addrs && |d| == n
    ensures forall a :: a in d ==> AllBefore(ms, CoolUntil(r, p, ms, n, a))
  {
    if n == 0 {
      d := {};
    } else {
      var e := Dialled(r, p, ms, n - 1, addrs);
      var a := DialledNext(r, p, ms, n, e);
      assert OffersAmong(r, p, ms[n - 1], addrs);
      d := e + {a};
    }
  }

  /** Every ending is one of: served, forwarded, refused, answered 508, client gone; a draining replica
      never serves after a hold, and our own proof is never forwarded, held or served by a non-leader. */
  lemma {:induction false} EndingsAreSafe(r: Replica, p: Proof, ms: seq<Moment>, deadline: Option<nat>)
    requires forall i :: 0 <= i < |ms| ==> ms[i].env.enabled && !ms[i].env.localPath && !ms[i].env.canServe
    ensures p.loop && ms != [] ==> Routed(r, p, ms, deadline) == Some(if ms[0].gone then Gone else Looped)
    ensures (forall i :: 0 <= i < |ms| ==> ms[i].draining) ==> Routed(r, p, ms, deadline) != Some(Served(true))
    decreases |ms|
  {
    if ms != [] && TurnOf(r, p, ms[0], deadline).Waits? {
      var turn := TurnOf(r, p, ms[0], deadline);
      EndingsAreSafe(turn.replica, p, ms[1..], turn.deadline);
    }
  }

  function Letters(n: nat): (s: string)
    ensures |s| == n
  {
    seq(n, _ => 'x')
  }

  /** A turn that finds a leader at an address never seen before, and cannot dial it. */
  function NewLeader(k: nat): Moment {
    Moment(false, Env(k, true, false, false, true, false), Some(Leader("other", Some(Letters(k)), k)), false, false, k)
  }

  function NewLeaders(k: nat, n: nat): (ms: seq<Moment>)
    ensures |ms| == n
    decreases n
  {
    if n == 0 then [] else [NewLeader(k)] + NewLeaders(k + 1, n - 1)
  }

  lemma NewLeaderIsDialled(r: Replica, k: nat, deadline: Option<nat>)
    requires r.id != "other" && r.ttlMs > 0 && r.endpoint.None? && r.aliases == map[]
    requires forall a :: a in r.unreachable ==> |a| < k
    ensures TurnOf(r, Proof([], false), NewLeader(k), deadline) == Waits(Marked(At(r, NewLeader(k)), Letters(k), k), deadline)
  {
  }

  /** The wait has no bound of its own: leaders at ever new dead addresses keep it going for any number
      of turns, however long past its deadline. */
  lemma {:induction false} EverNewLeadersNeverEnd(r: Replica, k: nat, n: nat, due: nat)
    requires r.id != "other" && r.ttlMs > 0 && r.endpoint.None? && r.aliases == map[]
    requires forall a :: a in r.unreachable ==> |a| < k
    ensures Routed(r, Proof([], false), NewLeaders(k, n), Some(due)).None?
    decreases n
  {
    if n > 0 {
      NewLeaderIsDialled(r, k, Some(due));
      EverNewLeadersNeverEnd(Marked(At(r, NewLeader(k)), Letters(k), k), k + 1, n - 1, due);
      assert NewLeaders(k, n)[1..] == NewLeaders(k + 1, n - 1);
    }
  }
}
