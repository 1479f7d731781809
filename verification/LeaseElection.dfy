/** The whole election as a transition system: any number of replicas, one Lease, one shared
    clock, and a network whose requests may be served late, answered late, lost, or time out on
    the caller and still land. Ticks overlap freely. */
module LeaseElection {
  import opened Basics
  import opened Elector

  /** `heard` is false once the caller gave up on a write that may still land. */
  datatype Msg =
    | Get(r: Id, release: bool)
    | GetReply(r: Id, release: bool, obs: Lease)
    | Put(r: Id, w: Write, heard: bool)
    | PutReply(r: Id, w: Write, ok: bool)

  datatype State = State(clock: int, lease: Lease, reps: map<Id, Rep>, net: map<nat, Msg>)

  datatype Step =
    | Advance(dt: nat)
    | Boot(r: Id, durMs: int, renewDeadlineMs: int)
    | Reboot(r: Id)
    | SetCanLead(r: Id, b: bool)
    | TickStart(r: Id, i: nat)
    | Serve(i: nat)
    | Fail(i: nat)
    | Deliver(i: nat, j: nat)
    | StopReplica(r: Id)
    | ReleaseStart(r: Id, i: nat)

  predicate Init(s: State) {
    && s.clock >= 0 && s.reps == map[] && s.net == map[]
    && (s.lease.Lease? ==> s.lease.version > 0 && (s.lease.renew.Some? ==> s.lease.renew.value <= s.clock))
  }

  predicate Enabled(s: State, st: Step) {
    match st
    case Advance(_) => true
    case Boot(r, d, _) => r !in s.reps && d >= 1
    case Reboot(r) => r in s.reps
    case SetCanLead(r, _) => r in s.reps
    case TickStart(r, i) => r in s.reps && !s.reps[r].closed && i !in s.net
    case Serve(i) => i in s.net && (s.net[i].Get? || s.net[i].Put?)
    case Fail(i) => i in s.net && s.net[i].r in s.reps
    case Deliver(i, j) =>
      && i in s.net && (s.net[i].GetReply? || s.net[i].PutReply?)
      && s.net[i].r in s.reps && (j !in s.net || j == i)
    case StopReplica(r) => r in s.reps
    case ReleaseStart(r, i) => r in s.reps && i !in s.net
  }

  /** The API server: optimistic PUT and POST. */
  predicate Lands(lease: Lease, w: Write) {
    if w.kind == Create then lease.Absent? else lease.Lease? && lease.version == w.rv
  }

  function Landed(lease: Lease, w: Write): Lease {
    Lease(Ver(lease) + 1, w.holder, Some(w.renew), w.durS)
  }

  predicate Elects(w: Write) { w.kind == Renew || w.kind == Acquire || w.kind == Create }

  /** A process dies and one with its identity takes its place: answers to the old one are lost, and a
      write of it not yet served may still land unheard. A release's and an abstain's are the same body. */
  function Orphaned(net: map<nat, Msg>, r: Id): map<nat, Msg> {
    map i | i in net && (net[i].r != r || net[i].Put?) :: Orphan(net[i], r)
  }

  function Orphan(m: Msg, r: Id): Msg {
    if m.r != r || !m.Put? then m
    else m.(heard := false, w := if m.w.kind == Release then m.w.(kind := Abstain) else m.w)
  }

  function Apply(s: State, st: Step): State
    requires Enabled(s, st)
  {
    match st
    case Advance(dt) => s.(clock := s.clock + dt)
    case Boot(r, d, rd) => s.(reps := s.reps[r := Rep(d, rd, false, 0, false, true, [])])
    case Reboot(r) =>
      s.(reps := s.reps[r := Rep(s.reps[r].durMs, s.reps[r].renewDeadlineMs, false, 0, false, true, [])], net := Orphaned(s.net, r))
    case SetCanLead(r, b) => s.(reps := s.reps[r := s.reps[r].(canLead := b)])
    case TickStart(r, i) => s.(net := s.net[i := Get(r, false)])
    case Serve(i) => AfterServe(s, i)
    case Fail(i) => AfterFail(s, i)
    case Deliver(i, j) => AfterDeliver(s, i, j)
    case StopReplica(r) => s.(reps := s.reps[r := s.reps[r].(closed := true)])
    case ReleaseStart(r, i) =>
      var s' := s.(reps := s.reps[r := s.reps[r].(closed := true)]);
      if s.reps[r].leader then s'.(net := s.net[i := Get(r, true)]) else s'
  }

  function AfterServe(s: State, i: nat): State
    requires Enabled(s, Serve(i))
  {
    var m := s.net[i];
    if m.Get? then s.(net := s.net[i := GetReply(m.r, m.release, s.lease)])
    else
      var ok := Lands(s.lease, m.w);
      s.(lease := if ok then Landed(s.lease, m.w) else s.lease,
         net := if m.heard then s.net[i := PutReply(m.r, m.w, ok)] else s.net - {i})
  }

  /** The request throws at its caller. A write not yet served may still land later. */
  function AfterFail(s: State, i: nat): State
    requires Enabled(s, Fail(i))
  {
    var m := s.net[i];
    var e := s.reps[m.r];
    var net := if m.Put? then s.net[i := m.(heard := false)] else s.net - {i};
    var e' := match m
      case Get(_, release) => if release then e.(leader := false) else AfterMaybeExpire(e, s.clock)
      case GetReply(_, release, _) => if release then e.(leader := false) else AfterMaybeExpire(e, s.clock)
      case Put(_, w, heard) => if w.kind == Release && heard then e.(leader := false) else e
      case PutReply(_, w, _) => if w.kind == Release then e.(leader := false) else e;
    s.(net := net, reps := s.reps[m.r := e'])
  }

  function AfterDeliver(s: State, i: nat, j: nat): State
    requires Enabled(s, Deliver(i, j))
  {
    var m := s.net[i];
    var e := s.reps[m.r];
    if m.PutReply? then
      s.(net := s.net - {i}, reps := s.reps[m.r := AfterWrite(e, m.w, m.ok, s.clock)])
    else if m.release then
      if m.obs.Lease? && m.obs.holder == m.r then
        var w := Write(Release, m.obs.version, m.r, s.clock - e.durMs - 1000, m.obs.durS, s.clock);
        s.(net := (s.net - {i})[j := Put(m.r, w, true)])
      else
        s.(net := s.net - {i}, reps := s.reps[m.r := e.(leader := false)])
    else
      var (e', put) := AfterRead(m.r, e, m.obs, s.clock);
      var net := s.net - {i};
      s.(net := if put.Some? then net[j := Put(m.r, put.value, true)] else net, reps := s.reps[m.r := e'])
  }

  predicate Legal(s: State, run: seq<Step>)
    decreases |run|
  {
    run != [] ==> Enabled(s, run[0]) && Legal(Apply(s, run[0]), run[1..])
  }

  function Exec(s: State, run: seq<Step>): State
    requires Legal(s, run)
    decreases |run|
  {
    if run == [] then s else Exec(Apply(s, run[0]), run[1..])
  }

  /** The stamp an answer would give its replica, and whether it is still within the window. */
  function Stamp(e: Rep, w: Write): int { Max(w.at, e.lastRenew) }

  /** An answer that would make `r` lead if it came while `r` may. */
  predicate Arms(s: State, m: Msg, r: Id) {
    && m.PutReply? && m.r == r && m.ok && Elects(m.w)
    && r in s.reps && !s.reps[r].closed && s.clock - Stamp(s.reps[r], m.w) <= Window(s.reps[r])
  }

  /** An abstain that still lands if it is served now. */
  predicate LiveAbstain(s: State, m: Msg) {
    && m.Put? && m.w.kind == Abstain && m.w.rv == Ver(s.lease)
    && m.r in s.reps && !s.reps[m.r].closed
  }

  predicate AbstainPending(s: State, r: Id) {
    exists k :: k in s.net && LiveAbstain(s, s.net[k]) && s.net[k].r == r
  }

  /** Such an answer while the Lease no longer bears it out, or an abstain is about to take it back. */
  predicate Dangerous(s: State, m: Msg, r: Id) {
    Arms(s, m, r) && (
      !Holds(s.lease, r, LeaseSeconds(s.reps[r].durMs), Stamp(s.reps[r], m.w)) || AbstainPending(s, r))
  }

  /** The environment's one obligation: `canLead` comes back only when no such answer is on its way. */
  predicate Orderly(s: State, st: Step) {
    st.SetCanLead? && st.b ==> forall i :: i in s.net ==> !Dangerous(s, s.net[i], st.r)
  }

  predicate OrderlyRun(s: State, run: seq<Step>)
    requires Legal(s, run)
    decreases |run|
  {
    run != [] ==> Orderly(s, run[0]) && OrderlyRun(Apply(s, run[0]), run[1..])
  }

  predicate Leader(s: State, r: Id) {
    r in s.reps && !s.reps[r].closed && Leads(s.reps[r], s.clock)
  }

  ghost predicate AtMostOneLeader(s: State) {
    forall a, b :: Leader(s, a) && Leader(s, b) ==> a == b
  }

  // ---- the inductive invariant ------------------------------------------------

  /** The Lease is `r`'s, renewed at `t` or later, at the duration `r` advertises. */
  predicate Holds(l: Lease, r: Id, own: int, t: int) {
    && l.Lease? && l.holder == r && l.durS == own
    && l.renew.Some? && l.renew.value >= t
  }

  /** There is a Lease, and if it is `r`'s it is of the duration `r` advertises. */
  predicate Owned(l: Lease, r: Id, own: int) {
    l.Lease? && (l.holder == r ==> l.durS == own && l.renew.Some?)
  }

  predicate RepOk(clock: int, l: Lease, r: Id, e: Rep) {
    && 0 <= e.lastRenew <= clock
    && (e.leader ==> Owned(l, r, LeaseSeconds(e.durMs)))
    && (!e.closed && Leads(e, clock) ==> Holds(l, r, LeaseSeconds(e.durMs), e.lastRenew))
  }

  /** What an unserved write still guarantees if the Lease has not moved since it was read. */
  predicate WriteOk(clock: int, l: Lease, r: Id, e: Rep, w: Write) {
    && w.holder == r && w.rv <= Ver(l) && w.at <= clock
    && (Elects(w) ==> w.renew == w.at && w.durS == LeaseSeconds(e.durMs))
    && (!Elects(w) ==> w.renew <= w.at - e.durMs - 1000)
    && (w.kind == Create ==> w.rv == 0)
    && (w.kind == Release ==> e.closed)
    && (w.rv == Ver(l) ==>
      && (Elects(w) ==> e.lastRenew <= w.at)
      && (w.kind == Create <==> l.Absent?)
      && (w.kind == Renew ==> l.holder == r && (l.renew.Some? ==> l.renew.value <= w.at))
      && (w.kind == Acquire ==> l.holder != r && Expired(l, w.at, LeaseSeconds(e.durMs)))
      && (!Elects(w) ==> l.holder == r && w.durS == l.durS)
      && (w.kind == Abstain && !e.closed ==> !e.leader))
  }

  /** What an answer on its way guarantees: an electing one that landed is borne out by the Lease as
      long as it could make its replica lead. */
  predicate ReplyOk(clock: int, l: Lease, r: Id, e: Rep, w: Write, ok: bool) {
    && w.at <= clock
    && (Elects(w) && ok ==> Owned(l, r, LeaseSeconds(e.durMs)))
    && (Elects(w) && ok && !e.closed && e.canLead && clock - Stamp(e, w) <= Window(e) ==>
      Holds(l, r, LeaseSeconds(e.durMs), Stamp(e, w)))
  }

  predicate MsgOk(s: State, m: Msg) {
    && m.r in s.reps
    && var e := s.reps[m.r];
    match m
    case Get(_, release) => release ==> e.closed
    case GetReply(_, release, obs) =>
      && (release ==> e.closed)
      && Ver(obs) <= Ver(s.lease) && (Ver(obs) == Ver(s.lease) ==> obs == s.lease)
    case Put(r, w, _) => WriteOk(s.clock, s.lease, r, e, w)
    case PutReply(r, w, ok) => ReplyOk(s.clock, s.lease, r, e, w, ok)
  }

  /** No answer that could make `r` lead is on its way. */
  ghost predicate Disarmed(s: State, r: Id) {
    forall i :: i in s.net ==> !Arms(s, s.net[i], r)
  }

  /** An abstain of a replica that may lead again, and could take the Lease from it. */
  predicate Retracts(s: State, m: Msg) { LiveAbstain(s, m) && s.reps[m.r].canLead }

  ghost predicate Inv(s: State) {
    && s.clock >= 0
    && (s.lease.Lease? ==> s.lease.version > 0)
    && (s.lease.Lease? && s.lease.renew.Some? ==> s.lease.renew.value <= s.clock)
    && (forall r :: r in s.reps ==> s.reps[r].durMs >= 1 && RepOk(s.clock, s.lease, r, s.reps[r]))
    && (forall i :: i in s.net ==> MsgOk(s, s.net[i]))
    && (forall i :: i in s.net && Retracts(s, s.net[i]) ==> Disarmed(s, s.net[i].r))
  }

  // ---- every step keeps it ----------------------------------------------------

  lemma InvAdvance(s: State, dt: nat)
    requires Inv(s)
    ensures Inv(Apply(s, Advance(dt)))
  {
    var s' := Apply(s, Advance(dt));
    forall i | i in s'.net ensures MsgOk(s', s'.net[i]) { assert MsgOk(s, s.net[i]); }
    forall i | i in s'.net && Retracts(s', s'.net[i]) ensures Disarmed(s', s'.net[i].r) {
      assert Retracts(s, s.net[i]);
      forall k | k in s'.net ensures !Arms(s', s'.net[k], s'.net[i].r) { assert !Arms(s, s.net[k], s.net[i].r); }
    }
  }

  /** A step that leaves the Lease and the clock alone and changes one replica only by clearing
      its flag, closing it, or moving `canLead` keeps everything but the network clauses. */
  predicate Quieter(e: Rep, e': Rep) {
    && e'.durMs == e.durMs && e'.lastRenew == e.lastRenew
    && (e'.leader ==> e.leader) && (e.closed ==> e'.closed)
  }

  lemma MsgQuieter(s: State, s': State, r: Id, m: Msg, m': Msg)
    requires MsgOk(s, m) && r in s.reps && r in s'.reps
    requires s'.clock == s.clock && s'.lease == s.lease
    requires s'.reps == s.reps[r := s'.reps[r]] && Quieter(s.reps[r], s'.reps[r])
    requires m' == m || (m.Put? && m' == m.(heard := false))
    requires s'.reps[r].canLead && !s.reps[r].canLead ==> !Dangerous(s, m, r)
    ensures MsgOk(s', m')
    ensures LiveAbstain(s', m') ==> LiveAbstain(s, m)
    ensures forall x :: Arms(s', m', x) ==> Arms(s, m, x)
  {
  }

  lemma InvQuieter(s: State, s': State, r: Id)
    requires Inv(s) && r in s.reps && r in s'.reps
    requires s'.clock == s.clock && s'.lease == s.lease
    requires s'.reps == s.reps[r := s'.reps[r]] && Quieter(s.reps[r], s'.reps[r])
    requires forall i :: i in s'.net ==>
      (i in s.net && (s'.net[i] == s.net[i] || (s.net[i].Put? && s'.net[i] == s.net[i].(heard := false))))
    requires s'.reps[r].canLead && !s.reps[r].canLead ==> forall i :: i in s.net ==> !Dangerous(s, s.net[i], r)
    ensures Inv(s')
  {
    forall i | i in s'.net
      ensures MsgOk(s', s'.net[i]) && (LiveAbstain(s', s'.net[i]) ==> LiveAbstain(s, s.net[i]))
      ensures forall x :: Arms(s', s'.net[i], x) ==> Arms(s, s.net[i], x)
    {
      MsgQuieter(s, s', r, s.net[i], s'.net[i]);
    }
    forall i | i in s'.net && Retracts(s', s'.net[i]) ensures Disarmed(s', s'.net[i].r) {
      forall k | k in s'.net ensures !Arms(s', s'.net[k], s'.net[i].r) { ReturnIsDisarmed(s, s', r, i, k); }
    }
    forall a | a in s'.reps ensures s'.reps[a].durMs >= 1 && RepOk(s'.clock, s'.lease, a, s'.reps[a]) {
      assert RepOk(s.clock, s.lease, a, s.reps[a]);
    }
  }

  lemma ReturnIsDisarmed(s: State, s': State, r: Id, i: nat, k: nat)
    requires Inv(s) && r in s.reps && r in s'.reps && i in s.net && i in s'.net && k in s.net && s'.net[i].r == s.net[i].r
    requires s'.reps == s.reps[r := s'.reps[r]]
    requires LiveAbstain(s, s.net[i]) && Retracts(s', s'.net[i])
    requires s'.reps[r].canLead && !s.reps[r].canLead ==> forall n :: n in s.net ==> !Dangerous(s, s.net[n], r)
    ensures !Arms(s, s.net[k], s.net[i].r)
  {
    if s.reps[s.net[i].r].canLead {
      assert Retracts(s, s.net[i]);
    } else {
      assert s.net[i].r == r && AbstainPending(s, r) && !Dangerous(s, s.net[k], r);
    }
  }

  /** A fresh message that is not a reply joins the network. */
  lemma InvSend(s: State, j: nat, m: Msg)
    requires Inv(s) && j !in s.net && !m.PutReply? && MsgOk(s, m) && !Retracts(s, m)
    ensures Inv(s.(net := s.net[j := m]))
  {
    var s' := s.(net := s.net[j := m]);
    forall i | i in s'.net ensures MsgOk(s', s'.net[i]) { if i != j { assert MsgOk(s, s.net[i]); } }
    forall i | i in s'.net && Retracts(s', s'.net[i]) ensures Disarmed(s', s'.net[i].r) {
      assert Retracts(s, s.net[i]);
      forall k | k in s'.net ensures !Arms(s', s'.net[k], s'.net[i].r) {
        if k != j { assert !Arms(s, s.net[k], s'.net[i].r); }
      }
    }
  }

  lemma InvBoot(s: State, r: Id, d: int, rd: int)
    requires Inv(s) && Enabled(s, Boot(r, d, rd))
    ensures Inv(Apply(s, Boot(r, d, rd)))
  {
    var s' := Apply(s, Boot(r, d, rd));
    forall i | i in s'.net ensures MsgOk(s', s'.net[i]) { assert MsgOk(s, s.net[i]); }
    forall i | i in s'.net && Retracts(s', s'.net[i]) ensures Disarmed(s', s'.net[i].r) {
      assert MsgOk(s, s.net[i]) && Retracts(s, s.net[i]);
      forall k | k in s'.net ensures !Arms(s', s'.net[k], s'.net[i].r) {
        assert MsgOk(s, s.net[k]) && !Arms(s, s.net[k], s.net[i].r);
      }
    }
  }

  /** A write of the dead process still pins the Lease it read, if that has not moved. */
  lemma OrphanOk(s: State, r: Id, m: Msg)
    requires MsgOk(s, m) && r in s.reps && RepOk(s.clock, s.lease, r, s.reps[r]) && (m.r == r ==> m.Put?)
    ensures MsgOk(Apply(s, Reboot(r)), Orphan(m, r))
    ensures Retracts(Apply(s, Reboot(r)), Orphan(m, r)) && m.r != r ==> Retracts(s, m)
    ensures forall x :: Arms(Apply(s, Reboot(r)), Orphan(m, r), x) ==> x != r && Arms(s, m, x)
  {
  }

  lemma InvReboot(s: State, r: Id)
    requires Inv(s) && Enabled(s, Reboot(r))
    ensures Inv(Apply(s, Reboot(r)))
  {
    var s' := Apply(s, Reboot(r));
    assert RepOk(s.clock, s.lease, r, s.reps[r]);
    forall i | i in s'.net
      ensures MsgOk(s', s'.net[i]) && (Retracts(s', s'.net[i]) && s'.net[i].r != r ==> Retracts(s, s.net[i]))
      ensures forall x :: Arms(s', s'.net[i], x) ==> x != r && Arms(s, s.net[i], x)
    {
      OrphanOk(s, r, s.net[i]);
    }
    forall i | i in s'.net && Retracts(s', s'.net[i]) ensures Disarmed(s', s'.net[i].r) {
      forall k | k in s'.net ensures !Arms(s', s'.net[k], s'.net[i].r) {
        if s'.net[i].r != r { assert !Arms(s, s.net[k], s.net[i].r); }
      }
    }
  }

  lemma InvDrop(s: State, i: nat)
    requires Inv(s)
    ensures Inv(s.(net := s.net - {i}))
  {
    var s' := s.(net := s.net - {i});
    forall k | k in s'.net ensures MsgOk(s', s'.net[k]) { assert MsgOk(s, s.net[k]); }
    forall k | k in s'.net && Retracts(s', s'.net[k]) ensures Disarmed(s', s'.net[k].r) {
      assert Retracts(s, s.net[k]);
      forall n | n in s'.net ensures !Arms(s', s'.net[n], s'.net[k].r) { assert !Arms(s, s.net[n], s.net[k].r); }
    }
  }

  lemma InvFail(s: State, i: nat)
    requires Inv(s) && Enabled(s, Fail(i))
    ensures Inv(AfterFail(s, i))
  {
    assert MsgOk(s, s.net[i]);
    InvQuieter(s, AfterFail(s, i), s.net[i].r);
  }

  /** An electing write that lands cannot take the Lease from a replica that still leads, nor from
      one a reply on its way could still make lead. */
  lemma LandingKeepsReplica(s: State, i: nat, a: Id, t: int)
    requires Inv(s) && Enabled(s, Serve(i)) && s.net[i].Put? && Lands(s.lease, s.net[i].w)
    requires a in s.reps && s.clock - t <= Window(s.reps[a])
    requires Holds(s.lease, a, LeaseSeconds(s.reps[a].durMs), t)
    requires Elects(s.net[i].w)
    ensures Holds(Landed(s.lease, s.net[i].w), a, LeaseSeconds(s.reps[a].durMs), t)
  {
    assert MsgOk(s, s.net[i]);
  }

  /** Whoever lands, the Lease stays of the durations its holders advertise. */
  lemma LandingKeepsOwned(s: State, i: nat, a: Id)
    requires Inv(s) && Enabled(s, Serve(i)) && s.net[i].Put? && Lands(s.lease, s.net[i].w)
    requires a in s.reps && Owned(s.lease, a, LeaseSeconds(s.reps[a].durMs))
    ensures Owned(Landed(s.lease, s.net[i].w), a, LeaseSeconds(s.reps[a].durMs))
  {
    assert MsgOk(s, s.net[i]);
  }

  /** A write the API server refuses. */
  lemma InvServeRefused(s: State, i: nat)
    requires Inv(s) && Enabled(s, Serve(i)) && s.net[i].Put? && !Lands(s.lease, s.net[i].w)
    ensures Inv(AfterServe(s, i))
  {
    var s' := AfterServe(s, i);
    assert MsgOk(s, s.net[i]);
    forall k | k in s'.net ensures MsgOk(s', s'.net[k]) { assert MsgOk(s, s.net[k]); }
    forall k | k in s'.net && Retracts(s', s'.net[k]) ensures Disarmed(s', s'.net[k].r) {
      assert Retracts(s, s.net[k]);
      forall n | n in s'.net ensures !Arms(s', s'.net[n], s'.net[k].r) { assert !Arms(s, s.net[n], s.net[k].r); }
    }
  }

  lemma LandedReplicas(s: State, i: nat, a: Id)
    requires Inv(s) && Enabled(s, Serve(i)) && s.net[i].Put? && Lands(s.lease, s.net[i].w) && a in s.reps
    ensures RepOk(s.clock, AfterServe(s, i).lease, a, s.reps[a])
  {
    var e := s.reps[a];
    assert MsgOk(s, s.net[i]) && RepOk(s.clock, s.lease, a, e);
    if e.leader { LandingKeepsOwned(s, i, a); }
    if !e.closed && Leads(e, s.clock) && Elects(s.net[i].w) { LandingKeepsReplica(s, i, a, e.lastRenew); }
  }

  lemma InvServePut(s: State, i: nat)
    requires Inv(s) && Enabled(s, Serve(i)) && s.net[i].Put?
    ensures Inv(AfterServe(s, i))
  {
    if !Lands(s.lease, s.net[i].w) {
      InvServeRefused(s, i);
    } else {
      var s' := AfterServe(s, i);
      assert MsgOk(s, s.net[i]);
      forall a | a in s'.reps ensures RepOk(s'.clock, s'.lease, a, s'.reps[a]) { LandedReplicas(s, i, a); }
      forall k | k in s'.net ensures MsgOk(s', s'.net[k]) {
        assert MsgOk(s, s.net[k]);
        if k != i && s.net[k].PutReply? { ReplySurvives(s, i, k); }
      }
    }
  }

  lemma ReplySurvives(s: State, i: nat, k: nat)
    requires Inv(s) && Enabled(s, Serve(i)) && s.net[i].Put? && Lands(s.lease, s.net[i].w)
    requires k in s.net && s.net[k].PutReply?
    ensures var p := s.net[k];
      p.r in s.reps && ReplyOk(s.clock, Landed(s.lease, s.net[i].w), p.r, s.reps[p.r], p.w, p.ok)
  {
    var m, p := s.net[i], s.net[k];
    assert MsgOk(s, m) && MsgOk(s, p);
    var e := s.reps[p.r];
    if Elects(p.w) && p.ok {
      LandingKeepsOwned(s, i, p.r);
      if Arms(s, p, p.r) && e.canLead {
        assert m.w.kind == Abstain && m.r == p.r ==> Retracts(s, m);
        if Elects(m.w) { LandingKeepsReplica(s, i, p.r, Stamp(e, p.w)); }
      }
    }
  }

  /** Delivering a reply: the only step that can raise a replica's stamp. */
  lemma InvDeliverPut(s: State, i: nat, j: nat)
    requires Inv(s) && Enabled(s, Deliver(i, j)) && s.net[i].PutReply?
    ensures Inv(AfterDeliver(s, i, j))
  {
    var m := s.net[i];
    var e := s.reps[m.r];
    var s' := AfterDeliver(s, i, j);
    var e' := s'.reps[m.r];
    assert MsgOk(s, m);
    if Quieter(e, e') {
      InvQuieter(s, s', m.r);
    } else {
      assert Arms(s, m, m.r) && e.canLead;
      InvRaise(s, s', i);
    }
  }

  /** The stamp rises to the write's own, which the Lease still carries. */
  lemma InvRaise(s: State, s': State, i: nat)
    requires Inv(s) && i in s.net && s.net[i].PutReply? && Arms(s, s.net[i], s.net[i].r)
    requires s.reps[s.net[i].r].canLead
    requires s' == s.(net := s.net - {i}, reps := s.reps[s.net[i].r := AfterWrite(s.reps[s.net[i].r], s.net[i].w, true, s.clock)])
    ensures Inv(s')
  {
    var m := s.net[i];
    var e, e' := s.reps[m.r], s'.reps[m.r];
    assert MsgOk(s, m);
    var t := Stamp(e, m.w);
    assert e'.lastRenew == t && e'.leader && Holds(s.lease, m.r, LeaseSeconds(e.durMs), t);
    forall k | k in s'.net ensures !LiveAbstain(s', s'.net[k]) { NoneAbstains(s, s', i, k); }
    forall k | k in s'.net ensures MsgOk(s', s'.net[k]) { RaisedMsg(s, s', i, k); }
  }

  lemma RaisedMsg(s: State, s': State, i: nat, k: nat)
    requires Inv(s) && i in s.net && k in s.net && Arms(s, s.net[i], s.net[i].r) && s.reps[s.net[i].r].canLead
    requires s' == s.(net := s'.net, reps := s.reps[s.net[i].r := AfterWrite(s.reps[s.net[i].r], s.net[i].w, true, s.clock)])
    requires !LiveAbstain(s', s.net[k])
    ensures MsgOk(s', s.net[k])
  {
    assert MsgOk(s, s.net[i]) && MsgOk(s, s.net[k]);
  }

  /** While a reply can re-arm the replica, nobody's abstain still matches the Lease. */
  lemma NoneAbstains(s: State, s': State, i: nat, k: nat)
    requires Inv(s) && i in s.net && Arms(s, s.net[i], s.net[i].r) && s.reps[s.net[i].r].canLead && k in s.net
    requires s'.lease == s.lease && s'.reps.Keys == s.reps.Keys && forall r :: r in s.reps ==> s'.reps[r].closed == s.reps[r].closed
    ensures !LiveAbstain(s', s.net[k])
  {
    assert MsgOk(s, s.net[i]) && MsgOk(s, s.net[k]);
    assert LiveAbstain(s', s.net[k]) ==> LiveAbstain(s, s.net[k]);
    assert Retracts(s, s.net[k]) ==> !Arms(s, s.net[i], s.net[k].r);
  }

  lemma InvDeliverRelease(s: State, i: nat, j: nat)
    requires Inv(s) && Enabled(s, Deliver(i, j)) && s.net[i].GetReply? && s.net[i].release
    ensures Inv(AfterDeliver(s, i, j))
  {
    var m, s' := s.net[i], AfterDeliver(s, i, j);
    assert MsgOk(s, m);
    if m.obs.Lease? && m.obs.holder == m.r {
      InvDrop(s, i);
      InvSend(s.(net := s.net - {i}), j, s'.net[j]);
    } else {
      InvQuieter(s, s', m.r);
    }
  }

  lemma InvDeliverGet(s: State, i: nat, j: nat)
    requires Inv(s) && Enabled(s, Deliver(i, j)) && s.net[i].GetReply?
    ensures Inv(AfterDeliver(s, i, j))
  {
    var m := s.net[i];
    if m.release {
      InvDeliverRelease(s, i, j);
      return;
    }
    var e := s.reps[m.r];
    assert MsgOk(s, m);
    var (e', put) := AfterRead(m.r, e, m.obs, s.clock);
    var s1 := s.(net := s.net - {i}, reps := s.reps[m.r := e']);
    InvQuieter(s, s1, m.r);
    if put.Some? { InvSend(s1, j, Put(m.r, put.value, true)); }
  }

  lemma InvStep(s: State, st: Step)
    requires Inv(s) && Enabled(s, st) && Orderly(s, st)
    ensures Inv(Apply(s, st))
  {
    var s' := Apply(s, st);
    match st
    case Advance(dt) => InvAdvance(s, dt);
    case Boot(r, d, rd) => InvBoot(s, r, d, rd);
    case Reboot(r) => InvReboot(s, r);
    case SetCanLead(r, b) => InvQuieter(s, s', r);
    case TickStart(r, i) => InvSend(s, i, Get(r, false));
    case Serve(i) =>
      if s.net[i].Put? { InvServePut(s, i); }
      else {
        assert MsgOk(s, s.net[i]);
        InvDrop(s, i);
        var s1 := s.(net := s.net - {i});
        InvSend(s1, i, s'.net[i]);
        assert s1.net[i := s'.net[i]] == s'.net;
      }
    case Fail(i) => InvFail(s, i);
    case Deliver(i, j) => if s.net[i].PutReply? { InvDeliverPut(s, i, j); } else { InvDeliverGet(s, i, j); }
    case StopReplica(r) => InvQuieter(s, s', r);
    case ReleaseStart(r, i) =>
      var s1 := s.(reps := s.reps[r := s.reps[r].(closed := true)]);
      InvQuieter(s, s1, r);
      if s.reps[r].leader { InvSend(s1, i, Get(r, true)); }
  }

  /** Whoever leads holds the Lease, so two leaders are one. */
  lemma InvExcludes(s: State)
    requires Inv(s)
    ensures AtMostOneLeader(s)
  {
    forall a, b | Leader(s, a) && Leader(s, b) ensures a == b {
      assert RepOk(s.clock, s.lease, a, s.reps[a]) && RepOk(s.clock, s.lease, b, s.reps[b]);
    }
  }

  lemma {:induction false} InvRun(s: State, run: seq<Step>)
    requires Inv(s) && Legal(s, run) && OrderlyRun(s, run)
    ensures Inv(Exec(s, run))
    decreases |run|
  {
    if run != [] {
      InvStep(s, run[0]);
      InvRun(Apply(s, run[0]), run[1..]);
    }
  }

  /** Mutual exclusion over every orderly run from every initial Lease. */
  lemma MutualExclusion(s: State, run: seq<Step>)
    requires Init(s) && Legal(s, run) && OrderlyRun(s, run)
    ensures AtMostOneLeader(Exec(s, run))
  {
    InvRun(s, run);
    InvExcludes(Exec(s, run));
  }
}
