/** How a wait ends (turma/forward.js): for each thing a turn can find, and over whole waits. */
module ForwardingWait {
  import opened Basics
  import opened Forwarding

  // ---- what a turn can find -------------------------------------------------------------------

  predicate ServesHere(m: Moment) { !m.env.enabled || m.env.localPath || m.env.canServe }

  /** The store link is down, and the lease says another replica leads. */
  predicate Barred(m: Moment) { !m.env.storeHealthy && m.env.heldElsewhere }

  /** A leader entry of another replica, young enough, or the store cannot tell. */
  predicate LeaderKnown(r: Replica, m: Moment) {
    m.leader.Some? && m.leader.value.replica != r.id
    && (m.env.now < m.leader.value.seenAt + r.ttlMs || !m.env.storeHealthy)
  }

  /** Its address is not this replica's own, the request may still be forwarded and did not come through
      either of the two, and the address is not on cooldown. */
  predicate Dialable(r: Replica, p: Proof, m: Moment) {
    LeaderKnown(r, m) && m.leader.value.addr.Some?
    && var a := m.leader.value.addr.value;
       r.endpoint != Some(a) && (a in r.aliases ==> r.aliases[a] <= m.env.now)
       && |p.hops| < 2 && r.id !in p.hops && m.leader.value.replica !in p.hops
       && (a in r.unreachable ==> r.unreachable[a] <= m.env.now)
  }

  /** There is nobody to serve, dial or refuse for. */
  predicate Stuck(r: Replica, p: Proof, m: Moment) {
    !m.gone && !ServesHere(m) && !p.loop && !Barred(m) && !Dialable(r, p, m)
    && (LeaderKnown(r, m) ==> m.leader.value.addr.Some?)
  }

  // ---- how a wait ends ------------------------------------------------------------------------

  /** Whatever the deadline: what the turn finds decides how it ends the wait, if it does. */
  lemma TurnEnds(r: Replica, p: Proof, ms: seq<Moment>, deadline: Option<nat>)
    requires ms != []
    ensures var m, o := ms[0], Routed(r, p, ms, deadline);
            && (m.gone ==> o == Some(Gone))
            && (!m.gone && ServesHere(m) ==> o == Some(Served(false)))
            && (!m.gone && !ServesHere(m) && p.loop ==> o == Some(Looped))
            && (!m.gone && !ServesHere(m) && !p.loop && Barred(m) ==> o == Some(Refused))
    ensures var m, o := ms[0], Routed(r, p, ms, deadline);
            !m.gone && !ServesHere(m) && !p.loop && !Barred(m) ==>
              && (LeaderKnown(r, m) && m.leader.value.addr.None? ==> o == Some(Served(false)))
              && (Dialable(r, p, m) && m.dialOk ==> o == Some(Forwarded(m.leader.value.addr.value)))
              && (Stuck(r, p, m) && m.draining ==> o == Some(Refused))
  {
  }

  /** While the store link is down and the lease is held elsewhere a replica that may not serve never
      becomes a second writer: the first turn ends the wait. */
  lemma HeldElsewhereIsRefused(r: Replica, p: Proof, ms: seq<Moment>, deadline: Option<nat>)
    requires ms != [] && forall i :: 0 <= i < |ms| ==> Barred(ms[i]) && !ServesHere(ms[i])
    ensures Routed(r, p, ms, deadline) == Some(if ms[0].gone then Gone else if p.loop then Looped else Refused)
  {
    TurnEnds(r, p, ms, deadline);
  }

  /** A turn with nobody to dial is a hold: it starts the clock, and ends the wait if that has run out. */
  lemma StuckTurn(r: Replica, p: Proof, ms: seq<Moment>, deadline: Option<nat>)
    requires ms != [] && Stuck(r, p, ms[0]) && !ms[0].draining
    ensures var due := if deadline.Some? then deadline.value else ms[0].env.now + r.holdMs;
            Routed(r, p, ms, deadline) == if ms[0].env.now >= due then Some(Served(true)) else Routed(At(r, ms[0]), p, ms[1..], Some(due))
  {
  }

  lemma StuckLater(r: Replica, p: Proof, k: Moment, m: Moment)
    ensures Stuck(At(r, k), p, m) == Stuck(r, p, m) && Dialable(At(r, k), p, m) == Dialable(r, p, m)
  {
  }

  /** Holding goes on until the deadline, through any number of turns. */
  lemma {:induction false} HoldsOn(r: Replica, p: Proof, ms: seq<Moment>, n: nat, due: nat)
    requires n <= |ms| && forall i :: 0 <= i < n ==> Stuck(r, p, ms[i]) && !ms[i].draining && ms[i].env.now < due
    ensures Routed(r, p, ms, Some(due)) == Routed(if n == 0 then r else At(r, ms[n - 1]), p, ms[n..], Some(due))
    decreases n
  {
    if n == 0 {
      assert ms[0..] == ms;
    } else {
      StuckTurn(r, p, ms, Some(due));
      var r', rest := At(r, ms[0]), ms[1..];
      forall i | 0 <= i < n - 1 ensures Stuck(r', p, rest[i]) && !rest[i].draining && rest[i].env.now < due {
        assert rest[i] == ms[i + 1];
        StuckLater(r, p, ms[0], ms[i + 1]);
      }
      HoldsOn(r', p, rest, n - 1, due);
      assert rest[n - 1..] == ms[n..];
      if n > 1 { assert At(r', rest[n - 2]) == At(r, ms[n - 1]); }
    }
  }

  lemma HoldsFromStart(r: Replica, p: Proof, ms: seq<Moment>, n: nat)
    requires 1 <= n <= |ms|
    requires forall i :: 0 <= i < n ==> Stuck(r, p, ms[i]) && !ms[i].draining && ms[i].env.now < ms[0].env.now + r.holdMs
    ensures Routed(r, p, ms, None) == Routed(At(r, ms[n - 1]), p, ms[n..], Some(ms[0].env.now + r.holdMs))
  {
    var due := ms[0].env.now + r.holdMs;
    StuckTurn(r, p, ms, None);
    StuckTurn(r, p, ms, Some(due));
    HoldsOn(r, p, ms, n, due);
  }

  /** With nobody to dial all along, the request is served here, degraded, at the first turn `holdMs` or
      more after the first, and not before. */
  lemma HoldLastsExactly(r: Replica, p: Proof, ms: seq<Moment>)
    requires ms != [] && forall i :: 0 <= i < |ms| ==> Stuck(r, p, ms[i]) && !ms[i].draining
    ensures Routed(r, p, ms, None)
         == if exists i :: 0 <= i < |ms| && ms[i].env.now >= ms[0].env.now + r.holdMs then Some(Served(true)) else None
  {
    var due := ms[0].env.now + r.holdMs;
    var n := FirstLate(ms, due);
    if n == 0 {
      StuckTurn(r, p, ms, None);
    } else {
      HoldsFromStart(r, p, ms, n);
      if n < |ms| {
        StuckLater(r, p, ms[n - 1], ms[n]);
        StuckTurn(At(r, ms[n - 1]), p, ms[n..], Some(due));
      }
    }
  }

  lemma {:induction false} FirstLate(ms: seq<Moment>, due: nat) returns (n: nat)
    ensures n <= |ms| && (forall i :: 0 <= i < n ==> ms[i].env.now < due) && (n < |ms| ==> ms[n].env.now >= due)
  {
    if ms == [] || ms[0].env.now >= due {
      n := 0;
    } else {
      var k := FirstLate(ms[1..], due);
      n := k + 1;
      assert forall i :: 1 <= i < n ==> ms[i] == ms[1..][i - 1];
    }
  }

  /** A hold ends as soon as there is something to do: a leader appears and is dialled, this replica takes
      over, or the link goes down while another holds the lease. */
  lemma HoldEndsWith(r: Replica, p: Proof, ms: seq<Moment>, n: nat)
    requires 1 <= n < |ms| && !ms[n].gone && !p.loop
    requires forall i :: 0 <= i < n ==> Stuck(r, p, ms[i]) && !ms[i].draining && ms[i].env.now < ms[0].env.now + r.holdMs
    ensures ServesHere(ms[n]) ==> Routed(r, p, ms, None) == Some(Served(false))
    ensures !ServesHere(ms[n]) && Barred(ms[n]) ==> Routed(r, p, ms, None) == Some(Refused)
    ensures !ServesHere(ms[n]) && !Barred(ms[n]) && Dialable(r, p, ms[n]) && ms[n].dialOk ==>
            Routed(r, p, ms, None) == Some(Forwarded(ms[n].leader.value.addr.value))
  {
    HoldsFromStart(r, p, ms, n);
    StuckLater(r, p, ms[n - 1], ms[n]);
    TurnEnds(At(r, ms[n - 1]), p, ms[n..], Some(ms[0].env.now + r.holdMs));
  }

  /** A leader that could not be dialled is left alone until its cooldown ends, then tried again; any
      other is not affected, and the wait goes on at once. */
  lemma FailedDialCoolsDown(r: Replica, p: Proof, ms: seq<Moment>, deadline: Option<nat>) returns (r': Replica)
    requires ms != [] && !ms[0].gone && !ServesHere(ms[0]) && !p.loop && !Barred(ms[0]) && Dialable(r, p, ms[0]) && !ms[0].dialOk
    ensures Routed(r, p, ms, deadline) == Routed(r', p, ms[1..], deadline)
    ensures forall m: Moment :: m.env.now >= ms[0].env.now ==> (
      Dialable(r', p, m) <==> Dialable(r, p, m) && (m.leader.value.addr == ms[0].leader.value.addr ==> m.env.now >= ms[0].dialEnds + r.cooldownMs))
  {
    r' := Marked(At(r, ms[0]), ms[0].leader.value.addr.value, ms[0].dialEnds);
    assert TurnOf(r, p, ms[0], deadline) == Waits(r', deadline);
  }
}
