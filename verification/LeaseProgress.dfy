/** What the election does, not only what it never does: who comes to lead by one tick, who steps down,
    and how fast a replica that gives the Lease up is followed. */
module LeaseProgress {
  import opened Basics
  import opened Elector
  import opened LeaseElection
  import opened LeaseTraces

  /** A request is served and its answer delivered, and so is the write it leads to. */
  function Finished(s: State, i: nat): (e: State)
    requires i in s.net && s.net[i].Get? && s.net[i].r in s.reps
    ensures e.clock == s.clock && e.net == s.net - {i} && e.reps.Keys == s.reps.Keys
    ensures forall r :: r in s.reps && r != s.net[i].r ==> e.reps[r] == s.reps[r]
  {
    var s' := Apply(Apply(s, Serve(i)), Deliver(i, i));
    if i in s'.net then Apply(Apply(s', Serve(i)), Deliver(i, i)) else s'
  }

  /** One whole tick at one instant, everyone else standing still. */
  function LoneTick(s: State, b: Id, i: nat): State
    requires Enabled(s, TickStart(b, i))
  {
    Finished(Apply(s, TickStart(b, i)), i)
  }

  /** One whole release(). */
  function LoneRelease(s: State, b: Id, i: nat): State
    requires Enabled(s, ReleaseStart(b, i))
  {
    var s' := Apply(s, ReleaseStart(b, i));
    if s.reps[b].leader then Finished(s', i) else s'
  }

  lemma FinishedIsReached(s0: State, s: State, i: nat)
    requires Reaches(s0, s) && i in s.net && s.net[i].Get? && s.net[i].r in s.reps
    ensures Reaches(s0, Finished(s, i))
  {
    ReachesStep(s0, s, Serve(i));
    ReachesStep(s0, Apply(s, Serve(i)), Deliver(i, i));
    var s' := Apply(Apply(s, Serve(i)), Deliver(i, i));
    if i in s'.net {
      ReachesStep(s0, s', Serve(i));
      ReachesStep(s0, Apply(s', Serve(i)), Deliver(i, i));
    }
  }

  /** Both are runs of the election. */
  lemma LoneTickIsReached(s: State, b: Id, i: nat)
    requires Enabled(s, TickStart(b, i))
    ensures Reaches(s, LoneTick(s, b, i))
  {
    ReachesSelf(s);
    ReachesStep(s, s, TickStart(b, i));
    FinishedIsReached(s, Apply(s, TickStart(b, i)), i);
  }

  lemma LoneReleaseIsReached(s: State, b: Id, i: nat)
    requires Enabled(s, ReleaseStart(b, i))
    ensures Reaches(s, LoneRelease(s, b, i))
  {
    ReachesSelf(s);
    ReachesStep(s, s, ReleaseStart(b, i));
    if s.reps[b].leader { FinishedIsReached(s, Apply(s, ReleaseStart(b, i)), i); }
  }

  // ---- who comes to lead ----------------------------------------------------------------------

  /** An open replica that may lead leads after its tick if and only if there was no Lease yet, the Lease
      was its own, or it had run out; and then the Lease says so from this instant on. Otherwise it
      stands by and leaves the Lease alone. */
  lemma LoneTickExactly(s: State, b: Id, i: nat)
    requires Enabled(s, TickStart(b, i)) && s.reps[b].canLead && s.reps[b].lastRenew <= s.clock
    ensures var e, own, l := LoneTick(s, b, i), LeaseSeconds(s.reps[b].durMs), s.lease;
            && (Leader(e, b) <==> (
                  l.Absent? || l.holder == b || l.renew.None?
                  || s.clock - l.renew.value > (if l.durS != 0 then l.durS else own) * 1000))
            && e.lease == (if Leader(e, b) then Lease(Ver(l) + 1, b, Some(s.clock), own) else l)
            && e.reps[b].leader == Leader(e, b)
  {
  }

  /** The first replica of a fleet creates the Lease and leads. */
  lemma FirstBootLeads(s: State, b: Id, durMs: int, renewDeadlineMs: int, i: nat)
    requires s.clock >= 0 && s.lease.Absent? && Enabled(s, Boot(b, durMs, renewDeadlineMs)) && i !in s.net
    ensures var s' := Apply(s, Boot(b, durMs, renewDeadlineMs)); Enabled(s', TickStart(b, i)) && Leader(LoneTick(s', b, i), b)
  {
    LoneTickExactly(Apply(s, Boot(b, durMs, renewDeadlineMs)), b, i);
  }

  // ---- who steps down -------------------------------------------------------------------------

  /** Every standby may take it now. */
  ghost predicate FreeToAll(l: Lease, now: int) { l.Lease? && forall own :: Expired(l, now, own) }

  /** It believes it leads, and the Lease is its own. */
  predicate Gives(s: State, b: Id)
    requires b in s.reps
  {
    s.reps[b].leader && s.lease.Lease? && s.lease.holder == b
  }

  lemma AbstainBackdates(s: State, b: Id, i: nat)
    requires Enabled(s, TickStart(b, i)) && !s.reps[b].canLead
    ensures var e, l := LoneTick(s, b, i), s.lease;
            !e.reps[b].leader
            && e.lease == if Gives(s, b) then Lease(Ver(l) + 1, b, Some(s.clock - s.reps[b].durMs - 1000), l.durS) else l
  {
  }

  lemma ReleaseReads(s: State, b: Id, i: nat)
    requires Enabled(s, ReleaseStart(b, i)) && s.reps[b].leader
    ensures var s' := Apply(Apply(Apply(s, ReleaseStart(b, i)), Serve(i)), Deliver(i, i));
            s'.lease == s.lease && s'.reps.Keys == s.reps.Keys && s'.reps[b].closed
            && if Gives(s, b)
               then i in s'.net && s'.net[i] == Put(b, Write(Release, Ver(s.lease), b, s.clock - s.reps[b].durMs - 1000, s.lease.durS, s.clock), true)
               else i !in s'.net && !s'.reps[b].leader
  {
  }

  lemma ReleaseBackdates(s: State, b: Id, i: nat)
    requires Enabled(s, ReleaseStart(b, i))
    ensures var e, l := LoneRelease(s, b, i), s.lease;
            !e.reps[b].leader && e.reps[b].closed
            && e.lease == if Gives(s, b) then Lease(Ver(l) + 1, b, Some(s.clock - s.reps[b].durMs - 1000), l.durS) else l
  {
    if s.reps[b].leader { ReleaseReads(s, b, i); }
  }

  /** A leader that may no longer lead and holds the Lease gives both up by one tick; one that does not
      hold it leaves it alone. */
  lemma LoneAbstainExactly(s: State, b: Id, i: nat)
    requires Enabled(s, TickStart(b, i)) && !s.reps[b].canLead && s.reps[b].durMs >= 1
    requires s.lease.Lease? && s.lease.holder == b ==> s.lease.durS == LeaseSeconds(s.reps[b].durMs)
    ensures var e := LoneTick(s, b, i);
            !e.reps[b].leader
            && if Gives(s, b) then FreeToAll(e.lease, e.clock) else e.lease == s.lease
  {
    AbstainBackdates(s, b, i);
    if Gives(s, b) { BackdatedIsFree(LoneTick(s, b, i).lease, s.reps[b].durMs, s.clock); }
  }

  lemma BackdatedIsFree(l: Lease, durMs: int, now: int)
    requires durMs >= 1 && l.Lease? && l.durS == LeaseSeconds(durMs) && l.renew == Some(now - durMs - 1000)
    ensures FreeToAll(l, now)
  {
    forall own ensures Expired(l, now, own) { BackdateIsExpired(l, durMs, now, now, own); }
  }

  /** release() closes the replica and gives up a Lease it leads by and holds. */
  lemma LoneReleaseExactly(s: State, b: Id, i: nat)
    requires Enabled(s, ReleaseStart(b, i)) && s.reps[b].durMs >= 1
    requires s.lease.Lease? && s.lease.holder == b ==> s.lease.durS == LeaseSeconds(s.reps[b].durMs)
    ensures var e := LoneRelease(s, b, i);
            !e.reps[b].leader && e.reps[b].closed
            && if Gives(s, b) then FreeToAll(e.lease, e.clock) else e.lease == s.lease
  {
    ReleaseBackdates(s, b, i);
    if Gives(s, b) { BackdatedIsFree(LoneRelease(s, b, i).lease, s.reps[b].durMs, s.clock); }
  }

  /** In every reachable state a leader that abstains, or releases, is followed within the same instant by
      any other replica that ticks next. */
  lemma HandOver(s: State, a: Id, b: Id, i: nat, releases: bool)
    requires Inv(s) && Leader(s, a) && (releases || !s.reps[a].canLead) && i !in s.net
    requires b != a && b in s.reps && !s.reps[b].closed && s.reps[b].canLead
    ensures var s' := if releases then LoneRelease(s, a, i) else LoneTick(s, a, i);
            Enabled(s', TickStart(b, i)) && var e := LoneTick(s', b, i);
            e.clock == s.clock && Leader(e, b) && !e.reps[a].leader
  {
    assert RepOk(s.clock, s.lease, a, s.reps[a]) && RepOk(s.clock, s.lease, b, s.reps[b]);
    if releases { LoneReleaseExactly(s, a, i); } else { LoneAbstainExactly(s, a, i); }
    var s' := if releases then LoneRelease(s, a, i) else LoneTick(s, a, i);
    assert Expired(s'.lease, s'.clock, LeaseSeconds(s.reps[b].durMs));
    LoneTickExactly(s', b, i);
  }

  /** A tick whose read fails: the replica goes on believing it leads exactly until its renew deadline. */
  lemma FailedReadExactly(s: State, i: nat)
    requires Enabled(s, Fail(i)) && (s.net[i].Get? || s.net[i].GetReply?) && !s.net[i].release
    ensures var e, e' := s.reps[s.net[i].r], Apply(s, Fail(i)).reps[s.net[i].r];
            e'.leader <==> e.leader && s.clock - e.lastRenew <= e.renewDeadlineMs
  {
  }

  /** A release that fails anywhere still ends closed and stepped down. */
  lemma FailedReleaseEnds(s: State, i: nat)
    requires Enabled(s, Fail(i))
    requires match s.net[i]
             case Get(_, release) => release
             case GetReply(_, release, _) => release
             case Put(_, w, heard) => w.kind == Release && heard
             case PutReply(_, w, _) => w.kind == Release
    ensures !Apply(s, Fail(i)).reps[s.net[i].r].leader
  {
  }

  /** A replica whose renew is refused goes on until its renew deadline; one whose acquire or create is,
      steps down at once. */
  lemma RefusedWriteExactly(s: State, i: nat)
    requires Enabled(s, Deliver(i, i)) && s.net[i].PutReply? && !s.net[i].ok && Elects(s.net[i].w)
    ensures var e, e' := s.reps[s.net[i].r], Apply(s, Deliver(i, i)).reps[s.net[i].r];
            e'.leader <==> e.leader && s.net[i].w.kind == Renew && s.clock - e.lastRenew <= e.renewDeadlineMs
  {
  }
}
