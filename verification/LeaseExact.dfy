/** When exclusion holds exactly: of a replica that may lead again, and of one that still reports
    leadership after release() closed it. */
module LeaseExact {
  import opened Basics
  import opened Elector
  import opened LeaseElection

  // ---- what the other replicas can do ---------------------------------------------------------

  /** The step is of `r`'s own process or of one of its requests. */
  predicate Concerns(s: State, st: Step, r: Id)
    requires Enabled(s, st)
  {
    match st
    case Advance(_) => false
    case Boot(x, _, _) => x == r
    case Reboot(x) => x == r
    case SetCanLead(x, _) => x == r
    case TickStart(x, _) => x == r
    case Serve(i) => s.net[i].r == r
    case Fail(i) => s.net[i].r == r
    case Deliver(i, _) => s.net[i].r == r
    case StopReplica(x) => x == r
    case ReleaseStart(x, _) => x == r
  }

  /** A run in which `r` and its requests stand still. */
  predicate ApartRun(s: State, run: seq<Step>, r: Id)
    decreases |run|
  {
    run != [] ==> Enabled(s, run[0]) && !Concerns(s, run[0], r) && ApartRun(Apply(s, run[0]), run[1..], r)
  }

  predicate NoReturn(run: seq<Step>) { forall i :: 0 <= i < |run| ==> !run[i].SetCanLead? }

  lemma {:induction false} ApartIsLegal(s: State, run: seq<Step>, r: Id)
    requires ApartRun(s, run, r)
    ensures Legal(s, run)
    decreases |run|
  {
    if run != [] { ApartIsLegal(Apply(s, run[0]), run[1..], r); }
  }

  lemma {:induction false} NoReturnIsOrderly(s: State, run: seq<Step>)
    requires Legal(s, run) && NoReturn(run)
    ensures OrderlyRun(s, run)
    decreases |run|
  {
    if run != [] { NoReturnIsOrderly(Apply(s, run[0]), run[1..]); }
  }

  /** The others can bring `s` to `e`. */
  ghost predicate Beside(s: State, e: State, r: Id) {
    exists run :: ApartRun(s, run, r) && NoReturn(run) && Legal(s, run) && Exec(s, run) == e
  }

  lemma BesideSelf(s: State, r: Id)
    ensures Beside(s, s, r)
  {
    assert ApartRun(s, [], r) && NoReturn([]) && Legal(s, []) && Exec(s, []) == s;
  }

  lemma {:induction false} ApartAppend(s: State, run: seq<Step>, st: Step, r: Id)
    requires ApartRun(s, run, r) && Legal(s, run) && Enabled(Exec(s, run), st) && !Concerns(Exec(s, run), st, r)
    ensures ApartRun(s, run + [st], r) && Legal(s, run + [st]) && Exec(s, run + [st]) == Apply(Exec(s, run), st)
    decreases |run|
  {
    if run == [] {
      assert run + [st] == [st];
      assert [st][1..] == [];
    } else {
      ApartAppend(Apply(s, run[0]), run[1..], st, r);
      assert (run + [st])[1..] == run[1..] + [st];
    }
  }

  lemma Next(s: State, e: State, st: Step, r: Id)
    requires Beside(s, e, r) && Enabled(e, st) && !Concerns(e, st, r) && !st.SetCanLead?
    ensures Beside(s, Apply(e, st), r)
  {
    var run :| ApartRun(s, run, r) && NoReturn(run) && Legal(s, run) && Exec(s, run) == e;
    ApartAppend(s, run, st, r);
    assert NoReturn(run + [st]);
  }

  lemma {:induction false} Longest(ids: set<Id>) returns (n: nat)
    ensures forall x :: x in ids ==> |x| < n
  {
    if ids == {} {
      n := 0;
    } else {
      var x :| x in ids;
      var m := Longest(ids - {x});
      n := if |x| < m then m else |x| + 1;
      assert forall y :: y in ids ==> y == x || y in ids - {x};
    }
  }

  lemma NewId(ids: set<Id>) returns (b: Id)
    ensures b !in ids
  {
    var n := Longest(ids);
    b := seq(n, _ => 'x');
  }

  // ---- another replica comes to lead ------------------------------------------------------------

  /** `b` has just started. */
  predicate JustStarted(s: State, b: Id) {
    b in s.reps && !s.reps[b].closed && !s.reps[b].leader && s.reps[b].lastRenew == 0 && s.reps[b].canLead
  }

  /** The Lease is there for `b`: none yet, its own, or expired. */
  predicate Takeable(s: State, b: Id)
    requires b in s.reps
  {
    s.lease.Lease? ==> s.lease.holder == b || Expired(s.lease, s.clock, LeaseSeconds(s.reps[b].durMs))
  }

  /** One whole tick of a replica just started, while everyone else stands still. */
  lemma TicksAndLeads(s0: State, s: State, b: Id, r: Id) returns (e: State)
    requires Beside(s0, s, r) && b != r && JustStarted(s, b) && Takeable(s, b) && s.clock >= 0
    ensures Beside(s0, e, r) && Leader(e, b) && e.clock == s.clock && (r in s.reps ==> r in e.reps && e.reps[r] == s.reps[r])
  {
    var i := Above(s.net.Keys);
    var s1 := Apply(s, TickStart(b, i));
    Next(s0, s, TickStart(b, i), r);
    var s2 := Apply(s1, Serve(i));
    Next(s0, s1, Serve(i), r);
    var s3 := Apply(s2, Deliver(i, i));
    Next(s0, s2, Deliver(i, i), r);
    var s4 := Apply(s3, Serve(i));
    Next(s0, s3, Serve(i), r);
    e := Apply(s4, Deliver(i, i));
    Next(s0, s4, Deliver(i, i), r);
  }

  /** A replica that reports leadership the Lease does not bear out: another can be made to lead beside
      it, by its own holder starting, or by a new replica once the older stamp has expired. */
  lemma TakenOver(s: State, r: Id) returns (e: State, b: Id)
    requires s.clock >= 0 && r in s.reps && Leads(s.reps[r], s.clock)
    requires Owned(s.lease, r, LeaseSeconds(s.reps[r].durMs))
    requires !Holds(s.lease, r, LeaseSeconds(s.reps[r].durMs), s.reps[r].lastRenew)
    ensures Beside(s, e, r) && b != r && Leader(e, b) && r in e.reps && e.reps[r] == s.reps[r] && Leads(e.reps[r], e.clock)
  {
    BesideSelf(s, r);
    if s.lease.holder != r {
      b := s.lease.holder;
      var st := if b in s.reps then Reboot(b) else Boot(b, 1, 1);
      Next(s, s, st, r);
      e := TicksAndLeads(s, Apply(s, st), b, r);
    } else {
      var late := s.lease.renew.value + Window(s.reps[r]) + 1 - s.clock;
      var dt: nat := if late > 0 then late else 0;
      var s1 := Apply(s, Advance(dt));
      Next(s, s, Advance(dt), r);
      b := NewId(s.reps.Keys + {r});
      var s2 := Apply(s1, Boot(b, 1, 1));
      Next(s, s1, Boot(b, 1, 1), r);
      e := TicksAndLeads(s, s2, b, r);
    }
  }

  // ---- the return of canLead ----------------------------------------------------------------------

  /** Whatever happens from here on, in order, at most one replica leads. */
  ghost predicate StaysExclusive(s: State) {
    forall run :: Legal(s, run) && OrderlyRun(s, run) ==> AtMostOneLeader(Exec(s, run))
  }

  lemma Prepended(s: State, st: Step, run: seq<Step>)
    requires Enabled(s, st) && !st.SetCanLead? && Legal(Apply(s, st), run) && OrderlyRun(Apply(s, st), run)
    ensures Legal(s, [st] + run) && OrderlyRun(s, [st] + run) && Exec(s, [st] + run) == Exec(Apply(s, st), run)
  {
    assert ([st] + run)[1..] == run;
  }

  lemma FirstBreaks(s: State, st: Step)
    requires Enabled(s, st) && !st.SetCanLead? && !StaysExclusive(Apply(s, st))
    ensures !StaysExclusive(s)
  {
    var run :| Legal(Apply(s, st), run) && OrderlyRun(Apply(s, st), run) && !AtMostOneLeader(Exec(Apply(s, st), run));
    Prepended(s, st, run);
  }

  /** A leader the Lease does not bear out cannot stay the only one. */
  lemma UnheldBreaks(s: State, r: Id)
    requires s.clock >= 0 && Leader(s, r) && Owned(s.lease, r, LeaseSeconds(s.reps[r].durMs))
    requires !Holds(s.lease, r, LeaseSeconds(s.reps[r].durMs), s.reps[r].lastRenew)
    ensures !StaysExclusive(s)
  {
    var e, b := TakenOver(s, r);
    var run :| ApartRun(s, run, r) && NoReturn(run) && Legal(s, run) && Exec(s, run) == e;
    NoReturnIsOrderly(s, run);
    assert Leader(e, r) && Leader(e, b);
  }

  /** The dangerous answer comes in. */
  lemma DangerArms(s: State, r: Id, i: nat)
    requires Inv(s) && i in s.net && Arms(s, s.net[i], r)
    ensures var s0 := Apply(s, SetCanLead(r, true));
            Enabled(s0, Deliver(i, i)) && var s1 := Apply(s0, Deliver(i, i));
            Leader(s1, r) && s1.reps[r].lastRenew == Stamp(s.reps[r], s.net[i].w) && s1.reps[r].durMs == s.reps[r].durMs
            && s1.lease == s.lease && s1.clock == s.clock && s1.net == s.net - {i} && s1.reps.Keys == s.reps.Keys
            && Owned(s.lease, r, LeaseSeconds(s.reps[r].durMs))
  {
    assert MsgOk(s, s.net[i]);
  }

  /** And the abstain behind it takes the Lease back. */
  lemma AbstainUnholds(s: State, s1: State, r: Id, k: nat)
    requires Inv(s) && k in s.net && LiveAbstain(s, s.net[k]) && s.net[k].r == r && Leader(s1, r)
    requires s1.lease == s.lease && s1.clock == s.clock && k in s1.net && s1.net[k] == s.net[k]
    requires s1.reps[r].durMs == s.reps[r].durMs && Owned(s.lease, r, LeaseSeconds(s.reps[r].durMs))
    ensures Enabled(s1, Serve(k)) && var s2 := Apply(s1, Serve(k));
            s2.clock == s1.clock && s2.reps == s1.reps && Owned(s2.lease, r, LeaseSeconds(s.reps[r].durMs))
            && !Holds(s2.lease, r, LeaseSeconds(s.reps[r].durMs), s1.reps[r].lastRenew)
  {
    assert MsgOk(s, s.net[k]);
    var durMs := s.reps[r].durMs;
    assert LeaseSeconds(durMs) * 1000 < durMs + 1000;
  }

  lemma DangerBreaks(s: State, r: Id, i: nat)
    requires Inv(s) && i in s.net && Dangerous(s, s.net[i], r)
    ensures !StaysExclusive(Apply(s, SetCanLead(r, true)))
  {
    var s0 := Apply(s, SetCanLead(r, true));
    DangerArms(s, r, i);
    var s1 := Apply(s0, Deliver(i, i));
    if Holds(s1.lease, r, LeaseSeconds(s1.reps[r].durMs), s1.reps[r].lastRenew) {
      var k :| k in s.net && LiveAbstain(s, s.net[k]) && s.net[k].r == r;
      AbstainUnholds(s, s1, r, k);
      UnheldBreaks(Apply(s1, Serve(k)), r);
      FirstBreaks(s1, Serve(k));
    } else {
      UnheldBreaks(s1, r);
    }
    FirstBreaks(s0, Deliver(i, i));
  }

  /** When `canLead` comes back, exclusion holds over everything that may follow in order, if and only if
      no answer is on its way that would make the replica lead while the Lease no longer bears it out
      or an abstain is about to take it back. */
  lemma ReturnExactly(s: State, r: Id)
    requires Inv(s) && r in s.reps
    ensures StaysExclusive(Apply(s, SetCanLead(r, true))) <==> Orderly(s, SetCanLead(r, true))
  {
    var s0 := Apply(s, SetCanLead(r, true));
    if Orderly(s, SetCanLead(r, true)) {
      InvStep(s, SetCanLead(r, true));
      forall run | Legal(s0, run) && OrderlyRun(s0, run) ensures AtMostOneLeader(Exec(s0, run)) {
        InvRun(s0, run);
        InvExcludes(Exec(s0, run));
      }
    } else {
      var i: nat :| i in s.net && Dangerous(s, s.net[i], r);
      DangerBreaks(s, r, i);
    }
  }

  // ---- a replica that still reports leadership --------------------------------------------------------

  predicate Reports(s: State, r: Id) { r in s.reps && Leads(s.reps[r], s.clock) }

  ghost predicate StampHeld(s: State, r: Id)
    requires r in s.reps
  {
    Holds(s.lease, r, LeaseSeconds(s.reps[r].durMs), s.reps[r].lastRenew)
  }

  /** As long as `r` stands still and still reports, nobody else leads. */
  ghost predicate StaysAlone(s: State, r: Id) {
    forall run, b :: ApartRun(s, run, r) && Legal(s, run) && OrderlyRun(s, run) && b != r && Reports(Exec(s, run), r)
      ==> !Leader(Exec(s, run), b)
  }

  lemma ApartKeepsStamp(s: State, st: Step, r: Id)
    requires Inv(s) && Enabled(s, st) && !Concerns(s, st, r) && r in s.reps
    ensures r in Apply(s, st).reps && Apply(s, st).reps[r] == s.reps[r] && Apply(s, st).clock >= s.clock
    ensures Reports(Apply(s, st), r) && StampHeld(s, r) ==> StampHeld(Apply(s, st), r)
  {
    if st.Serve? && s.net[st.i].Put? && Lands(s.lease, s.net[st.i].w) {
      assert MsgOk(s, s.net[st.i]);
      if Reports(s, r) && StampHeld(s, r) && Elects(s.net[st.i].w) {
        LandingKeepsReplica(s, st.i, r, s.reps[r].lastRenew);
      }
    }
  }

  lemma {:induction false} StampHeldOn(s: State, run: seq<Step>, r: Id)
    requires Inv(s) && r in s.reps && StampHeld(s, r) && ApartRun(s, run, r) && Legal(s, run) && OrderlyRun(s, run)
    ensures Inv(Exec(s, run)) && r in Exec(s, run).reps && Exec(s, run).reps[r] == s.reps[r] && Exec(s, run).clock >= s.clock
    ensures Reports(Exec(s, run), r) ==> StampHeld(Exec(s, run), r)
    decreases |run|
  {
    if run != [] {
      ApartKeepsStamp(s, run[0], r);
      InvStep(s, run[0]);
      var s1 := Apply(s, run[0]);
      if StampHeld(s1, r) {
        StampHeldOn(s1, run[1..], r);
      } else {
        LapsedOn(s1, run[1..], r);
      }
    }
  }

  lemma {:induction false} LapsedOn(s: State, run: seq<Step>, r: Id)
    requires Inv(s) && r in s.reps && !Reports(s, r) && ApartRun(s, run, r) && Legal(s, run) && OrderlyRun(s, run)
    ensures var e := Exec(s, run); Inv(e) && r in e.reps && e.reps[r] == s.reps[r] && e.clock >= s.clock && !Reports(e, r)
    decreases |run|
  {
    if run != [] {
      ApartKeepsStamp(s, run[0], r);
      InvStep(s, run[0]);
      LapsedOn(Apply(s, run[0]), run[1..], r);
    }
  }

  lemma HeldIsAlone(s: State, r: Id, b: Id)
    requires Inv(s) && r in s.reps && StampHeld(s, r) && b != r
    ensures !Leader(s, b)
  {
    assert b in s.reps ==> RepOk(s.clock, s.lease, b, s.reps[b]);
  }

  /** A replica that reports leadership, closed by release() or not, stays the only one to do so while it
      stands still, if and only if the Lease is still its own at its stamp. */
  lemma ReportExactly(s: State, r: Id)
    requires Inv(s) && Reports(s, r)
    ensures StaysAlone(s, r) <==> StampHeld(s, r)
  {
    if StampHeld(s, r) {
      forall run, b | ApartRun(s, run, r) && Legal(s, run) && OrderlyRun(s, run) && b != r && Reports(Exec(s, run), r)
        ensures !Leader(Exec(s, run), b)
      {
        StampHeldOn(s, run, r);
        HeldIsAlone(Exec(s, run), r, b);
      }
    } else {
      assert RepOk(s.clock, s.lease, r, s.reps[r]);
      var e, b := TakenOver(s, r);
      var run :| ApartRun(s, run, r) && NoReturn(run) && Legal(s, run) && Exec(s, run) == e;
      NoReturnIsOrderly(s, run);
    }
  }

  /** So in every orderly run at most one replica reports leadership at one instant, provided each that
      is closed and still reports it has the Lease at its stamp. */
  lemma ReportersCoincide(s: State, run: seq<Step>, a: Id, b: Id)
    requires Init(s) && Legal(s, run) && OrderlyRun(s, run)
    requires Reports(Exec(s, run), a) && Reports(Exec(s, run), b)
    requires forall r :: Reports(Exec(s, run), r) && Exec(s, run).reps[r].closed ==> StampHeld(Exec(s, run), r)
    ensures a == b
  {
    InvRun(s, run);
    var e := Exec(s, run);
    assert RepOk(e.clock, e.lease, a, e.reps[a]) && RepOk(e.clock, e.lease, b, e.reps[b]);
    assert StampHeld(e, a) && StampHeld(e, b);
  }
}
