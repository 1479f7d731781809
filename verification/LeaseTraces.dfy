/** Two concrete runs that show why the exclusion theorem needs its two conditions, and the
    promotion-edge theorem over all runs. */
module LeaseTraces {
  import opened Basics
  import opened Elector
  import opened LeaseElection

  /** What a prefix of a run reached, as a relation that chains. */
  ghost predicate Reaches(s: State, s': State) {
    exists run :: Legal(s, run) && Exec(s, run) == s'
  }

  lemma ReachesSelf(s: State)
    ensures Reaches(s, s)
  {
    assert Legal(s, []) && Exec(s, []) == s;
  }

  lemma {:induction false} ExecAppend(s: State, run: seq<Step>, st: Step)
    requires Legal(s, run) && Enabled(Exec(s, run), st)
    ensures Legal(s, run + [st]) && Exec(s, run + [st]) == Apply(Exec(s, run), st)
    decreases |run|
  {
    if run == [] {
      assert run + [st] == [st];
      assert [st][1..] == [];
    } else {
      ExecAppend(Apply(s, run[0]), run[1..], st);
      assert (run + [st])[1..] == run[1..] + [st];
    }
  }

  lemma ReachesStep(s: State, s': State, st: Step)
    requires Reaches(s, s') && Enabled(s', st)
    ensures Reaches(s, Apply(s', st))
  {
    var run :| Legal(s, run) && Exec(s, run) == s';
    ExecAppend(s, run, st);
  }

  /** One whole tick of `r` that writes: GET issued, served, answered, the write served. */
  lemma TickAndLand(s0: State, s: State, r: Id, i: nat, e': Rep, w: Write) returns (s': State)
    requires Reaches(s0, s) && r in s.reps && !s.reps[r].closed && i !in s.net
    requires AfterRead(r, s.reps[r], s.lease, s.clock) == (e', Some(w)) && Lands(s.lease, w)
    ensures Reaches(s0, s')
    ensures s'.clock == s.clock && s'.lease == Landed(s.lease, w) && s'.reps == s.reps[r := e']
    ensures s'.net == s.net[i := PutReply(r, w, true)]
  {
    var s1 := Apply(s, TickStart(r, i));
    ReachesStep(s0, s, TickStart(r, i));
    var s2 := Apply(s1, Serve(i));
    ReachesStep(s0, s1, Serve(i));
    var s3 := Apply(s2, Deliver(i, i));
    ReachesStep(s0, s2, Deliver(i, i));
    assert s2.net - {i} == s.net;
    s' := Apply(s3, Serve(i));
    ReachesStep(s0, s3, Serve(i));
  }

  const START: State := State(1000, Lease(1, "a", Some(1000), 15), map[], map[])

  /** Both replicas booted and `a` leading, with a second renew of `a` landed but not yet answered. */
  lemma ASecondRenewPends() returns (s: State, a: Rep, b: Rep)
    ensures Reaches(START, s) && s.clock == 1000 && s.lease == Lease(3, "a", Some(1000), 15)
    ensures s.reps == map["a" := a, "b" := b]
    ensures a == Rep(15000, 10000, true, 1000, false, true, [true])
    ensures b == Rep(15000, 10000, false, 0, false, true, [])
    ensures s.net == map[2 := PutReply("a", Write(Renew, 2, "a", 1000, 15, 1000), true)]
  {
    ReachesSelf(START);
    var booted := Rep(15000, 10000, false, 0, false, true, []);
    var s1 := Apply(START, Boot("a", 15000, 10000));
    ReachesStep(START, START, Boot("a", 15000, 10000));
    var s2 := Apply(s1, Boot("b", 15000, 10000));
    ReachesStep(START, s1, Boot("b", 15000, 10000));
    assert s2.reps == map["a" := booted, "b" := booted];
    assert LeaseSeconds(15000) == 15;
    var w1 := Write(Renew, 1, "a", 1000, 15, 1000);
    var s3 := TickAndLand(START, s2, "a", 1, booted, w1);
    assert s3.net == map[1 := PutReply("a", w1, true)];
    var s4 := Apply(s3, Deliver(1, 1));
    ReachesStep(START, s3, Deliver(1, 1));
    a := booted.(leader := true, lastRenew := 1000, events := [true]);
    b := booted;
    assert AfterWrite(booted, w1, true, 1000) == a;
    assert s3.reps["a"] == booted;
    assert s4.reps == map["a" := a, "b" := b];
    assert s4.net == map[];
    var w2 := Write(Renew, 2, "a", 1000, 15, 1000);
    s := TickAndLand(START, s4, "a", 2, a, w2);
  }

  /** `a` abstains and its backdated Lease lands, the second renew's answer still on its way. */
  lemma AbstainLands() returns (s: State, a: Rep, b: Rep)
    ensures Reaches(START, s) && s.clock == 1000 && s.lease == Lease(4, "a", Some(1000 - 16000), 15)
    ensures "a" in s.reps && s.reps["a"] == a && "b" in s.reps && s.reps["b"] == b
    ensures a == Rep(15000, 10000, false, 1000, false, false, [true, false])
    ensures b == Rep(15000, 10000, false, 0, false, true, [])
    ensures 2 in s.net && s.net[2] == PutReply("a", Write(Renew, 2, "a", 1000, 15, 1000), true) && 4 !in s.net
  {
    var s0, a0, b0 := ASecondRenewPends();
    assert LeaseSeconds(15000) == 15;
    var s1 := Apply(s0, SetCanLead("a", false));
    ReachesStep(START, s0, SetCanLead("a", false));
    a, b := Edge(a0.(canLead := false), false), b0;
    s := TickAndLand(START, s1, "a", 3, a, Write(Abstain, 3, "a", 1000 - 16000, 15, 1000));
  }

  /** Without the environment's obligation the theorem is false: a renew answered after an abstain,
      once `canLead` is true again, makes a second leader at the same instant. */
  lemma LateRenewBreaksExclusion()
    ensures Init(START)
    ensures exists s :: Reaches(START, s) && Leader(s, "a") && Leader(s, "b")
  {
    var s2, a, b := AbstainLands();
    assert LeaseSeconds(15000) == 15;
    var w4 := Write(Acquire, 4, "b", 1000, 15, 1000);
    var s3 := TickAndLand(START, s2, "b", 4, b, w4);
    var s4 := Apply(s3, Deliver(4, 4));
    ReachesStep(START, s3, Deliver(4, 4));
    assert Leader(s4, "b");
    var s5 := Apply(s4, SetCanLead("a", true));
    ReachesStep(START, s4, SetCanLead("a", true));
    var s6 := Apply(s5, Deliver(2, 2));
    ReachesStep(START, s5, Deliver(2, 2));
    assert Leader(s6, "a") && Leader(s6, "b");
  }

  /** release() of `a`, up to its backdating write landing. */
  lemma ReleaseLands() returns (s: State, b: Rep)
    ensures Reaches(START, s) && s.clock == 1000 && s.lease == Lease(4, "a", Some(1000 - 16000), 15) && 6 !in s.net
    ensures "a" in s.reps && s.reps["a"].closed && Leads(s.reps["a"], s.clock) && "b" in s.reps && s.reps["b"] == b
    ensures b == Rep(15000, 10000, false, 0, false, true, [])
  {
    var s0, a, b0 := ASecondRenewPends();
    assert LeaseSeconds(15000) == 15;
    b := b0;
    var s1 := Apply(s0, ReleaseStart("a", 5));
    ReachesStep(START, s0, ReleaseStart("a", 5));
    var s2 := Apply(s1, Serve(5));
    ReachesStep(START, s1, Serve(5));
    var s3 := Apply(s2, Deliver(5, 5));
    ReachesStep(START, s2, Deliver(5, 5));
    s := Apply(s3, Serve(5));
    ReachesStep(START, s3, Serve(5));
  }

  /** Why only electors that are not closed count: release() backdates the Lease while its own flag
      is still up, so a closed replica and the next leader can both report leadership. */
  lemma ReleasingReplicaStillReportsLeadership()
    ensures exists s ::
      (Reaches(START, s) && Leader(s, "b") &&
       "a" in s.reps && s.reps["a"].closed && Leads(s.reps["a"], s.clock))
  {
    var s4, b := ReleaseLands();
    assert LeaseSeconds(15000) == 15;
    var w := Write(Acquire, 4, "b", 1000, 15, 1000);
    var s5 := TickAndLand(START, s4, "b", 6, b, w);
    var s6 := Apply(s5, Deliver(6, 6));
    ReachesStep(START, s5, Deliver(6, 6));
    assert Leader(s6, "b");
  }

  // ---- promotion edges ----------------------------------------------------------

  /** Emitted values alternate starting with true; the count's parity is the flag. */
  predicate EventsOk(e: Rep) {
    && (forall i :: 0 <= i < |e.events| ==> e.events[i] == (i % 2 == 0))
    && (e.leader ==> |e.events| % 2 == 1)
    && (!e.leader && !e.closed ==> |e.events| % 2 == 0)
  }

  /** No promotion since `e0`: whoever did not lead then does not lead now. */
  predicate StillOut(e0: Rep, e: Rep, now: int) {
    && |e0.events| <= |e.events| && e.events[..|e0.events|] == e0.events
    && e.durMs == e0.durMs
    && ((forall p :: |e0.events| <= p < |e.events| ==> !e.events[p]) ==>
      (!e.leader || (e.lastRenew == e0.lastRenew && now - e.lastRenew > Window(e))))
  }

  lemma EdgeKeepsEvents(e: Rep, next: bool)
    requires EventsOk(e) && (next ==> !e.closed)
    ensures EventsOk(Edge(e, next))
  {
  }

  lemma SetLeaderKeepsEvents(e: Rep, next: bool, at: int, now: int)
    requires EventsOk(e)
    ensures EventsOk(AfterSetLeader(e, next, at, now))
  {
    EdgeKeepsEvents(e, false);
    if !e.closed { EdgeKeepsEvents(e.(lastRenew := Max(e.lastRenew, at)), true); }
  }

  lemma SetLeaderStaysOut(e0: Rep, e: Rep, next: bool, at: int, now: int)
    requires StillOut(e0, e, now)
    ensures StillOut(e0, AfterSetLeader(e, next, at, now), now)
  {
    var e' := AfterSetLeader(e, next, at, now);
    assert e'.events[..|e0.events|] == e0.events;
    if forall p :: |e0.events| <= p < |e'.events| ==> !e'.events[p] {
      forall p | |e0.events| <= p < |e.events| ensures !e.events[p] { assert e'.events[p] == e.events[p]; }
      if |e'.events| > |e.events| { assert !e'.events[|e'.events| - 1]; }
    }
  }

  /** Only a replica that release() has closed has a release request on the network. */
  predicate ReleaseMsgOk(s: State, m: Msg) {
    && m.r in s.reps
    && ((m.Get? || m.GetReply?) && m.release ==> s.reps[m.r].closed)
    && ((m.Put? || m.PutReply?) && m.w.kind == Release ==> s.reps[m.r].closed)
  }

  ghost predicate ReleaseOk(s: State) {
    forall i :: i in s.net ==> ReleaseMsgOk(s, s.net[i])
  }

  lemma StepKeepsReleaseOk(s: State, st: Step)
    requires Enabled(s, st) && ReleaseOk(s)
    ensures ReleaseOk(Apply(s, st))
  {
    var s' := Apply(s, st);
    forall i | i in s'.net ensures ReleaseMsgOk(s', s'.net[i]) {
      if i in s.net { assert ReleaseMsgOk(s, s.net[i]); }
      if st.Deliver? { assert ReleaseMsgOk(s, s.net[st.i]); }
    }
  }

  /** One step keeps the alternation of one replica's events. */
  lemma StepKeepsEvents(s: State, st: Step, r: Id)
    requires Enabled(s, st) && r in s.reps && EventsOk(s.reps[r]) && ReleaseOk(s)
    ensures r in Apply(s, st).reps && EventsOk(Apply(s, st).reps[r])
  {
    var e := s.reps[r];
    if st.Fail? || st.Deliver? {
      var m := s.net[st.i];
      assert ReleaseMsgOk(s, m);
      if m.r == r {
        SetLeaderKeepsEvents(e, false, 0, s.clock);
        if m.PutReply? { SetLeaderKeepsEvents(e, true, m.w.at, s.clock); }
      }
    }
  }

  /** One step without a promotion leaves whoever was out, out. */
  lemma StepStaysOut(s: State, st: Step, r: Id, e0: Rep)
    requires Enabled(s, st) && st != Reboot(r) && r in s.reps && StillOut(e0, s.reps[r], s.clock)
    ensures r in Apply(s, st).reps && StillOut(e0, Apply(s, st).reps[r], Apply(s, st).clock)
  {
    var e := s.reps[r];
    if st.Fail? || st.Deliver? {
      var m := s.net[st.i];
      if m.r == r {
        SetLeaderStaysOut(e0, e, false, 0, s.clock);
        if m.PutReply? { SetLeaderStaysOut(e0, e, true, m.w.at, s.clock); }
      }
    }
  }

  lemma {:induction false} RunStaysOut(s: State, run: seq<Step>, r: Id, e0: Rep)
    requires Legal(s, run) && Reboot(r) !in run && r in s.reps && StillOut(e0, s.reps[r], s.clock)
    ensures r in Exec(s, run).reps && StillOut(e0, Exec(s, run).reps[r], Exec(s, run).clock)
    decreases |run|
  {
    if run != [] {
      StepStaysOut(s, run[0], r, e0);
      RunStaysOut(Apply(s, run[0]), run[1..], r, e0);
    }
  }

  lemma {:induction false} EventsAlternate(s: State, run: seq<Step>, r: Id)
    requires Legal(s, run) && ReleaseOk(s) && (r in s.reps ==> EventsOk(s.reps[r]))
    requires r in Exec(s, run).reps
    ensures EventsOk(Exec(s, run).reps[r])
    decreases |run|
  {
    if run != [] {
      if r in s.reps { StepKeepsEvents(s, run[0], r); }
      StepKeepsReleaseOk(s, run[0]);
      EventsAlternate(Apply(s, run[0]), run[1..], r);
    }
  }

  /** From boot on, in every run, the onChange values of a replica strictly alternate from true. */
  lemma PromotionsAlternate(s: State, run: seq<Step>, r: Id)
    requires Init(s) && Legal(s, run) && r in Exec(s, run).reps
    ensures var ev := Exec(s, run).reps[r].events;
      forall i :: 0 <= i < |ev| ==> ev[i] == (i % 2 == 0)
  {
    EventsAlternate(s, run, r);
  }

  /** Non-leadership at some instant of an elector's life and leadership later: a promote was emitted in
      between, whether the flag was cleared or the replica's own clock silently ran it out. (A rebooted
      replica is a new elector, not leading at its start.) */
  lemma PromotionEdgeNeverMissed(gap: State, run: seq<Step>, r: Id)
    requires Legal(gap, run) && Reboot(r) !in run && r in gap.reps && !Leads(gap.reps[r], gap.clock)
    requires r in Exec(gap, run).reps && Leads(Exec(gap, run).reps[r], Exec(gap, run).clock)
    ensures var before, after := gap.reps[r].events, Exec(gap, run).reps[r].events;
      before <= after && exists p :: |before| <= p < |after| && after[p]
  {
    RunStaysOut(gap, run, r, gap.reps[r]);
  }
}
