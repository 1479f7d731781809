/** A leader term that starts with downloads in flight: none of them ever lands on an open file, and
    the bucket keeps its bytes exactly when none of them has read something stale. */
module MirrorTerm {
  import opened Basics
  import opened Mirror

  // ---- where a download may land ---------------------------------------------------------

  predicate HydrateFetchOk(s: State, f: Fetch) {
    (f.kind.Hydrate? ==> f.kind.run <= s.run)
    && (LiveHydrate(s, f) ==> s.pass.Downloading? && f.key in s.pass.busy)
  }

  /** Two downloads of one key by the running pass. */
  predicate Twice(s: State, f: Fetch, g: Fetch) { LiveHydrate(s, f) && LiveHydrate(s, g) && f.key == g.key }

  predicate PassOk(s: State) {
    (!s.pass.Idle? ==> s.gate && !s.returned) && (s.pass.Downloading? ==> s.pass.queue !! s.pass.busy)
  }

  ghost predicate FetchesOk(s: State) {
    (forall i :: i in s.fetches ==> HydrateFetchOk(s, s.fetches[i]))
    && forall i, j :: i in s.fetches && j in s.fetches && i != j ==> !Twice(s, s.fetches[i], s.fetches[j])
  }

  /** A pass runs gated, and a download is live only while its pass is busy with it, once. */
  ghost predicate Steady(s: State) { PassOk(s) && FetchesOk(s) }

  predicate SameRole(f: Fetch, g: Fetch) { g.key == f.key && g.kind == f.kind && (f.abandoned ==> g.abandoned) }

  predicate RoleKept(s: State, s': State, i: nat)
    requires i in s'.fetches
  {
    !s'.fetches[i].kind.Hydrate? || (i in s.fetches && SameRole(s.fetches[i], s'.fetches[i]))
  }

  /** Steps that leave the pass alone and start no hydrate download. */
  lemma SteadyKept(s: State, s': State)
    requires FetchesOk(s) && s'.run == s.run && s'.pass == s.pass
    requires forall i :: i in s'.fetches ==> RoleKept(s, s', i)
    ensures FetchesOk(s')
  {
    forall i | i in s'.fetches ensures HydrateFetchOk(s', s'.fetches[i]) {
      assert RoleKept(s, s', i);
      assert i in s.fetches ==> HydrateFetchOk(s, s.fetches[i]);
    }
    forall i, j | i in s'.fetches && j in s'.fetches && i != j ensures !Twice(s', s'.fetches[i], s'.fetches[j]) {
      assert RoleKept(s, s', i) && RoleKept(s, s', j);
      assert i in s.fetches && j in s.fetches ==> !Twice(s, s.fetches[i], s.fetches[j]);
    }
  }

  /** Steps after which no hydrate download is live. */
  lemma SteadyNoneLive(s: State, s': State)
    requires FetchesOk(s) && s'.fetches == s.fetches && (s'.run == s.run + 1 || (s'.run == s.run && NoneBusy(s)))
    ensures FetchesOk(s')
  {
    forall i | i in s'.fetches ensures HydrateFetchOk(s', s'.fetches[i]) && !LiveHydrate(s', s'.fetches[i]) {
      assert HydrateFetchOk(s, s.fetches[i]);
    }
  }

  predicate NoneBusy(s: State) { !s.pass.Downloading? || s.pass.busy == {} }

  lemma SteadyGet(s: State, k: Key, i: nat)
    requires Steady(s) && Enabled(s, HydrateGet(k, i))
    ensures Steady(Apply(s, HydrateGet(k, i)))
  {
    var s' := Apply(s, HydrateGet(k, i));
    forall j | j in s'.fetches ensures HydrateFetchOk(s', s'.fetches[j]) {
      assert j != i ==> HydrateFetchOk(s, s.fetches[j]);
    }
    forall a, b | a in s'.fetches && b in s'.fetches && a != b ensures !Twice(s', s'.fetches[a], s'.fetches[b]) {
      assert a != i ==> HydrateFetchOk(s, s.fetches[a]);
      assert b != i ==> HydrateFetchOk(s, s.fetches[b]);
      assert a != i && b != i ==> !Twice(s, s.fetches[a], s.fetches[b]);
    }
  }

  lemma SteadySettle(s: State, i: nat, timedOut: bool)
    requires Steady(s) && Enabled(s, HydrateSettle(i, timedOut))
    ensures Steady(Apply(s, HydrateSettle(i, timedOut)))
  {
    var s' := Apply(s, HydrateSettle(i, timedOut));
    forall j | j in s'.fetches ensures HydrateFetchOk(s', s'.fetches[j]) {
      assert HydrateFetchOk(s, s.fetches[j]);
      assert j != i ==> !Twice(s, s.fetches[i], s.fetches[j]);
    }
    forall a, b | a in s'.fetches && b in s'.fetches && a != b ensures !Twice(s', s'.fetches[a], s'.fetches[b]) {
      assert !Twice(s, s.fetches[a], s.fetches[b]);
    }
  }

  lemma SteadyPassStep(s: State, st: Step)
    requires Steady(s) && Enabled(s, st) && PassStep(st)
    ensures Steady(Apply(s, st))
  {
    var s' := Apply(s, st);
    match st {
      case HydrateGet(k, i) => SteadyGet(s, k, i);
      case HydrateSettle(i, timedOut) => SteadySettle(s, i, timedOut);
      case CloseGate => SteadyKept(s, s');
      case OpenGate => SteadyKept(s, s');
      case HydrateStart => SteadyNoneLive(s, s');
      case ListFails => SteadyNoneLive(s, s');
      case List => SteadyNoneLive(s, s');
      case Classify => SteadyNoneLive(s, s');
      case HydrateDone => SteadyNoneLive(s, s');
      case HydrateAbandon => SteadyNoneLive(s, s');
    }
  }

  /** The pass, its gate and the roles of its downloads are as they were. */
  ghost predicate PassKept(s: State, s': State) {
    s'.run == s.run && s'.pass == s.pass && s'.gate == s.gate && s'.returned == s.returned
    && forall i :: i in s'.fetches ==> RoleKept(s, s', i)
  }

  lemma RetryStepKeeps(s: State, st: Step)
    requires Enabled(s, st) && (st.RetryGet? || st.RetryResult?)
    ensures PassKept(s, Apply(s, st))
  {
  }

  lemma FetchStepKeeps(s: State, st: Step)
    requires Enabled(s, st) && FetchStep(st) && !st.RetryGet? && !st.RetryResult?
    ensures PassKept(s, Apply(s, st))
  {
    match st {
      case RawGet(_, _) =>
      case RawResult(_) =>
      case Read(_) =>
      case Land(_) =>
      case Drop(_) =>
    }
  }

  lemma OtherStepKeeps(s: State, st: Step)
    requires Enabled(s, st) && !PassStep(st) && !FetchStep(st)
    ensures PassKept(s, Apply(s, st))
  {
    match st {
      case Ingest(_, _) =>
      case PushStart(_) =>
      case PushDone(_) =>
      case PushFail(_) =>
      case ObjectDeleted(_) =>
      case RetryStart =>
      case RetrySettle(_) =>
      case RetryEnd =>
      case _ =>
    }
  }

  lemma {:induction false} SteadyRun(s: State, run: seq<Step>)
    requires Steady(s) && Legal(s, run)
    ensures Steady(Exec(s, run))
    decreases |run|
  {
    if run != [] {
      if PassStep(run[0]) {
        SteadyPassStep(s, run[0]);
      } else {
        if run[0].RetryGet? || run[0].RetryResult? { RetryStepKeeps(s, run[0]); }
        else if FetchStep(run[0]) { FetchStepKeeps(s, run[0]); }
        else { OtherStepKeeps(s, run[0]); }
        SteadyKept(s, Apply(s, run[0]));
      }
      SteadyRun(Apply(s, run[0]), run[1..]);
    }
  }

  /** Over every run from every term start, stale downloads included: no download ever lands on a file
      ingest could be writing. */
  lemma NoLateDownload(s: State, run: seq<Step>, i: nat)
    requires TermStart(s) && Legal(s, run) && Enabled(Exec(s, run), Land(i))
    ensures var e := Exec(s, run); var k := e.fetches[i].key;
      e.gate || k in e.blocked || k in e.pending
  {
    assert forall j :: j in s.fetches ==> Carried(s, s.fetches[j]);
    SteadyRun(s, run);
    var e := Exec(s, run);
    assert HydrateFetchOk(e, e.fetches[i]);
  }

  // ---- runs -------------------------------------------------------------------------------

  ghost predicate Reaches(s: State, e: State) { exists run :: Legal(s, run) && Exec(s, run) == e }

  lemma {:induction false} ExecAppend(s: State, run: seq<Step>, st: Step)
    requires Legal(s, run) && Enabled(Exec(s, run), st)
    ensures Legal(s, run + [st]) && Exec(s, run + [st]) == Apply(Exec(s, run), st)
    decreases |run|
  {
    if run == [] {
      assert run + [st] == [st];
      assert [st][1..] == [];
    } else {
      ExecAppend(Apply(s, run[0]), run[1..], st);
      assert (run + [st])[1..] == run[1..] + [st];
    }
  }

  lemma ReachesSelf(s: State)
    ensures Reaches(s, s)
  {
    assert Legal(s, []) && Exec(s, []) == s;
  }

  lemma Then(s: State, e: State, st: Step)
    requires Reaches(s, e) && Enabled(e, st)
    ensures Reaches(s, Apply(e, st))
  {
    var run :| Legal(s, run) && Exec(s, run) == e;
    ExecAppend(s, run, st);
  }

  // ---- a stale raw download -----------------------------------------------------------------

  /** Everything as it was but the pass, the blocked keys and new downloads. */
  ghost predicate OnlyPassMoved(s: State, e: State) {
    && e == s.(pass := e.pass, blocked := e.blocked, fetches := e.fetches)
    && (forall i :: i in s.fetches ==> i in e.fetches && e.fetches[i] == s.fetches[i])
    && (forall k :: k in e.blocked ==> k in s.blocked || k.Rendered?)
  }

  /** The hydrate's downloads all time out: it still ends, with their keys blocked. */
  lemma {:induction false} PassEnds(s0: State, s: State) returns (e: State)
    requires Reaches(s0, s) && s.pass.Downloading? && s.pass.busy == {} && forall k :: k in s.pass.queue ==> k.Rendered?
    ensures Reaches(s0, e) && OnlyPassMoved(s, e) && e.pass == Downloading({}, {})
    decreases s.pass.queue
  {
    if s.pass.queue == {} {
      e := s;
    } else {
      var k :| k in s.pass.queue;
      var s1 := OneTimesOut(s0, s, k);
      e := PassEnds(s0, s1);
    }
  }

  lemma OneTimesOut(s0: State, s: State, k: Key) returns (e: State)
    requires Reaches(s0, s) && s.pass.Downloading? && s.pass.busy == {} && k in s.pass.queue && k.Rendered?
    ensures Reaches(s0, e) && OnlyPassMoved(s, e) && e.pass == Downloading(s.pass.queue - {k}, {})
  {
    var i := Above(s.fetches.Keys);
    assert i !in s.fetches;
    var s1 := Apply(s, HydrateGet(k, i));
    Then(s0, s, HydrateGet(k, i));
    e := Apply(s1, HydrateSettle(i, true));
    Then(s0, s1, HydrateSettle(i, true));
  }

  /** Ingest is open and nothing is being pushed; the stale download and its key are as at the start. */
  predicate OpenWith(s: State, e: State, i: nat) {
    && StaleOn(s, i) && i in e.fetches && e.fetches[i] == s.fetches[i]
    && !e.gate && e.pushing.None? && e.local == s.local && e.bucket == s.bucket
    && s.fetches[i].key in e.pending && s.fetches[i].key !in e.blocked
  }

  /** The term's hydrate lists and classifies: the key is pending again, whatever it was. */
  lemma TermClassifies(s: State, i: nat) returns (e: State)
    requires TermStart(s) && StaleOn(s, i)
    ensures Reaches(s, e) && e.pass.Downloading? && e.pass.busy == {} && (forall k :: k in e.pass.queue ==> k.Rendered?)
    ensures e.fetches == s.fetches && e.local == s.local && e.bucket == s.bucket && e.gate && e.pushing.None?
    ensures s.fetches[i].key in e.pending && s.fetches[i].key.RawLayer? && forall k :: k in e.blocked ==> k.Rendered?
  {
    var k := s.fetches[i].key;
    assert Carried(s, s.fetches[i]) && Comparable(At(s.local, k), At(s.bucket, k));
    ReachesSelf(s);
    var s1 := Apply(s, HydrateStart);
    Then(s, s, HydrateStart);
    var s2 := Apply(s1, List);
    Then(s, s1, List);
    e := Apply(s2, Classify);
    Then(s, s2, Classify);
    assert Short(e.local, s2.pass.listing, k);
  }

  /** Then it ends and ingest opens, the download still on its way. */
  lemma TermOpens(s: State, i: nat) returns (e: State)
    requires TermStart(s) && StaleOn(s, i)
    ensures Reaches(s, e) && OpenWith(s, e, i)
  {
    var s3 := TermClassifies(s, i);
    var s4 := PassEnds(s, s3);
    var s5 := Apply(s4, HydrateDone);
    Then(s, s4, HydrateDone);
    e := Apply(s5, OpenGate);
    Then(s, s5, OpenGate);
  }

  /** Its file is open, and shorter than the object it has to extend. */
  predicate OpenShort(e: State, k: Key) {
    && !e.gate && k !in e.pending && k !in e.blocked && e.pushing.None?
    && At(e.local, k) <= At(e.bucket, k) && |At(e.local, k)| < |At(e.bucket, k)|
  }

  /** The download ends, by landing its stale body or by its stale 404, and opens its key. */
  lemma StaleOpens(s: State, e: State, i: nat) returns (o: State)
    requires TermStart(s) && Reaches(s, e) && OpenWith(s, e, i)
    ensures Reaches(s, o) && OpenShort(o, s.fetches[i].key) && o.bucket == s.bucket
  {
    var f := s.fetches[i];
    assert Carried(s, f) && Comparable(At(s.local, f.key), At(s.bucket, f.key));
    var landed := e;
    if f.body.Some? {
      landed := Apply(e, Land(i));
      Then(s, e, Land(i));
    }
    o := Apply(landed, RawResult(i));
    Then(s, landed, RawResult(i));
  }

  /** After `run`, pushing `c` stores an object that does not extend the one there. */
  ghost predicate Loses(s: State, run: seq<Step>, c: Bytes) {
    Legal(s, run) && Enabled(Exec(s, run), PushDone(c))
    && var e := Exec(s, run); !(At(e.bucket, e.pushing.value.key) <= c)
  }

  lemma Diverges(p: Bytes, whole: Bytes, x: Byte)
    requires p <= whole && |p| < |whole| && x != whole[|p|]
    ensures !(whole <= p + [x])
  {
    assert (p + [x])[|p|] == x;
  }

  /** One append and one push onto such a file lose bytes of the object. */
  lemma ShortPushLoses(s: State, e: State, k: Key)
    requires Reaches(s, e) && OpenShort(e, k)
    ensures exists run, c :: Loses(s, run, c)
  {
    var p := At(e.local, k);
    var x: Byte := if At(e.bucket, k)[|p|] == 0 then 1 else 0;
    var s2 := AppendAndPush(s, e, k, x);
    Diverges(p, At(e.bucket, k), x);
    var run :| Legal(s, run) && Exec(s, run) == s2;
    assert Loses(s, run, p + [x]);
  }

  lemma AppendAndPush(s: State, e: State, k: Key, x: Byte) returns (o: State)
    requires Reaches(s, e) && OpenShort(e, k)
    ensures Reaches(s, o) && o.pushing == Some(Push(k, At(e.local, k) + [x])) && o.bucket == e.bucket
    ensures At(o.local, k) == At(e.local, k) + [x]
  {
    var s1 := Apply(e, Ingest(k, [x]));
    Then(s, e, Ingest(k, [x]));
    o := Apply(s1, PushStart(k));
    Then(s, s1, PushStart(k));
  }

  /** A stale raw download carried into a term, whatever else the term starts with: some run of the
      term pushes an object that drops bytes. */
  lemma StaleRawFetchLosesBytes(s: State, i: nat)
    requires TermStart(s) && StaleOn(s, i)
    ensures exists run, c :: Loses(s, run, c)
  {
    var e := TermOpens(s, i);
    var o := StaleOpens(s, e, i);
    ShortPushLoses(s, o, s.fetches[i].key);
  }

  /** So no run of a term loses bytes if and only if no raw download carried into it has read something
      stale of an object its local file falls short of. */
  lemma TermIsSafeExactly(s: State)
    requires TermStart(s)
    ensures (forall run, c :: !Loses(s, run, c)) <==> NothingStale(s)
  {
    if NothingStale(s) {
      forall run, c ensures !Loses(s, run, c) {
        if Legal(s, run) && Enabled(Exec(s, run), PushDone(c)) { PushExtends(s, run, c); }
      }
    } else {
      var i: nat :| StaleOn(s, i);
      StaleRawFetchLosesBytes(s, i);
    }
  }

  lemma PushExtends(s: State, run: seq<Step>, c: Bytes)
    requires Init(s) && Legal(s, run) && Enabled(Exec(s, run), PushDone(c))
    ensures At(Exec(s, run).bucket, Exec(s, run).pushing.value.key) <= c
  {
    InitInv(s);
    InvRun(s, run);
    PushExtendsObject(Exec(s, run), PushDone(c), Exec(s, run).pushing.value.key);
  }
}
