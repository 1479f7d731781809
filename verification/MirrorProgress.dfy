/** What opens a key again: the mirror does not only refuse. */
module MirrorProgress {
  import opened Basics
  import opened Mirror
  import opened MirrorTerm

  // ---- single steps ---------------------------------------------------------------------------

  /** After a classify a key is closed if and only if it is listed and its local file is absent or shorter.
      One that was blocked and is found whole, or is not listed, is open. */
  lemma ClassifyClosesExactly(s: State, k: Key)
    requires Enabled(s, Classify)
    ensures Closed(Apply(s, Classify), k) <==> k in s.pass.listing && (k in s.local ==> |s.local[k]| < s.pass.listing[k])
  {
    match k
    case Rendered(_) =>
    case RawLayer(_) =>
  }

  /** A hydrate download leaves its key blocked if and only if it came too late or threw. */
  lemma SettleBlocksExactly(s: State, i: nat, timedOut: bool)
    requires Enabled(s, HydrateSettle(i, timedOut))
    ensures var f, s' := s.fetches[i], Apply(s, HydrateSettle(i, timedOut));
            (f.key in s'.blocked <==> timedOut || !(f.landed || f.gone))
            && s'.blocked - {f.key} == s.blocked - {f.key} && f.key !in s'.pass.busy
  {
  }

  /** A failed push leaves its key for the next drain. */
  lemma FailedPushStaysDirty(s: State, landed: Option<Bytes>)
    requires Enabled(s, PushFail(landed))
    ensures var s' := Apply(s, PushFail(landed)); s'.pushing.None? && s'.dirty == s.dirty + {s.pushing.value.key}
  {
  }

  // ---- one download ---------------------------------------------------------------------------

  /** What one key's read brings: its object, or nothing when it is gone. */
  function Fetched(s: State, k: Key): map<Key, Bytes> { if k in s.bucket then s.local[k := s.bucket[k]] else s.local }

  /** A download still on its way, and one at its end. */
  predicate Fresh(f: Fetch) { f.body.None? && !f.gone && !f.landed && !f.abandoned }

  function Ended(s: State, f: Fetch): Fetch {
    if f.key in s.bucket then f.(body := Some(s.bucket[f.key]), landed := true) else f.(gone := true)
  }

  lemma Lands(s0: State, s: State, i: nat) returns (e: State)
    requires Reaches(s0, s) && i in s.fetches && Wanted(s, s.fetches[i]) && s.fetches[i].body.Some? && !s.fetches[i].landed
    ensures Reaches(s0, e)
    ensures var f := s.fetches[i]; e == s.(local := s.local[f.key := f.body.value], fetches := s.fetches[i := f.(landed := true)])
  {
    e := Apply(s, Land(i));
    Then(s0, s, Land(i));
  }

  lemma Reads(s0: State, s: State, i: nat) returns (e: State)
    requires Reaches(s0, s) && i in s.fetches && Fresh(s.fetches[i])
    ensures Reaches(s0, e)
    ensures var f := s.fetches[i]; e == s.(fetches := s.fetches[i := if f.key in s.bucket then f.(body := Some(s.bucket[f.key])) else f.(gone := true)])
  {
    e := Apply(s, Read(i));
    Then(s0, s, Read(i));
  }

  lemma ReadsAndLands(s0: State, s: State, i: nat) returns (e: State)
    requires Reaches(s0, s) && i in s.fetches && Wanted(s, s.fetches[i]) && Fresh(s.fetches[i])
    ensures Reaches(s0, e)
    ensures e == s.(local := Fetched(s, s.fetches[i].key), fetches := s.fetches[i := Ended(s, s.fetches[i])])
  {
    e := Reads(s0, s, i);
    if s.fetches[i].key in s.bucket { e := Lands(s0, e, i); }
  }

  // ---- a hydrate whose downloads succeed --------------------------------------------------------

  /** Its object is there, and the local file is absent or shorter. */
  predicate Behind(s: State, k: Key) { k in s.bucket && (k in s.local ==> |s.local[k]| < |s.bucket[k]|) }

  /** What a state holds outside the pass and its downloads. */
  ghost predicate SameBut(s: State, e: State, keys: set<Key>) {
    && e == s.(local := e.local, blocked := s.blocked - keys, pass := e.pass)
    && e.local.Keys == s.local.Keys + keys
    && forall k :: k in e.local ==> if k in keys then k in s.bucket && e.local[k] == s.bucket[k] else e.local[k] == s.local[k]
  }

  lemma Gets(s0: State, s: State, k: Key, i: nat) returns (e: State)
    requires Reaches(s0, s) && s.pass.Downloading? && k in s.pass.queue && i !in s.fetches
    ensures Reaches(s0, e)
    ensures e == s.(pass := Downloading(s.pass.queue - {k}, s.pass.busy + {k}), fetches := s.fetches[i := Fetch(k, Hydrate(s.run), None, false, false, false)])
  {
    e := Apply(s, HydrateGet(k, i));
    Then(s0, s, HydrateGet(k, i));
  }

  lemma Settles(s0: State, s: State, i: nat) returns (e: State)
    requires Reaches(s0, s) && s.pass.Downloading? && i in s.fetches && LiveHydrate(s, s.fetches[i])
    requires s.fetches[i].landed || s.fetches[i].gone
    ensures Reaches(s0, e)
    ensures var k := s.fetches[i].key;
            e == s.(pass := Downloading(s.pass.queue, s.pass.busy - {k}), blocked := s.blocked - {k}, fetches := s.fetches - {i})
  {
    e := Apply(s, HydrateSettle(i, false));
    Then(s0, s, HydrateSettle(i, false));
  }

  lemma OneLands(s0: State, s: State, k: Key) returns (e: State)
    requires Reaches(s0, s) && s.pass.Downloading? && s.pass.busy == {} && k in s.pass.queue && k in s.bucket
    ensures Reaches(s0, e) && SameBut(s, e, {k}) && e.pass == Downloading(s.pass.queue - {k}, {})
  {
    var i := Above(s.fetches.Keys);
    assert i !in s.fetches;
    e := Gets(s0, s, k, i);
    e := ReadsAndLands(s0, e, i);
    e := Settles(s0, e, i);
    assert e.fetches == s.fetches;
  }

  lemma SameButTwice(s: State, m: State, e: State, k: Key, keys: set<Key>)
    requires SameBut(s, m, {k}) && SameBut(m, e, keys)
    ensures SameBut(s, e, {k} + keys)
  {
    assert s.blocked - {k} - keys == s.blocked - ({k} + keys);
  }

  lemma {:induction false} AllLand(s0: State, s: State) returns (e: State)
    requires Reaches(s0, s) && s.pass.Downloading? && s.pass.busy == {} && s.pass.queue <= s.bucket.Keys
    ensures Reaches(s0, e) && SameBut(s, e, s.pass.queue) && e.pass == Downloading({}, {})
    decreases s.pass.queue
  {
    if s.pass.queue == {} {
      e := s;
    } else {
      var k :| k in s.pass.queue;
      var m := OneLands(s0, s, k);
      e := AllLand(s0, m);
      assert s.pass.queue == {k} + m.pass.queue;
      SameButTwice(s, m, e, k, m.pass.queue);
    }
  }

  lemma Classifies(s: State) returns (e: State)
    requires s.gate && s.pass.Idle? && !s.retrying
    ensures Reaches(s, e) && e == s.(run := s.run + 1, returned := false, pending := e.pending, blocked := e.blocked, pass := e.pass)
    ensures e.pass.Downloading? && e.pass.busy == {}
    ensures forall k :: k in e.pass.queue <==> k.Rendered? && Behind(s, k)
    ensures forall k :: k in e.pending <==> k.RawLayer? && Behind(s, k)
    ensures forall k :: k in e.blocked <==> k in s.blocked && Behind(s, k)
  {
    ReachesSelf(s);
    var s1 := Apply(s, HydrateStart);
    Then(s, s, HydrateStart);
    var s2 := Apply(s1, List);
    Then(s, s1, List);
    e := Apply(s2, Classify);
    Then(s, s2, Classify);
    assert forall k :: Short(s2.local, s2.pass.listing, k) <==> Behind(s, k);
  }

  /** A gated replica whose listing and downloads succeed opens: every rendered file that fell short is
      its object now, no other file has changed, and no key is closed but the raw ones that fall short. */
  lemma HydrateCompletes(s: State) returns (e: State)
    requires s.gate && s.pass.Idle? && !s.retrying
    ensures Reaches(s, e) && !e.gate && e.hydrated && e.bucket == s.bucket && e.dirty == s.dirty
    ensures forall k :: Closed(e, k) <==> k.RawLayer? && Behind(s, k)
    ensures forall k :: k in e.local <==> k in s.local || (k.Rendered? && Behind(s, k))
    ensures forall k :: k in e.local ==> e.local[k] == if k.Rendered? && Behind(s, k) then s.bucket[k] else s.local[k]
  {
    var s1 := Classifies(s);
    assert forall k :: k in s1.pass.queue ==> Behind(s, k);
    var s2 := AllLand(s, s1);
    var s3 := Apply(s2, HydrateDone);
    Then(s, s2, HydrateDone);
    e := Apply(s3, OpenGate);
    Then(s, s3, OpenGate);
    forall k ensures Closed(e, k) <==> k.RawLayer? && Behind(s, k) { assert k in e.blocked <==> k in s1.blocked && k !in s1.pass.queue; }
  }

  // ---- retries, raw fetches, pushes -------------------------------------------------------------

  lemma RetryGets(s: State, k: Key, i: nat) returns (e: State)
    requires s.pass.Idle? && !s.retrying && s.done == {} && k in s.blocked && NoLiveRetry(s) && i !in s.fetches
    ensures Reaches(s, e) && e == s.(retrying := true, fetches := s.fetches[i := Fetch(k, Retry, None, false, false, false)])
  {
    ReachesSelf(s);
    var s1 := Apply(s, RetryStart);
    Then(s, s, RetryStart);
    e := Apply(s1, RetryGet(k, i));
    Then(s, s1, RetryGet(k, i));
  }

  lemma RetryEnded(s0: State, s: State, i: nat) returns (e: State)
    requires Reaches(s0, s) && s.retrying && s.done == {} && i in s.fetches && LiveRetry(s.fetches[i])
    requires s.fetches[i].landed || s.fetches[i].gone
    ensures Reaches(s0, e) && e == s.(done := {s.fetches[i].key}, fetches := s.fetches - {i})
  {
    e := Apply(s, RetryResult(i, false));
    Then(s0, s, RetryResult(i, false));
  }

  lemma RetrySettles(s0: State, s: State) returns (e: State)
    requires Reaches(s0, s) && s.retrying && NoLiveRetry(s)
    ensures Reaches(s0, e) && e == s.(blocked := s.blocked - s.done, done := {}, retrying := false)
  {
    var s1 := Apply(s, RetrySettle(true));
    Then(s0, s, RetrySettle(true));
    e := Apply(s1, RetryEnd);
    Then(s0, s1, RetryEnd);
  }

  /** A retry whose read and reconcile succeed unblocks its key, whether the object is there or gone. */
  lemma RetryOpens(s: State, k: Key) returns (e: State)
    requires s.pass.Idle? && !s.retrying && s.done == {} && k in s.blocked && NoLiveRetry(s)
    ensures Reaches(s, e) && e == s.(local := Fetched(s, k), blocked := s.blocked - {k})
  {
    var i := Above(s.fetches.Keys);
    assert i !in s.fetches;
    e := RetryGets(s, k, i);
    e := ReadsAndLands(s, e, i);
    e := RetryEnded(s, e, i);
    assert e.fetches == s.fetches;
    e := RetrySettles(s, e);
  }

  lemma RawGets(s: State, k: Key, i: nat) returns (e: State)
    requires k in s.pending && i !in s.fetches
    ensures Reaches(s, e) && e == s.(fetches := s.fetches[i := Fetch(k, Raw, None, false, false, false)])
  {
    ReachesSelf(s);
    e := Apply(s, RawGet(k, i));
    Then(s, s, RawGet(k, i));
  }

  lemma RawEnds(s0: State, s: State, i: nat) returns (e: State)
    requires Reaches(s0, s) && i in s.fetches && s.fetches[i].kind.Raw? && (s.fetches[i].landed || s.fetches[i].gone)
    ensures Reaches(s0, e) && e == s.(pending := s.pending - {s.fetches[i].key}, fetches := s.fetches - {i})
  {
    e := Apply(s, RawResult(i));
    Then(s0, s, RawResult(i));
  }

  /** An on-demand read of a raw key that succeeds ends its pending. */
  lemma RawFetchOpens(s: State, k: Key) returns (e: State)
    requires k in s.pending
    ensures Reaches(s, e) && e == s.(local := Fetched(s, k), pending := s.pending - {k})
  {
    var i := Above(s.fetches.Keys);
    assert i !in s.fetches;
    e := RawGets(s, k, i);
    e := ReadsAndLands(s, e, i);
    e := RawEnds(s, e, i);
    assert e.fetches == s.fetches;
  }

  /** A push that succeeds leaves the object equal to the local file, and the key clean. */
  lemma PushCatchesUp(s: State, k: Key) returns (e: State)
    requires s.pushing.None? && k in s.dirty && k !in s.blocked
    ensures Reaches(s, e) && e == s.(bucket := s.bucket[k := At(s.local, k)], dirty := s.dirty - {k})
  {
    ReachesSelf(s);
    var s1 := Apply(s, PushStart(k));
    Then(s, s, PushStart(k));
    e := Apply(s1, PushDone(At(s.local, k)));
    Then(s, s1, PushDone(At(s.local, k)));
  }

  /** Ingest and pushes are refused exactly for the keys that are closed to them. */
  lemma RefusedExactly(s: State, k: Key, data: Bytes)
    requires !s.gate && s.pass.Idle?
    ensures Enabled(s, Ingest(k, data)) <==> !Closed(s, k)
  {
  }
}
