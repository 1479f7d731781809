/** The blob mirror of the archive (turma/archive-mirror.js) within one leader term: the drain that
    PUTs dirty files, the gated hydrate, the blocked-key retries and the on-demand raw fetches, as
    one transition system over their interleavings. Every download goes to a temporary file and is
    renamed over the local path only if it is still wanted at that instant. */
module Mirror {
  import opened Basics

  /** An object key, in the rendered layer or under some transcript's `.jsonl.raw` directory. */
  datatype Key = Rendered(path: string) | RawLayer(path: string)

  datatype Kind = Hydrate(run: nat) | Retry | Raw

  /** One GET: `body` once the object has been read, `gone` on a 404, `landed` once renamed.
      `abandoned` is the caller's flag after a deadline or a yield. */
  datatype Fetch = Fetch(key: Key, kind: Kind, body: Option<Bytes>, gone: bool, landed: bool, abandoned: bool)

  /** One PUT in flight: the key, and the local bytes when it started. */
  datatype Push = Push(key: Key, from: Bytes)

  /** A hydrate pass: before its listing, with its listing, or downloading. `queue` is not yet
      taken by a worker, `busy` is taken and not settled. */
  datatype Pass =
    | Idle
    | Waiting
    | Listed(listing: map<Key, nat>)
    | Downloading(queue: set<Key>, busy: set<Key>)

  datatype State = State(
    local: map<Key, Bytes>, bucket: map<Key, Bytes>,
    dirty: set<Key>, pushing: Option<Push>,
    blocked: set<Key>, pending: set<Key>,
    gate: bool, run: nat, pass: Pass, hydrated: bool, returned: bool,
    retrying: bool, done: set<Key>,
    fetches: map<nat, Fetch>,
    touched: set<Key>)  // the keys this term has written to

  datatype Step =
    | Ingest(k: Key, data: Bytes)
    | PushStart(k: Key)
    | PushDone(content: Bytes)
    | PushFail(landed: Option<Bytes>)
    | ObjectDeleted(k: Key)
    | CloseGate
    | OpenGate
    | HydrateStart
    | ListFails
    | List
    | Classify
    | HydrateGet(k: Key, i: nat)
    | HydrateSettle(i: nat, timedOut: bool)
    | HydrateDone
    | HydrateAbandon
    | RetryStart
    | RetryGet(k: Key, i: nat)
    | RetryResult(i: nat, gaveUp: bool)
    | RetrySettle(reconciled: bool)
    | RetryEnd
    | RawGet(k: Key, i: nat)
    | RawResult(i: nat)
    | Read(i: nat)
    | Land(i: nat)
    | Drop(i: nat)

  function At(m: map<Key, Bytes>, k: Key): Bytes { if k in m then m[k] else [] }

  /** The size a stat of the local path gives, -1 for an absent file. */
  function LocalSize(local: map<Key, Bytes>, k: Key): int { if k in local then |local[k]| else -1 }

  /** The hydrate's fetch rule: only an absent or shorter local copy is (re)fetched. */
  predicate Short(local: map<Key, Bytes>, listing: map<Key, nat>, k: Key) {
    k in listing && LocalSize(local, k) < listing[k]
  }

  /** Asked again at the rename: may this download still land? */
  predicate Wanted(s: State, f: Fetch) {
    match f.kind
    case Hydrate(run) => run == s.run && !f.abandoned
    case Retry => !f.abandoned && f.key in s.blocked
    case Raw => f.key in s.pending
  }

  predicate LiveRetry(f: Fetch) { f.kind == Retry && !f.abandoned }

  /** A retry pass GETs one key at a time. */
  predicate NoLiveRetry(s: State) { forall i :: i in s.fetches ==> !LiveRetry(s.fetches[i]) }

  predicate LiveHydrate(s: State, f: Fetch) { f.kind == Hydrate(s.run) && !f.abandoned }

  predicate Enabled(s: State, st: Step) {
    match st
    case Ingest(k, _) => !s.gate && k !in s.blocked && k !in s.pending
    case PushStart(k) => s.pushing.None? && k in s.dirty && k !in s.blocked
    case PushDone(c) => s.pushing.Some? && s.pushing.value.from <= c <= At(s.local, s.pushing.value.key)
    case PushFail(c) =>
      s.pushing.Some? && (c.Some? ==> s.pushing.value.from <= c.value <= At(s.local, s.pushing.value.key))
    case ObjectDeleted(k) => k !in s.touched
    case CloseGate => !s.gate
    case OpenGate => s.gate && s.returned && s.hydrated
    case HydrateStart => s.gate && s.pass.Idle?
    case ListFails => s.pass.Waiting? && !s.retrying
    case List => s.pass.Waiting? && !s.retrying
    case Classify => s.pass.Listed?
    case HydrateGet(k, i) => s.pass.Downloading? && k in s.pass.queue && i !in s.fetches
    case HydrateSettle(i, timedOut) =>
      && s.pass.Downloading? && i in s.fetches
      && s.fetches[i].kind == Hydrate(s.run) && !s.fetches[i].abandoned
    case HydrateDone => s.pass.Downloading? && s.pass.queue == {} && s.pass.busy == {}
    case HydrateAbandon => !s.pass.Idle?
    case RetryStart => s.pass.Idle? && !s.retrying && s.blocked != {}
    case RetryGet(k, i) => s.retrying && k in s.blocked && k !in s.done && i !in s.fetches && NoLiveRetry(s)
    case RetryResult(i, _) => s.retrying && i in s.fetches && s.fetches[i].kind == Retry && !s.fetches[i].abandoned
    case RetrySettle(_) => s.retrying && NoLiveRetry(s)
    case RetryEnd => s.retrying && s.done == {} && NoLiveRetry(s)
    case RawGet(k, i) => k in s.pending && i !in s.fetches
    case RawResult(i) => i in s.fetches && s.fetches[i].kind == Raw
    case Read(i) => i in s.fetches && s.fetches[i].body.None? && !s.fetches[i].gone
    case Land(i) => i in s.fetches && s.fetches[i].body.Some? && !s.fetches[i].landed && Wanted(s, s.fetches[i])
    case Drop(i) => i in s.fetches && (s.fetches[i].abandoned || (s.fetches[i].kind.Hydrate? && s.fetches[i].kind.run != s.run))
  }

  function Apply(s: State, st: Step): State
    requires Enabled(s, st)
  {
    match st
    case Ingest(k, data) =>
      s.(local := s.local[k := At(s.local, k) + data], dirty := s.dirty + {k}, touched := s.touched + {k})
    case PushStart(k) => s.(dirty := s.dirty - {k}, pushing := Some(Push(k, At(s.local, k))))
    case PushDone(c) => s.(bucket := s.bucket[s.pushing.value.key := c], pushing := None)
    case PushFail(c) =>
      s.(dirty := s.dirty + {s.pushing.value.key}, pushing := None,
         bucket := if c.Some? then s.bucket[s.pushing.value.key := c.value] else s.bucket)
    case ObjectDeleted(k) => s.(bucket := s.bucket - {k})
    case CloseGate => s.(gate := true, returned := false)
    case OpenGate => s.(gate := false)
    case HydrateStart => s.(run := s.run + 1, pass := Waiting, returned := false)
    case ListFails => s.(pass := Idle, hydrated := false, returned := true)
    case List => s.(pass := Listed(map k | k in s.bucket :: |s.bucket[k]|))
    case Classify => Classified(s)
    case HydrateGet(k, i) =>
      s.(pass := Downloading(s.pass.queue - {k}, s.pass.busy + {k}),
         fetches := s.fetches[i := Fetch(k, Hydrate(s.run), None, false, false, false)])
    case HydrateSettle(i, timedOut) => HydrateSettled(s, i, timedOut)
    case HydrateDone => s.(pass := Idle, hydrated := true, returned := true)
    case HydrateAbandon => s.(run := s.run + 1, pass := Idle, hydrated := false, returned := true)
    case RetryStart => s.(retrying := true)
    case RetryGet(k, i) => s.(fetches := s.fetches[i := Fetch(k, Retry, None, false, false, false)])
    case RetryResult(i, gaveUp) =>
      var f := s.fetches[i];
      if gaveUp then s.(fetches := s.fetches[i := f.(abandoned := true)])
      else if f.landed || f.gone then s.(done := s.done + {f.key}, fetches := s.fetches - {i})
      else s.(fetches := s.fetches - {i})
    case RetrySettle(reconciled) =>
      if reconciled then s.(blocked := s.blocked - s.done, done := {}) else s.(done := {})
    case RetryEnd => s.(retrying := false)
    case RawGet(k, i) => s.(fetches := s.fetches[i := Fetch(k, Raw, None, false, false, false)])
    case RawResult(i) =>
      var f := s.fetches[i];
      s.(fetches := s.fetches - {i},
         pending := if f.landed || f.gone then s.pending - {f.key} else s.pending)
    case Read(i) =>
      var f := s.fetches[i];
      s.(fetches := s.fetches[i :=
        if f.key in s.bucket then f.(body := Some(s.bucket[f.key])) else f.(gone := true)])
    case Land(i) =>
      var f := s.fetches[i];
      s.(local := s.local[f.key := f.body.value], fetches := s.fetches[i := f.(landed := true)])
    case Drop(i) => s.(fetches := s.fetches - {i})
  }

  /** The one synchronous step between a listing and its downloads: the new pending set, the keys
      to download, and every blocked key that is no longer listed or no longer short opened. */
  function Classified(s: State): State
    requires s.pass.Listed?
  {
    var l := s.pass.listing;
    s.(pending := (set k | k in l && k.RawLayer? && Short(s.local, l, k)),
       blocked := (set k | k in s.blocked && Short(s.local, l, k)),
       pass := Downloading((set k | k in l && k.Rendered? && Short(s.local, l, k)), {}))
  }

  function HydrateSettled(s: State, i: nat, timedOut: bool): State
    requires Enabled(s, HydrateSettle(i, timedOut))
  {
    var f := s.fetches[i];
    var pass := Downloading(s.pass.queue, s.pass.busy - {f.key});
    if timedOut then
      s.(pass := pass, blocked := s.blocked + {f.key}, fetches := s.fetches[i := f.(abandoned := true)])
    else if f.landed || f.gone then
      s.(pass := pass, blocked := s.blocked - {f.key}, fetches := s.fetches - {i})
    else
      s.(pass := pass, blocked := s.blocked + {f.key}, fetches := s.fetches - {i})
  }

  predicate Legal(s: State, steps: seq<Step>)
    decreases |steps|
  {
    steps != [] ==> Enabled(s, steps[0]) && Legal(Apply(s, steps[0]), steps[1..])
  }

  function Exec(s: State, steps: seq<Step>): State
    requires Legal(s, steps)
    decreases |steps|
  {
    if steps == [] then s else Exec(Apply(s, steps[0]), steps[1..])
  }

  predicate Comparable(a: Bytes, b: Bytes) { a <= b || b <= a }

  /** What a download has read so far covers its object: the body, or the 404. */
  predicate ReadCovers(s: State, f: Fetch) {
    && (f.body.Some? ==> At(s.bucket, f.key) <= f.body.value)
    && (f.gone ==> At(s.bucket, f.key) == [])
  }

  /** A download carried over into a term: no hydrate or retry pass is running to want it, it has not
      landed, and what it read was some earlier or later state of the object. */
  predicate Carried(s: State, f: Fetch) {
    && !LiveHydrate(s, f) && !LiveRetry(f) && (f.kind.Hydrate? ==> f.kind.run <= s.run)
    && !f.landed && (f.gone ==> f.body.None?)
    && (f.body.Some? ==> Comparable(f.body.value, At(s.bucket, f.key)))
    && (f.kind.Raw? ==> f.key.RawLayer?)
  }

  /** The start of a leader term: ingest gated, nothing dirty, nothing being pushed, each local file a
      prefix or an extension of its object, pending keys short of theirs; downloads may be in flight. */
  ghost predicate TermStart(s: State) {
    && s.gate && !s.returned && s.pass.Idle? && !s.retrying && s.done == {}
    && s.dirty == {} && s.pushing.None? && s.touched == {}
    && (forall k :: Comparable(At(s.local, k), At(s.bucket, k)))
    && (forall k :: k in s.blocked ==> k.Rendered?)
    && (forall k :: k in s.pending ==> k.RawLayer? && (k in s.bucket ==> LocalSize(s.local, k) < |s.bucket[k]|))
    && (forall i :: i in s.fetches ==> Carried(s, s.fetches[i]))
  }

  /** The condition on the downloads carried over: where the local file falls short, what they read
      does not. */
  ghost predicate NothingStale(s: State) { forall i: nat :: !StaleOn(s, i) }

  /** A raw download in flight whose key's file falls short of its object, and whose own read does. */
  predicate StaleOn(s: State, i: nat) {
    i in s.fetches && s.fetches[i].kind.Raw? && !Covered(s, s.fetches[i].key) && !ReadCovers(s, s.fetches[i])
  }

  ghost predicate Init(s: State) { TermStart(s) && NothingStale(s) }

  // ---- the invariant -------------------------------------------------------------

  predicate Covered(s: State, k: Key) { At(s.bucket, k) <= At(s.local, k) }

  /** The keys not yet known to cover their object. */
  predicate Closed(s: State, k: Key) {
    || k in s.blocked || k in s.pending
    || (s.pass.Downloading? && (k in s.pass.queue || k in s.pass.busy))
  }

  /** True when the local tree has been classified: ingest is open, or about to be. */
  predicate Classifying(s: State) { !s.gate || (s.returned && s.hydrated) || s.pass.Downloading? }

  predicate KeyOk(s: State, k: Key) {
    && Comparable(At(s.local, k), At(s.bucket, k))
    && (Classifying(s) && !Closed(s, k) ==> Covered(s, k))
    && (k in s.dirty ==> k in s.touched)
    && (k in s.touched ==> k in s.local && !Closed(s, k) && Covered(s, k))
    && (k in s.touched && k !in s.dirty && !(s.pushing.Some? && s.pushing.value.key == k) ==>
      At(s.local, k) == At(s.bucket, k))
    && (k in s.done ==> k in s.blocked && Covered(s, k))
    && (s.pass.Listed? ==> ListingOk(s, s.pass.listing, k))
  }

  predicate ListingOk(s: State, l: map<Key, nat>, k: Key) {
    if k in s.touched then k in l ==> l[k] <= LocalSize(s.local, k)
    else if k in l then k !in s.bucket || |s.bucket[k]| == l[k]
    else k !in s.bucket
  }

  predicate PushOk(s: State, p: Push) {
    && p.key in s.touched && At(s.bucket, p.key) <= p.from <= At(s.local, p.key)
    && (p.key !in s.dirty ==> At(s.local, p.key) == p.from)
  }

  predicate FetchOk(s: State, f: Fetch) {
    && (f.kind.Hydrate? ==> f.kind.run <= s.run)
    && (LiveHydrate(s, f) ==> s.pass.Downloading? && f.key in s.pass.busy)
    && (LiveRetry(f) ==> s.retrying && f.key in s.blocked && f.key !in s.done)
    && (f.landed ==> f.body.Some?)
    && (f.gone ==> f.body.None?)
    && (f.key !in s.touched ==>
      && (f.landed && MayOpen(s, f) ==> Covered(s, f.key))
      && (MayOpen(s, f) ==> ReadCovers(s, f))
      && (f.kind.Raw? ==> (ReadCovers(s, f) && (f.landed ==> Covered(s, f.key))) || Sealed(s, f.key)))
  }

  /** A download of a running pass, whose end may open its key. */
  predicate MayOpen(s: State, f: Fetch) { LiveHydrate(s, f) || LiveRetry(f) }

  /** Covered and not pending: no raw download of this key is wanted any more. */
  predicate Sealed(s: State, k: Key) { Covered(s, k) && k !in s.pending }

  predicate Shape(s: State) {
    && (!s.pass.Idle? ==> s.gate && !s.returned)
    && (s.retrying ==> s.pass.Idle? || s.pass.Waiting?)
    && (!s.retrying ==> s.done == {})
    && (s.pushing.Some? ==> PushOk(s, s.pushing.value))
    && (s.pass.Downloading? ==> s.pass.queue !! s.pass.busy)
  }

  ghost predicate Keys(s: State) { forall k :: KeyOk(s, k) }

  ghost predicate Fetches(s: State) { forall i :: i in s.fetches ==> FetchOk(s, s.fetches[i]) }

  ghost predicate NoClash(s: State) {
    forall i, j :: i in s.fetches && j in s.fetches && i != j ==> !Clash(s, s.fetches[i], s.fetches[j])
  }

  ghost predicate Inv(s: State) { Shape(s) && Keys(s) && Fetches(s) && NoClash(s) }

  /** No key is being fetched twice by one hydrate pass, and a retry pass fetches one key at a time. */
  predicate Clash(s: State, f: Fetch, g: Fetch) {
    || (LiveHydrate(s, f) && LiveHydrate(s, g) && f.key == g.key)
    || (LiveRetry(f) && LiveRetry(g))
  }

  // ---- every step keeps it ---------------------------------------------------------

  lemma SameClashes(s: State, s': State)
    requires NoClash(s) && Fetches(s) && s'.fetches == s.fetches && (s'.run == s.run || s'.run == s.run + 1)
    ensures NoClash(s')
  {
    forall i, j | i in s'.fetches && j in s'.fetches && i != j ensures !Clash(s', s'.fetches[i], s'.fetches[j]) {
      assert FetchOk(s, s.fetches[i]) && !Clash(s, s.fetches[i], s.fetches[j]);
    }
  }

  lemma KeepIngest(s: State, st: Step)
    requires Inv(s) && Enabled(s, st) && (st.Ingest?)
    ensures Inv(Apply(s, st))
  {
    var s' := Apply(s, st);
    assert KeyOk(s, st.k);
    forall k ensures KeyOk(s', k) { assert KeyOk(s, k); }
    forall i | i in s'.fetches ensures FetchOk(s', s'.fetches[i]) {
      assert FetchOk(s, s.fetches[i]) && KeyOk(s, s.fetches[i].key);
    }
    SameClashes(s, s');
  }

  lemma KeepPushStart(s: State, st: Step)
    requires Inv(s) && Enabled(s, st) && (st.PushStart?)
    ensures Inv(Apply(s, st))
  {
    var s' := Apply(s, st);
    assert KeyOk(s, st.k);
    forall k ensures KeyOk(s', k) { assert KeyOk(s, k); }
    forall i | i in s'.fetches ensures FetchOk(s', s'.fetches[i]) {
      assert FetchOk(s, s.fetches[i]) && KeyOk(s, s.fetches[i].key);
    }
    SameClashes(s, s');
  }

  lemma KeepPushEnd(s: State, st: Step)
    requires Inv(s) && Enabled(s, st) && (st.PushDone? || st.PushFail?)
    ensures Inv(Apply(s, st))
  {
    var s' := Apply(s, st);
    PushEndKeys(s, st);
    forall i | i in s'.fetches ensures FetchOk(s', s'.fetches[i]) { assert FetchOk(s, s.fetches[i]); }
    SameClashes(s, s');
  }

  lemma PushEndKeys(s: State, st: Step)
    requires Keys(s) && Shape(s) && Enabled(s, st) && (st.PushDone? || st.PushFail?)
    ensures Keys(Apply(s, st)) && Shape(Apply(s, st))
  {
    var s' := Apply(s, st);
    assert PushOk(s, s.pushing.value) && KeyOk(s, s.pushing.value.key);
    forall k ensures KeyOk(s', k) { assert KeyOk(s, k); }
  }

  lemma KeepDelete(s: State, st: Step)
    requires Inv(s) && Enabled(s, st) && (st.ObjectDeleted?)
    ensures Inv(Apply(s, st))
  {
    var s' := Apply(s, st);
    forall k ensures KeyOk(s', k) { assert KeyOk(s, k); }
    forall i | i in s'.fetches ensures FetchOk(s', s'.fetches[i]) {
      assert FetchOk(s, s.fetches[i]) && KeyOk(s, s.fetches[i].key);
    }
    SameClashes(s, s');
  }

  lemma KeepGate(s: State, st: Step)
    requires Inv(s) && Enabled(s, st) && (st.CloseGate? || st.OpenGate?)
    ensures Inv(Apply(s, st))
  {
    var s' := Apply(s, st);
    forall k ensures KeyOk(s', k) { assert KeyOk(s, k); }
    forall i | i in s'.fetches ensures FetchOk(s', s'.fetches[i]) {
      assert FetchOk(s, s.fetches[i]) && KeyOk(s, s.fetches[i].key);
    }
    SameClashes(s, s');
  }

  lemma NewRunKeys(s: State, st: Step)
    requires Keys(s) && Shape(s) && Enabled(s, st) && (st.HydrateStart? || st.HydrateAbandon?)
    ensures Keys(Apply(s, st)) && Shape(Apply(s, st))
  {
    var s' := Apply(s, st);
    forall k ensures KeyOk(s', k) { assert KeyOk(s, k); }
  }

  lemma KeepHydrateStart(s: State, st: Step)
    requires Inv(s) && Enabled(s, st) && (st.HydrateStart? || st.HydrateAbandon?)
    ensures Inv(Apply(s, st))
  {
    var s' := Apply(s, st);
    NewRunKeys(s, st);
    forall i | i in s'.fetches ensures FetchOk(s', s'.fetches[i]) { assert FetchOk(s, s.fetches[i]); }
    SameClashes(s, s');
  }

  lemma KeepList(s: State, st: Step)
    requires Inv(s) && Enabled(s, st) && (st.ListFails? || st.List?)
    ensures Inv(Apply(s, st))
  {
    var s' := Apply(s, st);
    forall k ensures KeyOk(s', k) { assert KeyOk(s, k); }
    forall i | i in s'.fetches ensures FetchOk(s', s'.fetches[i]) {
      assert FetchOk(s, s.fetches[i]) && KeyOk(s, s.fetches[i].key);
    }
    SameClashes(s, s');
  }

  lemma KeepHydrateDone(s: State, st: Step)
    requires Inv(s) && Enabled(s, st) && (st.HydrateDone?)
    ensures Inv(Apply(s, st))
  {
    var s' := Apply(s, st);
    forall k ensures KeyOk(s', k) { assert KeyOk(s, k); }
    forall i | i in s'.fetches ensures FetchOk(s', s'.fetches[i]) {
      assert FetchOk(s, s.fetches[i]) && KeyOk(s, s.fetches[i].key);
    }
    SameClashes(s, s');
  }

  lemma KeepClassify(s: State, st: Step)
    requires Inv(s) && Enabled(s, st) && (st.Classify?)
    ensures Inv(Apply(s, st))
  {
    var s' := Apply(s, st);
    forall k ensures KeyOk(s', k) { assert KeyOk(s, k); }
    forall i | i in s'.fetches ensures FetchOk(s', s'.fetches[i]) {
      assert FetchOk(s, s.fetches[i]) && KeyOk(s, s.fetches[i].key);
    }
    SameClashes(s, s');
  }

  lemma KeepRetryEnds(s: State, st: Step)
    requires Inv(s) && Enabled(s, st) && (st.RetryStart? || st.RetryEnd?)
    ensures Inv(Apply(s, st))
  {
    var s' := Apply(s, st);
    forall k ensures KeyOk(s', k) { assert KeyOk(s, k); }
    forall i | i in s'.fetches ensures FetchOk(s', s'.fetches[i]) {
      assert KeyOk(s, s.fetches[i].key);
      RetryEndsFetch(s, st, i);
    }
    SameClashes(s, s');
  }

  lemma RetryEndsFetch(s: State, st: Step, i: nat)
    requires Inv(s) && Enabled(s, st) && (st.RetryStart? || st.RetryEnd?) && i in s.fetches
    ensures FetchOk(Apply(s, st), s.fetches[i])
  {
    assert FetchOk(s, s.fetches[i]) && KeyOk(s, s.fetches[i].key);
  }

  lemma RetrySettleKey(s: State, reconciled: bool, k: Key)
    requires Shape(s) && s.retrying && KeyOk(s, k)
    ensures KeyOk(if reconciled then s.(blocked := s.blocked - s.done, done := {}) else s.(done := {}), k)
  {
  }

  lemma RetrySettleKeys(s: State, st: Step)
    requires Keys(s) && Shape(s) && Enabled(s, st) && st.RetrySettle?
    ensures Keys(Apply(s, st)) && Shape(Apply(s, st))
  {
    var s' := Apply(s, st);
    forall k ensures KeyOk(s', k) { assert KeyOk(s, k); RetrySettleKey(s, st.reconciled, k); }
  }

  lemma KeepRetrySettle(s: State, st: Step)
    requires Inv(s) && Enabled(s, st) && (st.RetrySettle?)
    ensures Inv(Apply(s, st))
  {
    var s' := Apply(s, st);
    RetrySettleKeys(s, st);
    RetrySettleFetches(s, st);
    SameClashes(s, s');
  }

  lemma RetrySettleFetches(s: State, st: Step)
    requires Fetches(s) && Enabled(s, st) && st.RetrySettle?
    ensures Fetches(Apply(s, st))
  {
    var s' := Apply(s, st);
    forall i | i in s'.fetches ensures FetchOk(s', s'.fetches[i]) {
      assert FetchOk(s, s.fetches[i]) && !LiveRetry(s.fetches[i]);
      UnretriedFetch(s, s'.blocked, s.fetches[i]);
    }
  }

  lemma UnretriedFetch(s: State, blocked: set<Key>, f: Fetch)
    requires FetchOk(s, f) && !LiveRetry(f)
    ensures FetchOk(s.(blocked := blocked, done := {}), f)
  {
  }

  /** What one rewritten fetch may change for the others: nothing but the local file it landed on. */
  predicate Around(s: State, s': State, i: nat) {
    && s'.run == s.run && s'.touched == s.touched && s'.bucket == s.bucket && s'.pending <= s.pending
    && (forall j :: j in s'.fetches && j != i ==> j in s.fetches && s'.fetches[j] == s.fetches[j])
    && (forall k :: k in s'.local && k !in s'.touched && At(s'.local, k) != At(s.local, k) ==> Covered(s', k))
    && (forall k :: k in s.local ==> k in s'.local)
  }

  predicate StillHeld(s: State, s': State, f: Fetch) {
    && (LiveHydrate(s, f) ==> s'.pass.Downloading? && f.key in s'.pass.busy)
    && (LiveRetry(f) ==> s'.retrying && f.key in s'.blocked && f.key !in s'.done)
  }

  lemma OtherFetch(s: State, s': State, i: nat, j: nat)
    requires Around(s, s', i) && j in s'.fetches && j != i
    requires j in s.fetches && FetchOk(s, s.fetches[j]) && StillHeld(s, s', s.fetches[j])
    ensures FetchOk(s', s'.fetches[j])
  {
    var k := s.fetches[j].key;
    if At(s'.local, k) != At(s.local, k) { assert k in s'.local; }
  }

  lemma KeepOthers(s: State, s': State, i: nat)
    requires Inv(s) && Around(s, s', i) && Shape(s') && Keys(s')
    requires forall j :: j in s'.fetches && j != i ==> StillHeld(s, s', s.fetches[j])
    requires i in s'.fetches ==> FetchOk(s', s'.fetches[i])
    requires forall j :: j in s'.fetches && j != i && i in s'.fetches ==> !Clash(s', s'.fetches[i], s'.fetches[j])
    ensures Inv(s')
  {
    forall j | j in s'.fetches ensures FetchOk(s', s'.fetches[j]) {
      if j != i { OtherFetch(s, s', i, j); }
    }
    forall a, b | a in s'.fetches && b in s'.fetches && a != b ensures !Clash(s', s'.fetches[a], s'.fetches[b]) {
      if a != i && b != i { assert !Clash(s, s.fetches[a], s.fetches[b]); }
      else if a == i { assert !Clash(s', s'.fetches[i], s'.fetches[b]); }
      else { assert !Clash(s', s'.fetches[i], s'.fetches[a]); }
    }
  }

  lemma FetchOnlyKeys(s: State, s': State)
    requires Keys(s) && s' == s.(fetches := s'.fetches)
    ensures Keys(s')
  {
    forall x ensures KeyOk(s', x) { assert KeyOk(s, x); }
  }

  lemma FetchOnlyHeld(s: State, s': State, i: nat)
    requires Fetches(s) && s' == s.(fetches := s'.fetches)
    requires forall j :: j in s'.fetches && j != i ==> j in s.fetches && s'.fetches[j] == s.fetches[j]
    ensures Around(s, s', i) && forall j :: j in s'.fetches && j != i ==> StillHeld(s, s', s.fetches[j])
  {
    forall j | j in s'.fetches && j != i ensures StillHeld(s, s', s.fetches[j]) { assert FetchOk(s, s.fetches[j]); }
  }

  /** A step that rewrites one fetch and nothing else. */
  lemma KeepFetchOnly(s: State, s': State, i: nat)
    requires Inv(s) && s' == s.(fetches := s'.fetches)
    requires forall j :: j in s'.fetches && j != i ==> j in s.fetches && s'.fetches[j] == s.fetches[j]
    requires i in s'.fetches ==> FetchOk(s', s'.fetches[i])
    requires forall j :: j in s'.fetches && j != i && i in s'.fetches ==> !Clash(s', s'.fetches[i], s'.fetches[j])
    ensures Inv(s')
  {
    FetchOnlyKeys(s, s');
    FetchOnlyHeld(s, s', i);
    KeepOthers(s, s', i);
  }

  lemma KeepHydrateGet(s: State, k: Key, i: nat)
    requires Inv(s) && Enabled(s, HydrateGet(k, i))
    ensures Inv(Apply(s, HydrateGet(k, i)))
  {
    var s' := Apply(s, HydrateGet(k, i));
    forall x ensures KeyOk(s', x) { assert KeyOk(s, x); }
    forall j | j in s'.fetches && j != i ensures StillHeld(s, s', s.fetches[j]) {
      assert FetchOk(s, s.fetches[j]);
    }
    forall j | j in s'.fetches && j != i ensures !Clash(s', s'.fetches[i], s'.fetches[j]) {
      assert FetchOk(s, s.fetches[j]);
    }
    KeepOthers(s, s', i);
  }

  lemma KeepHydrateSettle(s: State, i: nat, timedOut: bool)
    requires Inv(s) && Enabled(s, HydrateSettle(i, timedOut))
    ensures Inv(Apply(s, HydrateSettle(i, timedOut)))
  {
    var s' := Apply(s, HydrateSettle(i, timedOut));
    assert FetchOk(s, s.fetches[i]);
    forall x ensures KeyOk(s', x) { assert KeyOk(s, x); }
    forall j | j in s'.fetches && j != i ensures StillHeld(s, s', s.fetches[j]) {
      assert FetchOk(s, s.fetches[j]) && !Clash(s, s.fetches[i], s.fetches[j]);
    }
    KeepOthers(s, s', i);
  }

  lemma KeepRetryGet(s: State, k: Key, i: nat)
    requires Inv(s) && Enabled(s, RetryGet(k, i))
    ensures Inv(Apply(s, RetryGet(k, i)))
  {
    var s' := Apply(s, RetryGet(k, i));
    forall x ensures KeyOk(s', x) { assert KeyOk(s, x); }
    forall j | j in s'.fetches && j != i ensures StillHeld(s, s', s.fetches[j]) {
      assert FetchOk(s, s.fetches[j]);
    }
    forall j | j in s'.fetches && j != i ensures !Clash(s', s'.fetches[i], s'.fetches[j]) {
      assert FetchOk(s, s.fetches[j]);
    }
    KeepOthers(s, s', i);
  }

  lemma RetryResultKeys(s: State, i: nat)
    requires Keys(s) && Fetches(s) && Enabled(s, RetryResult(i, false))
    ensures Keys(Apply(s, RetryResult(i, false)))
  {
    var s' := Apply(s, RetryResult(i, false));
    assert FetchOk(s, s.fetches[i]) && KeyOk(s, s.fetches[i].key);
    forall x ensures KeyOk(s', x) { assert KeyOk(s, x); }
  }

  lemma KeepRetryResult(s: State, i: nat, gaveUp: bool)
    requires Inv(s) && Enabled(s, RetryResult(i, gaveUp))
    ensures Inv(Apply(s, RetryResult(i, gaveUp)))
  {
    var s' := Apply(s, RetryResult(i, gaveUp));
    if gaveUp {
      GiveUpFetch(s, i);
      KeepFetchOnly(s, s', i);
    } else {
      RetryResultKeys(s, i);
      forall j | j in s'.fetches && j != i ensures StillHeld(s, s', s.fetches[j]) {
        assert FetchOk(s, s.fetches[j]) && !Clash(s, s.fetches[i], s.fetches[j]);
      }
      KeepOthers(s, s', i);
    }
  }

  lemma GiveUpFetch(s: State, i: nat)
    requires Fetches(s) && NoClash(s) && Enabled(s, RetryResult(i, true))
    ensures var s' := Apply(s, RetryResult(i, true));
            FetchOk(s', s'.fetches[i])
            && forall j :: j in s'.fetches && j != i ==> !Clash(s', s'.fetches[i], s'.fetches[j])
  {
    assert FetchOk(s, s.fetches[i]);
  }

  lemma KeepRawGet(s: State, k: Key, i: nat)
    requires Inv(s) && Enabled(s, RawGet(k, i))
    ensures Inv(Apply(s, RawGet(k, i)))
  {
    KeepFetchOnly(s, Apply(s, RawGet(k, i)), i);
  }

  lemma KeepRawResult(s: State, i: nat)
    requires Inv(s) && Enabled(s, RawResult(i))
    ensures Inv(Apply(s, RawResult(i)))
  {
    var s' := Apply(s, RawResult(i));
    assert FetchOk(s, s.fetches[i]) && KeyOk(s, s.fetches[i].key);
    forall x ensures KeyOk(s', x) { assert KeyOk(s, x); }
    forall j | j in s'.fetches && j != i ensures StillHeld(s, s', s.fetches[j]) {
      assert FetchOk(s, s.fetches[j]);
    }
    KeepOthers(s, s', i);
  }

  lemma ReadFetch(s: State, i: nat)
    requires Fetches(s) && Enabled(s, Read(i))
    ensures var s' := Apply(s, Read(i)); FetchOk(s', s'.fetches[i])
  {
    assert FetchOk(s, s.fetches[i]);
  }

  lemma SameClash(s: State, f: Fetch, g: Fetch, h: Fetch)
    requires f.key == g.key && f.kind == g.kind && f.abandoned == g.abandoned && !Clash(s, f, h)
    ensures !Clash(s, g, h)
  {
  }

  lemma KeepRead(s: State, i: nat)
    requires Inv(s) && Enabled(s, Read(i))
    ensures Inv(Apply(s, Read(i)))
  {
    var s' := Apply(s, Read(i));
    ReadFetch(s, i);
    forall j | j in s'.fetches && j != i ensures !Clash(s', s'.fetches[i], s'.fetches[j]) {
      assert !Clash(s, s.fetches[i], s.fetches[j]);
      SameClash(s, s.fetches[i], s'.fetches[i], s.fetches[j]);
    }
    KeepFetchOnly(s, s', i);
  }

  lemma KeepDrop(s: State, i: nat)
    requires Inv(s) && Enabled(s, Drop(i))
    ensures Inv(Apply(s, Drop(i)))
  {
    KeepFetchOnly(s, Apply(s, Drop(i)), i);
  }

  /** No late download lands on an open file: at every rename the key is blocked, pending, or the
      ingest gate is closed. */
  lemma LandingIsClosed(s: State, i: nat)
    requires Inv(s) && Enabled(s, Land(i))
    ensures s.gate || s.fetches[i].key in s.blocked || s.fetches[i].key in s.pending
    ensures s.fetches[i].key !in s.touched
  {
    assert FetchOk(s, s.fetches[i]) && KeyOk(s, s.fetches[i].key);
  }

  lemma LandKey(s: State, f: Fetch, k: Key)
    requires KeyOk(s, k) && ReadCovers(s, f) && f.body.Some? && f.key !in s.touched
    ensures KeyOk(s.(local := s.local[f.key := f.body.value]), k)
  {
  }

  lemma LandKeys(s: State, i: nat)
    requires Inv(s) && Enabled(s, Land(i))
    ensures Keys(Apply(s, Land(i)))
  {
    var s' := Apply(s, Land(i));
    LandingIsClosed(s, i);
    var f := s.fetches[i];
    assert FetchOk(s, f);
    forall x ensures KeyOk(s', x) {
      assert KeyOk(s, x);
      LandKey(s, f, x);
      assert KeyOk(s.(local := s'.local), x);
    }
  }

  lemma LandAround(s: State, i: nat)
    requires Inv(s) && Enabled(s, Land(i))
    ensures Around(s, Apply(s, Land(i)), i) && Shape(Apply(s, Land(i)))
    ensures FetchOk(Apply(s, Land(i)), s.fetches[i].(landed := true))
  {
    LandingIsClosed(s, i);
    assert KeyOk(s, s.fetches[i].key);
    LandFetch(s, i);
    LandShape(s, i);
  }

  lemma LandFetch(s: State, i: nat)
    requires Fetches(s) && Enabled(s, Land(i)) && s.fetches[i].key !in s.touched
    ensures FetchOk(Apply(s, Land(i)), s.fetches[i].(landed := true)) && Covered(Apply(s, Land(i)), s.fetches[i].key)
  {
    assert FetchOk(s, s.fetches[i]);
  }

  lemma LandShape(s: State, i: nat)
    requires Shape(s) && Enabled(s, Land(i)) && s.fetches[i].key !in s.touched
    ensures Shape(Apply(s, Land(i)))
  {
  }

  lemma KeepLand(s: State, i: nat)
    requires Inv(s) && Enabled(s, Land(i))
    ensures Inv(Apply(s, Land(i)))
  {
    var s' := Apply(s, Land(i));
    LandKeys(s, i);
    LandAround(s, i);
    forall j | j in s'.fetches && j != i ensures StillHeld(s, s', s.fetches[j]) { assert FetchOk(s, s.fetches[j]); }
    forall j | j in s'.fetches && j != i ensures !Clash(s', s'.fetches[i], s'.fetches[j]) {
      assert !Clash(s, s.fetches[i], s.fetches[j]);
    }
    KeepOthers(s, s', i);
  }

  lemma InvStep(s: State, st: Step)
    requires Inv(s) && Enabled(s, st)
    ensures Inv(Apply(s, st))
  {
    match st
    case Ingest(_, _) => KeepIngest(s, st);
    case PushStart(_) => KeepPushStart(s, st);
    case PushDone(_) => KeepPushEnd(s, st);
    case PushFail(_) => KeepPushEnd(s, st);
    case ObjectDeleted(_) => KeepDelete(s, st);
    case CloseGate => KeepGate(s, st);
    case OpenGate => KeepGate(s, st);
    case HydrateStart => KeepHydrateStart(s, st);
    case HydrateAbandon => KeepHydrateStart(s, st);
    case ListFails => KeepList(s, st);
    case List => KeepList(s, st);
    case HydrateDone => KeepHydrateDone(s, st);
    case Classify => KeepClassify(s, st);
    case HydrateGet(k, i) => KeepHydrateGet(s, k, i);
    case HydrateSettle(i, timedOut) => KeepHydrateSettle(s, i, timedOut);
    case RetryStart => KeepRetryEnds(s, st);
    case RetryEnd => KeepRetryEnds(s, st);
    case RetryGet(k, i) => KeepRetryGet(s, k, i);
    case RetryResult(i, gaveUp) => KeepRetryResult(s, i, gaveUp);
    case RetrySettle(_) => KeepRetrySettle(s, st);
    case RawGet(k, i) => KeepRawGet(s, k, i);
    case RawResult(i) => KeepRawResult(s, i);
    case Read(i) => KeepRead(s, i);
    case Land(i) => KeepLand(s, i);
    case Drop(i) => KeepDrop(s, i);
  }

  lemma {:induction false} InvRun(s: State, steps: seq<Step>)
    requires Inv(s) && Legal(s, steps)
    ensures Inv(Exec(s, steps))
    decreases |steps|
  {
    if steps != [] {
      InvStep(s, steps[0]);
      InvRun(Apply(s, steps[0]), steps[1..]);
    }
  }

  lemma InitInv(s: State)
    requires Init(s)
    ensures Inv(s)
  {
    forall i | i in s.fetches ensures FetchOk(s, s.fetches[i]) { assert Carried(s, s.fetches[i]) && !StaleOn(s, i); }
    forall i, j | i in s.fetches && j in s.fetches && i != j ensures !Clash(s, s.fetches[i], s.fetches[j]) {
      assert Carried(s, s.fetches[i]);
    }
  }

  // ---- the results ---------------------------------------------------------------------

  lemma PushExtendsObject(s: State, st: Step, k: Key)
    requires Shape(s) && Enabled(s, st) && (st.PushDone? || st.PushFail?)
    ensures At(s.bucket, k) <= At(Apply(s, st).bucket, k)
  {
    var p := s.pushing.value;
    assert PushOk(s, p);
    assert st.PushDone? ==> At(s.bucket, p.key) <= st.content;
  }

  predicate PassStep(st: Step) {
    st.HydrateStart? || st.ListFails? || st.List? || st.Classify? || st.HydrateGet? || st.HydrateSettle?
    || st.HydrateDone? || st.HydrateAbandon? || st.CloseGate? || st.OpenGate?
  }

  lemma PassStepsLeaveBucket(s: State, st: Step)
    requires Enabled(s, st) && PassStep(st)
    ensures Apply(s, st).bucket == s.bucket
  {
    match st {
      case HydrateStart =>
      case ListFails =>
      case List =>
      case Classify =>
      case HydrateGet(_, _) =>
      case HydrateSettle(i, timedOut) =>
      case HydrateDone =>
      case HydrateAbandon =>
      case CloseGate =>
      case OpenGate =>
    }
  }

  /** Steps of one download outside a hydrate pass. */
  predicate FetchStep(st: Step) {
    st.RetryGet? || st.RetryResult? || st.RawGet? || st.RawResult? || st.Read? || st.Land? || st.Drop?
  }

  lemma FetchStepsLeaveBucket(s: State, st: Step)
    requires Enabled(s, st) && FetchStep(st)
    ensures Apply(s, st).bucket == s.bucket
  {
    match st {
      case RetryGet(_, _) =>
      case RetryResult(_, _) =>
      case RawGet(_, _) =>
      case RawResult(_) =>
      case Read(_) =>
      case Land(_) =>
      case Drop(_) =>
    }
  }

  lemma OthersLeaveBucket(s: State, st: Step)
    requires Enabled(s, st) && (st.Ingest? || st.PushStart? || st.RetryStart? || st.RetrySettle? || st.RetryEnd?)
    ensures Apply(s, st).bucket == s.bucket
  {
    match st {
      case Ingest(_, _) =>
      case PushStart(_) =>
      case RetryStart =>
      case RetrySettle(_) =>
      case RetryEnd =>
    }
  }

  lemma StepExtendsObject(s: State, st: Step, k: Key)
    requires Shape(s) && Enabled(s, st) && !st.ObjectDeleted?
    ensures At(s.bucket, k) <= At(Apply(s, st).bucket, k)
  {
    if st.PushDone? || st.PushFail? { PushExtendsObject(s, st, k); }
    else if PassStep(st) { PassStepsLeaveBucket(s, st); }
    else if FetchStep(st) { FetchStepsLeaveBucket(s, st); }
    else { OthersLeaveBucket(s, st); }
  }

  /** The bucket never loses bytes: whatever the hub does next after any run of one term, every
      object is extended or left alone; and every key this term wrote to is in the bucket in full
      unless it is still dirty or being pushed. */
  lemma BucketNeverLosesBytes(s: State, steps: seq<Step>, next: Step)
    requires Init(s) && Legal(s, steps) && Enabled(Exec(s, steps), next)
    ensures var s1, s2 := Exec(s, steps), Apply(Exec(s, steps), next);
      && (!next.ObjectDeleted? ==> forall k :: At(s1.bucket, k) <= At(s2.bucket, k))
      && (forall k :: k in s1.touched && k !in s1.dirty && !(s1.pushing.Some? && s1.pushing.value.key == k) ==>
           At(s1.local, k) == At(s1.bucket, k))
      && (forall k :: k in s1.touched ==> At(s1.bucket, k) <= At(s1.local, k))
  {
    InitInv(s);
    InvRun(s, steps);
    var s1, s2 := Exec(s, steps), Apply(Exec(s, steps), next);
    forall k
      ensures !next.ObjectDeleted? ==> At(s1.bucket, k) <= At(s2.bucket, k)
      ensures k in s1.touched ==> At(s1.bucket, k) <= At(s1.local, k)
      ensures k in s1.touched && k !in s1.dirty && !(s1.pushing.Some? && s1.pushing.value.key == k) ==>
        At(s1.local, k) == At(s1.bucket, k)
    {
      assert KeyOk(s1, k);
      if !next.ObjectDeleted? { StepExtendsObject(s1, next, k); }
    }
  }

  /** Every append starts on a file that covers its object, so nothing is ever written past a gap. */
  lemma IngestStartsCovered(s: State, steps: seq<Step>, k: Key, data: Bytes)
    requires Init(s) && Legal(s, steps) && Enabled(Exec(s, steps), Ingest(k, data))
    ensures At(Exec(s, steps).bucket, k) <= At(Exec(s, steps).local, k)
  {
    InitInv(s);
    InvRun(s, steps);
    assert KeyOk(Exec(s, steps), k);
  }
}
