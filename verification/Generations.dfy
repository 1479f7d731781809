/** The archive over many generations of replicas (turma/archive.js): each ingests for a while, crashes
    or hands over, and the next one starts from some file, some row and some sidecar ever written. */
module Generations {
  import opened Basics
  import opened Ingest
  import opened ExactlyOnce
  import opened Recovery

  // ---- one history ----------------------------------------------------------------------------

  /** The whole source as one archive would render it. */
  function Canon(src: seq<Rec>, budget: nat): seq<Line> { Rendered(All(src), 0, budget) }

  lemma {:induction false} RenderedAppend(a: seq<Entry>, b: seq<Entry>, archive: nat, budget: nat)
    ensures var p := Rendered(a, archive, budget);
            Rendered(a + b, archive, budget) == p + Rendered(b, archive + Size(p), budget)
  {
    if b == [] {
      assert a + b == a;
    } else {
      RenderedAppend(a, b[..|b| - 1], archive, budget);
      DropLast(a, b);
      var p := Rendered(a, archive, budget);
      RenderedStep(a + b, b, archive, budget, p, Rendered(b[..|b| - 1], archive + Size(p), budget));
    }
  }

  function NextLine(e: Entry, total: nat, budget: nat): Line { Line(e, budget > 0 && total >= budget) }

  lemma RenderedLast(es: seq<Entry>, archive: nat, budget: nat, p: seq<Line>)
    requires es != [] && Rendered(es[..|es| - 1], archive, budget) == p
    ensures Rendered(es, archive, budget) == p + [NextLine(es[|es| - 1], archive + Size(p), budget)]
  {
  }

  /** One entry more on a list and on its tail. */
  lemma RenderedStep(es: seq<Entry>, b: seq<Entry>, archive: nat, budget: nat, p: seq<Line>, q: seq<Line>)
    requires es != [] && b != [] && es[|es| - 1] == b[|b| - 1]
    requires Rendered(es[..|es| - 1], archive, budget) == p + q && Rendered(b[..|b| - 1], archive + Size(p), budget) == q
    ensures Rendered(es, archive, budget) == p + Rendered(b, archive + Size(p), budget)
  {
    RenderedLast(es, archive, budget, p + q);
    RenderedLast(b, archive + Size(p), budget, q);
    SizeAppend(p, q);
    Reassoc(p, q, [NextLine(b[|b| - 1], archive + Size(p) + Size(q), budget)]);
  }

  lemma RenderedLength(es: seq<Entry>, archive: nat, budget: nat)
    ensures |Rendered(es, archive, budget)| == |es|
  {
    RenderedEntries(es, archive, budget);
  }

  /** A prefix of the rendering is the rendering of a prefix. */
  lemma RenderedPrefix(es: seq<Entry>, n: nat, budget: nat)
    requires n <= |es|
    ensures Rendered(es[..n], 0, budget) <= Rendered(es, 0, budget)
    ensures |Rendered(es[..n], 0, budget)| == n
  {
    CutRejoin(es, n);
    RenderedAppend(es[..n], es[n..], 0, budget);
    RenderedLength(es[..n], 0, budget);
  }

  lemma CanonIs(file: seq<Line>, src: seq<Rec>, budget: nat)
    requires file <= Canon(src, budget)
    ensures |file| <= |All(src)| && file == Rendered(All(src)[..|file|], 0, budget) && Faithful(file, src)
  {
    RenderedLength(All(src), 0, budget);
    RenderedPrefix(All(src), |file|, budget);
    RenderedEntries(All(src)[..|file|], 0, budget);
  }

  lemma CanonGrows(src: seq<Rec>, more: seq<Rec>, budget: nat)
    ensures Canon(src, budget) <= Canon(src + more, budget)
  {
    assert (src + more)[..|src|] == src && (src + more)[..|src + more|] == src + more;
    AllGrows(src + more, |src|, |src + more|);
    assert All(src + more)[..|All(src)|] == All(src);
    RenderedPrefix(All(src + more), |All(src)|, budget);
  }

  lemma RenderedJoins(a: seq<Entry>, b: seq<Entry>, file: seq<Line>, budget: nat)
    requires file == Rendered(a, 0, budget)
    ensures file + Rendered(b, Size(file), budget) == Rendered(a + b, 0, budget)
  {
    RenderedAppend(a, b, 0, budget);
  }

  lemma PastJoins(es: seq<Entry>, n: nat, b: nat)
    requires n <= |es| && b <= |es|
    ensures es[..n] + Past(es, n, b) == es[..if n < b then b else n]
  {
  }

  /** A file that is the rendering so far, continued by the entries past it. */
  lemma RenderedOn(es: seq<Entry>, file: seq<Line>, b: nat, budget: nat)
    requires |file| <= |es| && b <= |es| && file == Rendered(es[..|file|], 0, budget)
    ensures file + Rendered(Past(es, |file|, b), Size(file), budget) <= Rendered(es, 0, budget)
  {
    RenderedJoins(es[..|file|], Past(es, |file|, b), file, budget);
    PastJoins(es, |file|, b);
    RenderedPrefix(es, if |file| < b then b else |file|, budget);
  }

  lemma BaseIsSize(t: Transcript, src: seq<Rec>)
    requires Inv(t, src, false)
    ensures Base(t) == Size(t.file)
  {
  }

  lemma KeptIsPast(t: Transcript, src: seq<Rec>, i: nat, j: nat)
    requires Inv(t, src, false) && Distinct(All(src)) && i <= j <= |src| && At(src, Have(t), i)
    ensures |t.file| <= |All(src)| && |All(src[..j])| <= |All(src)|
    ensures Kept(t, Between(src, i, j)) == Past(All(src), |t.file|, |All(src[..j])|)
  {
    InvAt(t, src, i, false);
    BetweenIsSlice(src, i, j);
    KeptIsTheTail(t, All(src), |All(src[..i])|, |All(src[..j])|);
  }

  /** However a chunk is cut, and whatever of it the file already held, it continues that rendering. */
  lemma AppendIsCanon(t: Transcript, src: seq<Rec>, i: nat, j: nat, budget: nat)
    requires Inv(t, src, false) && Distinct(All(src)) && i <= j <= |src| && At(src, Have(t), i)
    requires t.file <= Canon(src, budget)
    ensures WithFile(t, Between(src, i, j), budget).file <= Canon(src, budget)
  {
    KeptIsPast(t, src, i, j);
    BaseIsSize(t, src);
    CanonIs(t.file, src, budget);
    RenderedOn(All(src), t.file, |All(src[..j])|, budget);
  }

  // ---- the transition system --------------------------------------------------------------------

  /** The leader's own transcript, whether it is up, the source, and every file, row and sidecar ever
      written: any of them may be what the next replica finds. */
  datatype History = History(t: Transcript, up: bool, src: seq<Rec>, files: set<seq<Line>>, rows: set<Row>, sides: set<Side>)

  datatype Step =
    | Grow(more: seq<Rec>)
    | Chunk(i: nat, j: nat, refused: bool)
    | CrashAfterAppend(i: nat, j: nat)
    | CrashAfterRow(i: nat, j: nat)
    | Crash
    | AppendThrows(i: nat, j: nat)
    | Restart
    | Takeover(file: seq<Line>, row: Row, side: Option<Side>)
    | Rebuild(file: seq<Line>, meta: Side)

  predicate Sends(st: Step) { st.Chunk? || st.CrashAfterAppend? || st.CrashAfterRow? || st.AppendThrows? }

  /** What can happen at all. */
  predicate Possible(h: History, st: Step) {
    match st
    case Grow(_) => true
    case Crash => h.up
    case Restart => true
    case Takeover(file, row, side) => file in h.files && row in h.rows && (side.Some? ==> side.value in h.sides)
    case Rebuild(file, meta) => file in h.files && meta in h.sides
    case _ => h.up && st.i <= st.j <= |h.src|
  }

  predicate Taken(h: History, st: Step)
    requires Sends(st) && Possible(h, st)
  {
    !(st.Chunk? && st.refused) && Accepts(h.t, Off(h.src[..st.i]), Off(h.src[..st.j]))
  }

  function Found(file: seq<Line>, row: Option<Row>, side: Option<Side>): Transcript { Transcript(file, row, side, false) }

  /** What each write leaves for others to find. */
  function Noted(h: History, t: Transcript, up: bool): History {
    h.(t := t, up := up, files := h.files + {t.file},
       rows := h.rows + (if t.row.Some? then {t.row.value} else {}),
       sides := h.sides + (if t.side.Some? then {t.side.value} else {}))
  }

  /** A sent chunk, however far its three writes get. */
  function AfterSend(h: History, st: Step, budget: nat): History
    requires Sends(st) && Possible(h, st)
  {
    var list, end, up := Between(h.src, st.i, st.j), Off(h.src[..st.j]), st.Chunk? || st.AppendThrows?;
    if !Taken(h, st) then h.(up := up)
    else if st.Chunk? then Noted(h, WithSide(h.t, end, list, budget), up)
    else if st.CrashAfterAppend? then Noted(h, WithFile(h.t, list, budget).(suspect := false), up)
    else if st.CrashAfterRow? then Noted(h, WithRow(h.t, end, list, budget).(suspect := false), up)
    else h.(t := h.t.(suspect := SuspectAfter(h.t, list)))
  }

  function After(h: History, st: Step, budget: nat): History
    requires Possible(h, st)
  {
    match st
    case Grow(more) => h.(src := h.src + more)
    case Crash => h.(t := h.t.(suspect := false), up := false)
    case Restart => h.(t := h.t.(suspect := false), up := true)
    case Takeover(file, row, side) => Noted(h, Reconciled(Found(file, Some(row), side)), true)
    case Rebuild(file, meta) => Noted(h, Rebuilt(Found(file, None, Some(meta))), true)
    case Chunk(_, _, _) => AfterSend(h, st, budget)
    case CrashAfterAppend(_, _) => AfterSend(h, st, budget)
    case CrashAfterRow(_, _) => AfterSend(h, st, budget)
    case AppendThrows(_, _) => AfterSend(h, st, budget)
  }

  predicate AtEnd(t: Transcript, src: seq<Rec>, i: nat)
    requires i <= |src|
  {
    |All(src[..i])| == |t.file|
  }

  /** When a step that loses in-memory suspicion, or takes over from copies, does no harm. */
  ghost predicate Guard(h: History, st: Step)
    requires Possible(h, st)
  {
    match st
    case Grow(more) => Distinct(All(h.src + more))
    case Restart => DiskSuspect(h.t) || forall i: nat :: At(h.src, Have(h.t), i) ==> AtEnd(h.t, h.src, i)
    case AppendThrows(i, j) =>
      Taken(h, st) ==> SuspectAfter(h.t, Between(h.src, i, j)) || DiskSuspect(h.t) || AtEnd(h.t, h.src, i)
    case Takeover(file, row, side) => RowCurrent(Found(file, Some(row), side), h.src)
    case _ => true
  }

  ghost predicate Legal(h: History, run: seq<Step>, budget: nat)
    decreases |run|
  {
    run != [] ==> Possible(h, run[0]) && Guard(h, run[0]) && Legal(After(h, run[0], budget), run[1..], budget)
  }

  ghost function Exec(h: History, run: seq<Step>, budget: nat): History
    requires Legal(h, run, budget)
    decreases |run|
  {
    if run == [] then h else Exec(After(h, run[0], budget), run[1..], budget)
  }

  function Begin(src: seq<Rec>): History { History(EMPTY, true, src, {}, {}, {}) }

  // ---- the invariant ------------------------------------------------------------------------------

  /** The cursor never passes the file, and the row never claims a longer one. */
  ghost predicate Placed(t: Transcript, src: seq<Rec>) {
    RowArchive(t) <= Size(t.file) && exists i: nat :: CursorAt(t, src, i)
  }

  predicate CursorAt(t: Transcript, src: seq<Rec>, i: nat) { At(src, Have(t), i) && |All(src[..i])| <= |t.file| }

  /** The row counts the lines of the file it was written beside. */
  predicate Tally(whole: seq<Line>, row: Row, m: nat) { m <= |whole| && Size(whole[..m]) == row.archive && row.count == m }

  ghost predicate RowOk(whole: seq<Line>, src: seq<Rec>, row: Row) {
    Recorded(whole, src, row.archive, row.bytes, true) && exists m: nat :: Tally(whole, row, m)
  }

  ghost predicate SideOk(whole: seq<Line>, src: seq<Rec>, side: Side) {
    Recorded(whole, src, side.archive, side.bytes, side.unverified)
  }

  /** Every copy is of one history. */
  ghost predicate CopiesOk(h: History, budget: nat) {
    && (forall f :: f in h.files ==> f <= Canon(h.src, budget))
    && (forall r :: r in h.rows ==> RowOk(Canon(h.src, budget), h.src, r))
    && (forall x :: x in h.sides ==> SideOk(Canon(h.src, budget), h.src, x))
  }

  predicate Known(h: History) {
    (h.t.row.Some? ==> h.t.row.value in h.rows) && (h.t.side.Some? ==> h.t.side.value in h.sides)
  }

  ghost predicate HistInv(h: History, budget: nat) {
    && Distinct(All(h.src)) && CopiesOk(h, budget) && Known(h)
    && h.t.file <= Canon(h.src, budget) && Placed(h.t, h.src)
    && (h.up ==> Inv(h.t, h.src, false))
  }

  lemma BeginInv(src: seq<Rec>, budget: nat)
    requires Distinct(All(src))
    ensures HistInv(Begin(src), budget)
  {
    assert src[..0] == [];
    assert CursorAt(EMPTY, src, 0) && CursorOk(EMPTY, src, 0, false);
  }

  // ---- what a write leaves --------------------------------------------------------------------------

  /** The row describes the file it sits beside. */
  predicate Full(t: Transcript) {
    t.row.Some? && t.row.value.archive == Size(t.file) && t.row.value.count == |t.file|
  }

  lemma FullRowOk(t: Transcript, src: seq<Rec>, whole: seq<Line>)
    requires Full(t) && Placed(t, src) && t.file <= whole
    ensures RowOk(whole, src, t.row.value)
  {
    var i: nat :| CursorAt(t, src, i);
    assert whole[..|t.file|] == t.file;
    assert PairAt(whole, src, t.row.value.archive, t.row.value.bytes, true, |t.file|, i);
    assert Tally(whole, t.row.value, |t.file|);
  }

  lemma NotedOk(h: History, t: Transcript, up: bool, budget: nat)
    requires CopiesOk(h, budget) && t.file <= Canon(h.src, budget)
    requires t.row.Some? ==> RowOk(Canon(h.src, budget), h.src, t.row.value)
    requires t.side.Some? ==> SideOk(Canon(h.src, budget), h.src, t.side.value)
    ensures CopiesOk(Noted(h, t, up), budget)
  {
  }

  /** A row that claims this file's size counts this file's lines. */
  lemma KnownCounts(t: Transcript, src: seq<Rec>, whole: seq<Line>)
    requires t.file <= whole && (t.row.Some? ==> RowOk(whole, src, t.row.value))
    ensures CountOk(t)
  {
    if t.row.Some? && t.row.value.archive == Size(t.file) {
      var m: nat :| Tally(whole, t.row.value, m);
      assert whole[..|t.file|] == t.file;
      ShorterIsSmaller(whole, |t.file|, m);
      ShorterIsSmaller(whole, m, |t.file|);
    }
  }

  lemma HistCounts(h: History, budget: nat)
    requires HistInv(h, budget)
    ensures CountOk(h.t)
  {
    KnownCounts(h.t, h.src, Canon(h.src, budget));
  }

  lemma InvIsPlaced(t: Transcript, src: seq<Rec>)
    requires Inv(t, src, false)
    ensures Placed(t, src)
  {
    var i: nat :| At(src, Have(t), i) && CursorOk(t, src, i, false);
    assert CursorAt(t, src, i);
  }

  // ---- every step -------------------------------------------------------------------------------------

  lemma RowOutlives(file: seq<Line>, longer: seq<Line>, src: seq<Rec>, grown: seq<Rec>, row: Row)
    requires RowOk(file, src, row) && file <= longer && src <= grown
    ensures RowOk(longer, grown, row)
  {
    RecordedOutlives(file, longer, src, grown, row.archive, row.bytes, true);
    var m: nat :| Tally(file, row, m);
    assert longer[..m] == file[..m];
    assert Tally(longer, row, m);
  }

  lemma CopiesOutlive(h: History, more: seq<Rec>, budget: nat)
    requires CopiesOk(h, budget)
    ensures CopiesOk(h.(src := h.src + more), budget)
  {
    var was, now := Canon(h.src, budget), Canon(h.src + more, budget);
    CanonGrows(h.src, more, budget);
    forall f | f in h.files ensures f <= now { PrefixTwice(f, was, now); }
    forall r | r in h.rows ensures RowOk(now, h.src + more, r) { RowOutlives(was, now, h.src, h.src + more, r); }
    forall x | x in h.sides ensures SideOk(now, h.src + more, x) {
      RecordedOutlives(was, now, h.src, h.src + more, x.archive, x.bytes, x.unverified);
    }
  }

  lemma PrefixTwice(a: seq<Line>, b: seq<Line>, c: seq<Line>)
    requires a <= b <= c
    ensures a <= c
  {
  }

  lemma GrowKeeps(h: History, more: seq<Rec>, budget: nat)
    requires HistInv(h, budget) && Distinct(All(h.src + more))
    ensures HistInv(h.(src := h.src + more), budget)
  {
    CopiesOutlive(h, more, budget);
    CanonGrows(h.src, more, budget);
    PrefixTwice(h.t.file, Canon(h.src, budget), Canon(h.src + more, budget));
    if h.up { GrowKeepsInv(h.t, h.src, more, false); }
    var i: nat :| CursorAt(h.t, h.src, i);
    assert (h.src + more)[..i] == h.src[..i];
    assert CursorAt(h.t, h.src + more, i);
  }

  /** However far the three writes of a chunk got: the file continues the one history, a new row is the
      file's, and a new sidecar is exact unless flagged. */
  lemma ChunkLeaves(h: History, i: nat, j: nat, budget: nat)
    requires HistInv(h, budget) && h.up && i <= j <= |h.src| && Accepts(h.t, Off(h.src[..i]), Off(h.src[..j]))
    ensures var t' := WithSide(h.t, Off(h.src[..j]), Between(h.src, i, j), budget);
            t'.file <= Canon(h.src, budget) && |t'.file| >= |h.t.file| && Full(t') && CursorAt(t', h.src, j) && CursorAt(h.t, h.src, i)
            && Inv(t', h.src, false) && RowArchive(h.t) <= Size(t'.file)
            && SideOk(Canon(h.src, budget), h.src, t'.side.value)
  {
    var start, end, list := Off(h.src[..i]), Off(h.src[..j]), Between(h.src, i, j);
    var t', c := WithSide(h.t, end, list, budget), Canon(h.src, budget);
    HistCounts(h, budget);
    InvAt(h.t, h.src, i, false);
    AppendIsCanon(h.t, h.src, i, j, budget);
    ChunkCounts(h.t, h.src, i, j, budget);
    AppendExtends(h.t, h.src, i, j, budget);
    ChunkKeepsInv(h.t, h.src, i, j, start, end, list, false, budget, false);
    ChunkRecords(h.t, h.src, i, j, start, end, list, budget);
    SideOutlives(t', h.src, j, c);
  }

  lemma SideOutlives(t: Transcript, src: seq<Rec>, j: nat, whole: seq<Line>)
    requires t.side.Some? && t.file <= whole
    requires PairAt(t.file, src, t.side.value.archive, t.side.value.bytes, t.side.value.unverified, |t.file|, j)
    ensures SideOk(whole, src, t.side.value)
  {
    RecordedOutlives(t.file, whole, src, src, t.side.value.archive, t.side.value.bytes, t.side.value.unverified);
  }

  lemma SendKeeps(h: History, st: Step, budget: nat)
    requires HistInv(h, budget) && (st.Chunk? || st.CrashAfterAppend? || st.CrashAfterRow?) && Possible(h, st) && Taken(h, st)
    ensures HistInv(After(h, st, budget), budget)
  {
    var done := WithSide(h.t, Off(h.src[..st.j]), Between(h.src, st.i, st.j), budget);
    var c, t' := Canon(h.src, budget), After(h, st, budget).t;
    ChunkLeaves(h, st.i, st.j, budget);
    assert Placed(done, h.src);
    FullRowOk(done, h.src, c);
    NotedOk(h, t', st.Chunk?, budget);
    assert CursorAt(t', h.src, if st.CrashAfterAppend? then st.i else st.j);
  }

  /** The cursor a takeover reconciles is not ahead of the file it found. */
  lemma TakeoverLeaves(h: History, st: Step, budget: nat)
    requires HistInv(h, budget) && st.Takeover? && Possible(h, st)
    ensures var t, c := Reconciled(Found(st.file, Some(st.row), st.side)), Canon(h.src, budget);
            Full(t) && Placed(t, h.src) && t.file <= c
  {
    var found := Found(st.file, Some(st.row), st.side);
    CopyIsHydrated(h, st.file, st.row, st.side, budget);
    KnownCounts(found, h.src, Canon(h.src, budget));
    var i := ReconciledAt(found, h.src);
    assert CursorAt(Reconciled(found), h.src, i);
  }

  /** Any file, row and sidecar of any generations make a state the reconcile is specified for. */
  lemma CopyIsHydrated(h: History, file: seq<Line>, row: Row, side: Option<Side>, budget: nat)
    requires HistInv(h, budget) && file in h.files && row in h.rows && (side.Some? ==> side.value in h.sides)
    ensures Hydrated(Found(file, Some(row), side), h.src)
  {
    var c := Canon(h.src, budget);
    CanonIs(file, h.src, budget);
    assert RowOk(c, h.src, row);
    RecordedOnPrefix(file, c, h.src, row.archive, row.bytes, true);
    if side.Some? { RecordedOnPrefix(file, c, h.src, side.value.archive, side.value.bytes, side.value.unverified); }
  }

  lemma TakeoverKeeps(h: History, st: Step, budget: nat)
    requires HistInv(h, budget) && st.Takeover? && Possible(h, st) && Guard(h, st)
    ensures HistInv(After(h, st, budget), budget)
  {
    var found, c := Found(st.file, Some(st.row), st.side), Canon(h.src, budget);
    TakeoverLeaves(h, st, budget);
    CopyIsHydrated(h, st.file, st.row, st.side, budget);
    ReconcileLeavesNoGap(found, h.src);
    FullRowOk(Reconciled(found), h.src, c);
    NotedOk(h, Reconciled(found), true, budget);
  }

  lemma RebuildKeeps(h: History, st: Step, budget: nat)
    requires HistInv(h, budget) && st.Rebuild? && Possible(h, st)
    ensures HistInv(After(h, st, budget), budget)
  {
    var found, c := Found(st.file, None, Some(st.meta)), Canon(h.src, budget);
    CanonIs(st.file, h.src, budget);
    RecordedOnPrefix(st.file, c, h.src, st.meta.archive, st.meta.bytes, st.meta.unverified);
    RebuildLeavesNoGap(found, h.src);
    InvIsPlaced(Rebuilt(found), h.src);
    FaithfulHasNoRepeats(st.file, h.src);
    FirstCopiesCount(st.file);
    FullRowOk(Rebuilt(found), h.src, c);
    NotedOk(h, Rebuilt(found), true, budget);
  }

  /** Losing the in-memory suspicion. */
  lemma ForgetKeeps(h: History, h': History, i: nat, budget: nat)
    requires HistInv(h, budget) && h' == h.(t := h.t.(suspect := h'.t.suspect), up := h'.up) && CursorAt(h.t, h.src, i)
    requires h'.up ==> Suspect(h'.t) || AtEnd(h.t, h.src, i)
    ensures HistInv(h', budget)
  {
    CanonIs(h.t.file, h.src, budget);
    assert CursorAt(h'.t, h.src, i);
    InvAt(h'.t, h.src, i, false);
  }

  lemma StepKeeps(h: History, st: Step, budget: nat)
    requires HistInv(h, budget) && Possible(h, st) && Guard(h, st)
    ensures HistInv(After(h, st, budget), budget)
  {
    var i: nat :| CursorAt(h.t, h.src, i);
    match st
    case Grow(more) => GrowKeeps(h, more, budget);
    case Takeover(_, _, _) => TakeoverKeeps(h, st, budget);
    case Rebuild(_, _) => RebuildKeeps(h, st, budget);
    case Crash => ForgetKeeps(h, After(h, st, budget), i, budget);
    case Restart => ForgetKeeps(h, After(h, st, budget), i, budget);
    case AppendThrows(a, _) =>
      if Taken(h, st) {
        AtIsUnique(h.src, Have(h.t), i, a);
        ForgetKeeps(h, After(h, st, budget), i, budget);
      }
    case _ => if Taken(h, st) { SendKeeps(h, st, budget); }
  }

  lemma {:induction false} RunKeeps(h: History, run: seq<Step>, budget: nat)
    requires HistInv(h, budget) && Legal(h, run, budget)
    ensures HistInv(Exec(h, run, budget), budget)
    decreases |run|
  {
    if run != [] {
      StepKeeps(h, run[0], budget);
      RunKeeps(After(h, run[0], budget), run[1..], budget);
    }
  }

  // ---- what holds in every history ----------------------------------------------------------------------

  predicate OneHistory(a: seq<Line>, b: seq<Line>) { a <= b || b <= a }

  lemma FileIsExact(h: History, budget: nat)
    requires HistInv(h, budget)
    ensures Entries(h.t.file) <= All(h.src) && Distinct(Entries(h.t.file)) && Placed(h.t, h.src)
    ensures h.up && Have(h.t) == Off(h.src) ==> Entries(h.t.file) == All(h.src)
  {
    CanonIs(h.t.file, h.src, budget);
    FaithfulIsDistinct(h.t.file, h.src);
    if h.up && Have(h.t) == Off(h.src) { CaughtUp(h.t, h.src); }
  }

  /** Over every run of ingests, crashes, restarts, takeovers and rebuilds: the leader's file is a
      beginning of the rendered source with no entry twice, it holds at least what the cursor claims,
      all of the source once the cursor has reached its end, and any two files ever written are one a
      beginning of the other. */
  lemma GenerationsAreExact(src: seq<Rec>, run: seq<Step>, budget: nat)
    requires Distinct(All(src)) && Legal(Begin(src), run, budget)
    ensures var h := Exec(Begin(src), run, budget);
            && Entries(h.t.file) <= All(h.src) && Distinct(Entries(h.t.file)) && Placed(h.t, h.src)
            && (h.up && Have(h.t) == Off(h.src) ==> Entries(h.t.file) == All(h.src))
    ensures var files := Exec(Begin(src), run, budget).files;
            forall a, b :: a in files && b in files ==> OneHistory(a, b)
  {
    BeginInv(src, budget);
    RunKeeps(Begin(src), run, budget);
    FileIsExact(Exec(Begin(src), run, budget), budget);
  }

  /** Any copies of any generations make a state the reconcile is specified for. */
  lemma CopiesAreHydrated(src: seq<Rec>, run: seq<Step>, budget: nat, file: seq<Line>, row: Row, side: Option<Side>)
    requires Distinct(All(src)) && Legal(Begin(src), run, budget)
    requires var h := Exec(Begin(src), run, budget);
             file in h.files && row in h.rows && (side.Some? ==> side.value in h.sides)
    ensures Hydrated(Found(file, Some(row), side), Exec(Begin(src), run, budget).src)
  {
    BeginInv(src, budget);
    RunKeeps(Begin(src), run, budget);
    CopyIsHydrated(Exec(Begin(src), run, budget), file, row, side, budget);
  }

  /** In every history the entries of the next chunk are stored under the ordinals that follow the
      file's own lines. */
  lemma CountsFollowTheFile(src: seq<Rec>, run: seq<Step>, budget: nat)
    requires Distinct(All(src)) && Legal(Begin(src), run, budget)
    ensures var h := Exec(Begin(src), run, budget); h.up ==> CountBefore(h.t) == |h.t.file|
  {
    BeginInv(src, budget);
    RunKeeps(Begin(src), run, budget);
    var h := Exec(Begin(src), run, budget);
    if h.up {
      HistCounts(h, budget);
      var i: nat :| At(h.src, Have(h.t), i) && CursorOk(h.t, h.src, i, false);
      ChunkCounts(h.t, h.src, i, i, budget);
    }
  }

  /** In every file ever written, whoever wrote it and in whatever chunks: a line keeps its payloads exactly
      while the lines before it have not used up the budget. */
  lemma ShedExactly(src: seq<Rec>, run: seq<Step>, budget: nat, file: seq<Line>, k: nat)
    requires Distinct(All(src)) && Legal(Begin(src), run, budget) && file in Exec(Begin(src), run, budget).files && k < |file|
    ensures file[k].shed <==> budget > 0 && Size(file[..k]) >= budget
  {
    BeginInv(src, budget);
    RunKeeps(Begin(src), run, budget);
    var h := Exec(Begin(src), run, budget);
    CanonIs(file, h.src, budget);
    RenderedSheds(All(h.src)[..|file|], 0, budget, k);
  }

  /** The guards are exact: a replica is up after a step with no faithful chunk to fear if and only if
      the step met its guard. */
  lemma GuardsAreExact(h: History, st: Step, i: nat, budget: nat)
    requires HistInv(h, budget) && Possible(h, st) && !st.Grow? && Off(h.src) <= MAX_TRANSCRIPT_BYTES
    requires After(h, st, budget).up && At(h.src, Have(After(h, st, budget).t), i)
    ensures NextChunkSafe(After(h, st, budget).t, h.src, i) <==> Guard(h, st)
  {
    var h' := After(h, st, budget);
    if Guard(h, st) {
      StepKeeps(h, st, budget);
      InvAt(h'.t, h.src, i, false);
      SafeExactly(h'.t, h.src, i);
    } else if st.Takeover? {
      CopyIsHydrated(h, st.file, st.row, st.side, budget);
      ReconcileExactly(Found(st.file, Some(st.row), st.side), h.src, i);
    } else {
      var k: nat :| CursorAt(h.t, h.src, k);
      AtIsUnique(h.src, Have(h.t), k, i);
      CanonIs(h.t.file, h.src, budget);
      ForgetIsUnsafe(h, st, i, budget);
    }
  }

  lemma ForgetIsUnsafe(h: History, st: Step, i: nat, budget: nat)
    requires (st.Restart? || st.AppendThrows?) && Possible(h, st) && !Guard(h, st) && CursorAt(h.t, h.src, i)
    requires Faithful(h.t.file, h.src) && RowArchive(h.t) <= Size(h.t.file) && Off(h.src) <= MAX_TRANSCRIPT_BYTES
    requires Distinct(All(h.src))
    ensures !NextChunkSafe(After(h, st, budget).t, h.src, i)
  {
    var t' := After(h, st, budget).t;
    if st.Restart? {
      var k: nat :| At(h.src, Have(h.t), k) && !AtEnd(h.t, h.src, k);
      AtIsUnique(h.src, Have(h.t), k, i);
    } else {
      AtIsUnique(h.src, Have(h.t), st.i, i);
    }
    SafeExactly(t', h.src, i);
  }
}
