/** Three windows in which the archive does duplicate an entry, and one in which it loses one: the
    concrete runs behind the conditions of the exactly-once theorem. */
module IngestWindows {
  import opened Basics
  import opened Ingest
  import opened ExactlyOnce
  import opened Recovery

  const K1 := Entry("k1", 0, 0)
  const K2 := Entry("k2", 0, 0)
  const K3 := Entry("k3", 0, 0)
  const L1 := Line(K1, false)
  const L2 := Line(K2, false)
  const L3 := Line(K3, false)

  /** Three one-byte records of one entry each. */
  predicate ThreeRecords(src: seq<Rec>) {
    |src| == 3 && src[0] == Rec(0, [K1]) && src[1] == Rec(0, [K2]) && src[2] == Rec(0, [K3])
  }

  /** What the proofs need of it. */
  predicate Shape(src: seq<Rec>) {
    |src| == 3
    && Off(src[..0]) == 0 && Off(src[..1]) == 1 && Off(src[..2]) == 2 && Off(src[..3]) == 3
    && All(src[..0]) == [] && All(src[..1]) == [K1] && All(src[..2]) == [K1, K2] && All(src[..3]) == [K1, K2, K3]
    && All(src) == [K1, K2, K3]
  }

  lemma Grown(src: seq<Rec>, i: nat)
    requires i < |src|
    ensures Off(src[..i + 1]) == Off(src[..i]) + 1 + src[i].extra && All(src[..i + 1]) == All(src[..i]) + src[i].entries
  {
    assert src[..i + 1][..i] == src[..i];
  }

  lemma SourceShape(src: seq<Rec>)
    requires ThreeRecords(src)
    ensures Shape(src)
  {
    Grown(src, 0);
    Grown(src, 1);
    Grown(src, 2);
    assert src[..0] == [] && src[..3] == src;
  }

  lemma SourceIsDistinct()
    ensures Distinct([K1, K2, K3])
  {
  }

  lemma Sizes(a: Line, b: Line)
    requires LineSize(a) == 1 && LineSize(b) == 1
    ensures Size([]) == 0 && Size([a]) == 1 && Size([a, b]) == 2
  {
    SizeSnoc([], a);
    SizeSnoc([a], b);
    assert [] + [a] == [a] && [a] + [b] == [a, b];
  }

  lemma RenderedOne(x: Entry, base: nat)
    ensures Rendered([x], base, 0) == [Line(x, false)]
  {
    assert [x][..0] == [];
    assert Rendered([], base, 0) == [];
  }

  lemma RenderedTwo(x: Entry, y: Entry, base: nat)
    ensures Rendered([x, y], base, 0) == [Line(x, false), Line(y, false)]
  {
    RenderedOne(x, base);
    assert [x, y][..1] == [x];
  }

  lemma HeldOnce(file: seq<Line>, e: Entry)
    requires exists i :: 0 <= i < |file| && file[i].e == e
    ensures FreshOf([e], multiset(KeysOf(Entries(file)))) == []
  {
    var i :| 0 <= i < |file| && file[i].e == e;
    assert KeysOf(Entries(file))[i] == e.key;
    assert [e][..0] == [];
  }

  // ---- a crash between the row and the sidecar -------------------------------------------------

  /** Two entries reach the file, then the hub dies before the row. */
  lemma FileAhead(src: seq<Rec>)
    requires Shape(src)
    ensures Next(World(EMPTY, src), CrashAfterAppend(0, 2), 0).t == Transcript([L1, L2], None, None, false)
  {
    assert Between(src, 0, 2) == [K1, K2];
    assert Size([]) == 0;
    RenderedTwo(K1, K2, 0);
    assert [] + [L1, L2] == [L1, L2];
  }

  /** The agent sends the first entry again; nothing is new; the hub dies before the sidecar. */
  lemma FlagLost(src: seq<Rec>)
    requires Shape(src)
    ensures var t := Next(World(Transcript([L1, L2], None, None, false), src), CrashAfterRow(0, 1), 0).t;
            t.file == [L1, L2] && t.row.Some? && t.row.value.bytes == 1 && t.row.value.archive == 2 && t.side == None && !t.suspect
  {
    var t := Transcript([L1, L2], None, None, false);
    Sizes(L1, L2);
    assert Suspect(t);
    assert Between(src, 0, 1) == [K1];
    assert t.file[0].e == K1;
    HeldOnce(t.file, K1);
    assert Kept(t, [K1]) == [] && Appended(t, [K1], 0) == [];
    assert t.file + [] == t.file;
  }

  /** The cursor is behind its file and nothing on disk says so: the next chunk is stored again. */
  lemma StoredTwice(t: Transcript, src: seq<Rec>)
    requires Shape(src) && t.file == [L1, L2] && t.row.Some? && t.row.value.bytes == 1 && t.row.value.archive == 2
    requires t.side == None && !t.suspect
    ensures Next(World(t, src), Chunk(1, 2, false), 0).t.file == [L1, L2, L2]
  {
    Sizes(L1, L2);
    assert !Suspect(t);
    assert Between(src, 1, 2) == [K2];
    RenderedOne(K2, 2);
    assert [L1, L2] + [L2] == [L1, L2, L2];
  }

  /** A restart between the row write and the sidecar write of a suspect chunk that stored nothing
      leaves a cursor behind its file with nothing on disk to say so; the next chunk duplicates. */
  lemma CrashBeforeSidecarDuplicates(src: seq<Rec>)
    requires ThreeRecords(src)
    ensures Distinct(All(src))
    ensures var w1 := Next(World(EMPTY, src), CrashAfterAppend(0, 2), 0);
      var w2 := Next(w1, CrashAfterRow(0, 1), 0);
      var w3 := Next(w2, Chunk(1, 2, false), 0);
      w3.t.file == [L1, L2, L2]
  {
    SourceShape(src);
    SourceIsDistinct();
    FileAhead(src);
    FlagLost(src);
    StoredTwice(Next(World(Transcript([L1, L2], None, None, false), src), CrashAfterRow(0, 1), 0).t, src);
  }

  // ---- an append that throws after a reconcile --------------------------------------------------

  const Behind := Transcript([L1, L2], Some(Row(1, 1, 1)), None, false)

  lemma BehindIsHydrated(src: seq<Rec>)
    requires Shape(src)
    ensures Hydrated(Behind, src)
    ensures Reconciled(Behind) == Transcript([L1, L2], Some(Row(1, 2, 2)), None, true)
  {
    Sizes(L1, L2);
    assert Behind.file[..1] == [L1];
    assert PairAt(Behind.file, src, 1, 1, true, 1, 1);
    assert Entries(Behind.file) == [K1, K2];
  }

  /** The append fails, but the suspicion is already cleared. */
  lemma SuspicionCleared(src: seq<Rec>)
    requires Shape(src)
    ensures Next(World(Transcript([L1, L2], Some(Row(1, 2, 2)), None, true), src), AppendThrows(1, 3), 0).t
         == Transcript([L1, L2], Some(Row(1, 2, 2)), None, false)
  {
    var t := Transcript([L1, L2], Some(Row(1, 2, 2)), None, true);
    SourceIsDistinct();
    assert Between(src, 1, 3) == [K2, K3];
    assert Entries(t.file) == [K1, K2];
    KeptIsTheTail(t, All(src), 1, 3);
    assert All(src)[1..3] == [K2, K3] && All(src)[2..3] == [K3];
  }

  lemma RetryStoresTwice(src: seq<Rec>)
    requires Shape(src)
    ensures Next(World(Transcript([L1, L2], Some(Row(1, 2, 2)), None, false), src), Chunk(1, 3, false), 0).t.file == [L1, L2, L2, L3]
  {
    var t := Transcript([L1, L2], Some(Row(1, 2, 2)), None, false);
    Sizes(L1, L2);
    assert !Suspect(t);
    assert Between(src, 1, 3) == [K2, K3];
    RenderedTwo(K2, K3, 2);
    assert [L1, L2] + [L2, L3] == [L1, L2, L2, L3];
  }

  /** After a reconcile the suspicion lives only in memory, and ingest clears it before the append:
      if that append throws, the retry of the same chunk duplicates. */
  lemma FailedAppendAfterReconcileDuplicates(src: seq<Rec>)
    requires ThreeRecords(src)
    ensures Hydrated(Behind, src)
    ensures var w1 := Next(World(Reconciled(Behind), src), AppendThrows(1, 3), 0);
      var w2 := Next(w1, Chunk(1, 3, false), 0);
      w2.t.file == [L1, L2, L2, L3]
  {
    SourceShape(src);
    BehindIsHydrated(src);
    SuspicionCleared(src);
    RetryStoresTwice(src);
  }

  // ---- a row that reaches Postgres before its sidecar reaches the bucket -------------------------------

  /** The suspect chunk that stores nothing, completed: a row behind its file, flagged beside it only. */
  lemma RowBehindIsFlagged(src: seq<Rec>)
    requires Shape(src)
    ensures var t := Next(World(Transcript([L1, L2], None, None, false), src), Chunk(0, 1, false), 0).t;
            t.file == [L1, L2] && t.row.Some? && t.row.value.bytes == 1 && t.row.value.archive == 2
            && t.side == Some(Side(1, 2, true)) && t.suspect
  {
    var t := Transcript([L1, L2], None, None, false);
    Sizes(L1, L2);
    assert Suspect(t);
    assert Between(src, 0, 1) == [K1];
    assert t.file[0].e == K1;
    HeldOnce(t.file, K1);
    assert Kept(t, [K1]) == [] && Appended(t, [K1], 0) == [];
    assert t.file + [] == t.file;
  }

  lemma BelievedRow(t: Transcript)
    requires t.file == [L1, L2] && t.row.Some? && t.row.value.bytes == 1 && t.row.value.archive == 2 && t.side == None && !t.suspect
    ensures var r := Reconciled(t);
            r.file == t.file && r.row.value.bytes == 1 && r.row.value.archive == 2 && r.side == None && !r.suspect
  {
    Sizes(L1, L2);
  }

  /** No crash of the writer after the first: a replica that hydrates that row beside the older sidecar,
      here none, reconciles without suspicion, and the next chunk duplicates. */
  lemma RowBeforeSidecarDuplicates(src: seq<Rec>)
    requires ThreeRecords(src)
    ensures var w1 := Next(World(EMPTY, src), CrashAfterAppend(0, 2), 0);
      var w2 := Next(w1, Chunk(0, 1, false), 0);
      var hydrated := Transcript(w2.t.file, w2.t.row, w1.t.side, false);
      hydrated.row.Some? && var w3 := Next(World(Reconciled(hydrated), src), Chunk(1, 2, false), 0);
      w3.t.file == [L1, L2, L2]
  {
    SourceShape(src);
    FileAhead(src);
    RowBehindIsFlagged(src);
    var t := Next(World(Transcript([L1, L2], None, None, false), src), Chunk(0, 1, false), 0).t;
    BelievedRow(Transcript(t.file, t.row, None, false));
    StoredTwice(Reconciled(Transcript(t.file, t.row, None, false)), src);
  }

  // ---- an entry that repeats a key -----------------------------------------------------------------

  /** Three one-byte records, the third with the key of the first. */
  predicate RepeatsAKey(src: seq<Rec>) {
    |src| == 3 && src[0] == Rec(0, [K1]) && src[1] == Rec(0, [K2]) && src[2] == Rec(0, [K1])
  }

  lemma RepeatingShape(src: seq<Rec>)
    requires RepeatsAKey(src)
    ensures Off(src[..0]) == 0 && Off(src[..1]) == 1 && Off(src[..2]) == 2 && Off(src[..3]) == 3 && Off(src) == 3
    ensures All(src[..0]) == [] && All(src[..1]) == [K1] && All(src[..2]) == [K1, K2] && All(src[..3]) == [K1, K2, K1]
  {
    Grown(src, 0);
    Grown(src, 1);
    Grown(src, 2);
    assert src[..0] == [] && src[..3] == src;
  }

  lemma BothHeld(file: seq<Line>)
    requires file == [L1, L2]
    ensures FreshOf([K1], Keys(Entries(file))) == [] && FreshOf([K2, K1], Keys(Entries(file))) == []
  {
    assert KeysOf(Entries(file)) == ["k1", "k2"];
    assert [K1][..0] == [] && [K2, K1][..1] == [K2] && [K2][..0] == [];
  }

  /** A suspect chunk of which the file holds every key moves the cursor and nothing else. */
  lemma AllDropped(t: Transcript, src: seq<Rec>, i: nat, j: nat)
    requires Suspect(t) && i <= j <= |src| && FreshOf(Between(src, i, j), Keys(Entries(t.file))) == []
    requires Accepts(t, Off(src[..i]), Off(src[..j]))
    ensures var t' := Next(World(t, src), Chunk(i, j, false), 0).t; t'.file == t.file && Have(t') == Off(src[..j]) && Suspect(t')
  {
    assert Kept(t, Between(src, i, j)) == [] && Appended(t, Between(src, i, j), 0) == [];
    assert t.file + [] == t.file;
  }

  lemma TwoAhead(src: seq<Rec>)
    requires RepeatsAKey(src)
    ensures Next(World(EMPTY, src), CrashAfterAppend(0, 2), 0).t == Transcript([L1, L2], None, None, false)
  {
    RepeatingShape(src);
    assert Between(src, 0, 2) == [K1, K2];
    assert Size([]) == 0;
    RenderedTwo(K1, K2, 0);
    assert [] + [L1, L2] == [L1, L2];
  }

  lemma BothChunksDropped(t1: Transcript, src: seq<Rec>)
    requires RepeatsAKey(src) && t1 == Transcript([L1, L2], None, None, false)
    ensures var t3 := Next(Next(World(t1, src), Chunk(0, 1, false), 0), Chunk(1, 3, false), 0).t;
            Have(t3) == Off(src) && t3.file == [L1, L2]
  {
    RepeatingShape(src);
    assert src[..3] == src && Between(src, 0, 1) == [K1] && Between(src, 1, 3) == [K2, K1];
    Sizes(L1, L2);
    BothHeld(t1.file);
    AllDropped(t1, src, 0, 1);
    AllDropped(Next(World(t1, src), Chunk(0, 1, false), 0).t, src, 1, 3);
  }

  lemma WholeRepeats(src: seq<Rec>)
    requires RepeatsAKey(src)
    ensures All(src) == [K1, K2, K1]
  {
    RepeatingShape(src);
    assert src[..3] == src;
  }

  /** The first two entries reach the file, the hub dies before the row, and the agent sends all three
      again in two chunks. The second chunk finds a held copy for the repeated key, which the first one
      already stood for: the third entry is dropped, and the cursor is at the end. */
  lemma RecurringKeyIsLost(src: seq<Rec>)
    requires RepeatsAKey(src)
    ensures var w1 := Next(World(EMPTY, src), CrashAfterAppend(0, 2), 0);
      var w3 := Next(Next(w1, Chunk(0, 1, false), 0), Chunk(1, 3, false), 0);
      Have(w3.t) == Off(src) && w3.t.file == [L1, L2] && All(src) == [K1, K2, K1]
  {
    var w1 := Next(World(EMPTY, src), CrashAfterAppend(0, 2), 0);
    TwoAhead(src);
    BothChunksDropped(w1.t, src);
    assert w1 == World(w1.t, src);
    WholeRepeats(src);
  }
}
