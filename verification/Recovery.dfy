/** Recovery of a transcript's cursor from copies (turma/archive.js): a file, a Postgres row and a
    sidecar that reached this replica from different moments of one history. */
module Recovery {
  import opened Basics
  import opened Ingest
  import opened ExactlyOnce

  // ---- recorded pairs -----------------------------------------------------------------------

  /** A recorded size/cursor pair, placed: the file's first m lines have that size, and the cursor of
      the first i records claims no more than those, or exactly those unless flagged. */
  predicate PairAt(file: seq<Line>, src: seq<Rec>, archive: nat, bytes: nat, flagged: bool, m: nat, i: nat) {
    && m <= |file| && Size(file[..m]) == archive && At(src, bytes, i)
    && |All(src[..i])| <= m && (!flagged ==> |All(src[..i])| == m)
  }

  ghost predicate Recorded(file: seq<Line>, src: seq<Rec>, archive: nat, bytes: nat, flagged: bool) {
    exists m: nat, i: nat :: PairAt(file, src, archive, bytes, flagged, m, i)
  }

  /** A pair recorded beside a longer file says nothing about this one. */
  ghost predicate TruePair(file: seq<Line>, src: seq<Rec>, archive: nat, bytes: nat, flagged: bool) {
    archive <= Size(file) ==> Recorded(file, src, archive, bytes, flagged)
  }

  lemma RecordedOutlives(file: seq<Line>, longer: seq<Line>, src: seq<Rec>, grown: seq<Rec>, archive: nat, bytes: nat, flagged: bool)
    requires Recorded(file, src, archive, bytes, flagged) && file <= longer && src <= grown
    ensures Recorded(longer, grown, archive, bytes, flagged)
  {
    var m: nat, i: nat :| PairAt(file, src, archive, bytes, flagged, m, i);
    assert longer[..m] == file[..m] && grown[..i] == src[..i];
    assert PairAt(longer, grown, archive, bytes, flagged, m, i);
  }

  /** An accepted chunk's row records the size of the file it left and a cursor not ahead of it; its
      sidecar is exact unless flagged. */
  lemma ChunkRecords(t: Transcript, src: seq<Rec>, i: nat, j: nat, start: int, end: int, list: seq<Entry>, budget: nat)
    requires Inv(t, src, false) && Distinct(All(src)) && FaithfulChunk(src, i, j, start, end, list) && Accepts(t, start, end)
    ensures var t' := WithSide(t, end, list, budget);
            PairAt(t'.file, src, t'.row.value.archive, t'.row.value.bytes, true, |t'.file|, j)
            && PairAt(t'.file, src, t'.side.value.archive, t'.side.value.bytes, t'.side.value.unverified, |t'.file|, j)
  {
    AppendExtends(t, src, i, j, budget);
    var t' := WithSide(t, end, list, budget);
    assert t'.file[..|t'.file|] == t'.file;
  }

  /** A row just written is exact for its file if and only if its chunk brought something new, or found
      nothing suspect, or reached the file's end. Only such a row may be believed without its sidecar. */
  lemma WrittenRowExactly(t: Transcript, src: seq<Rec>, i: nat, j: nat, start: int, end: int, list: seq<Entry>, budget: nat)
    requires Inv(t, src, false) && Distinct(All(src)) && FaithfulChunk(src, i, j, start, end, list) && Accepts(t, start, end)
    ensures var t' := WithRow(t, end, list, budget);
            Recorded(t'.file, src, t'.row.value.archive, t'.row.value.bytes, false)
            <==> !SuspectAfter(t, list) || |All(src[..j])| == |t.file|
  {
    var t' := WithRow(t, end, list, budget);
    AppendExtends(t, src, i, j, budget);
    assert t'.file[..|t'.file|] == t'.file;
    if !SuspectAfter(t, list) || |All(src[..j])| == |t.file| {
      assert PairAt(t'.file, src, t'.row.value.archive, t'.row.value.bytes, false, |t'.file|, j);
    } else if Recorded(t'.file, src, t'.row.value.archive, t'.row.value.bytes, false) {
      var m: nat, k: nat :| PairAt(t'.file, src, t'.row.value.archive, t'.row.value.bytes, false, m, k);
      SizePinsPrefix(t'.file, m);
      AtIsUnique(src, end, k, j);
    }
  }

  // ---- the hydrated state ---------------------------------------------------------------------

  /** Some rendered prefix on disk, a row never ahead of it, and a sidecar exact unless flagged. */
  ghost predicate Hydrated(t: Transcript, src: seq<Rec>) {
    && Faithful(t.file, src) && t.row.Some?
    && TruePair(t.file, src, t.row.value.archive, t.row.value.bytes, true)
    && (t.side.Some? ==> TruePair(t.file, src, t.side.value.archive, t.side.value.bytes, t.side.value.unverified))
  }

  lemma RecordedOnPrefix(file: seq<Line>, whole: seq<Line>, src: seq<Rec>, archive: nat, bytes: nat, flagged: bool)
    requires file <= whole && Recorded(whole, src, archive, bytes, flagged)
    ensures TruePair(file, src, archive, bytes, flagged)
  {
    if archive <= Size(file) {
      var m: nat, i: nat :| PairAt(whole, src, archive, bytes, flagged, m, i);
      assert whole[..|file|] == file;
      ShorterIsSmaller(whole, |file|, m);
      assert file[..m] == whole[..m];
      assert PairAt(file, src, archive, bytes, flagged, m, i);
    }
  }

  lemma ShorterIsSmaller(whole: seq<Line>, n: nat, m: nat)
    requires n <= |whole| && m <= |whole| && Size(whole[..m]) <= Size(whole[..n])
    ensures m <= n
  {
    if n < m {
      assert whole[..m] == whole[..n] + whole[n..m];
      SizeAppend(whole[..n], whole[n..m]);
      SizeAtLeastLength(whole[n..m]);
    }
  }

  lemma PrefixIsFaithful(file: seq<Line>, whole: seq<Line>, src: seq<Rec>)
    requires file <= whole && Faithful(whole, src)
    ensures Faithful(file, src)
  {
    assert Entries(file) == Entries(whole)[..|file|];
  }

  // ---- the reconcile ----------------------------------------------------------------------------

  /** The reconcile believes the row: no sidecar of the file's size, a row of it, nothing flagged. */
  predicate RowDecides(t: Transcript)
    requires t.row.Some?
  {
    var size := Size(t.file);
    !t.suspect && !(t.side.Some? && (t.side.value.archive == size || t.side.value.unverified)) && t.row.value.archive == size
  }

  /** Where it does, the row is exact. */
  ghost predicate RowCurrent(t: Transcript, src: seq<Rec>)
    requires t.row.Some?
  {
    RowDecides(t) ==> Recorded(t.file, src, t.row.value.archive, t.row.value.bytes, false)
  }

  /** The reconciled cursor never passes the file; unless suspect or taken from the row it is at its
      end. */
  lemma ReconciledAt(t: Transcript, src: seq<Rec>) returns (i: nat)
    requires Hydrated(t, src)
    ensures At(src, Have(Reconciled(t)), i) && |All(src[..i])| <= |t.file|
    ensures Reconciled(t).suspect || RowDecides(t) || |All(src[..i])| == |t.file|
  {
    var row, size := t.row.value, Size(t.file);
    if t.side.Some? && t.side.value.archive == size {
      var m: nat, k: nat :| PairAt(t.file, src, t.side.value.archive, t.side.value.bytes, t.side.value.unverified, m, k);
      SizePinsPrefix(t.file, m);
      i := k;
    } else if row.archive == size {
      var m: nat, k: nat :| PairAt(t.file, src, row.archive, row.bytes, true, m, k);
      i := k;
    } else {
      i := CoveredCursorIsBehind(t, src);
    }
  }

  lemma CoveredCursorIsBehind(t: Transcript, src: seq<Rec>) returns (i: nat)
    requires Hydrated(t, src)
    ensures At(src, CoveredCursor(t, t.row.value), i) && |All(src[..i])| <= |t.file|
  {
    var row, size, c := t.row.value, Size(t.file), CoveredCursor(t, t.row.value);
    if t.side.Some? && t.side.value.archive < size && c == t.side.value.bytes {
      var m: nat, k: nat :| PairAt(t.file, src, t.side.value.archive, t.side.value.bytes, t.side.value.unverified, m, k);
      i := k;
    } else if row.archive < size && c == row.bytes && row.archive > 0 {
      var m: nat, k: nat :| PairAt(t.file, src, row.archive, row.bytes, true, m, k);
      i := k;
    } else {
      assert src[..0] == [];
      i := 0;
    }
  }

  lemma CurrentAtEnd(t: Transcript, src: seq<Rec>, i: nat)
    requires t.row.Some? && t.row.value.archive == Size(t.file) && At(src, t.row.value.bytes, i)
    ensures Recorded(t.file, src, t.row.value.archive, t.row.value.bytes, false) <==> |All(src[..i])| == |t.file|
  {
    if |All(src[..i])| == |t.file| {
      assert t.file[..|t.file|] == t.file;
      assert PairAt(t.file, src, t.row.value.archive, t.row.value.bytes, false, |t.file|, i);
    }
    if Recorded(t.file, src, t.row.value.archive, t.row.value.bytes, false) {
      var m: nat, k: nat :| PairAt(t.file, src, t.row.value.archive, t.row.value.bytes, false, m, k);
      SizePinsPrefix(t.file, m);
      AtIsUnique(src, t.row.value.bytes, i, k);
    }
  }

  /** After a reconcile no faithful chunk duplicates, if and only if the row was exact wherever it was
      what the reconcile believed. */
  lemma ReconcileExactly(t: Transcript, src: seq<Rec>, i: nat)
    requires Hydrated(t, src) && Distinct(All(src)) && Off(src) <= MAX_TRANSCRIPT_BYTES
    requires At(src, Have(Reconciled(t)), i)
    ensures NextChunkSafe(Reconciled(t), src, i) <==> RowCurrent(t, src)
  {
    var k := ReconciledAt(t, src);
    AtIsUnique(src, Have(Reconciled(t)), i, k);
    SafeExactly(Reconciled(t), src, i);
    if RowDecides(t) { CurrentAtEnd(t, src, i); }
  }

  /** The reconciled cursor never passes what the file holds, and one that may be behind it is
      marked suspect. */
  lemma ReconcileLeavesNoGap(t: Transcript, src: seq<Rec>)
    requires Hydrated(t, src) && RowCurrent(t, src)
    ensures Inv(Reconciled(t), src, false)
  {
    var i := ReconciledAt(t, src);
    if RowDecides(t) { CurrentAtEnd(t, src, i); }
    InvAt(Reconciled(t), src, i, false);
  }

  /** A reconcile that counts the file's lines anew leaves the next entry the ordinal a repaired file
      would give it, if and only if the cursor is suspect or no line is repeated. */
  lemma ReconciledOrdinalExactly(t: Transcript)
    requires t.row.Some? && t.row.value.archive != Size(t.file)
    ensures CountBefore(Reconciled(t)) == |FirstCopies(t.file)| <==> Suspect(Reconciled(t)) || NoRepeats(t.file)
  {
    FirstCopiesCount(t.file);
  }

  /** One line stored twice, a sidecar of the file's size, an older row: the next entry goes to ordinal 2
      though a repaired file would give it 1. */
  lemma RepeatedLineMiscounts(line: Line, bytes: nat, row: Row)
    requires row.archive < LineSize(line)
    ensures var t := Transcript([line, line], Some(row), Some(Side(bytes, 2 * LineSize(line), false)), false);
            CountBefore(Reconciled(t)) == 2 && |FirstCopies(t.file)| == 1
  {
    var file := [line, line];
    assert file[..1] == [line] && [line][..0] == [];
    assert Size([line]) == LineSize(line) && FirstCopies([line]) == [line];
  }

  // ---- a row rebuilt from a file and its sidecar ----------------------------------------------------

  /** The row a boot rebuilds for a file the index does not know. */
  function Rebuilt(t: Transcript): Transcript
    requires t.side.Some?
  {
    var side, size := t.side.value, Size(t.file);
    t.(row := Some(Row(SidecarCursor(side, size), size, |FirstCopies(t.file)|)),
       suspect := side.unverified || side.archive != size)
  }

  /** Its cursor never passes the file, and one that may be behind is suspect. */
  lemma RebuildLeavesNoGap(t: Transcript, src: seq<Rec>)
    requires Faithful(t.file, src) && t.side.Some?
    requires TruePair(t.file, src, t.side.value.archive, t.side.value.bytes, t.side.value.unverified)
    ensures Inv(Rebuilt(t), src, false)
  {
    var side := t.side.value;
    if side.archive > Size(t.file) {
      assert src[..0] == [];
      InvAt(Rebuilt(t), src, 0, false);
    } else {
      var m: nat, i: nat :| PairAt(t.file, src, side.archive, side.bytes, side.unverified, m, i);
      if side.archive == Size(t.file) { SizePinsPrefix(t.file, m); }
      InvAt(Rebuilt(t), src, i, false);
    }
  }

  /** A rebuilt row counts first copies, whatever the file repeats. */
  lemma RebuiltOrdinal(t: Transcript)
    requires t.side.Some?
    ensures CountBefore(Rebuilt(t)) == |FirstCopies(t.file)|
  {
  }

  // ---- what a handover keeps --------------------------------------------------------------------

  /** The copies a completed chunk leaves hand its cursor on: whoever reconciles, or rebuilds the row,
      goes on at the same byte, and suspects it exactly as the one before did. */
  lemma HandoverResumes(t: Transcript, src: seq<Rec>, end: nat, list: seq<Entry>, budget: nat)
    requires Inv(t, src, false)
    ensures var t' := WithSide(t, end, list, budget);
            var taken, rebuilt := Reconciled(t'.(suspect := false)), Rebuilt(t'.(row := None, suspect := false));
            Have(t') == end && Have(taken) == end && Have(rebuilt) == end
            && (taken.suspect <==> t'.suspect) && (rebuilt.suspect <==> t'.suspect) && taken.file == t'.file == rebuilt.file
  {
    SizeAppend(t.file, Appended(t, list, budget));
  }

  /** From copies of different moments the cursor is the lowest of those written beside a shorter file, and
      the start when there is none. */
  lemma CoveredIsLowest(t: Transcript)
    requires t.row.Some?
    ensures var c, size, row := CoveredCursor(t, t.row.value), Size(t.file), t.row.value;
            var side, mine := t.side.Some? && t.side.value.archive < size, 0 < row.archive < size;
            && (side ==> c <= t.side.value.bytes) && (mine ==> c <= row.bytes)
            && (side || mine ==> (side && c == t.side.value.bytes) || (mine && c == row.bytes)) && (!side && !mine ==> c == 0)
  {
  }

  // ---- re-sends ----------------------------------------------------------------------------------

  /** In-order re-sends: each chunk starts where the cursor then stands. */
  ghost predicate ResendsTo(t: Transcript, src: seq<Rec>, ends: seq<nat>, budget: nat, i: nat)
    decreases |ends|
  {
    && At(src, Have(t), i)
    && (ends != [] ==>
      && i <= ends[0] <= |src|
      && ResendsTo(Ingested(t, Off(src[..i]), Off(src[..ends[0]]), Between(src, i, ends[0]), false, budget),
                   src, ends[1..], budget, ends[0]))
  }

  ghost function Resent(t: Transcript, src: seq<Rec>, ends: seq<nat>, budget: nat, i: nat): Transcript
    requires ResendsTo(t, src, ends, budget, i)
    decreases |ends|
  {
    if ends == [] then t
    else Resent(Ingested(t, Off(src[..i]), Off(src[..ends[0]]), Between(src, i, ends[0]), false, budget),
                src, ends[1..], budget, ends[0])
  }

  lemma {:induction false} ResendKeepsInv(t: Transcript, src: seq<Rec>, ends: seq<nat>, budget: nat, i: nat)
    requires Inv(t, src, false) && Distinct(All(src)) && ResendsTo(t, src, ends, budget, i)
    ensures Inv(Resent(t, src, ends, budget, i), src, false)
    decreases |ends|
  {
    if ends != [] {
      ChunkKeepsInv(t, src, i, ends[0], Off(src[..i]), Off(src[..ends[0]]), Between(src, i, ends[0]), false, budget, false);
      ResendKeepsInv(Ingested(t, Off(src[..i]), Off(src[..ends[0]]), Between(src, i, ends[0]), false, budget),
                     src, ends[1..], budget, ends[0]);
    }
  }

  /** A cursor at the end of the source: the file is the rendered source. */
  lemma CaughtUp(t: Transcript, src: seq<Rec>)
    requires Inv(t, src, false) && Have(t) == Off(src)
    ensures Entries(t.file) == All(src)
  {
    assert src[..|src|] == src;
    InvAt(t, src, |src|, false);
  }

  /** Re-sends that reach the end of the source leave exactly the rendered source. */
  lemma ResendsAreExact(t: Transcript, src: seq<Rec>, ends: seq<nat>, budget: nat, i: nat)
    requires Inv(t, src, false) && Distinct(All(src)) && ResendsTo(t, src, ends, budget, i)
    requires Have(Resent(t, src, ends, budget, i)) == Off(src)
    ensures Entries(Resent(t, src, ends, budget, i).file) == All(src)
  {
    ResendKeepsInv(t, src, ends, budget, i);
    CaughtUp(Resent(t, src, ends, budget, i), src);
  }

  /** Hydrate recovery leaves neither gap nor duplicate: once in-order re-sends from the reconciled
      cursor have reached the end of the source, the file is exactly the rendered source. */
  lemma RecoveryIsExact(t: Transcript, src: seq<Rec>, ends: seq<nat>, budget: nat, i: nat)
    requires Hydrated(t, src) && RowCurrent(t, src) && Distinct(All(src))
    requires ResendsTo(Reconciled(t), src, ends, budget, i)
    requires Have(Resent(Reconciled(t), src, ends, budget, i)) == Off(src)
    ensures Entries(Resent(Reconciled(t), src, ends, budget, i).file) == All(src)
  {
    ReconcileLeavesNoGap(t, src);
    ResendsAreExact(Reconciled(t), src, ends, budget, i);
  }

  /** And so does recovery through a rebuilt row. */
  lemma RebuildIsExact(t: Transcript, src: seq<Rec>, ends: seq<nat>, budget: nat, i: nat)
    requires Faithful(t.file, src) && t.side.Some? && Distinct(All(src))
    requires TruePair(t.file, src, t.side.value.archive, t.side.value.bytes, t.side.value.unverified)
    requires ResendsTo(Rebuilt(t), src, ends, budget, i) && Have(Resent(Rebuilt(t), src, ends, budget, i)) == Off(src)
    ensures Entries(Resent(Rebuilt(t), src, ends, budget, i).file) == All(src)
  {
    RebuildLeavesNoGap(t, src);
    ResendsAreExact(Rebuilt(t), src, ends, budget, i);
  }
}
