/** The rendered layer of the hub's archive for one transcript (turma/archive.js): chunk ingest
    against a byte cursor, the suspect-cursor de-duplication, and the cursor reconcile after a
    hydrate. Offsets count bytes of the agent's own log; sizes count bytes of the stored file. */
module Ingest {
  import opened Basics

  type Key = string

  /** An entry as pushed. `extra` and `extraShed` stand for what its rendered line costs, with its
      file payloads and with them shed (a line is never empty, so a line costs one byte more). */
  datatype Entry = Entry(key: Key, extra: nat, extraShed: nat)

  datatype Line = Line(e: Entry, shed: bool)

  /** The session row and the `.meta` sidecar, as far as the cursor is concerned. */
  datatype Row = Row(bytes: nat, archive: nat, count: nat)
  datatype Side = Side(bytes: nat, archive: nat, unverified: bool)

  /** One transcript: its file, its row, its sidecar, and membership in `unverifiedCursors`. */
  datatype Transcript = Transcript(file: seq<Line>, row: Option<Row>, side: Option<Side>, suspect: bool)

  const MAX_TRANSCRIPT_BYTES: int := 0x100_0000_0000

  function LineSize(l: Line): nat { 1 + if l.shed then l.e.extraShed else l.e.extra }

  function Size(file: seq<Line>): nat {
    if file == [] then 0 else Size(file[..|file| - 1]) + LineSize(file[|file| - 1])
  }

  function Entries(file: seq<Line>): (es: seq<Entry>)
    ensures |es| == |file| && forall i :: 0 <= i < |file| ==> es[i] == file[i].e
  {
    seq(|file|, i requires 0 <= i < |file| => file[i].e)
  }

  function KeysOf(es: seq<Entry>): (ks: seq<Key>)
    ensures |ks| == |es| && forall i :: 0 <= i < |es| ==> ks[i] == es[i].key
  {
    seq(|es|, i requires 0 <= i < |es| => es[i].key)
  }

  // ---- one chunk ---------------------------------------------------------------

  function Have(t: Transcript): nat { if t.row.Some? then t.row.value.bytes else 0 }

  function RowArchive(t: Transcript): nat { if t.row.Some? then t.row.value.archive else 0 }

  /** What a restart would still see of a cursor that may be behind its file. */
  predicate DiskSuspect(t: Transcript) {
    || (t.side.Some? && t.side.value.unverified && Size(t.file) > 0)
    || Size(t.file) > RowArchive(t)
  }

  predicate Suspect(t: Transcript) { t.suspect || DiskSuspect(t) }

  predicate Accepts(t: Transcript, start: int, end: int) {
    start == Have(t) && Have(t) <= end <= MAX_TRANSCRIPT_BYTES
  }

  /** A multiset of held keys, consumed one per match: what is left over, and what was new. */
  function LeftOver(list: seq<Entry>, held: multiset<Key>): multiset<Key> {
    if list == [] then held
    else
      var h := LeftOver(list[..|list| - 1], held);
      h - multiset{list[|list| - 1].key}
  }

  function FreshOf(list: seq<Entry>, held: multiset<Key>): seq<Entry> {
    if list == [] then []
    else
      var last := list[|list| - 1];
      var p := FreshOf(list[..|list| - 1], held);
      if last.key in LeftOver(list[..|list| - 1], held) then p else p + [last]
  }

  function Kept(t: Transcript, list: seq<Entry>): seq<Entry> {
    if Suspect(t) then FreshOf(list, multiset(KeysOf(Entries(t.file)))) else list
  }

  function Keys(es: seq<Entry>): multiset<Key> { multiset(KeysOf(es)) }

  lemma KeysSnoc(es: seq<Entry>)
    requires es != []
    ensures Keys(es) == Keys(es[..|es| - 1]) + multiset{es[|es| - 1].key}
  {
    var front := es[..|es| - 1];
    assert KeysOf(es) == KeysOf(front) + [es[|es| - 1].key];
  }

  /** Every match uses up one held copy: what is kept is the list's keys less the held ones. */
  lemma {:induction false} FreshIsTheRest(list: seq<Entry>, held: multiset<Key>)
    ensures LeftOver(list, held) == held - Keys(list) && Keys(FreshOf(list, held)) == Keys(list) - held
  {
    if list != [] {
      FreshIsTheRest(list[..|list| - 1], held);
      KeysSnoc(list);
      FreshGrows(list, held);
    }
  }

  lemma FreshGrows(list: seq<Entry>, held: multiset<Key>)
    requires list != []
    ensures var front, last := list[..|list| - 1], list[|list| - 1];
            Keys(FreshOf(list, held)) == Keys(FreshOf(front, held)) + if last.key in LeftOver(front, held) then multiset{} else multiset{last.key}
  {
    var front, last := list[..|list| - 1], list[|list| - 1];
    var p := FreshOf(front, held);
    if last.key !in LeftOver(front, held) {
      assert (p + [last])[..|p|] == p;
      KeysSnoc(p + [last]);
    }
  }

  /** How often the entry's key came before it. */
  function Earlier(list: seq<Entry>, i: nat): nat
    requires i < |list|
  {
    Keys(list[..i])[list[i].key]
  }

  /** `kept` is what stands at these positions, in order. */
  predicate Picked(kept: seq<Entry>, list: seq<Entry>, pos: seq<nat>) {
    && |pos| == |kept| && (forall n :: 0 <= n < |pos| ==> pos[n] < |list| && kept[n] == list[pos[n]])
    && (forall n, m :: 0 <= n < m < |pos| ==> pos[n] < pos[m])
  }

  /** Entry i is among those kept exactly when it should be. */
  predicate RightlyKept(list: seq<Entry>, held: multiset<Key>, pos: seq<nat>, i: nat)
    requires i < |list|
  {
    i in pos <==> Earlier(list, i) >= held[list[i].key]
  }

  /** All but the first held-many of each key are kept, in order. */
  ghost predicate KeptAt(kept: seq<Entry>, list: seq<Entry>, held: multiset<Key>, pos: seq<nat>) {
    Picked(kept, list, pos) && forall i :: 0 <= i < |list| ==> RightlyKept(list, held, pos, i)
  }

  ghost predicate FirstHeldDropped(kept: seq<Entry>, list: seq<Entry>, held: multiset<Key>) {
    exists pos :: KeptAt(kept, list, held, pos)
  }

  lemma {:induction false} FreshDropsFirstHeld(list: seq<Entry>, held: multiset<Key>)
    ensures FirstHeldDropped(FreshOf(list, held), list, held)
  {
    if list == [] {
      assert KeptAt([], list, held, []);
    } else {
      var n := |list| - 1;
      FreshDropsFirstHeld(list[..n], held);
      var pos :| KeptAt(FreshOf(list[..n], held), list[..n], held, pos);
      LastIsKept(list, held);
      KeptAtSnoc(list, held, FreshOf(list[..n], held), pos, n);
    }
  }

  lemma LastIsKept(list: seq<Entry>, held: multiset<Key>)
    requires list != []
    ensures var n := |list| - 1; var p := FreshOf(list[..n], held);
            FreshOf(list, held) == if Earlier(list, n) >= held[list[n].key] then p + [list[n]] else p
  {
    var front, last := list[..|list| - 1], list[|list| - 1];
    FreshIsTheRest(front, held);
    assert last.key in held - Keys(front) <==> Keys(front)[last.key] < held[last.key];
  }

  lemma EarlierInFront(list: seq<Entry>, i: nat, n: nat)
    requires i < n <= |list|
    ensures Earlier(list[..n], i) == Earlier(list, i)
  {
    PrefixOfPrefix(list, i, n);
  }

  lemma RightlyKeptOn(list: seq<Entry>, held: multiset<Key>, pos: seq<nat>, pos': seq<nat>, n: nat)
    requires n <= |list| && forall i :: 0 <= i < n ==> RightlyKept(list[..n], held, pos, i)
    requires pos' == pos || pos' == pos + [n]
    ensures forall i :: 0 <= i < n ==> RightlyKept(list, held, pos', i)
  {
    forall i | 0 <= i < n ensures RightlyKept(list, held, pos', i) {
      EarlierInFront(list, i, n);
      assert RightlyKept(list[..n], held, pos, i);
      assert i in pos' <==> i in pos;
    }
  }

  lemma PickedSnoc(kept: seq<Entry>, list: seq<Entry>, pos: seq<nat>, n: nat)
    requires n < |list| && Picked(kept, list[..n], pos)
    ensures Picked(kept, list, pos) && Picked(kept + [list[n]], list, pos + [n]) && n !in pos
  {
  }

  lemma KeptAtSnoc(list: seq<Entry>, held: multiset<Key>, kept: seq<Entry>, pos: seq<nat>, n: nat)
    requires |list| == n + 1 && KeptAt(kept, list[..n], held, pos)
    ensures if Earlier(list, n) >= held[list[n].key] then KeptAt(kept + [list[n]], list, held, pos + [n]) else KeptAt(kept, list, held, pos)
  {
    PickedSnoc(kept, list, pos, n);
    if Earlier(list, n) >= held[list[n].key] {
      RightlyKeptOn(list, held, pos, pos + [n], n);
      assert RightlyKept(list, held, pos + [n], n);
    } else {
      RightlyKeptOn(list, held, pos, pos, n);
      assert RightlyKept(list, held, pos, n);
    }
  }

  /** The stored lines: payloads are shed from the first entry that starts at or past the budget. */
  function Rendered(list: seq<Entry>, archive: nat, budget: nat): seq<Line> {
    if list == [] then []
    else
      var p := Rendered(list[..|list| - 1], archive, budget);
      p + [Line(list[|list| - 1], budget > 0 && archive + Size(p) >= budget)]
  }

  /** Payloads aside, what is stored is the list. */
  lemma {:induction false} RenderedEntries(list: seq<Entry>, archive: nat, budget: nat)
    ensures Entries(Rendered(list, archive, budget)) == list
  {
    if list != [] {
      RenderedEntries(list[..|list| - 1], archive, budget);
    }
  }

  /** Each entry keeps its payloads exactly while the file before it has not used up the budget. */
  lemma {:induction false} RenderedSheds(list: seq<Entry>, archive: nat, budget: nat, k: nat)
    requires k < |list|
    ensures var lines := Rendered(list, archive, budget);
            |lines| == |list| && (lines[k].shed <==> budget > 0 && archive + Size(lines[..k]) >= budget)
  {
    RenderedEntries(list, archive, budget);
    var n := |list| - 1;
    var p, lines := Rendered(list[..n], archive, budget), Rendered(list, archive, budget);
    RenderedEntries(list[..n], archive, budget);
    assert lines[..n] == p;
    if k < n {
      RenderedSheds(list[..n], archive, budget, k);
      PrefixOfPrefix(lines, k, n);
    }
  }

  lemma RenderedNext(list: seq<Entry>, i: nat, archive: nat, budget: nat)
    requires i < |list|
    ensures var p := Rendered(list[..i], archive, budget);
            Rendered(list[..i + 1], archive, budget)
            == p + [Line(list[i], budget > 0 && archive + Size(p) >= budget)]
  {
    assert list[..i + 1][..i] == list[..i];
  }

  lemma SizeSnoc(lines: seq<Line>, line: Line)
    ensures Size(lines + [line]) == Size(lines) + LineSize(line)
  {
    assert (lines + [line])[..|lines|] == lines;
  }

  function Base(t: Transcript): nat { if Suspect(t) then Size(t.file) else RowArchive(t) }

  function Appended(t: Transcript, list: seq<Entry>, budget: nat): seq<Line> {
    Rendered(Kept(t, list), Base(t), budget)
  }

  predicate SuspectAfter(t: Transcript, list: seq<Entry>) { Suspect(t) && Kept(t, list) == [] }

  /** The first copies among a file's lines (what a duplicate repair would leave). */
  function FirstCopies(file: seq<Line>): seq<Line> {
    if file == [] then []
    else
      var p := FirstCopies(file[..|file| - 1]);
      if file[|file| - 1] in file[..|file| - 1] then p else p + [file[|file| - 1]]
  }

  function CountBefore(t: Transcript): nat {
    if Suspect(t) then |FirstCopies(t.file)| else if t.row.Some? then t.row.value.count else 0
  }

  // The three durable writes of one accepted chunk, in order.
  function WithFile(t: Transcript, list: seq<Entry>, budget: nat): Transcript {
    t.(file := t.file + Appended(t, list, budget))
  }

  function NewRow(t: Transcript, end: nat, list: seq<Entry>, budget: nat): Row {
    Row(end, Base(t) + Size(Appended(t, list, budget)), CountBefore(t) + |Kept(t, list)|)
  }

  function WithRow(t: Transcript, end: nat, list: seq<Entry>, budget: nat): Transcript {
    WithFile(t, list, budget).(row := Some(NewRow(t, end, list, budget)))
  }

  function WithSide(t: Transcript, end: nat, list: seq<Entry>, budget: nat): Transcript {
    var r := NewRow(t, end, list, budget);
    WithRow(t, end, list, budget).(
      side := Some(Side(r.bytes, r.archive, SuspectAfter(t, list))), suspect := SuspectAfter(t, list))
  }

  /** The whole of ingestChunk. `refused` covers every gate that stores nothing. */
  function Ingested(t: Transcript, start: int, end: int, list: seq<Entry>, refused: bool, budget: nat): Transcript {
    if refused || !Accepts(t, start, end) then t else WithSide(t, end, list, budget)
  }

  // ---- the reconcile after a hydrate ----------------------------------------------

  function Min(a: nat, b: nat): nat { if a < b then a else b }

  /** The cursors written beside a file shorter than this one; the lower one, or 0 for none. */
  function CoveredCursor(t: Transcript, row: Row): nat {
    var size := Size(t.file);
    var bySide := t.side.Some? && t.side.value.archive < size;
    var byRow := row.archive > 0 && row.archive < size;
    if bySide && byRow then Min(t.side.value.bytes, row.bytes)
    else if bySide then t.side.value.bytes
    else if byRow then row.bytes
    else 0
  }

  function Reconciled(t: Transcript): Transcript
    requires t.row.Some?
  {
    var row := t.row.value;
    var size := Size(t.file);
    var flagged := t.suspect || (t.side.Some? && t.side.value.unverified);
    var exact := t.side.Some? && t.side.value.archive == size;
    var bytes :=
      if exact then t.side.value.bytes
      else if row.archive == size then row.bytes
      else CoveredCursor(t, row);
    var count := if size != row.archive then |t.file| else row.count;
    t.(row := Some(Row(bytes, size, count)),
       suspect := flagged || !(exact || row.archive == size))
  }

  /** The cursor a rebuilt row takes from a sidecar. */
  function SidecarCursor(side: Side, fileSize: nat): nat {
    if side.archive > fileSize then 0 else side.bytes
  }

  lemma Completed(t: Transcript, end: nat, list: seq<Entry>, budget: nat, lines: seq<Line>, row: Row, side: Side)
    requires lines == Appended(t, list, budget) && side == Side(end, row.archive, SuspectAfter(t, list))
    requires row == Row(end, Base(t) + Size(lines), CountBefore(t) + |Kept(t, list)|)
    ensures WithSide(t, end, list, budget) == Transcript(t.file + lines, Some(row), Some(side), side.unverified)
  {
  }

  /** The archive's own state for one transcript, updated in place. */
  class Archived {
    var file: seq<Line>
    var row: Option<Row>
    var side: Option<Side>
    var unverified: bool

    ghost function View(): Transcript
      reads this
    {
      Transcript(file, row, side, unverified)
    }

    /** The chunk minus the entries the file already holds, one held copy consumed per match. */
    static method Dedup(list: seq<Entry>, file: seq<Line>) returns (kept: seq<Entry>)
      ensures kept == FreshOf(list, multiset(KeysOf(Entries(file))))
      ensures multiset(KeysOf(kept)) == multiset(KeysOf(list)) - multiset(KeysOf(Entries(file)))
      ensures FirstHeldDropped(kept, list, multiset(KeysOf(Entries(file))))
    {
      var held := multiset(KeysOf(Entries(file)));
      ghost var all := held;
      kept := [];
      for i := 0 to |list|
        invariant kept == FreshOf(list[..i], all) && held == LeftOver(list[..i], all)
      {
        assert list[..i + 1][..i] == list[..i];
        if list[i].key !in held { kept := kept + [list[i]]; }
        held := held - multiset{list[i].key};
      }
      assert list[..|list|] == list;
      FreshIsTheRest(list, all);
      FreshDropsFirstHeld(list, all);
    }

    static method Render(list: seq<Entry>, archive: nat, budget: nat) returns (lines: seq<Line>, total: nat)
      ensures lines == Rendered(list, archive, budget) && total == archive + Size(lines)
    {
      lines, total := [], archive;
      var shed := budget > 0 && archive >= budget;
      for i := 0 to |list|
        invariant lines == Rendered(list[..i], archive, budget) && total == archive + Size(lines)
        invariant shed == (budget > 0 && total >= budget)
      {
        var line := Line(list[i], shed);
        RenderedNext(list, i, archive, budget);
        SizeSnoc(lines, line);
        lines := lines + [line];
        total := total + LineSize(line);
        if budget > 0 && total >= budget { shed := true; }
      }
      assert list[..|list|] == list;
    }

    /** The duplicate guard: which entries to store, and the figures they continue from. */
    static method Guard(t: Transcript, entries: seq<Entry>)
      returns (list: seq<Entry>, prevCount: nat, archiveBytes: nat, unverified: bool)
      ensures list == Kept(t, entries) && prevCount == CountBefore(t)
      ensures archiveBytes == Base(t) && unverified == SuspectAfter(t, entries)
      ensures t.file == [] && !t.suspect ==> list == entries && !unverified
    {
      var fileSize := Size(t.file);
      prevCount := if t.row.Some? then t.row.value.count else 0;
      archiveBytes := if t.row.Some? then t.row.value.archive else 0;
      list, unverified := entries, t.suspect;
      if !unverified && fileSize > 0 && t.side.Some? && t.side.value.unverified { unverified := true; }
      if unverified || fileSize > archiveBytes {
        list := Dedup(list, t.file);
        prevCount := |FirstCopies(t.file)|;
        unverified := list == [];
        archiveBytes := fileSize;
      }
    }

    method IngestChunk(start: int, end: int, entries: seq<Entry>, refused: bool, budget: nat)
      returns (bytesStored: nat)
      modifies this
      ensures View() == Ingested(old(View()), start, end, entries, refused, budget)
      ensures bytesStored == Have(View())
      ensures var have := if old(row).Some? then old(row).value.bytes else 0;
              var takes := !refused && start == have && have <= end <= 0x100_0000_0000;
              bytesStored == (if takes then end else have) && (!takes ==> View() == old(View()))
    {
      var t := Transcript(file, row, side, unverified);
      var have := if row.Some? then row.value.bytes else 0;
      if refused || start != have || end < have || end > MAX_TRANSCRIPT_BYTES { return have; }
      var list, prevCount, archiveBytes, suspect := Guard(t, entries);
      var lines, total := Render(list, archiveBytes, budget);
      var newRow, newSide := Row(end, total, prevCount + |list|), Side(end, total, suspect);
      Completed(t, end, entries, budget, lines, newRow, newSide);
      unverified, file, row, side := suspect, file + lines, Some(newRow), Some(newSide);
      bytesStored := end;
    }

    method ReconcileHydratedCursor()
      requires row.Some?
      modifies this
      ensures View() == Reconciled(old(View()))
    {
      var fileSize := Size(file);
      var r := row.value;
      var bytes: nat;
      if side.Some? && side.value.unverified { unverified := true; }
      if side.Some? && side.value.archive == fileSize {
        bytes := side.value.bytes;
      } else if r.archive == fileSize {
        bytes := r.bytes;
      } else {
        var covered: seq<nat> := [];
        if side.Some? && side.value.archive < fileSize { covered := covered + [side.value.bytes]; }
        if r.archive > 0 && r.archive < fileSize { covered := covered + [r.bytes]; }
        bytes := if |covered| == 2 then Min(covered[0], covered[1]) else if |covered| == 1 then covered[0] else 0;
        unverified := true;
      }
      var count := if fileSize != r.archive then |file| else r.count;
      row := Some(Row(bytes, fileSize, count));
    }
  }
}
