/** Stale replicas and the shared index: whatever copies of one append-only transcript the replicas
    hold, and however often and in whatever order their appends and seats reach Postgres
    (turma/archive.js, turma/index-store.js), ordinal i holds the i-th first-copy entry. */
module Convergence {
  import opened Basics
  import opened Repair
  import opened IndexStore

  /** How a line reads as an entry; a torn or blank one is none. */
  type Parse = Bytes -> Option<Item>

  ghost function Items(parse: Parse, ls: seq<Bytes>): seq<Item> {
    if ls == [] then []
    else
      var e := parse(ls[|ls| - 1]);
      Items(parse, ls[..|ls| - 1]) + if e.Some? then [e.value] else []
  }

  /** The entries of a copy read as the repair would leave it. */
  ghost function Held(parse: Parse, copy: Bytes): seq<Item> { Items(parse, First(Lines(copy))) }

  lemma {:induction false} ItemsAppend(parse: Parse, a: seq<Bytes>, b: seq<Bytes>)
    ensures Items(parse, a + b) == Items(parse, a) + Items(parse, b)
  {
    if b == [] {
      assert a + b == a;
    } else {
      ItemsAppend(parse, a, b[..|b| - 1]);
      assert (a + b)[..|a + b| - 1] == a + b[..|b| - 1];
    }
  }

  lemma ItemsPrefix(parse: Parse, a: seq<Bytes>, b: seq<Bytes>)
    requires a <= b
    ensures Items(parse, a) <= Items(parse, b)
  {
    ItemsAppend(parse, a, b[|a|..]);
    assert b == a + b[|a|..];
  }

  // ---- the transition system ---------------------------------------------------------------

  /** An entry write on its way: an append skips ordinals present, a seat overwrites. */
  datatype Op = Op(items: seq<Item>, at: nat, overwrite: bool)

  /** `log` is every line ever appended, copies the replicas' files, `ops` every write ever sent
      (any of them may be delivered again), `done` those delivered whole at least once. */
  datatype State = State(log: seq<Bytes>, copies: seq<Bytes>, ops: set<Op>, done: set<Op>, rows: Rows)

  datatype Step =
    | Ingest(r: nat, lines: seq<Bytes>)
    | Fetch(r: nat, from: nat)
    | Rewrite(r: nat)
    | Seat(r: nat)
    | Deliver(op: Op, written: nat)

  ghost predicate Enabled(parse: Parse, s: State, step: Step) {
    match step
    case Ingest(r, lines) =>
      // the leader's current file, repaired or not, takes lines it does not hold yet
      r < |s.copies| && AllClosed(lines) && First(Lines(s.copies[r])) == First(s.log)
      && First(s.log + lines) == First(s.log) + lines
    case Fetch(r, from) => r < |s.copies| && from < |s.copies|
    case Rewrite(r) => r < |s.copies|
    case Seat(r) => r < |s.copies|
    case Deliver(op, written) => op in s.ops && written <= |op.items|
  }

  ghost function Apply(parse: Parse, s: State, step: Step): State
    requires Enabled(parse, s, step)
  {
    match step
    case Ingest(r, lines) =>
      // an unrepaired file is read by first copies, on a repaired one that is the row's own count
      var msgCount := |Held(parse, s.copies[r])|;
      s.(log := s.log + lines, copies := s.copies[r := s.copies[r] + Join(lines)],
         ops := s.ops + {Op(Items(parse, lines), msgCount, false)})
    case Fetch(r, from) => s.(copies := s.copies[r := s.copies[from]])
    case Rewrite(r) => s.(copies := s.copies[r := Dedup(s.copies[r])])
    case Seat(r) => s.(ops := s.ops + {Op(Held(parse, s.copies[r]), 0, true)})
    case Deliver(op, written) =>
      s.(rows := Inserted(s.rows, op.items[..written], op.at, op.overwrite),
         done := s.done + if written == |op.items| then {op} else {})
  }

  ghost predicate Legal(parse: Parse, s: State, run: seq<Step>)
    decreases |run|
  {
    run == [] || (Enabled(parse, s, run[0]) && Legal(parse, Apply(parse, s, run[0]), run[1..]))
  }

  ghost function Exec(parse: Parse, s: State, run: seq<Step>): State
    requires Legal(parse, s, run)
    decreases |run|
  {
    if run == [] then s else Exec(parse, Apply(parse, s, run[0]), run[1..])
  }

  // ---- the invariant -----------------------------------------------------------------------

  /** What the index should hold: the first-copy entries of everything appended. */
  ghost function Truth(parse: Parse, s: State): seq<Item> { Items(parse, First(s.log)) }

  /** A line-aligned copy, repaired or not, of some beginning of the log. */
  ghost predicate CopyOf(copy: Bytes, log: seq<Bytes>) {
    Aligned(copy) && exists k: nat :: k <= |log| && First(Lines(copy)) == First(log[..k])
  }

  predicate Sliced(op: Op, truth: seq<Item>) {
    op.at + |op.items| <= |truth| && truth[op.at..op.at + |op.items|] == op.items
  }

  predicate Sound(rows: Rows, truth: seq<Item>) {
    forall i :: i in rows ==> i < |truth| && rows[i] == truth[i]
  }

  /** Some write that would fill ordinal i is still owed. */
  ghost predicate Owed(s: State, i: nat) {
    exists op :: op in s.ops && op !in s.done && op.at <= i < op.at + |op.items|
  }

  ghost predicate Inv(parse: Parse, s: State) {
    var truth := Truth(parse, s);
    && (forall r :: 0 <= r < |s.copies| ==> CopyOf(s.copies[r], s.log))
    && (forall op :: op in s.ops ==> Sliced(op, truth))
    && s.done <= s.ops && Sound(s.rows, truth)
    && (forall i: nat :: i < |truth| ==> i in s.rows || Owed(s, i))
  }

  // ---- copies ------------------------------------------------------------------------------

  /** Any copy reads as a beginning of the truth. */
  lemma CopyReadsPrefix(parse: Parse, copy: Bytes, s: State)
    requires CopyOf(copy, s.log)
    ensures Held(parse, copy) <= Truth(parse, s)
  {
    var k: nat :| k <= |s.log| && First(Lines(copy)) == First(s.log[..k]);
    FirstPrefixAt(s.log, k);
    ItemsPrefix(parse, First(Lines(copy)), First(s.log));
  }

  lemma CopyRewritten(copy: Bytes, log: seq<Bytes>)
    requires CopyOf(copy, log)
    ensures CopyOf(Dedup(copy), log)
  {
    DedupAligned(copy);
    LinesOfDedup(copy);
    FirstIdempotent(Lines(copy));
  }

  lemma CopyOutlives(copy: Bytes, log: seq<Bytes>, more: seq<Bytes>)
    requires CopyOf(copy, log)
    ensures CopyOf(copy, log + more)
  {
    var k: nat :| k <= |log| && First(Lines(copy)) == First(log[..k]);
    assert (log + more)[..k] == log[..k];
  }

  lemma ClosedLinesJoin(lines: seq<Bytes>)
    requires AllClosed(lines)
    ensures Lines(Join(lines)) == lines && Aligned(Join(lines))
  {
    LinesJoin(lines);
    if lines != [] { assert Closed(lines[|lines| - 1]); }
  }

  lemma GrownLines(copy: Bytes, lines: seq<Bytes>)
    requires Aligned(copy) && AllClosed(lines)
    ensures Lines(copy + Join(lines)) == Lines(copy) + lines && Aligned(copy + Join(lines))
  {
    ClosedLinesJoin(lines);
    LinesAppend(copy, Join(lines));
  }

  lemma WholeCopy(copy: Bytes, log: seq<Bytes>)
    requires Aligned(copy) && First(Lines(copy)) == First(log)
    ensures CopyOf(copy, log)
  {
    assert log[..|log|] == log;
  }

  lemma CopyGrown(copy: Bytes, log: seq<Bytes>, lines: seq<Bytes>)
    requires Aligned(copy) && AllClosed(lines) && First(Lines(copy)) == First(log)
    ensures CopyOf(copy + Join(lines), log + lines)
  {
    GrownLines(copy, lines);
    FirstAbsorbs(Lines(copy), lines);
    FirstAbsorbs(log, lines);
    WholeCopy(copy + Join(lines), log + lines);
  }

  // ---- every step keeps the invariant --------------------------------------------------------

  lemma SlicedGrows(op: Op, truth: seq<Item>, more: seq<Item>)
    requires Sliced(op, truth)
    ensures Sliced(op, truth + more)
  {
    assert (truth + more)[op.at..op.at + |op.items|] == truth[op.at..op.at + |op.items|];
  }

  lemma IngestTruth(parse: Parse, s: State, step: Step)
    requires step.Ingest? && Enabled(parse, s, step)
    ensures Truth(parse, Apply(parse, s, step)) == Truth(parse, s) + Items(parse, step.lines)
  {
    ItemsAppend(parse, First(s.log), step.lines);
  }

  lemma IngestKeepsCopies(parse: Parse, s: State, step: Step)
    requires Inv(parse, s) && step.Ingest? && Enabled(parse, s, step)
    ensures var s' := Apply(parse, s, step); forall r :: 0 <= r < |s'.copies| ==> CopyOf(s'.copies[r], s'.log)
  {
    var s' := Apply(parse, s, step);
    forall r | 0 <= r < |s'.copies| ensures CopyOf(s'.copies[r], s'.log) {
      if r == step.r { CopyGrown(s.copies[r], s.log, step.lines); }
      else { CopyOutlives(s.copies[r], s.log, step.lines); }
    }
  }

  lemma IngestKeepsInv(parse: Parse, s: State, step: Step)
    requires Inv(parse, s) && step.Ingest? && Enabled(parse, s, step)
    ensures Inv(parse, Apply(parse, s, step))
  {
    var s' := Apply(parse, s, step);
    var truth, more := Truth(parse, s), Items(parse, step.lines);
    IngestTruth(parse, s, step);
    IngestKeepsCopies(parse, s, step);
    var op := Op(more, |truth|, false);
    OpsGrow(s.ops, op, truth, more);
    SoundGrows(s.rows, truth, more);
    IngestOwes(s, s', op, |truth|);
  }

  lemma OpsGrow(ops: set<Op>, op: Op, truth: seq<Item>, more: seq<Item>)
    requires (forall o :: o in ops ==> Sliced(o, truth)) && op == Op(more, |truth|, false)
    ensures forall o :: o in ops + {op} ==> Sliced(o, truth + more)
    ensures more != [] ==> op !in ops
  {
    forall o | o in ops ensures Sliced(o, truth + more) { SlicedGrows(o, truth, more); }
  }

  lemma SoundGrows(rows: Rows, truth: seq<Item>, more: seq<Item>)
    requires Sound(rows, truth)
    ensures Sound(rows, truth + more)
  {
  }

  lemma IngestOwes(s: State, s': State, op: Op, n: nat)
    requires s'.ops == s.ops + {op} && s'.done == s.done && s'.rows == s.rows
    requires op.at == n && (op.items != [] ==> op !in s.done)
    requires forall i: nat :: i < n ==> i in s.rows || Owed(s, i)
    ensures forall i: nat :: i < n + |op.items| ==> i in s'.rows || Owed(s', i)
  {
    forall i: nat | i < n + |op.items| ensures i in s'.rows || Owed(s', i) {
      if i >= n {
        assert op in s'.ops && op !in s'.done;
      } else if i !in s.rows {
        var o :| o in s.ops && o !in s.done && o.at <= i < o.at + |o.items|;
        assert o in s'.ops && o !in s'.done;
      }
    }
  }

  lemma OwedMore(s: State, s': State)
    requires s.ops <= s'.ops && s.done == s'.done
    ensures forall i: nat :: Owed(s, i) ==> Owed(s', i)
  {
    forall i: nat | Owed(s, i) ensures Owed(s', i) {
      var o :| o in s.ops && o !in s.done && o.at <= i < o.at + |o.items|;
      assert o in s'.ops && o !in s'.done;
    }
  }

  lemma CopyStepKeepsInv(parse: Parse, s: State, step: Step)
    requires Inv(parse, s) && (step.Fetch? || step.Rewrite?) && Enabled(parse, s, step)
    ensures Inv(parse, Apply(parse, s, step))
  {
    var s' := Apply(parse, s, step);
    if step.Rewrite? { CopyRewritten(s.copies[step.r], s.log); }
    OwedMore(s, s');
  }

  lemma SeatKeepsInv(parse: Parse, s: State, step: Step)
    requires Inv(parse, s) && step.Seat? && Enabled(parse, s, step)
    ensures Inv(parse, Apply(parse, s, step))
  {
    var s' := Apply(parse, s, step);
    CopyReadsPrefix(parse, s.copies[step.r], s);
    OwedMore(s, s');
  }

  /** An op that is a slice of the truth writes only true rows, and writes all of its own. */
  lemma InsertIsSound(rows: Rows, op: Op, written: nat, truth: seq<Item>)
    requires Sound(rows, truth) && Sliced(op, truth) && written <= |op.items|
    ensures var rows' := Inserted(rows, op.items[..written], op.at, op.overwrite);
            Sound(rows', truth) && rows.Keys <= rows'.Keys
            && (forall i :: i in rows ==> rows'[i] == rows[i])
            && (forall i: nat :: op.at <= i < op.at + written ==> i in rows')
  {
    var rows' := Inserted(rows, op.items[..written], op.at, op.overwrite);
    forall i | i in rows' ensures i < |truth| && rows'[i] == truth[i] {
      if op.at <= i < op.at + written {
        assert truth[op.at..op.at + |op.items|][i - op.at] == op.items[i - op.at];
      }
    }
    forall i: nat | op.at <= i < op.at + written ensures i in rows' {
      assert Within(i, op.at, written);
    }
  }

  lemma DeliverKeepsInv(parse: Parse, s: State, step: Step)
    requires Inv(parse, s) && step.Deliver? && Enabled(parse, s, step)
    ensures Inv(parse, Apply(parse, s, step))
  {
    var s', truth := Apply(parse, s, step), Truth(parse, s);
    InsertIsSound(s.rows, step.op, step.written, truth);
    forall i: nat | i < |truth| ensures i in s'.rows || Owed(s', i) {
      if i !in s.rows {
        var o :| o in s.ops && o !in s.done && o.at <= i < o.at + |o.items|;
        assert i !in s'.rows ==> o in s'.ops && o !in s'.done;
      }
    }
  }

  lemma StepKeepsInv(parse: Parse, s: State, step: Step)
    requires Inv(parse, s) && Enabled(parse, s, step)
    ensures Inv(parse, Apply(parse, s, step))
  {
    match step
    case Ingest(_, _) => IngestKeepsInv(parse, s, step);
    case Fetch(_, _) => CopyStepKeepsInv(parse, s, step);
    case Rewrite(_) => CopyStepKeepsInv(parse, s, step);
    case Seat(_) => SeatKeepsInv(parse, s, step);
    case Deliver(_, _) => DeliverKeepsInv(parse, s, step);
  }

  lemma {:induction false} RunKeepsInv(parse: Parse, s: State, run: seq<Step>)
    requires Inv(parse, s) && Legal(parse, s, run)
    ensures Inv(parse, Exec(parse, s, run))
    decreases |run|
  {
    if run != [] {
      StepKeepsInv(parse, s, run[0]);
      RunKeepsInv(parse, Apply(parse, s, run[0]), run[1..]);
    }
  }

  /** No row present is ever lost or changed. */
  lemma {:induction false} RunKeepsRows(parse: Parse, s: State, run: seq<Step>)
    requires Inv(parse, s) && Legal(parse, s, run)
    ensures forall i :: i in s.rows ==> i in Exec(parse, s, run).rows && Exec(parse, s, run).rows[i] == s.rows[i]
    decreases |run|
  {
    if run != [] {
      if run[0].Deliver? { InsertIsSound(s.rows, run[0].op, run[0].written, Truth(parse, s)); }
      StepKeepsInv(parse, s, run[0]);
      RunKeepsRows(parse, Apply(parse, s, run[0]), run[1..]);
    }
  }

  /** A damaged history: line-aligned copies of any age, none repaired, an index already repaired. */
  ghost predicate Init(parse: Parse, s: State) {
    && (forall r :: 0 <= r < |s.copies| ==> exists k: nat :: k <= |s.log| && s.copies[r] == Join(s.log[..k]))
    && AllClosed(s.log) && s.ops == {} && s.done == {} && s.rows == Listed(Truth(parse, s))
  }

  lemma InitInv(parse: Parse, s: State)
    requires Init(parse, s)
    ensures Inv(parse, s)
  {
    forall r | 0 <= r < |s.copies| ensures CopyOf(s.copies[r], s.log) {
      var k: nat :| k <= |s.log| && s.copies[r] == Join(s.log[..k]);
      ClosedLinesJoin(s.log[..k]);
    }
  }

  lemma NothingOwed(parse: Parse, s: State)
    requires Inv(parse, s) && s.ops <= s.done
    ensures s.rows == Listed(Truth(parse, s))
  {
    forall i: nat | i < |Truth(parse, s)| ensures i in s.rows { assert !Owed(s, i); }
  }

  /** In every run every row present is the true one for its ordinal, and once each write has been
      delivered whole at least once the index is exactly the truth. */
  lemma IndexConverges(parse: Parse, s: State, run: seq<Step>)
    requires Init(parse, s) && Legal(parse, s, run)
    ensures var e := Exec(parse, s, run);
            Sound(e.rows, Truth(parse, e)) && (e.ops <= e.done ==> e.rows == Listed(Truth(parse, e)))
  {
    InitInv(parse, s);
    RunKeepsInv(parse, s, run);
    var e := Exec(parse, s, run);
    if e.ops <= e.done { NothingOwed(parse, e); }
  }

  /** A seat from any reachable copy, however stale and unrepaired, changes no row present. */
  lemma StaleSeatChangesNothing(parse: Parse, s: State, r: nat, written: nat)
    requires Inv(parse, s) && r < |s.copies| && written <= |Held(parse, s.copies[r])|
    ensures var rows' := Inserted(s.rows, Held(parse, s.copies[r])[..written], 0, true);
            forall i :: i in s.rows ==> i in rows' && rows'[i] == s.rows[i]
  {
    CopyReadsPrefix(parse, s.copies[r], s);
    InsertIsSound(s.rows, Op(Held(parse, s.copies[r]), 0, true), written, Truth(parse, s));
  }

  /** A seat from a copy of everything appended heals: once delivered whole, every ordinal of the truth holds
      its true row, whatever rows were missing or wrong before, and no other ordinal has changed. */
  lemma SeatHeals(parse: Parse, s: State, r: nat)
    requires r < |s.copies| && First(Lines(s.copies[r])) == First(s.log)
    ensures var op := Op(Truth(parse, s), 0, true);
            Enabled(parse, s, Seat(r)) && Enabled(parse, Apply(parse, s, Seat(r)), Deliver(op, |op.items|))
            && var rows := Apply(parse, Apply(parse, s, Seat(r)), Deliver(op, |op.items|)).rows;
               (forall i: nat :: i < |op.items| ==> i in rows && rows[i] == op.items[i])
               && forall i: nat :: i >= |op.items| ==> (i in rows <==> i in s.rows) && (i in rows ==> rows[i] == s.rows[i])
  {
    var items := Truth(parse, s);
    assert items[..|items|] == items;
    InsertedIs(s.rows, items, 0, true);
  }

  /** A rewrite leaves the file's first copies and nothing else; a fetch leaves the copy fetched. */
  lemma RewriteRepairs(parse: Parse, s: State, r: nat, from: nat)
    requires r < |s.copies| && from < |s.copies|
    ensures Lines(Apply(parse, s, Rewrite(r)).copies[r]) == First(Lines(s.copies[r]))
    ensures Apply(parse, s, Fetch(r, from)).copies[r] == s.copies[from]
  {
    LinesOfDedup(s.copies[r]);
  }

  // ---- the ordinal an append starts at ---------------------------------------------------------

  predicate NoRepeats(items: seq<Item>) { forall i, j :: 0 <= i < j < |items| ==> items[i] != items[j] }

  lemma SlicedAtEnd(truth: seq<Item>, more: seq<Item>, at: nat)
    requires more != [] && NoRepeats(truth + more)
    ensures Sliced(Op(more, at, false), truth + more) <==> at == |truth|
  {
    var all := truth + more;
    if Sliced(Op(more, at, false), all) {
      assert all[at] == all[at..at + |more|][0] == more[0] == all[|truth|];
    }
  }

  lemma WrittenWhereFree(rows: Rows, op: Op, k: nat)
    requires k < |op.items| && op.at + k !in rows
    ensures var rows' := Inserted(rows, op.items, op.at, op.overwrite); op.at + k in rows' && rows'[op.at + k] == op.items[k]
  {
    assert Within(op.at + k, op.at, |op.items|);
  }

  predicate AgreesAt(op: Op, truth: seq<Item>, k: nat)
    requires k < |op.items|
  {
    op.at + k < |truth| && truth[op.at + k] == op.items[k]
  }

  lemma AgreesEverywhere(op: Op, truth: seq<Item>)
    requires op.items != [] && forall k :: 0 <= k < |op.items| ==> AgreesAt(op, truth, k)
    ensures Sliced(op, truth)
  {
    assert AgreesAt(op, truth, |op.items| - 1);
    forall k | 0 <= k < |op.items| ensures truth[op.at..op.at + |op.items|][k] == op.items[k] {
      assert AgreesAt(op, truth, k);
    }
  }

  lemma SoundOnlyIfSliced(rows: Rows, op: Op, truth: seq<Item>)
    requires op.items != [] && forall i :: op.at <= i < op.at + |op.items| ==> i !in rows
    requires Sound(Inserted(rows, op.items, op.at, op.overwrite), truth)
    ensures Sliced(op, truth)
  {
    forall k | 0 <= k < |op.items| ensures AgreesAt(op, truth, k) { WrittenWhereFree(rows, op, k); }
    AgreesEverywhere(op, truth);
  }

  /** An append of new entries to the leader's file, delivered where its ordinals are still free, leaves
      only true rows if and only if it starts at the number of first-copy entries in that file. */
  lemma OrdinalExactly(parse: Parse, s: State, step: Step, at: nat, rows: Rows)
    requires Inv(parse, s) && step.Ingest? && Enabled(parse, s, step) && Items(parse, step.lines) != []
    requires var truth := Truth(parse, Apply(parse, s, step)); NoRepeats(truth) && Sound(rows, truth)
    requires forall i :: at <= i < at + |Items(parse, step.lines)| ==> i !in rows
    ensures Sound(Inserted(rows, Items(parse, step.lines), at, false), Truth(parse, Apply(parse, s, step)))
            <==> at == |Held(parse, s.copies[step.r])|
  {
    var more := Items(parse, step.lines);
    var op, truth := Op(more, at, false), Truth(parse, s) + more;
    IngestTruth(parse, s, step);
    SlicedAtEnd(Truth(parse, s), more, at);
    if at == |Truth(parse, s)| {
      InsertIsSound(rows, op, |more|, truth);
      assert more[..|more|] == more;
    } else if Sound(Inserted(rows, more, at, false), truth) {
      SoundOnlyIfSliced(rows, op, truth);
    }
  }
}
