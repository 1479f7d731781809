/** The entry rows of the search index in Postgres (turma/index-store.js): statements bounded in
    parameters, batched inserts, the append that skips, the seat that overwrites, and the replace
    that overwrites before it trims. */
module IndexStore {
  import opened Basics

  type Id = string
  datatype Item = Item(uuid: Option<string>, role: Option<string>, ts: Option<string>, text: string)

  /** One transcript's rows by ordinal. */
  type Rows = map<nat, Item>

  const ENTRY_INSERT_MAX: nat := 1000
  const STATEMENT_PARAMS_MAX: nat := 6000

  // ---- one insert at consecutive ordinals --------------------------------------------------

  /** What inserting `items` at `at` leaves: an ordinal already there keeps its row unless the
      insert overwrites. */
  function Inserted(rows: Rows, items: seq<Item>, at: nat, overwrite: bool): Rows {
    map i: nat | i in rows.Keys + Ordinals(at, |items|) ::
      if i in rows && (!overwrite || i < at || i >= at + |items|) then rows[i] else items[i - at]
  }

  predicate Within(i: nat, at: nat, n: nat) { at <= i < at + n }

  function Ordinals(at: nat, n: nat): set<nat> { set i: nat | i < at + n && Within(i, at, n) }

  /** Batching: two inserts at consecutive ordinals are one. */
  lemma InsertsJoin(rows: Rows, a: seq<Item>, b: seq<Item>, at: nat, overwrite: bool)
    ensures Inserted(Inserted(rows, a, at, overwrite), b, at + |a|, overwrite) == Inserted(rows, a + b, at, overwrite)
  {
  }

  /** An insert that overwrites writes all of its rows, one that does not only those that were missing; no
      other row changes. */
  lemma InsertedIs(rows: Rows, items: seq<Item>, at: nat, overwrite: bool)
    ensures var r := Inserted(rows, items, at, overwrite);
            && (forall i: nat :: i in r <==> i in rows || at <= i < at + |items|)
            && (forall i: nat :: i in r ==> r[i] == if at <= i < at + |items| && (overwrite || i !in rows) then items[i - at] else rows[i])
  {
    forall i: nat ensures i in Ordinals(at, |items|) <==> at <= i < at + |items| { assert Within(i, at, |items|) <==> at <= i < at + |items|; }
  }

  lemma NextBatch(rows: Rows, items: seq<Item>, i: nat, end: nat, at: nat, overwrite: bool)
    requires i <= end <= |items|
    ensures Inserted(Inserted(rows, items[..i], at, overwrite), items[i..end], at + i, overwrite)
         == Inserted(rows, items[..end], at, overwrite)
  {
    InsertsJoin(rows, items[..i], items[i..end], at, overwrite);
    assert items[..i] + items[i..end] == items[..end];
  }

  lemma InsertNone(rows: Rows, at: nat, overwrite: bool)
    ensures Inserted(rows, [], at, overwrite) == rows
  {
  }

  // ---- statements --------------------------------------------------------------------------

  datatype Param = Null | Text(s: string) | Int(n: nat)

  function Opt(o: Option<string>): Param { if o.None? then Null else Text(o.value) }

  function Tuple(id: Id, seqno: nat, e: Item): (p: seq<Param>)
    ensures |p| == 6
  {
    [Text(id), Int(seqno), Opt(e.uuid), Opt(e.role), Opt(e.ts), Text(e.text)]
  }

  /** The bound parameters of one multi-row insert, six to a row. */
  function Params(id: Id, items: seq<Item>, at: nat): (p: seq<Param>)
    ensures |p| == 6 * |items|
  {
    if items == [] then []
    else Params(id, items[..|items| - 1], at) + Tuple(id, at + |items| - 1, items[|items| - 1])
  }

  method BuildEntryInsert(id: Id, items: seq<Item>, at: nat) returns (params: seq<Param>)
    ensures params == Params(id, items, at)
  {
    params := [];
    var next := at;
    for i := 0 to |items|
      invariant next == at + i && params == Params(id, items[..i], at)
    {
      var e := items[i];
      assert items[..i + 1][..i] == items[..i];
      params := params + [Text(id), Int(next), Opt(e.uuid), Opt(e.role), Opt(e.ts), Text(e.text)];
      next := next + 1;
    }
    assert items[..|items|] == items;
  }

  type Db = map<Id, Rows>

  function Get(db: Db, id: Id): Rows { if id in db then db[id] else map[] }

  /** `db'` differs from `db` at most in transcript `id`. */
  ghost predicate OnlyAt(db: Db, db': Db, id: Id) { forall j :: j != id ==> Get(db', j) == Get(db, j) }

  function UnOpt(p: Param): Option<string> { if p.Text? then Some(p.s) else None }

  /** What the server does with one row of the statement. */
  function RunTuple(db: Db, p: seq<Param>, overwrite: bool): Db
    requires |p| == 6
  {
    if p[0].Text? && p[1].Int? && p[5].Text? then
      var item := Item(UnOpt(p[2]), UnOpt(p[3]), UnOpt(p[4]), p[5].s);
      db[p[0].s := Inserted(Get(db, p[0].s), [item], p[1].n, overwrite)]
    else db
  }

  /** What the server does with the whole statement, row by row. */
  function RunInsert(db: Db, p: seq<Param>, overwrite: bool): Db
    requires |p| % 6 == 0
    decreases |p|
  {
    if p == [] then db
    else RunTuple(RunInsert(db, p[..|p| - 6], overwrite), p[|p| - 6..], overwrite)
  }

  /** From `db` to `db'`, exactly these items went into transcript `id`. */
  ghost predicate Puts(db: Db, db': Db, id: Id, items: seq<Item>, at: nat, overwrite: bool) {
    Get(db', id) == Inserted(Get(db, id), items, at, overwrite) && OnlyAt(db, db', id)
  }

  /** The statement built for a batch inserts that batch at its ordinals and touches nothing else. */
  lemma {:induction false} StatementInserts(db: Db, id: Id, items: seq<Item>, at: nat, overwrite: bool)
    ensures Puts(db, RunInsert(db, Params(id, items, at), overwrite), id, items, at, overwrite)
  {
    if items == [] {
      InsertNone(Get(db, id), at, overwrite);
    } else {
      StatementInserts(db, id, items[..|items| - 1], at, overwrite);
      LongerStatement(db, id, items[..|items| - 1], items[|items| - 1], at, overwrite);
      assert items[..|items| - 1] + [items[|items| - 1]] == items;
    }
  }

  lemma LongerStatement(db: Db, id: Id, front: seq<Item>, last: Item, at: nat, overwrite: bool)
    requires Puts(db, RunInsert(db, Params(id, front, at), overwrite), id, front, at, overwrite)
    ensures Puts(db, RunInsert(db, Params(id, front + [last], at), overwrite), id, front + [last], at, overwrite)
  {
    var p, q := Params(id, front, at), Tuple(id, at + |front|, last);
    assert (front + [last])[..|front|] == front;
    assert Params(id, front + [last], at) == p + q;
    LastTuple(db, p, q, overwrite);
    StepPuts(db, RunInsert(db, p, overwrite), id, front, last, at, overwrite);
  }

  lemma StepPuts(db: Db, mid: Db, id: Id, front: seq<Item>, last: Item, at: nat, overwrite: bool)
    requires Puts(db, mid, id, front, at, overwrite)
    ensures Puts(db, RunTuple(mid, Tuple(id, at + |front|, last), overwrite), id, front + [last], at, overwrite)
  {
    var q := Tuple(id, at + |front|, last);
    assert RunTuple(mid, q, overwrite) == mid[id := Inserted(Get(mid, id), [last], at + |front|, overwrite)] by {
      TupleInserts(mid, id, at + |front|, last, overwrite);
    }
    OneMoreRow(db, mid, id, front, last, at, overwrite);
  }

  lemma OneMoreRow(db: Db, mid: Db, id: Id, front: seq<Item>, last: Item, at: nat, overwrite: bool)
    requires Puts(db, mid, id, front, at, overwrite)
    ensures Puts(db, mid[id := Inserted(Get(mid, id), [last], at + |front|, overwrite)], id, front + [last], at, overwrite)
  {
    InsertsJoin(Get(db, id), front, [last], at, overwrite);
  }

  lemma LastTuple(db: Db, p: seq<Param>, q: seq<Param>, overwrite: bool)
    requires |p| % 6 == 0 && |q| == 6
    ensures |p + q| % 6 == 0 && RunInsert(db, p + q, overwrite) == RunTuple(RunInsert(db, p, overwrite), q, overwrite)
  {
    assert (p + q)[..|p + q| - 6] == p && (p + q)[|p + q| - 6..] == q;
  }

  lemma TupleInserts(db: Db, id: Id, seqno: nat, e: Item, overwrite: bool)
    ensures RunTuple(db, Tuple(id, seqno, e), overwrite) == db[id := Inserted(Get(db, id), [e], seqno, overwrite)]
  {
  }

  // ---- the store ---------------------------------------------------------------------------

  /** What becomes of the next statement: it runs; the leadership check says stop; it throws before
      the server applied it, or after. */
  datatype Fate = Runs | Stops | ThrowsBefore | ThrowsAfter
  datatype Outcome = Done | Stopped | Failed

  /** Exactly the new list. */
  function Listed(items: seq<Item>): Rows { map i: nat | i < |items| :: items[i] }

  function Trimmed(rows: Rows, n: nat): Rows { map i | i in rows && i < n :: rows[i] }

  lemma OverwriteThenTrim(rows: Rows, items: seq<Item>)
    ensures Trimmed(Inserted(rows, items, 0, true), |items|) == Listed(items)
  {
  }

  class PgIndexStore {
    var entries: Db

    constructor ()
      ensures entries == map[]
    {
      entries := map[];
    }

    function RowsOf(id: Id): Rows reads this { Get(entries, id) }

    /** One bound statement; the wire refuses more parameters than this. */
    method Execute(params: seq<Param>, overwrite: bool)
      requires |params| % 6 == 0 && |params| <= STATEMENT_PARAMS_MAX
      modifies this
      ensures entries == RunInsert(old(entries), params, overwrite)
    {
      entries := RunInsert(entries, params, overwrite);
    }

    /** One batch of at most a thousand rows. */
    method InsertBatch(id: Id, slice: seq<Item>, at: nat, overwrite: bool)
      requires |slice| <= ENTRY_INSERT_MAX
      modifies this
      ensures RowsOf(id) == Inserted(old(RowsOf(id)), slice, at, overwrite) && OnlyAt(old(entries), entries, id)
    {
      var params := BuildEntryInsert(id, slice, at);
      StatementInserts(entries, id, slice, at, overwrite);
      Execute(params, overwrite);
    }

    /** The sub-batches. Wherever it ends, some prefix of the list is in, exactly as one insert of
        that prefix would put it; all of it when it is done. */
    method InsertEntriesBatched(id: Id, items: seq<Item>, at: nat, overwrite: bool, checked: bool, fate: nat -> Fate)
      returns (out: Outcome, used: nat, written: nat)
      modifies this
      ensures written <= |items| && (out.Done? ==> written == |items|)
      ensures RowsOf(id) == Inserted(old(RowsOf(id)), items[..written], at, overwrite)
      ensures OnlyAt(old(entries), entries, id)
      ensures !checked ==> !out.Stopped?
    {
      used, written := 0, 0;
      var i: nat := 0;
      InsertNone(RowsOf(id), at, overwrite);
      while i < |items|
        invariant written == if i < |items| then i else |items|
        invariant RowsOf(id) == Inserted(old(RowsOf(id)), items[..written], at, overwrite)
        invariant OnlyAt(old(entries), entries, id)
        decreases |items| - i
      {
        if checked && fate(used).Stops? { return Stopped, used, written; }
        if fate(used).ThrowsBefore? { return Failed, used, written; }
        var end := if i + ENTRY_INSERT_MAX < |items| then i + ENTRY_INSERT_MAX else |items|;
        var slice := items[i..end];
        NextBatch(old(RowsOf(id)), items, i, end, at, overwrite);
        InsertBatch(id, slice, at + i, overwrite);
        written := end;
        if fate(used).ThrowsAfter? { return Failed, used, written; }
        used := used + 1;
        i := i + ENTRY_INSERT_MAX;
      }
      return Done, used, written;
    }

    /** The ingest's append: ordinals already present are left as they are. */
    method AppendEntries(id: Id, items: seq<Item>, at: nat, fate: nat -> Fate) returns (out: Outcome, written: nat)
      modifies this
      ensures written <= |items| && (out.Done? ==> written == |items|)
      ensures RowsOf(id) == Inserted(old(RowsOf(id)), items[..written], at, false)
      ensures forall i :: i in old(RowsOf(id)) ==> i in RowsOf(id) && RowsOf(id)[i] == old(RowsOf(id))[i]
      ensures forall i :: i in RowsOf(id) && i !in old(RowsOf(id)) ==> at <= i < at + written && RowsOf(id)[i] == items[i - at]
      ensures forall i :: at <= i < at + written ==> i in RowsOf(id)
      ensures OnlyAt(old(entries), entries, id)
    {
      var used;
      InsertNone(RowsOf(id), at, false);
      if items == [] { return Done, 0; }
      out, used, written := InsertEntriesBatched(id, items, at, false, false, fate);
      InsertedIs(old(RowsOf(id)), items[..written], at, false);
    }

    /** The re-seat: overwrites the first ordinals, never trims. */
    method SeatEntries(id: Id, items: seq<Item>, fate: nat -> Fate) returns (out: Outcome, written: nat)
      modifies this
      ensures written <= |items| && (out.Done? ==> written == |items|)
      ensures RowsOf(id) == Inserted(old(RowsOf(id)), items[..written], 0, true)
      ensures forall i :: 0 <= i < written ==> i in RowsOf(id) && RowsOf(id)[i] == items[i]
      ensures forall i :: i >= written ==> (i in RowsOf(id) <==> i in old(RowsOf(id)))
      ensures forall i :: i >= written && i in RowsOf(id) ==> RowsOf(id)[i] == old(RowsOf(id))[i]
      ensures OnlyAt(old(entries), entries, id)
    {
      var used;
      InsertNone(RowsOf(id), 0, true);
      if items == [] { return Done, 0; }
      out, used, written := InsertEntriesBatched(id, items, 0, true, false, fate);
      InsertedIs(old(RowsOf(id)), items[..written], 0, true);
    }

    /** The replace. Done means exactly the new list. Otherwise no ordinal that was there is missing,
        unless the trim itself was applied and only its answer was lost: then it is the new list. */
    method ReplaceEntries(id: Id, items: seq<Item>, checked: bool, fate: nat -> Fate) returns (out: Outcome)
      modifies this
      ensures OnlyAt(old(entries), entries, id)
      ensures out.Done? ==> RowsOf(id) == Listed(items)
      ensures !out.Done? ==> old(RowsOf(id)).Keys <= RowsOf(id).Keys || (out.Failed? && RowsOf(id) == Listed(items))
      ensures out.Stopped? ==> old(RowsOf(id)).Keys <= RowsOf(id).Keys
      ensures forall i :: i in RowsOf(id) ==> (
        (i < |items| && RowsOf(id)[i] == items[i]) || (i in old(RowsOf(id)) && RowsOf(id)[i] == old(RowsOf(id))[i]))
      ensures !checked ==> !out.Stopped?
    {
      var used, written := 0, 0;
      InsertNone(RowsOf(id), 0, true);
      if items != [] {
        out, used, written := InsertEntriesBatched(id, items, 0, true, checked, fate);
        if !out.Done? { return; }
      }
      assert items[..written] == items;
      if checked && fate(used).Stops? { return Stopped; }
      if fate(used).ThrowsBefore? { return Failed; }
      OverwriteThenTrim(old(RowsOf(id)), items);
      entries := entries[id := Trimmed(RowsOf(id), |items|)];
      if fate(used).ThrowsAfter? { return Failed; }
      return Done;
    }
  }

  // ---- the session row ---------------------------------------------------------------------

  datatype Column = MsgCount | BytesStored | ArchiveBytes | RawBytes

  /** The four high-water columns, and the rest as one value. */
  datatype Session = Session(high: Column -> nat, rest: string)

  function Greatest(a: nat, b: nat): nat { if a >= b then a else b }

  /** INSERT, or ON CONFLICT raise the high-water columns and overwrite the rest. */
  function Upsert(row: Option<Session>, excluded: Session): Session {
    match row
    case None => excluded
    case Some(s) => Session(c => Greatest(s.high(c), excluded.high(c)), excluded.rest)
  }

  function Upserts(row: Option<Session>, writes: seq<Session>): Option<Session> {
    if writes == [] then row else Some(Upsert(Upserts(row, writes[..|writes| - 1]), writes[|writes| - 1]))
  }

  /** Over any run of mirrored writes, in whatever order replicas deliver them, a high-water column
      never falls below a value written, */
  lemma {:induction false} NeverBelowAnyWrite(row: Option<Session>, writes: seq<Session>, c: Column, i: nat)
    requires i < |writes|
    ensures Upserts(row, writes).Some? && Upserts(row, writes).value.high(c) >= writes[i].high(c)
  {
    if i < |writes| - 1 { NeverBelowAnyWrite(row, writes[..|writes| - 1], c, i); }
  }

  /** never falls below the row it started from, */
  lemma {:induction false} NeverLowered(row: Option<Session>, writes: seq<Session>, c: Column)
    requires row.Some?
    ensures Upserts(row, writes).Some? && Upserts(row, writes).value.high(c) >= row.value.high(c)
  {
    if writes != [] { NeverLowered(row, writes[..|writes| - 1], c); }
  }

  /** and is never a value nobody wrote; the rest of the row is the last write's. */
  lemma {:induction false} HighWaterWasWritten(row: Option<Session>, writes: seq<Session>, c: Column) returns (i: nat)
    requires writes != []
    ensures var r := Upserts(row, writes);
            r.Some? && r.value.rest == writes[|writes| - 1].rest
            && (if i < |writes| then r.value.high(c) == writes[i].high(c) else row.Some? && r.value.high(c) == row.value.high(c))
  {
    var front, last := writes[..|writes| - 1], |writes| - 1;
    if front == [] {
      i := if row.Some? && row.value.high(c) > writes[last].high(c) then |writes| else last;
    } else {
      var k := HighWaterWasWritten(row, front, c);
      var h := Upserts(row, front).value.high(c);
      i := if h < writes[last].high(c) then last else if k < |front| then k else |writes|;
    }
  }
}
