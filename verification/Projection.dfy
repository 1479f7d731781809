/** Projecting a runtime's native event log into a transcript (agent/runtime_projection.py,
    agent/qwen_transcript.py): lines, the stateful projector, and the batch driver. */
module Projection {
  import opened Basics

  type Event = string
  type Uuid = string

  const NEWLINE: Byte := 10

  datatype Entry = Entry(uuid: Uuid, parent: Option<Uuid>, body: string)

  /** A runtime and a session: `parse` strips, decodes and parses one line (None for a blank or
      malformed one); `render` is the per-event mapping, given the event's position in the log;
      `mk` is the deterministic entry uuid of a position. */
  datatype Runtime = Runtime(
    parse: Bytes -> Option<Event>,
    render: (int, Event) -> Option<string>,
    mk: int -> Uuid)

  /** A projector's state: the position of the last fed event and the uuid of the last entry. */
  datatype Proj = Proj(at: int, parent: Option<Uuid>)

  const START: Proj := Proj(-1, None)

  function Emitted(rt: Runtime, p: Proj, ev: Event): seq<Entry> {
    var body := rt.render(p.at + 1, ev);
    if body.None? then [] else [Entry(rt.mk(p.at + 1), p.parent, body.value)]
  }

  function Fed(rt: Runtime, p: Proj, ev: Event): Proj {
    var es := Emitted(rt, p, ev);
    Proj(p.at + 1, if es == [] then p.parent else Some(es[0].uuid))
  }

  function FedAll(rt: Runtime, p: Proj, evs: seq<Event>): Proj {
    if evs == [] then p else Fed(rt, FedAll(rt, p, evs[..|evs| - 1]), evs[|evs| - 1])
  }

  function EmittedAll(rt: Runtime, p: Proj, evs: seq<Event>): seq<Entry> {
    if evs == [] then []
    else
      var front := evs[..|evs| - 1];
      EmittedAll(rt, p, front) + Emitted(rt, FedAll(rt, p, front), evs[|evs| - 1])
  }

  /** The batch projection of a whole event log. */
  function ProjectLog(rt: Runtime, evs: seq<Event>): seq<Entry> { EmittedAll(rt, START, evs) }

  // ---- lines ------------------------------------------------------------------------

  /** The unterminated trailing fragment, and the complete lines before it. */
  function Rest(b: Bytes): Bytes {
    if b == [] || b[|b| - 1] == NEWLINE then [] else Rest(b[..|b| - 1]) + [b[|b| - 1]]
  }

  function Lines(b: Bytes): seq<Bytes> {
    if b == [] then []
    else if b[|b| - 1] == NEWLINE then Lines(b[..|b| - 1]) + [Rest(b[..|b| - 1])]
    else Lines(b[..|b| - 1])
  }

  function Events(rt: Runtime, lines: seq<Bytes>): seq<Event> {
    if lines == [] then []
    else
      var p := Events(rt, lines[..|lines| - 1]);
      var ev := rt.parse(lines[|lines| - 1]);
      if ev.None? then p else p + [ev.value]
  }

  function LogEvents(rt: Runtime, log: Bytes): seq<Event> { Events(rt, Lines(log)) }

  /** The transcript a batch run over all complete lines of the log would write. */
  function Batch(rt: Runtime, log: Bytes): seq<Entry> { ProjectLog(rt, LogEvents(rt, log)) }

  // ---- cutting the log anywhere changes nothing ---------------------------------------

  lemma {:induction false} RestAppend(a: Bytes, d: Bytes)
    ensures Rest(a + d) == Rest(Rest(a) + d)
    decreases |d|
  {
    if d == [] {
      assert a + d == a && Rest(a) + d == Rest(a);
      RestHasNoLine(a);
    } else {
      RestAppend(a, d[..|d| - 1]);
      DropLast(a, d);
      DropLast(Rest(a), d);
    }
  }

  lemma {:induction false} SplitAppend(a: Bytes, d: Bytes)
    ensures Lines(a + d) == Lines(a) + Lines(Rest(a) + d)
    decreases |d|
  {
    if d == [] {
      assert a + d == a && Rest(a) + d == Rest(a);
      RestHasNoLine(a);
    } else {
      SplitAppend(a, d[..|d| - 1]);
      RestAppend(a, d[..|d| - 1]);
      DropLast(a, d);
      DropLast(Rest(a), d);
    }
  }

  lemma {:induction false} RestHasNoLine(b: Bytes)
    ensures Lines(Rest(b)) == [] && Rest(Rest(b)) == Rest(b)
  {
    if b != [] && b[|b| - 1] != NEWLINE {
      var front := b[..|b| - 1];
      RestHasNoLine(front);
      assert Rest(b)[..|Rest(b)| - 1] == Rest(front);
    }
  }

  lemma {:induction false} NoNewline(b: Bytes)
    requires NEWLINE !in b
    ensures Rest(b) == b && Lines(b) == []
  {
    if b != [] { NoNewline(b[..|b| - 1]); }
  }

  /** What one turn of the split loop takes off the buffer. */
  lemma FirstLine(b: Bytes, i: nat)
    requires i < |b| && b[i] == NEWLINE && NEWLINE !in b[..i]
    ensures Lines(b) == [b[..i]] + Lines(b[i + 1..]) && Rest(b) == Rest(b[i + 1..])
  {
    LineThen(b[..i], b[i + 1..]);
    RejoinAt(b, i);
  }

  lemma RejoinAt(b: Bytes, i: nat)
    requires i < |b| && b[i] == NEWLINE
    ensures (b[..i] + [NEWLINE]) + b[i + 1..] == b
  {
  }

  lemma LineThen(x: Bytes, tail: Bytes)
    requires NEWLINE !in x
    ensures Lines((x + [NEWLINE]) + tail) == [x] + Lines(tail) && Rest((x + [NEWLINE]) + tail) == Rest(tail)
  {
    OneLine(x);
    RestAppend(x + [NEWLINE], tail);
    SplitAppend(x + [NEWLINE], tail);
    assert [] + tail == tail;
  }

  lemma OneLine(x: Bytes)
    requires NEWLINE !in x
    ensures Rest(x + [NEWLINE]) == [] && Lines(x + [NEWLINE]) == [x]
  {
    NoNewline(x);
    assert (x + [NEWLINE])[..|x|] == x;
  }

  /** The same against the whole split, with the lines already taken. */
  lemma TakeLine(all: seq<Bytes>, taken: seq<Bytes>, b: Bytes, i: nat)
    requires i < |b| && b[i] == NEWLINE && NEWLINE !in b[..i] && all == taken + Lines(b)
    ensures all == (taken + [b[..i]]) + Lines(b[i + 1..]) && Rest(b) == Rest(b[i + 1..])
  {
    FirstLine(b, i);
    Reassoc(taken, [b[..i]], Lines(b[i + 1..]));
  }

  lemma {:induction false} EventsAppend(rt: Runtime, a: seq<Bytes>, b: seq<Bytes>)
    ensures Events(rt, a + b) == Events(rt, a) + Events(rt, b)
  {
    if b == [] { assert a + b == a; }
    else {
      EventsAppend(rt, a, b[..|b| - 1]);
      assert (a + b)[..|a + b| - 1] == a + b[..|b| - 1];
    }
  }

  lemma EventsSnoc(rt: Runtime, lines: seq<Bytes>, line: Bytes)
    ensures Events(rt, lines + [line])
         == Events(rt, lines) + if rt.parse(line).None? then [] else [rt.parse(line).value]
  {
    assert (lines + [line])[..|lines|] == lines;
  }

  lemma FedSnoc(rt: Runtime, p: Proj, evs: seq<Event>, ev: Event)
    ensures FedAll(rt, p, evs + [ev]) == Fed(rt, FedAll(rt, p, evs), ev)
    ensures EmittedAll(rt, p, evs + [ev]) == EmittedAll(rt, p, evs) + Emitted(rt, FedAll(rt, p, evs), ev)
  {
    assert (evs + [ev])[..|evs|] == evs;
  }

  lemma {:induction false} FedAppend(rt: Runtime, p: Proj, a: seq<Event>, b: seq<Event>)
    ensures FedAll(rt, p, a + b) == FedAll(rt, FedAll(rt, p, a), b)
    ensures EmittedAll(rt, p, a + b) == EmittedAll(rt, p, a) + EmittedAll(rt, FedAll(rt, p, a), b)
    decreases |b|
  {
    if b == [] { assert a + b == a; }
    else {
      FedAppend(rt, p, a, b[..|b| - 1]);
      DropLast(a, b);
    }
  }

  /** Feeding the new bytes behind the held fragment continues the batch exactly. */
  lemma ContinuesBatch(rt: Runtime, log: Bytes, data: Bytes)
    ensures var p := FedAll(rt, START, LogEvents(rt, log));
      var evs := LogEvents(rt, Rest(log) + data);
      && Batch(rt, log + data) == Batch(rt, log) + EmittedAll(rt, p, evs)
      && FedAll(rt, START, LogEvents(rt, log + data)) == FedAll(rt, p, evs)
      && Rest(log + data) == Rest(Rest(log) + data)
  {
    RestAppend(log, data);
    SplitAppend(log, data);
    EventsAppend(rt, Lines(log), Lines(Rest(log) + data));
    FedAppend(rt, START, LogEvents(rt, log), LogEvents(rt, Rest(log) + data));
  }

  // ---- the parent chain -----------------------------------------------------------------

  ghost predicate Injective(rt: Runtime) { forall i, j :: i != j ==> rt.mk(i) != rt.mk(j) }

  /** Each entry names the one before it. */
  predicate Chained(es: seq<Entry>) { forall i :: 0 <= i < |es| ==> Linked(es, i) }

  predicate Linked(es: seq<Entry>, i: nat)
    requires i < |es|
  {
    es[i].parent == if i == 0 then None else Some(es[i - 1].uuid)
  }

  predicate EntryOf(rt: Runtime, evs: seq<Event>, i: nat, e: Entry) {
    i < |evs| && e.uuid == rt.mk(i) && rt.render(i, evs[i]) == Some(e.body)
  }

  predicate Increasing(pos: seq<nat>) { forall n, m :: 0 <= n < m < |pos| ==> pos[n] < pos[m] }

  /** Event i is among those rendered exactly when it renders. */
  predicate RightlyRendered(rt: Runtime, evs: seq<Event>, pos: seq<nat>, i: nat)
    requires i < |evs|
  {
    i in pos <==> rt.render(i, evs[i]).Some?
  }

  /** The events at `pos`, and no others, render: each to the entry of its own position. */
  ghost predicate RendersAt(rt: Runtime, evs: seq<Event>, es: seq<Entry>, pos: seq<nat>) {
    && |pos| == |es| && Increasing(pos)
    && (forall n :: 0 <= n < |pos| ==> EntryOf(rt, evs, pos[n], es[n]))
    && (forall i :: 0 <= i < |evs| ==> RightlyRendered(rt, evs, pos, i))
  }

  ghost predicate Renders(rt: Runtime, evs: seq<Event>, es: seq<Entry>) {
    exists pos :: RendersAt(rt, evs, es, pos)
  }

  /** The entries of these events, one chain, ending where the projector's parent points. */
  ghost predicate ChainAt(rt: Runtime, evs: seq<Event>, es: seq<Entry>, p: Proj) {
    && Chained(es) && Renders(rt, evs, es)
    && p == Proj(|evs| - 1, if es == [] then None else Some(es[|es| - 1].uuid))
  }

  lemma EntriesOutlive(rt: Runtime, evs: seq<Event>, ev: Event, es: seq<Entry>, pos: seq<nat>)
    requires RendersAt(rt, evs, es, pos)
    ensures forall n :: 0 <= n < |pos| ==> pos[n] < |evs| && EntryOf(rt, evs + [ev], pos[n], es[n])
  {
    forall n | 0 <= n < |pos| ensures pos[n] < |evs| && EntryOf(rt, evs + [ev], pos[n], es[n]) {
      assert EntryOf(rt, evs, pos[n], es[n]);
      assert (evs + [ev])[pos[n]] == evs[pos[n]];
    }
  }

  lemma RightlyOutlives(rt: Runtime, evs: seq<Event>, ev: Event, pos: seq<nat>, pos': seq<nat>)
    requires forall i :: 0 <= i < |evs| ==> RightlyRendered(rt, evs, pos, i)
    requires pos' == pos || pos' == pos + [|evs|]
    ensures forall i :: 0 <= i < |evs| ==> RightlyRendered(rt, evs + [ev], pos', i)
  {
    forall i | 0 <= i < |evs| ensures RightlyRendered(rt, evs + [ev], pos', i) {
      assert RightlyRendered(rt, evs, pos, i);
      assert (evs + [ev])[i] == evs[i] && (i in pos' <==> i in pos);
    }
  }

  lemma RendersSkip(rt: Runtime, evs: seq<Event>, ev: Event, es: seq<Entry>, pos: seq<nat>)
    requires RendersAt(rt, evs, es, pos) && rt.render(|evs|, ev).None?
    ensures RendersAt(rt, evs + [ev], es, pos)
  {
    EntriesOutlive(rt, evs, ev, es, pos);
    RightlyOutlives(rt, evs, ev, pos, pos);
    assert |evs| !in pos;
    assert RightlyRendered(rt, evs + [ev], pos, |evs|);
  }

  lemma RendersSnoc(rt: Runtime, evs: seq<Event>, ev: Event, es: seq<Entry>, e: Entry, pos: seq<nat>)
    requires RendersAt(rt, evs, es, pos) && e.uuid == rt.mk(|evs|) && rt.render(|evs|, ev) == Some(e.body)
    ensures RendersAt(rt, evs + [ev], es + [e], pos + [|evs|])
  {
    EntriesOutlive(rt, evs, ev, es, pos);
    RightlyOutlives(rt, evs, ev, pos, pos + [|evs|]);
    assert RightlyRendered(rt, evs + [ev], pos + [|evs|], |evs|);
    assert EntryOf(rt, evs + [ev], |evs|, e);
  }

  lemma FedIs(rt: Runtime, p: Proj, ev: Event, n: nat)
    requires p.at == n - 1
    ensures var body := rt.render(n, ev);
            if body.None? then Emitted(rt, p, ev) == [] && Fed(rt, p, ev) == Proj(n, p.parent)
            else Emitted(rt, p, ev) == [Entry(rt.mk(n), p.parent, body.value)] && Fed(rt, p, ev) == Proj(n, Some(rt.mk(n)))
  {
  }

  lemma ChainStep(rt: Runtime, evs: seq<Event>, es: seq<Entry>, p: Proj, ev: Event)
    requires ChainAt(rt, evs, es, p)
    ensures ChainAt(rt, evs + [ev], es + Emitted(rt, p, ev), Fed(rt, p, ev))
  {
    var pos: seq<nat> :| RendersAt(rt, evs, es, pos);
    FedIs(rt, p, ev, |evs|);
    var body := rt.render(|evs|, ev);
    if body.None? {
      RendersSkip(rt, evs, ev, es, pos);
      assert es + [] == es;
    } else {
      var e := Entry(rt.mk(|evs|), p.parent, body.value);
      RendersSnoc(rt, evs, ev, es, e, pos);
      ChainedSnoc(es, e);
    }
  }

  lemma ChainedSnoc(es: seq<Entry>, e: Entry)
    requires Chained(es) && e.parent == if es == [] then None else Some(es[|es| - 1].uuid)
    ensures Chained(es + [e])
  {
    forall i | 0 <= i < |es + [e]| ensures Linked(es + [e], i) {
      if i < |es| { assert Linked(es, i); }
    }
  }

  lemma {:induction false} ChainInv(rt: Runtime, evs: seq<Event>)
    ensures ChainAt(rt, evs, ProjectLog(rt, evs), FedAll(rt, START, evs))
  {
    if evs == [] {
      assert RendersAt(rt, [], [], []);
    } else {
      var front := evs[..|evs| - 1];
      ChainInv(rt, front);
      ChainStep(rt, front, ProjectLog(rt, front), FedAll(rt, START, front), evs[|evs| - 1]);
      Rejoin(evs);
    }
  }

  /** Every batch projection has exactly the entries of the events that render, in order, each with the
      uuid of its event's own position in the log, as one parentUuid chain with distinct uuids. */
  lemma ProjectionIsOneChain(rt: Runtime, evs: seq<Event>)
    ensures Renders(rt, evs, ProjectLog(rt, evs)) && Chained(ProjectLog(rt, evs))
    ensures Injective(rt) ==> forall i, j :: 0 <= i < j < |ProjectLog(rt, evs)| ==> ProjectLog(rt, evs)[i].uuid != ProjectLog(rt, evs)[j].uuid
  {
    ChainInv(rt, evs);
    var es := ProjectLog(rt, evs);
    var pos: seq<nat> :| RendersAt(rt, evs, es, pos);
    forall i, j | 0 <= i < j < |es| && Injective(rt) ensures es[i].uuid != es[j].uuid {
      assert EntryOf(rt, evs, pos[i], es[i]) && EntryOf(rt, evs, pos[j], es[j]) && pos[i] < pos[j];
    }
  }
}
