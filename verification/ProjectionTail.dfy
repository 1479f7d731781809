/** The incremental tails (agent/qwen_session.py, agent/runtime_tail.py): byte cursors that must
    agree with the batch projection however the log is cut into reads, wherever they restart, and
    across a rewrite of the log that they can notice. */
module ProjectionTail {
  import opened Basics
  import opened Projection

  /** One tail over one log and one transcript. `offset` is None until the first pump primes it. */
  datatype Tail = Tail(offset: Option<nat>, partial: Bytes, proj: Proj, transcript: seq<Entry>)

  /** What one read of the log showed at the three moments a pump looks at it. The log only grows
      within a pump. `rebuilt` and `read` say whether those reads (and the rebuild's write) worked. */
  datatype Look = Look(stat: Bytes, mid: Bytes, end: Bytes, rebuilt: bool, read: bool)

  predicate LookOk(l: Look) { l.stat <= l.mid <= l.end }

  /** A tail that has read exactly `seen`: its state and transcript are the batch's. */
  function TailAt(rt: Runtime, seen: Bytes): Tail {
    Tail(Some(|seen|), Rest(seen), FedAll(rt, START, LogEvents(rt, seen)), Batch(rt, seen))
  }

  /** Read from the cursor to the end of `log` and append what the complete lines project to. */
  function ReadOn(rt: Runtime, t: Tail, log: Bytes): Tail
    requires t.offset.Some? && t.offset.value <= |log|
  {
    var data := log[t.offset.value..];
    var evs := LogEvents(rt, t.partial + data);
    Tail(Some(|log|), Rest(t.partial + data), FedAll(rt, t.proj, evs), t.transcript + EmittedAll(rt, t.proj, evs))
  }

  /** The pump throws the whole log at a fresh projector: a resume's first sight, or a log shorter than
      the cursor. */
  predicate Rebuilds(t: Tail, resume: bool, stat: Bytes) {
    if t.offset.None? then resume else |stat| < t.offset.value
  }

  /** _pump_parent up to its read. None: the rebuild failed and the pump stopped. */
  function Primed(rt: Runtime, t: Tail, resume: bool, l: Look): Option<Tail> {
    if Rebuilds(t, resume, l.stat) then (if l.rebuilt then Some(TailAt(rt, l.mid)) else None)
    else if t.offset.None? then Some(t.(offset := Some(0)))
    else Some(t)
  }

  function Pumped(rt: Runtime, t: Tail, resume: bool, l: Look): Tail
    requires LookOk(l)
  {
    var p := Primed(rt, t, resume, l);
    if p.None? then t
    else if !l.read then p.value
    else ReadOn(rt, p.value, l.end)
  }

  lemma CutTail<T>(a: seq<T>, b: seq<T>)
    ensures (a + b)[|a|..] == b
  {
  }

  /** Reading on from a prefix is the batch over the whole. */
  lemma ReadOnFrom(rt: Runtime, seen: Bytes, data: Bytes)
    ensures ReadOn(rt, TailAt(rt, seen), seen + data) == TailAt(rt, seen + data)
  {
    CutTail(seen, data);
    ContinuesBatch(rt, seen, data);
  }

  lemma ReadOnTo(rt: Runtime, seen: Bytes, end: Bytes)
    requires seen <= end
    ensures ReadOn(rt, TailAt(rt, seen), end) == TailAt(rt, end)
  {
    ReadOnFrom(rt, seen, end[|seen|..]);
    assert seen + end[|seen|..] == end;
  }

  lemma EmptyTail(rt: Runtime)
    ensures TailAt(rt, []) == Tail(Some(0), [], START, [])
  {
  }

  /** A tail not yet primed, or one that has read exactly `seen`, of a log that still begins with it or
      is now shorter. */
  predicate TailOk(rt: Runtime, t: Tail, resume: bool, seen: Bytes, log: Bytes) {
    if t.offset.None? then t.partial == [] && t.proj == START && (!resume ==> t.transcript == [])
    else t == TailAt(rt, seen) && Honest(seen, log)
  }

  /** The log is shorter than what was read of it, or begins with that. */
  predicate Honest(seen: Bytes, log: Bytes) { |log| < |seen| || seen <= log }

  /** What the tail has read once the pump is over. */
  function SeenAfter(t: Tail, resume: bool, seen: Bytes, l: Look): Bytes {
    if Rebuilds(t, resume, l.stat) && !l.rebuilt then seen
    else if l.read then l.end
    else if Rebuilds(t, resume, l.stat) then l.mid
    else if t.offset.None? then []
    else seen
  }

  /** Every pump leaves a tail that agrees with the batch over what it has read; one whose reads and
      writes worked has read all of the log. */
  lemma PumpKeepsStep(rt: Runtime, t: Tail, resume: bool, seen: Bytes, l: Look)
    requires LookOk(l) && TailOk(rt, t, resume, seen, l.stat)
    ensures var seen' := SeenAfter(t, resume, seen, l);
            (Primed(rt, t, resume, l).Some? ==> Pumped(rt, t, resume, l) == TailAt(rt, seen') && seen' <= l.end)
            && (l.rebuilt && l.read ==> seen' == l.end && Primed(rt, t, resume, l).Some?)
  {
    EmptyTail(rt);
    if Primed(rt, t, resume, l).Some? {
      var from := if Rebuilds(t, resume, l.stat) then l.mid else if t.offset.None? then [] else seen;
      assert Primed(rt, t, resume, l).value == TailAt(rt, from) && from <= l.end;
      ReadOnTo(rt, from, l.end);
    }
  }

  // ---- whole lives of a session -----------------------------------------------------------

  /** `seen` is what the tail has read, once primed. */
  datatype World = World(log: Bytes, tail: Tail, resume: bool, seen: Bytes)

  /** Grow: the runtime appends. Rewrite: the log is replaced. Pump: one poll, with the log growing by
      `a` and then `b` under it. Restart: the tail dies anywhere and a resuming one takes over the same
      transcript. */
  datatype Step =
    | Grow(data: Bytes)
    | Rewrite(log: Bytes)
    | Pump(a: Bytes, b: Bytes, rebuilt: bool, read: bool)
    | Restart

  function Next(rt: Runtime, w: World, st: Step): World {
    match st
    case Grow(data) => w.(log := w.log + data)
    case Rewrite(log) => w.(log := log)
    case Pump(a, b, rebuilt, read) =>
      var l := Look(w.log, w.log + a, w.log + a + b, rebuilt, read);
      World(l.end, Pumped(rt, w.tail, w.resume, l), w.resume, SeenAfter(w.tail, w.resume, w.seen, l))
    case Restart => World(w.log, Tail(None, [], START, w.tail.transcript), true, w.seen)
  }

  /** The one thing a tail cannot notice: a log rewritten and grown back to its cursor or past it with
      other bytes before it. No step ends in one. */
  predicate Allowed(rt: Runtime, w: World, st: Step) {
    var w' := Next(rt, w, st);
    w'.tail.offset.Some? ==> Honest(w'.seen, w'.log)
  }

  predicate Legal(rt: Runtime, w: World, run: seq<Step>)
    decreases |run|
  {
    run != [] ==> Allowed(rt, w, run[0]) && Legal(rt, Next(rt, w, run[0]), run[1..])
  }

  function Exec(rt: Runtime, w: World, run: seq<Step>): World
    decreases |run|
  {
    if run == [] then w else Exec(rt, Next(rt, w, run[0]), run[1..])
  }

  predicate WorldOk(rt: Runtime, w: World) { TailOk(rt, w.tail, w.resume, w.seen, w.log) }

  lemma StepKeepsTail(rt: Runtime, w: World, st: Step)
    requires Allowed(rt, w, st) && WorldOk(rt, w)
    ensures WorldOk(rt, Next(rt, w, st))
  {
    if st.Pump? {
      PumpKeepsStep(rt, w.tail, w.resume, w.seen, Look(w.log, w.log + st.a, w.log + st.a + st.b, st.rebuilt, st.read));
    }
  }

  lemma {:induction false} RunKeepsTail(rt: Runtime, w: World, run: seq<Step>)
    requires WorldOk(rt, w) && Legal(rt, w, run)
    ensures WorldOk(rt, Exec(rt, w, run))
    decreases |run|
  {
    if run != [] {
      StepKeepsTail(rt, w, run[0]);
      RunKeepsTail(rt, Next(rt, w, run[0]), run[1..]);
    }
  }

  function Launched(log: Bytes): World { World(log, Tail(None, [], START, []), false, []) }

  /** However the log was cut, noticeably rewritten and resumed before it, a pump that works leaves the
      transcript equal to the batch projection of every complete line, as one parentUuid chain. */
  lemma TailEqualsBatch(rt: Runtime, log: Bytes, run: seq<Step>, a: Bytes, b: Bytes)
    requires Injective(rt) && Legal(rt, Launched(log), run)
    ensures var w := Exec(rt, Launched(log), run);
      var w' := Next(rt, w, Pump(a, b, true, true));
      w'.log == w.log + a + b && w'.tail.transcript == Batch(rt, w'.log) && Chained(w'.tail.transcript)
      && Renders(rt, LogEvents(rt, w'.log), w'.tail.transcript)
  {
    RunKeepsTail(rt, Launched(log), run);
    var w := Exec(rt, Launched(log), run);
    var l := Look(w.log, w.log + a, w.log + a + b, true, true);
    PumpKeepsStep(rt, w.tail, w.resume, w.seen, l);
    ProjectionIsOneChain(rt, LogEvents(rt, l.end));
  }

  // ---- the child cursor -------------------------------------------------------------------------

  /** ChildProjection.pump: a log shorter than the cursor starts the child over; an equal one is
      left unread. */
  function ChildPumped(rt: Runtime, t: Tail, l: Look): Tail
    requires LookOk(l) && t.offset.Some?
  {
    if |l.stat| == t.offset.value then t
    else
      var p := if |l.stat| < t.offset.value then Tail(Some(0), [], START, []) else t;
      if l.read then ReadOn(rt, p, l.end) else p
  }

  function ChildSeen(seen: Bytes, l: Look): Bytes {
    if |l.stat| == |seen| then seen else if l.read then l.end else if |l.stat| < |seen| then [] else seen
  }

  /** The child cursor agrees with the batch over what it has read after every pump, its shrink reset
      included; it has read everything the pump saw if it read, or had nothing to read. */
  lemma ChildPumpKeepsStep(rt: Runtime, seen: Bytes, l: Look)
    requires LookOk(l) && Honest(seen, l.stat)
    ensures ChildPumped(rt, TailAt(rt, seen), l) == TailAt(rt, ChildSeen(seen, l)) && ChildSeen(seen, l) <= l.end
    ensures |l.stat| == |seen| ==> ChildSeen(seen, l) == l.stat
  {
    EmptyTail(rt);
    if |l.stat| != |seen| {
      var from := if |l.stat| < |seen| then [] else seen;
      ReadOnTo(rt, from, l.end);
    }
  }

  /** A child's life: its cursor and what it has read, once the tail has seen it. A tail that restarts
      has seen no child; its first pump of one starts the child transcript over. */
  datatype Child = Child(log: Bytes, tail: Option<Tail>, seen: Bytes)

  datatype ChildStep =
    | ChildGrow(data: Bytes)
    | ChildRewrite(log: Bytes)
    | ChildPump(a: Bytes, b: Bytes, read: bool)
    | ChildRestart

  predicate Sighted(c: Child) { c.tail.Some? ==> c.tail.value.offset.Some? }

  function ChildNext(rt: Runtime, c: Child, st: ChildStep): (r: Child)
    requires Sighted(c)
    ensures Sighted(r)
  {
    match st
    case ChildGrow(data) => c.(log := c.log + data)
    case ChildRewrite(log) => c.(log := log)
    case ChildRestart => c.(tail := None)
    case ChildPump(a, b, read) =>
      var l := ChildLook(c, a, b, read);
      var t := if c.tail.None? then Tail(Some(0), [], START, []) else c.tail.value;
      Child(l.end, Some(ChildPumped(rt, t, l)), ChildSeen(ChildStart(c), l))
  }

  /** As for the parent: no step ends with a log regrown to the cursor over other bytes. */
  predicate ChildLegal(rt: Runtime, c: Child, run: seq<ChildStep>)
    requires Sighted(c)
    decreases |run|
  {
    run != [] ==>
      var c' := ChildNext(rt, c, run[0]);
      (c'.tail.Some? ==> Honest(c'.seen, c'.log)) && ChildLegal(rt, c', run[1..])
  }

  function ChildExec(rt: Runtime, c: Child, run: seq<ChildStep>): (r: Child)
    requires Sighted(c)
    ensures Sighted(r)
    decreases |run|
  {
    if run == [] then c else ChildExec(rt, ChildNext(rt, c, run[0]), run[1..])
  }

  predicate ChildOk(rt: Runtime, c: Child) {
    c.tail.Some? ==> c.tail.value == TailAt(rt, c.seen) && Honest(c.seen, c.log)
  }

  function ChildLook(c: Child, a: Bytes, b: Bytes, read: bool): (l: Look)
    ensures LookOk(l)
  {
    Look(c.log, c.log + a, c.log + a + b, true, read)
  }

  function ChildStart(c: Child): Bytes { if c.tail.None? then [] else c.seen }

  lemma ChildPumpKeepsOk(rt: Runtime, c: Child, a: Bytes, b: Bytes, read: bool)
    requires ChildOk(rt, c)
    ensures ChildNext(rt, c, ChildPump(a, b, read)).tail == Some(TailAt(rt, ChildSeen(ChildStart(c), ChildLook(c, a, b, read))))
  {
    EmptyTail(rt);
    ChildPumpKeepsStep(rt, ChildStart(c), ChildLook(c, a, b, read));
  }

  lemma {:induction false} RunKeepsChild(rt: Runtime, c: Child, run: seq<ChildStep>)
    requires ChildOk(rt, c) && ChildLegal(rt, c, run)
    ensures ChildOk(rt, ChildExec(rt, c, run))
    decreases |run|
  {
    if run != [] {
      if run[0].ChildPump? { ChildPumpKeepsOk(rt, c, run[0].a, run[0].b, run[0].read); }
      RunKeepsChild(rt, ChildNext(rt, c, run[0]), run[1..]);
    }
  }

  /** Over every life of a child, its log growing, shrinking and rewritten noticeably, the tail dying and
      seeing it afresh: a pump that reads leaves the batch over the log, and one that finds nothing new
      has it already; one chain either way. */
  lemma ChildEqualsBatch(rt: Runtime, log: Bytes, run: seq<ChildStep>, a: Bytes, b: Bytes)
    requires Injective(rt) && ChildLegal(rt, Child(log, None, []), run)
    ensures var c := ChildExec(rt, Child(log, None, []), run);
      var c' := ChildNext(rt, c, ChildPump(a, b, true));
      c'.tail.Some? && c'.log == c.log + a + b && Chained(c'.tail.value.transcript)
      && (c'.tail.value.transcript == Batch(rt, c'.log) || c'.tail.value.transcript == Batch(rt, c.log))
      && (a == [] && b == [] ==> c'.tail.value.transcript == Batch(rt, c'.log))
  {
    RunKeepsChild(rt, Child(log, None, []), run);
    ChildReadsAll(rt, ChildExec(rt, Child(log, None, []), run), a, b);
  }

  lemma ChildReadsAll(rt: Runtime, c: Child, a: Bytes, b: Bytes)
    requires Injective(rt) && ChildOk(rt, c)
    ensures var c' := ChildNext(rt, c, ChildPump(a, b, true));
      c'.tail.Some? && c'.log == c.log + a + b && Chained(c'.tail.value.transcript)
      && (c'.tail.value.transcript == Batch(rt, c'.log) || c'.tail.value.transcript == Batch(rt, c.log))
      && (a == [] && b == [] ==> c'.tail.value.transcript == Batch(rt, c'.log))
  {
    var l := ChildLook(c, a, b, true);
    var seen := ChildSeen(ChildStart(c), l);
    ChildPumpKeepsOk(rt, c, a, b, true);
    ChildPumpKeepsStep(rt, ChildStart(c), l);
    IdleLook(c);
    assert seen == l.end || seen == c.log;
    ProjectionIsOneChain(rt, LogEvents(rt, seen));
  }

  lemma IdleLook(c: Child)
    ensures ChildLook(c, [], [], true).end == c.log
  {
  }

  // ---- a rewrite no tail can notice -----------------------------------------------------------------

  function Chars(b: Bytes): string { seq(|b|, i requires 0 <= i < |b| => b[i] as char) }

  function Unary(n: int): string {
    if n >= 0 then ['+'] + seq(n, _ => 'x') else ['-'] + seq(-n, _ => 'x')
  }

  /** A runtime that shows every line as it is, its uuids all different. */
  function Verbatim(): Runtime {
    Runtime((b: Bytes) => Some(Chars(b)), (n: int, e: Event) => Some(e), (n: int) => Unary(n))
  }

  lemma VerbatimIsInjective()
    ensures Injective(Verbatim())
  {
    forall i: int, j: int | i != j ensures Unary(i) != Unary(j) {
      assert |Unary(i)| == 1 + (if i >= 0 then i else -i) && Unary(i)[0] == (if i >= 0 then '+' else '-');
      assert |Unary(j)| == 1 + (if j >= 0 then j else -j) && Unary(j)[0] == (if j >= 0 then '+' else '-');
    }
  }

  lemma CharsAreTold(a: Bytes, b: Bytes)
    requires Chars(a) == Chars(b)
    ensures a == b
  {
    assert |a| == |Chars(a)| && |b| == |Chars(b)|;
    forall i | 0 <= i < |a| ensures a[i] == b[i] { assert Chars(a)[i] == Chars(b)[i]; }
  }

  /** Its transcript tells the complete lines of the log. */
  lemma {:induction false} VerbatimEvents(lines: seq<Bytes>)
    ensures |Events(Verbatim(), lines)| == |lines|
    ensures forall i :: 0 <= i < |lines| ==> Events(Verbatim(), lines)[i] == Chars(lines[i])
  {
    if lines != [] { VerbatimEvents(lines[..|lines| - 1]); }
  }

  lemma {:induction false} VerbatimEntries(evs: seq<Event>)
    ensures |ProjectLog(Verbatim(), evs)| == |evs|
    ensures forall i :: 0 <= i < |evs| ==> ProjectLog(Verbatim(), evs)[i].body == evs[i]
  {
    if evs != [] { VerbatimEntries(evs[..|evs| - 1]); }
  }

  lemma VerbatimTellsLines(x: Bytes, y: Bytes)
    requires Batch(Verbatim(), x) == Batch(Verbatim(), y)
    ensures Lines(x) == Lines(y)
  {
    VerbatimEvents(Lines(x));
    VerbatimEvents(Lines(y));
    VerbatimEntries(LogEvents(Verbatim(), x));
    VerbatimEntries(LogEvents(Verbatim(), y));
    var n := |Batch(Verbatim(), x)|;
    assert |Lines(x)| == n == |Lines(y)|;
    forall i | 0 <= i < n ensures Lines(x)[i] == Lines(y)[i] {
      assert Batch(Verbatim(), x)[i].body == Batch(Verbatim(), y)[i].body;
      CharsAreTold(Lines(x)[i], Lines(y)[i]);
    }
  }

  function Unlines(lines: seq<Bytes>): Bytes {
    if lines == [] then [] else Unlines(lines[..|lines| - 1]) + lines[|lines| - 1] + [NEWLINE]
  }

  lemma {:induction false} UnlinesLines(b: Bytes)
    ensures Unlines(Lines(b)) + Rest(b) == b
  {
    if b != [] {
      var front := b[..|b| - 1];
      UnlinesLines(front);
      Rejoin(b);
      if b[|b| - 1] == NEWLINE {
        assert Lines(b)[..|Lines(b)| - 1] == Lines(front);
      }
    }
  }

  lemma ClosedLogIsTold(x: Bytes, y: Bytes)
    requires Lines(x + [NEWLINE]) == Lines(y + [NEWLINE])
    ensures x == y
  {
    var a, b := x + [NEWLINE], y + [NEWLINE];
    UnlinesLines(a);
    UnlinesLines(b);
    assert Rest(a) == [] && Rest(b) == [];
    assert a == b;
    assert x == a[..|a| - 1] && y == b[..|b| - 1];
  }

  /** A tail that has read `seen` and next finds a log at least as long: its transcript is the batch for
      every runtime and however the log grows on, exactly when the log still begins with `seen`. */
  lemma RewriteExactly(seen: Bytes, log: Bytes)
    requires |seen| <= |log|
    ensures (forall rt: Runtime, data: Bytes :: Injective(rt) ==>
               ReadOn(rt, TailAt(rt, seen), log + data).transcript == Batch(rt, log + data))
       <==> seen <= log
  {
    if seen <= log {
      forall rt: Runtime, data: Bytes
        ensures ReadOn(rt, TailAt(rt, seen), log + data).transcript == Batch(rt, log + data)
      {
        assert seen <= log + data;
        ReadOnTo(rt, seen, log + data);
      }
    } else {
      RewriteGoesUnnoticed(seen, log);
    }
  }

  /** The transcript then mixes two logs: the old lines, and whatever the new ones hold past the cursor. */
  lemma RewriteGoesUnnoticed(seen: Bytes, log: Bytes)
    requires |seen| <= |log| && !(seen <= log)
    ensures var rt := Verbatim();
            Injective(rt) && ReadOn(rt, TailAt(rt, seen), log + [NEWLINE]).transcript != Batch(rt, log + [NEWLINE])
  {
    VerbatimIsInjective();
    var rt, end := Verbatim(), log + [NEWLINE];
    var tail := log[|seen|..];
    assert end[|seen|..] == tail + [NEWLINE];
    ReadOnFrom(rt, seen, tail + [NEWLINE]);
    assert (seen + tail) + [NEWLINE] == seen + (tail + [NEWLINE]);
    var mixed := seen + tail;
    assert mixed[..|seen|] == seen;
    SameData(rt, seen, seen + (tail + [NEWLINE]), end);
    if Batch(rt, mixed + [NEWLINE]) == Batch(rt, end) {
      VerbatimTellsLines(mixed + [NEWLINE], end);
      ClosedLogIsTold(mixed, log);
    }
  }

  /** The whole run: launched, pumped, the log rewritten and regrown past the cursor, pumped again. */
  lemma RegrownLogDiverges(seen: Bytes, log: Bytes)
    requires |seen| <= |log| && !(seen <= log)
    ensures var rt, pump := Verbatim(), Pump([], [], true, true);
            var w := Next(rt, Next(rt, Next(rt, Launched(seen), pump), Rewrite(log + [NEWLINE])), pump);
            Injective(rt) && w.log == log + [NEWLINE] && w.tail.transcript != Batch(rt, w.log)
  {
    var rt, pump := Verbatim(), Pump([], [], true, true);
    assert seen + [] + [] == seen;
    PumpKeepsStep(rt, Launched(seen).tail, false, [], Look(seen, seen, seen, true, true));
    var w1 := Next(rt, Launched(seen), pump);
    assert w1.tail == TailAt(rt, seen);
    var end := log + [NEWLINE];
    assert end + [] + [] == end;
    var w2 := Next(rt, w1, Rewrite(end));
    assert Next(rt, w2, pump).tail == ReadOn(rt, TailAt(rt, seen), end);
    RewriteGoesUnnoticed(seen, log);
  }

  lemma SameData(rt: Runtime, seen: Bytes, a: Bytes, b: Bytes)
    requires |seen| <= |a| && |seen| <= |b| && a[|seen|..] == b[|seen|..]
    ensures ReadOn(rt, TailAt(rt, seen), a).transcript == ReadOn(rt, TailAt(rt, seen), b).transcript
  {
  }

  // ---- the objects ----------------------------------------------------------------------------

  /** A stateful projector. */
  class Projector {
    const rt: Runtime
    var at: int
    var parent: Option<Uuid>

    constructor (rt: Runtime)
      ensures this.rt == rt && View() == START
    {
      this.rt := rt;
      at, parent := -1, None;
    }

    ghost function View(): Proj
      reads this
    {
      Proj(at, parent)
    }

    method Feed(ev: Event) returns (entries: seq<Entry>)
      modifies this
      ensures entries == Emitted(rt, old(View()), ev) && View() == Fed(rt, old(View()), ev)
    {
      at := at + 1;
      var body := rt.render(at, ev);
      if body.None? { return []; }
      var e := Entry(rt.mk(at), parent, body.value);
      parent := Some(e.uuid);
      entries := [e];
    }

    /** Split the buffer on newlines, feed each complete line, hand back the fragment. */
    method ProjectBytes(partial: Bytes, data: Bytes) returns (entries: seq<Entry>, buf: Bytes)
      modifies this
      ensures buf == Rest(partial + data)
      ensures entries == EmittedAll(rt, old(View()), LogEvents(rt, partial + data))
      ensures View() == FedAll(rt, old(View()), LogEvents(rt, partial + data))
    {
      buf, entries := partial + data, [];
      ghost var all, start := Lines(buf), View();
      ghost var lines: seq<Bytes> := [];
      while NEWLINE in buf
        invariant all == lines + Lines(buf) && Rest(buf) == Rest(partial + data)
        invariant entries == EmittedAll(rt, start, Events(rt, lines)) && View() == FedAll(rt, start, Events(rt, lines))
        decreases |buf|
      {
        var i := IndexOf(buf);
        TakeLine(all, lines, buf, i);
        var es := FeedLine(buf[..i], start, lines);
        lines := lines + [buf[..i]];
        entries := entries + es;
        buf := buf[i + 1..];
      }
      NoNewline(buf);
      assert lines + [] == lines;
    }

    /** One complete line: parsed, and fed when it is an event. */
    method FeedLine(line: Bytes, ghost start: Proj, ghost lines: seq<Bytes>) returns (es: seq<Entry>)
      requires View() == FedAll(rt, start, Events(rt, lines))
      modifies this
      ensures View() == FedAll(rt, start, Events(rt, lines + [line]))
      ensures EmittedAll(rt, start, Events(rt, lines + [line])) == EmittedAll(rt, start, Events(rt, lines)) + es
    {
      es := [];
      var ev := rt.parse(line);
      EventsSnoc(rt, lines, line);
      if ev.Some? {
        FedSnoc(rt, start, Events(rt, lines), ev.value);
        es := Feed(ev.value);
      } else {
        assert Events(rt, lines) + [] == Events(rt, lines);
      }
    }

    static method IndexOf(b: Bytes) returns (i: nat)
      requires NEWLINE in b
      ensures i < |b| && b[i] == NEWLINE && NEWLINE !in b[..i]
    {
      i := 0;
      while b[i] != NEWLINE
        invariant i < |b| && NEWLINE !in b[..i]
        decreases |b| - i
      {
        assert b[..i + 1] == b[..i] + [b[i]];
        assert b == b[..i + 1] + b[i + 1..];
        i := i + 1;
      }
    }
  }

  /** The parent tail. The transcript file is the field `transcript`. */
  class QwenTail {
    const rt: Runtime
    const resume: bool
    var proj: Projector
    var offset: Option<nat>
    var partial: Bytes
    var transcript: seq<Entry>

    constructor (rt: Runtime, resume: bool, transcript: seq<Entry>)
      ensures this.rt == rt && this.resume == resume && proj.rt == rt && fresh(proj)
      ensures View() == Tail(None, [], START, transcript)
    {
      this.rt, this.resume := rt, resume;
      proj := new Projector(rt);
      offset, partial := None, [];
      this.transcript := transcript;
    }

    ghost function View(): Tail
      reads this, proj
    {
      Tail(offset, partial, proj.View(), transcript)
    }

    /** Re-project the whole log with a fresh projector and replace the transcript. The cursors
        are committed only after the replace. */
    method RebuildTranscript(log: Bytes, works: bool) returns (ok: bool)
      requires proj.rt == rt
      modifies this
      ensures proj.rt == rt && ok == works && (ok ==> fresh(proj)) && (!ok ==> proj == old(proj))
      ensures View() == if ok then TailAt(rt, log) else old(View())
    {
      if !works { return false; }
      var p := new Projector(rt);
      var entries, rest := p.ProjectBytes([], log);
      assert [] + log == log;
      transcript := entries;
      proj, partial, offset := p, rest, Some(|log|);
      ok := true;
    }

    method Pump(l: Look)
      requires proj.rt == rt && LookOk(l)
      modifies this, proj
      ensures proj.rt == rt && View() == Pumped(rt, old(View()), resume, l)
      ensures !l.read && old(offset).Some? && |l.stat| >= old(offset).value ==> View() == old(View())
    {
      if offset.None? {
        if resume {
          var ok := RebuildTranscript(l.mid, l.rebuilt);
          if !ok { return; }
        } else {
          offset := Some(0);
        }
      } else if |l.stat| < offset.value {
        var ok := RebuildTranscript(l.mid, l.rebuilt);
        if !ok { return; }
      }
      if !l.read { return; }
      var data := l.end[offset.value..];
      ghost var before := View();
      assert Some(before) == Primed(rt, old(View()), resume, l);
      var entries, rest := proj.ProjectBytes(partial, data);
      offset, partial := Some(|l.end|), rest;
      transcript := transcript + entries;
      assert View() == ReadOn(rt, before, l.end);
    }
  }

  /** The per-child cursor. `dest` is the child's transcript file. */
  class ChildProjection {
    const rt: Runtime
    var proj: Projector
    var offset: nat
    var partial: Bytes
    var dest: seq<Entry>

    /** First sight of a child: a fresh projector at 0 over a destination started over. */
    constructor (rt: Runtime)
      ensures this.rt == rt && proj.rt == rt && fresh(proj)
      ensures View() == Tail(Some(0), [], START, [])
    {
      this.rt := rt;
      proj := new Projector(rt);
      offset, partial, dest := 0, [], [];
    }

    ghost function View(): Tail
      reads this, proj
    {
      Tail(Some(offset), partial, proj.View(), dest)
    }

    method Pump(l: Look)
      requires proj.rt == rt && LookOk(l)
      modifies this, proj
      ensures proj.rt == rt && View() == ChildPumped(rt, old(View()), l)
      ensures |l.stat| == old(offset) ==> View() == old(View())
    {
      if |l.stat| < offset {
        offset, partial, dest := 0, [], [];
        proj := new Projector(rt);
      } else if |l.stat| == offset {
        return;
      }
      if !l.read { return; }
      var data := l.end[offset..];
      ghost var before := View();
      var entries, rest := proj.ProjectBytes(partial, data);
      offset, partial := |l.end|, rest;
      dest := dest + entries;
      assert View() == ReadOn(rt, before, l.end);
    }
  }
}
