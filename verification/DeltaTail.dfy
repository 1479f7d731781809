/** The live tail as deltas (agent/tunnel-agent.js): a watcher ships only the window entries whose
    serialised length differs from what it last got out, commits only what was delivered, and the
    id-keyed viewers (turma/public/chat.js) still hold the whole current window. */
module DeltaTail {
  import opened Basics

  type Id = string
  type Queue = seq<string>

  /** A window entry: its serialised text, and what the chat page weighs it by. */
  datatype Entry = Entry(id: Id, json: string, shown: nat, blocks: bool)

  /** One result object of the transcript reader. `obj` is its identity: the reader's cache hands
      back the same object while the file is unchanged. */
  datatype Tail = Tail(obj: nat, entries: seq<Entry>, queued: Queue)

  datatype Frame = Frame(entries: seq<Entry>, queued: Queue)

  /** A poll's fortune: serialising throws, the send reports failure, or the frame goes out. */
  datatype Fate = Throws | Undelivered | Delivered

  // ---- the watcher ---------------------------------------------------------------------------

  datatype View = View(sent: map<Id, nat>, lastTail: Option<nat>, lastQueued: Option<Queue>)

  const Armed := View(map[], None, None)

  predicate AlreadySent(sent: map<Id, nat>, e: Entry) { e.id in sent && sent[e.id] == |e.json| }

  function Delta(sent: map<Id, nat>, es: seq<Entry>): seq<Entry> {
    if es == [] then []
    else
      var e := es[|es| - 1];
      Delta(sent, es[..|es| - 1]) + if AlreadySent(sent, e) then [] else [e]
  }

  function Weights(es: seq<Entry>): map<Id, nat> {
    if es == [] then map[] else Weights(es[..|es| - 1])[es[|es| - 1].id := |es[|es| - 1].json|]
  }

  /** One poll: the new watcher state and the frame that went out, if one did. */
  function Polled(v: View, tail: Option<Tail>, fate: Fate): (View, Option<Frame>) {
    if tail.None? || v.lastTail == Some(tail.value.obj) || fate.Throws? then (v, None)
    else
      var t := tail.value;
      var delta := Delta(v.sent, t.entries);
      if delta != [] || v.lastQueued != Some(t.queued) then
        if fate.Delivered?
        then (View(Weights(t.entries), Some(t.obj), Some(t.queued)), Some(Frame(delta, t.queued)))
        else (v, None)
      else (v.(sent := Weights(t.entries), lastTail := Some(t.obj)), None)
  }

  class Watcher {
    var sent: map<Id, nat>
    var lastTail: Option<nat>
    var lastQueued: Option<Queue>

    ghost function Now(): View reads this { View(sent, lastTail, lastQueued) }

    constructor ()
      ensures Now() == Armed
    {
      sent, lastTail, lastQueued := map[], None, None;
    }

    /** The delta section of a poll. */
    method Poll(tail: Option<Tail>, fate: Fate) returns (frame: Option<Frame>)
      modifies this
      ensures Now() == Polled(old(Now()), tail, fate).0 && frame == Polled(old(Now()), tail, fate).1
    {
      frame := None;
      if tail.None? || lastTail == Some(tail.value.obj) { return; }
      var t := tail.value;
      if fate.Throws? { return; }
      var delta, weights := Difference(sent, t.entries);
      var queuedChanged := Some(t.queued) != lastQueued;
      var delivered := true;
      if delta != [] || queuedChanged {
        delivered := fate.Delivered?;
        if delivered {
          lastQueued := Some(t.queued);
          frame := Some(Frame(delta, t.queued));
        }
      }
      if delivered { sent, lastTail := weights, Some(t.obj); }
    }

    /** A re-armed watch forgets what was sent. */
    method Rearm()
      modifies this
      ensures Now() == Armed
    {
      sent, lastTail, lastQueued := map[], None, None;
    }
  }

  method Difference(sent: map<Id, nat>, es: seq<Entry>) returns (delta: seq<Entry>, weights: map<Id, nat>)
    ensures delta == Delta(sent, es) && weights == Weights(es)
  {
    delta, weights := [], map[];
    for i := 0 to |es|
      invariant delta == Delta(sent, es[..i]) && weights == Weights(es[..i])
    {
      assert es[..i + 1][..i] == es[..i];
      var e := es[i];
      weights := weights[e.id := |e.json|];
      if e.id in sent && sent[e.id] == |e.json| { continue; }
      delta := delta + [e];
    }
    assert es[..|es|] == es;
  }

  // ---- the viewers ---------------------------------------------------------------------------

  datatype Client = Client(held: map<Id, Entry>, queued: Option<Queue>)

  /** The chat page's merge keeps the heavier copy; a plain id-keyed one always takes the new. */
  datatype Rule = Overwrite | GrowOnly

  predicate Accepts(rule: Rule, held: map<Id, Entry>, e: Entry) {
    rule.Overwrite? || e.id !in held || e.shown >= held[e.id].shown || (e.blocks && !held[e.id].blocks)
  }

  function Merge(rule: Rule, held: map<Id, Entry>, es: seq<Entry>): map<Id, Entry> {
    if es == [] then held
    else
      var h, e := Merge(rule, held, es[..|es| - 1]), es[|es| - 1];
      if Accepts(rule, h, e) then h[e.id := e] else h
  }

  function Receive(rule: Rule, c: Client, frame: Frame): Client {
    Client(Merge(rule, c.held, frame.entries), Some(frame.queued))
  }

  predicate Distinct(es: seq<Entry>) {
    forall i, j :: 0 <= i < j < |es| ==> es[i].id != es[j].id
  }

  /** What a viewer holds for one entry's id after a frame. */
  predicate Merged(rule: Rule, held: map<Id, Entry>, m: map<Id, Entry>, e: Entry) {
    e.id in m && m[e.id] == if Accepts(rule, held, e) then e else held[e.id]
  }

  /** No entry has this id. */
  predicate Absent(es: seq<Entry>, id: Id) { forall e :: e in es ==> e.id != id }

  predicate SameAt(a: map<Id, Entry>, b: map<Id, Entry>, id: Id) {
    (id in a <==> id in b) && (id in a ==> a[id] == b[id])
  }

  lemma LastIsDistinct(es: seq<Entry>)
    requires Distinct(es) && es != []
    ensures Distinct(es[..|es| - 1]) && Absent(es[..|es| - 1], es[|es| - 1].id)
    ensures forall e :: e in es <==> e in es[..|es| - 1] || e == es[|es| - 1]
  {
    assert es == es[..|es| - 1] + [es[|es| - 1]];
  }

  /** After a frame: exactly the frame's copy of an id if it has one and it is accepted, else what was
      there. */
  lemma {:induction false} MergeIs(rule: Rule, held: map<Id, Entry>, es: seq<Entry>)
    requires Distinct(es)
    ensures forall e :: e in es ==> Merged(rule, held, Merge(rule, held, es), e)
    ensures forall id :: Absent(es, id) ==> SameAt(held, Merge(rule, held, es), id)
  {
    if es != [] {
      var front := es[..|es| - 1];
      LastIsDistinct(es);
      MergeIs(rule, held, front);
      assert SameAt(held, Merge(rule, held, front), es[|es| - 1].id);
      forall id | Absent(es, id) ensures SameAt(held, Merge(rule, held, es), id) {
        assert Absent(front, id) && id != es[|es| - 1].id;
      }
    }
  }

  lemma {:induction false} DeltaIs(sent: map<Id, nat>, es: seq<Entry>)
    ensures forall e :: e in Delta(sent, es) <==> e in es && !AlreadySent(sent, e)
  {
    if es != [] {
      DeltaIs(sent, es[..|es| - 1]);
      assert es == es[..|es| - 1] + [es[|es| - 1]];
    }
  }

  lemma {:induction false} DeltaIsDistinct(sent: map<Id, nat>, es: seq<Entry>)
    requires Distinct(es)
    ensures Distinct(Delta(sent, es))
  {
    if es != [] {
      LastIsDistinct(es);
      DeltaIsDistinct(sent, es[..|es| - 1]);
      DeltaIs(sent, es[..|es| - 1]);
    }
  }

  lemma {:induction false} WeightsIs(es: seq<Entry>)
    requires Distinct(es)
    ensures forall e :: e in es ==> e.id in Weights(es) && Weights(es)[e.id] == |e.json|
    ensures forall id :: id in Weights(es) ==> exists e :: e in es && e.id == id
  {
    if es != [] {
      var front, last := es[..|es| - 1], es[|es| - 1];
      WeightsIs(front);
      assert es == front + [last];
      assert forall e :: e in front ==> e.id != last.id;
    }
  }

  // ---- runs ----------------------------------------------------------------------------------

  /** The watcher, its viewers, and the tail object last committed. */
  datatype State = State(view: View, clients: seq<Client>, shown: Option<Tail>)

  /** A poll, or a re-arm: a viewer joined or the channel flapped, so from here on the viewers are
      whoever is there, holding whatever they hold. */
  datatype Step = Poll(tail: Option<Tail>, fate: Fate) | Rearm(clients: seq<Client>)

  /** Every version of every entry the reader ever returns: a version is told by id and length. */
  ghost predicate Unambiguous(known: iset<Entry>) {
    forall a, b :: a in known && b in known && a.id == b.id && |a.json| == |b.json| ==> a == b
  }

  /** Distinct ids, known versions, an object identity that means one tail, and, for viewers that
      only ever grow an entry, no version lighter than one they hold. */
  ghost predicate Enabled(rule: Rule, known: iset<Entry>, s: State, step: Step) {
    step.Poll? && step.tail.Some? ==>
      var t := step.tail.value;
      Distinct(t.entries) && (forall e :: e in t.entries ==> e in known)
      && (s.view.lastTail == Some(t.obj) ==> s.shown == Some(t))
      && (forall c, e :: c in s.clients && e in t.entries ==> Accepts(rule, c.held, e))
  }

  ghost function Apply(rule: Rule, s: State, step: Step): State {
    match step
    case Rearm(clients) => State(Armed, clients, None)
    case Poll(tail, fate) =>
      var (view, frame) := Polled(s.view, tail, fate);
      State(view,
            if frame.None? then s.clients else seq(|s.clients|, i requires 0 <= i < |s.clients| => Receive(rule, s.clients[i], frame.value)),
            if view.lastTail == s.view.lastTail then s.shown else tail)
  }

  ghost predicate Legal(rule: Rule, known: iset<Entry>, s: State, run: seq<Step>)
    decreases |run|
  {
    run == [] || (Enabled(rule, known, s, run[0]) && Legal(rule, known, Apply(rule, s, run[0]), run[1..]))
  }

  ghost function Exec(rule: Rule, s: State, run: seq<Step>): State
    decreases |run|
  {
    if run == [] then s else Exec(rule, Apply(rule, s, run[0]), run[1..])
  }

  predicate Has(held: map<Id, Entry>, e: Entry) { e.id in held && held[e.id] == e }

  /** The viewer has the current copy of every window entry, and the current queued prompts. */
  predicate Shows(c: Client, t: Tail) {
    (forall e :: e in t.entries ==> Has(c.held, e)) && c.queued == Some(t.queued)
  }

  /** What the watcher believes of one viewer is true. */
  ghost predicate Believed(known: iset<Entry>, v: View, c: Client) {
    (forall id :: id in v.sent ==> id in c.held && c.held[id] in known && c.held[id].id == id && |c.held[id].json| == v.sent[id])
    && (v.lastQueued.Some? ==> c.queued == v.lastQueued)
  }

  ghost predicate Inv(known: iset<Entry>, s: State) {
    (forall c :: c in s.clients ==> Believed(known, s.view, c))
    && (s.view.lastTail.Some? ==> (
          s.shown.Some? && s.shown.value.obj == s.view.lastTail.value
          && forall c :: c in s.clients ==> Shows(c, s.shown.value)))
  }

  /** An entry held back was delivered before, in this very version. */
  lemma HeldBackIsCurrent(known: iset<Entry>, v: View, c: Client, e: Entry)
    requires Unambiguous(known) && Believed(known, v, c) && e in known && AlreadySent(v.sent, e)
    ensures Has(c.held, e)
  {
  }

  /** A frame brings a believed viewer to the whole window. */
  lemma FrameCompletes(rule: Rule, known: iset<Entry>, v: View, c: Client, t: Tail)
    requires Unambiguous(known) && Believed(known, v, c) && Distinct(t.entries)
    requires forall e :: e in t.entries ==> e in known && Accepts(rule, c.held, e)
    ensures Shows(Receive(rule, c, Frame(Delta(v.sent, t.entries), t.queued)), t)
  {
    var delta := Delta(v.sent, t.entries);
    DeltaIs(v.sent, t.entries);
    DeltaIsDistinct(v.sent, t.entries);
    MergeIs(rule, c.held, delta);
    forall e | e in t.entries ensures Has(Merge(rule, c.held, delta), e) {
      if AlreadySent(v.sent, e) {
        HeldBackIsCurrent(known, v, c, e);
        NotInDelta(t.entries, delta, e);
        assert SameAt(c.held, Merge(rule, c.held, delta), e.id);
      } else {
        assert Merged(rule, c.held, Merge(rule, c.held, delta), e);
      }
    }
  }

  lemma NotInDelta(es: seq<Entry>, delta: seq<Entry>, e: Entry)
    requires Distinct(es) && e in es && e !in delta && forall d :: d in delta ==> d in es
    ensures Absent(delta, e.id)
  {
  }

  /** Nothing due: a believed viewer has the whole window already. */
  lemma NothingDue(known: iset<Entry>, v: View, c: Client, t: Tail)
    requires Unambiguous(known) && Believed(known, v, c) && (forall e :: e in t.entries ==> e in known)
    requires Delta(v.sent, t.entries) == [] && v.lastQueued == Some(t.queued)
    ensures Shows(c, t)
  {
    DeltaIs(v.sent, t.entries);
    forall e | e in t.entries ensures Has(c.held, e) {
      assert e !in Delta(v.sent, t.entries);
      HeldBackIsCurrent(known, v, c, e);
    }
  }

  /** Recording the window of a tail a viewer shows is a true belief. */
  lemma ShownIsBelieved(known: iset<Entry>, c: Client, t: Tail, v: View)
    requires Shows(c, t) && Distinct(t.entries) && (forall e :: e in t.entries ==> e in known)
    requires v.sent == Weights(t.entries) && v.lastQueued == Some(t.queued)
    ensures Believed(known, v, c)
  {
    WeightsIs(t.entries);
  }

  lemma StepKeepsInv(rule: Rule, known: iset<Entry>, s: State, step: Step)
    requires Unambiguous(known) && Inv(known, s) && Enabled(rule, known, s, step)
    ensures Inv(known, Apply(rule, s, step))
  {
    var s' := Apply(rule, s, step);
    if step.Poll? && s'.view != s.view {
      var t := step.tail.value;
      forall c | c in s'.clients ensures Shows(c, t) && Believed(known, s'.view, c) {
        if Polled(s.view, step.tail, step.fate).1.Some? {
          var i :| 0 <= i < |s.clients| && c == Receive(rule, s.clients[i], Frame(Delta(s.view.sent, t.entries), t.queued));
          FrameCompletes(rule, known, s.view, s.clients[i], t);
        } else {
          NothingDue(known, s.view, c, t);
        }
        ShownIsBelieved(known, c, t, s'.view);
      }
    }
  }

  lemma {:induction false} RunKeepsInv(rule: Rule, known: iset<Entry>, s: State, run: seq<Step>)
    requires Unambiguous(known) && Inv(known, s) && Legal(rule, known, s, run)
    ensures Inv(known, Exec(rule, s, run))
    decreases |run|
  {
    if run != [] {
      StepKeepsInv(rule, known, s, run[0]);
      RunKeepsInv(rule, known, Apply(rule, s, run[0]), run[1..]);
    }
  }

  /** From a fresh watch and viewers holding anything, after any run of polls, failures and re-arms:
      a poll whose frame can go out always commits, and after a poll that committed, or found its tail
      committed already, every viewer shows the whole current window. */
  lemma CommittedPollShowsWindow(rule: Rule, known: iset<Entry>, clients: seq<Client>, run: seq<Step>, t: Tail, fate: Fate)
    requires Unambiguous(known)
    requires Legal(rule, known, State(Armed, clients, None), run)
    requires Enabled(rule, known, Exec(rule, State(Armed, clients, None), run), Poll(Some(t), fate))
    ensures var before := Exec(rule, State(Armed, clients, None), run);
            var after := Apply(rule, before, Poll(Some(t), fate));
            (fate.Delivered? ==> after.view.lastTail == Some(t.obj))
            && (after.view.lastTail == Some(t.obj) ==> forall c :: c in after.clients ==> Shows(c, t))
  {
    var start := State(Armed, clients, None);
    RunKeepsInv(rule, known, start, run);
    StepKeepsInv(rule, known, Exec(rule, start, run), Poll(Some(t), fate));
  }

  /** The last committed window had this entry at this length. */
  predicate Unchanged(before: seq<Entry>, e: Entry) {
    exists i :: 0 <= i < |before| && before[i].id == e.id && |before[i].json| == |e.json|
  }

  lemma UnchangedIsSent(before: seq<Entry>, e: Entry)
    requires Distinct(before)
    ensures Unchanged(before, e) <==> AlreadySent(Weights(before), e)
  {
    WeightsIs(before);
    if AlreadySent(Weights(before), e) {
      var d :| d in before && d.id == e.id;
      var i :| 0 <= i < |before| && before[i] == d;
    }
  }

  /** Entries of `es`, each once, in the order they have there. */
  ghost predicate InOrder(some: seq<Entry>, es: seq<Entry>) {
    forall i, j :: 0 <= i < j < |some| ==> Precedes(es, some[i], some[j])
  }

  ghost predicate Precedes(es: seq<Entry>, a: Entry, b: Entry) { exists x, y :: 0 <= x < y < |es| && es[x] == a && es[y] == b }

  lemma {:induction false} DeltaInOrder(sent: map<Id, nat>, es: seq<Entry>)
    ensures InOrder(Delta(sent, es), es)
  {
    if es != [] {
      var front, last := es[..|es| - 1], es[|es| - 1];
      DeltaInOrder(sent, front);
      DeltaIs(sent, front);
      var delta, d := Delta(sent, es), Delta(sent, front);
      forall i, j | 0 <= i < j < |delta| ensures Precedes(es, delta[i], delta[j]) {
        if j < |d| {
          assert Precedes(front, d[i], d[j]);
          var x, y :| 0 <= x < y < |front| && front[x] == d[i] && front[y] == d[j];
          assert es[x] == d[i] && es[y] == d[j];
        } else {
          assert d[i] in front;
          var x :| 0 <= x < |front| && front[x] == d[i];
          assert es[x] == delta[i] && es[|es| - 1] == delta[j];
        }
      }
    }
  }

  /** After a committed poll of `t`, the next one of another tail sends the changed entries and no others,
      each once, and sends nothing at all when neither an entry nor the queue has changed. */
  lemma NextFrameIsTheChange(v: View, t: Tail, next: Tail)
    requires Distinct(t.entries) && Distinct(next.entries) && next.obj != t.obj
    requires v == View(Weights(t.entries), Some(t.obj), Some(t.queued))
    ensures var frame := Polled(v, Some(next), Delivered).1;
            && (frame.None? <==> next.queued == t.queued && forall e :: e in next.entries ==> Unchanged(t.entries, e))
            && (frame.Some? ==> (
                  frame.value.queued == next.queued && InOrder(frame.value.entries, next.entries)
                  && forall e :: e in frame.value.entries <==> e in next.entries && !Unchanged(t.entries, e)))
    ensures Polled(v, Some(next), Delivered).0 == View(Weights(next.entries), Some(next.obj), Some(next.queued))
  {
    var delta := Delta(v.sent, next.entries);
    DeltaIs(v.sent, next.entries);
    DeltaInOrder(v.sent, next.entries);
    forall e ensures Unchanged(t.entries, e) <==> AlreadySent(v.sent, e) { UnchangedIsSent(t.entries, e); }
    if delta != [] { assert delta[0] in delta; }
  }

  /** The chat page takes a frame's copy of an entry exactly when it has none, its own is no heavier, or
      the new one brings the first blocks; a plain viewer always does. */
  lemma MergeTakesExactly(held: map<Id, Entry>, es: seq<Entry>, e: Entry)
    requires Distinct(es) && e in es
    ensures var m := Merge(GrowOnly, held, es);
            e.id in m && m[e.id] == if e.id in held && held[e.id].shown > e.shown && (held[e.id].blocks || !e.blocks) then held[e.id] else e
    ensures var m := Merge(Overwrite, held, es); e.id in m && m[e.id] == e
  {
    MergeIs(GrowOnly, held, es);
    MergeIs(Overwrite, held, es);
    assert Merged(GrowOnly, held, Merge(GrowOnly, held, es), e) && Merged(Overwrite, held, Merge(Overwrite, held, es), e);
  }

  /** The viewer has this version, or the frame carries it and it is accepted. */
  predicate Lands(rule: Rule, sent: map<Id, nat>, held: map<Id, Entry>, e: Entry) {
    Has(held, e) || (!AlreadySent(sent, e) && Accepts(rule, held, e))
  }

  lemma EntryLands(rule: Rule, sent: map<Id, nat>, held: map<Id, Entry>, es: seq<Entry>, e: Entry)
    requires Distinct(es) && e in es
    ensures var m := Merge(rule, held, Delta(sent, es));
            Has(m, e) <==> Lands(rule, sent, held, e)
  {
    DeltaIs(sent, es);
    DeltaIsDistinct(sent, es);
    MergeIs(rule, held, Delta(sent, es));
    if AlreadySent(sent, e) {
      NotInDelta(es, Delta(sent, es), e);
      assert SameAt(held, Merge(rule, held, Delta(sent, es)), e.id);
    } else {
      assert Merged(rule, held, Merge(rule, held, Delta(sent, es)), e);
    }
  }

  /** Without any assumption on versions or viewers, a frame leaves a viewer showing the window exactly
      when every entry lands: one held back is what the viewer has, one carried is accepted. */
  lemma FrameLandsExactly(rule: Rule, sent: map<Id, nat>, c: Client, t: Tail)
    requires Distinct(t.entries)
    ensures Shows(Receive(rule, c, Frame(Delta(sent, t.entries), t.queued)), t)
       <==> forall e :: e in t.entries ==> Lands(rule, sent, c.held, e)
  {
    var m := Merge(rule, c.held, Delta(sent, t.entries));
    forall e | e in t.entries ensures Has(m, e) <==> Lands(rule, sent, c.held, e) {
      EntryLands(rule, sent, c.held, t.entries, e);
    }
    assert Shows(Client(m, Some(t.queued)), t) <==> forall e :: e in t.entries ==> Has(m, e);
  }

  /** One viewer, told of one entry and then of another version of it, both frames free to go out. */
  ghost function ToldTwice(rule: Rule, e0: Entry, e1: Entry): State {
    var s0 := Apply(rule, State(Armed, [Client(map[], None)], None), Poll(Some(Tail(0, [e0], [])), Delivered));
    Apply(rule, s0, Poll(Some(Tail(1, [e1], [])), Delivered))
  }

  lemma FirstTold(rule: Rule, e0: Entry)
    ensures var s0 := Apply(rule, State(Armed, [Client(map[], None)], None), Poll(Some(Tail(0, [e0], [])), Delivered));
            s0.view == View(map[e0.id := |e0.json|], Some(0), Some([])) && s0.clients == [Client(map[e0.id := e0], Some([]))]
  {
    DeltaOne(map[], e0);
    MergeOne(rule, map[], e0);
  }

  /** An edit that keeps an entry's length is never sent, though the poll commits. */
  lemma SameLengthEditIsLost(rule: Rule, e0: Entry, e1: Entry)
    requires e0.id == e1.id && |e0.json| == |e1.json| && e0 != e1
    ensures var s := ToldTwice(rule, e0, e1);
            s.view.lastTail == Some(1) && s.clients == [Client(map[e0.id := e0], Some([]))] && !Shows(s.clients[0], Tail(1, [e1], []))
  {
    FirstTold(rule, e0);
    DeltaOne(map[e0.id := |e0.json|], e1);
    assert e1 in [e1] && !Has(map[e0.id := e0], e1);
  }

  /** The chat page keeps a heavier old copy over a lighter new one, though the poll commits. */
  lemma ShrunkEntryIsKept(e0: Entry, e1: Entry)
    requires e0.id == e1.id && |e0.json| != |e1.json| && e1.shown < e0.shown && !(e1.blocks && !e0.blocks)
    ensures var s := ToldTwice(GrowOnly, e0, e1);
            s.view.lastTail == Some(1) && |s.clients| == 1 && !Shows(s.clients[0], Tail(1, [e1], []))
  {
    FirstTold(GrowOnly, e0);
    DeltaOne(map[e0.id := |e0.json|], e1);
    MergeOne(GrowOnly, map[e0.id := e0], e1);
    var s := ToldTwice(GrowOnly, e0, e1);
    assert s.clients[0].held == map[e0.id := e0];
    assert e1 in [e1] && !Has(map[e0.id := e0], e1);
  }

  lemma DeltaOne(sent: map<Id, nat>, e: Entry)
    ensures Delta(sent, [e]) == (if AlreadySent(sent, e) then [] else [e]) && Weights([e]) == map[e.id := |e.json|]
  {
    assert [e][..0] == [];
    assert Delta(sent, []) == [] && Weights([]) == map[];
  }

  lemma MergeOne(rule: Rule, held: map<Id, Entry>, e: Entry)
    ensures Merge(rule, held, [e]) == if Accepts(rule, held, e) then held[e.id := e] else held
  {
    assert [e][..0] == [];
    assert Merge(rule, held, []) == held;
  }
}
