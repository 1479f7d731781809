/** Exactly-once delivery and hydrate recovery: what the archive's file holds after any run of
    stale, repeated, reordered, refused or interrupted chunks of one faithful append-only source. */
module ExactlyOnce {
  import opened Basics
  import opened Ingest

  /** One record of the agent's log: it costs `1 + extra` bytes there and renders to `entries`. */
  datatype Rec = Rec(extra: nat, entries: seq<Entry>)

  function Off(src: seq<Rec>): nat {
    if src == [] then 0 else Off(src[..|src| - 1]) + 1 + src[|src| - 1].extra
  }

  function All(src: seq<Rec>): seq<Entry> {
    if src == [] then [] else All(src[..|src| - 1]) + src[|src| - 1].entries
  }

  ghost predicate Distinct(es: seq<Entry>) {
    forall i, j :: 0 <= i < j < |es| ==> Differ(es, i, j)
  }

  predicate Differ(es: seq<Entry>, i: nat, j: nat)
    requires i < |es| && j < |es|
  {
    es[i].key != es[j].key
  }

  /** A cursor sits at the end of the first `i` records. */
  predicate At(src: seq<Rec>, cursor: nat, i: nat) { i <= |src| && Off(src[..i]) == cursor }

  /** The file is a prefix of the rendered source: each entry once, in order, payloads aside. */
  predicate Faithful(file: seq<Line>, src: seq<Rec>) { Entries(file) <= All(src) }

  /** The cursor never claims more than the file holds. If it claims less, the guard will notice:
      from disk alone when `durable`, else possibly only from memory. */
  ghost predicate Inv(t: Transcript, src: seq<Rec>, durable: bool) {
    && Faithful(t.file, src)
    && RowArchive(t) <= Size(t.file)
    && exists i: nat :: At(src, Have(t), i) && CursorOk(t, src, i, durable)
  }

  predicate CursorOk(t: Transcript, src: seq<Rec>, i: nat, durable: bool)
    requires i <= |src|
  {
    && |All(src[..i])| <= |t.file|
    && (|All(src[..i])| < |t.file| ==> if durable then DiskSuspect(t) else Suspect(t))
  }

  // ---- source arithmetic -----------------------------------------------------------

  lemma {:induction false} OffGrows(src: seq<Rec>, i: nat, j: nat)
    requires i <= j <= |src|
    ensures Off(src[..j]) >= Off(src[..i]) + (j - i)
  {
    if i < j {
      OffGrows(src, i, j - 1);
      assert src[..j][..j - 1] == src[..j - 1];
    }
  }

  lemma AtIsUnique(src: seq<Rec>, c: nat, i: nat, j: nat)
    requires At(src, c, i) && At(src, c, j)
    ensures i == j
  {
    if i < j { OffGrows(src, i, j); } else { OffGrows(src, j, i); }
  }

  /** Knowing where the cursor sits, the invariant is about that record only. */
  lemma InvAt(t: Transcript, src: seq<Rec>, i: nat, durable: bool)
    requires At(src, Have(t), i)
    ensures Inv(t, src, durable) <==> Faithful(t.file, src) && RowArchive(t) <= Size(t.file) && CursorOk(t, src, i, durable)
  {
    if Inv(t, src, durable) {
      var k: nat :| At(src, Have(t), k) && CursorOk(t, src, k, durable);
      AtIsUnique(src, Have(t), k, i);
    }
  }

  /** What the records [i, j) render to is the slice between two prefixes. */
  function Between(src: seq<Rec>, i: nat, j: nat): seq<Entry>
    requires i <= j <= |src|
    ensures |All(src[..i])| <= |All(src[..j])| && All(src[..i]) <= All(src[..j])
  {
    AllGrows(src, i, j);
    All(src[..j])[|All(src[..i])|..]
  }

  lemma {:induction false} AllGrows(src: seq<Rec>, i: nat, j: nat)
    requires i <= j <= |src|
    ensures All(src[..i]) <= All(src[..j])
  {
    if i < j {
      AllGrows(src, i, j - 1);
      assert src[..j][..j - 1] == src[..j - 1];
    }
  }

  lemma {:induction false} SizeAppend(a: seq<Line>, b: seq<Line>)
    ensures Size(a + b) == Size(a) + Size(b)
  {
    if b == [] { assert a + b == a; }
    else {
      SizeAppend(a, b[..|b| - 1]);
      assert (a + b)[..|a + b| - 1] == a + b[..|b| - 1];
    }
  }

  lemma {:induction false} SizeAtLeastLength(a: seq<Line>)
    ensures Size(a) >= |a|
  {
    if a != [] { SizeAtLeastLength(a[..|a| - 1]); }
  }

  lemma SizePinsPrefix(file: seq<Line>, m: nat)
    requires m <= |file| && Size(file[..m]) == Size(file)
    ensures m == |file|
  {
    assert file == file[..m] + file[m..];
    SizeAppend(file[..m], file[m..]);
    SizeAtLeastLength(file[m..]);
  }

  // ---- the de-duplication is exact on a source with distinct keys --------------------

  lemma {:induction false} LeftOverKeeps(list: seq<Entry>, held: multiset<Key>, k: Key)
    requires forall i :: 0 <= i < |list| ==> list[i].key != k
    ensures LeftOver(list, held)[k] == held[k]
  {
    if list != [] { LeftOverKeeps(list[..|list| - 1], held, k); }
  }

  /** Among the first n entries of a distinct source, exactly those n keys are held. */
  lemma HeldKeys(es: seq<Entry>, n: nat, x: nat)
    requires n <= |es| && x < |es| && Distinct(es)
    ensures es[x].key in multiset(KeysOf(es[..n])) <==> x < n
  {
    var ks := KeysOf(es[..n]);
    if x < n { assert ks[x] == es[x].key; }
    else {
      forall i | 0 <= i < n ensures ks[i] != es[x].key { assert Differ(es, i, x); }
    }
  }

  lemma EntriesAppend(a: seq<Line>, b: seq<Line>)
    ensures Entries(a + b) == Entries(a) + Entries(b)
  {
  }

  lemma PrefixAppend<T>(es: seq<T>, n: nat, b: nat)
    requires n <= b <= |es|
    ensures es[..n] + es[n..b] == es[..b]
  {
  }

  /** `held` holds the key of entry x exactly when x is among the first n. */
  predicate HeldBelow(es: seq<Entry>, held: multiset<Key>, n: nat, x: nat)
    requires x < |es|
  {
    es[x].key in held <==> x < n
  }

  /** The entries of `list` differ from its last: what is left over for that one is all held. */
  lemma LastIsJudgedAlone(list: seq<Entry>, held: multiset<Key>)
    requires list != [] && Distinct(list)
    ensures LeftOver(list[..|list| - 1], held)[list[|list| - 1].key] == held[list[|list| - 1].key]
  {
    var front, k := list[..|list| - 1], list[|list| - 1].key;
    forall i | 0 <= i < |front| ensures front[i].key != k { assert Differ(list, i, |list| - 1); }
    LeftOverKeeps(front, held, k);
  }

  /** `list` is the source's entries from a on. */
  predicate RunOf(es: seq<Entry>, a: nat, list: seq<Entry>) {
    a + |list| <= |es| && forall i :: 0 <= i < |list| ==> list[i] == es[a + i]
  }

  lemma RunIsDistinct(es: seq<Entry>, a: nat, list: seq<Entry>)
    requires Distinct(es) && RunOf(es, a, list)
    ensures Distinct(list)
  {
    forall i, j | 0 <= i < j < |list| ensures Differ(list, i, j) { assert Differ(es, a + i, a + j); }
  }

  lemma FrontOfRun(es: seq<Entry>, a: nat, list: seq<Entry>)
    requires list != [] && RunOf(es, a, list)
    ensures RunOf(es, a, list[..|list| - 1]) && list[|list| - 1] == es[a + |list| - 1]
  {
  }

  /** The source's entries from n up to b. */
  function Past(es: seq<Entry>, n: nat, b: nat): seq<Entry>
    requires n <= |es| && b <= |es|
  {
    if b <= n then [] else es[n..b]
  }

  lemma PastGrows(es: seq<Entry>, n: nat, b: nat)
    requires n <= |es| && 1 <= b <= |es|
    ensures Past(es, n, b) == if b - 1 < n then Past(es, n, b - 1) else Past(es, n, b - 1) + [es[b - 1]]
  {
    if b > n { SliceSnoc(es, n, b); }
  }

  /** Re-sending a run of the source, from a on, against exactly its first n keys keeps the part past
      n. */
  lemma {:induction false} FreshIsTheTail(es: seq<Entry>, held: multiset<Key>, n: nat, a: nat, list: seq<Entry>)
    requires a <= n <= |es| && Distinct(es) && RunOf(es, a, list)
    requires forall x :: 0 <= x < |es| ==> HeldBelow(es, held, n, x)
    ensures FreshOf(list, held) == Past(es, n, a + |list|)
  {
    if list != [] {
      FrontOfRun(es, a, list);
      FreshIsTheTail(es, held, n, a, list[..|list| - 1]);
      RunIsDistinct(es, a, list);
      assert HeldBelow(es, held, n, a + |list| - 1);
      OneMoreSent(es, held, n, list, a + |list|);
    }
  }

  lemma OneMoreSent(es: seq<Entry>, held: multiset<Key>, n: nat, list: seq<Entry>, b: nat)
    requires list != [] && Distinct(list) && n <= |es| && 1 <= b <= |es| && list[|list| - 1] == es[b - 1]
    requires HeldBelow(es, held, n, b - 1) && FreshOf(list[..|list| - 1], held) == Past(es, n, b - 1)
    ensures FreshOf(list, held) == Past(es, n, b)
  {
    FreshOfLast(list, held);
    PastGrows(es, n, b);
  }

  /** The last of a list with distinct keys is kept unless it is held. */
  lemma FreshOfLast(list: seq<Entry>, held: multiset<Key>)
    requires list != [] && Distinct(list)
    ensures var before, last := FreshOf(list[..|list| - 1], held), list[|list| - 1];
            FreshOf(list, held) == if last.key in held then before else before + [last]
  {
    LastIsJudgedAlone(list, held);
  }

  // ---- sources that repeat keys --------------------------------------------------------

  lemma KeysCut(es: seq<Entry>, a: nat, b: nat)
    requires a <= b <= |es|
    ensures Keys(es[..b]) == Keys(es[..a]) + Keys(es[a..b])
  {
    assert KeysOf(es[..b]) == KeysOf(es[..a]) + KeysOf(es[a..b]);
  }

  lemma SliceCut(es: seq<Entry>, a: nat, n: nat, b: nat)
    requires a <= n <= b <= |es|
    ensures Keys(es[a..b]) == Keys(es[a..n]) + Keys(es[n..b])
  {
    assert KeysOf(es[a..b]) == KeysOf(es[a..n]) + KeysOf(es[n..b]);
  }

  /** No entry past the file has the key of one before the cursor. */
  predicate NoneRecurs(es: seq<Entry>, a: nat, n: nat, b: nat)
    requires a <= n <= b <= |es|
  {
    forall i :: n <= i < b ==> es[i].key !in Keys(es[..a])
  }

  /** A re-send of the entries from a on to a file that holds the first n keeps exactly those past n, if
      and only if none of them has the key of an entry before a. A re-send from the start always does. */
  lemma ResendKeepsExactly(es: seq<Entry>, a: nat, n: nat, b: nat)
    requires a <= n <= b <= |es|
    ensures FreshOf(es[a..b], Keys(es[..n])) == es[n..b] <==> NoneRecurs(es, a, n, b)
    ensures a == 0 ==> FreshOf(es[a..b], Keys(es[..n])) == es[n..b]
  {
    if NoneRecurs(es, a, n, b) {
      NoneRecursKeeps(es, a, n, b);
    } else if FreshOf(es[a..b], Keys(es[..n])) == es[n..b] {
      RecursLoses(es, a, n, b);
    }
  }

  lemma OnlyUnheldLast(x: multiset<Key>, y: multiset<Key>, z: multiset<Key>, k: Key)
    requires (y + z) - (x + y) == z && k in z
    ensures k !in x
  {
    assert ((y + z) - (x + y))[k] == z[k];
  }

  lemma RecursLoses(es: seq<Entry>, a: nat, n: nat, b: nat)
    requires a <= n <= b <= |es| && FreshOf(es[a..b], Keys(es[..n])) == es[n..b]
    ensures NoneRecurs(es, a, n, b)
  {
    var x, y, z := Keys(es[..a]), Keys(es[a..n]), Keys(es[n..b]);
    FreshIsTheRest(es[a..b], Keys(es[..n]));
    KeysCut(es, a, n);
    SliceCut(es, a, n, b);
    assert (y + z) - (x + y) == z;
    forall i | n <= i < b ensures es[i].key !in x {
      KeyOfSlice(es, n, b, i);
      OnlyUnheldLast(x, y, z, es[i].key);
    }
  }

  lemma KeyOfSlice(es: seq<Entry>, n: nat, b: nat, i: nat)
    requires n <= i < b <= |es|
    ensures es[i].key in Keys(es[n..b])
  {
    assert KeysOf(es[n..b])[i - n] == es[i].key;
  }

  lemma {:induction false} NoneRecursKeeps(es: seq<Entry>, a: nat, n: nat, b: nat)
    requires a <= n <= b <= |es| && NoneRecurs(es, a, n, b)
    ensures FreshOf(es[a..b], Keys(es[..n])) == es[n..b]
    decreases b
  {
    if b == n {
      FreshIsTheRest(es[a..n], Keys(es[..n]));
      KeysCut(es, a, n);
      NoKeysNoEntries(FreshOf(es[a..n], Keys(es[..n])));
    } else {
      NoneRecursKeeps(es, a, n, b - 1);
      LastPastIsKept(es, a, n, b);
      OneMoreKept(es, a, n, b, Keys(es[..n]));
    }
  }

  lemma NoKeysNoEntries(es: seq<Entry>)
    requires Keys(es) == multiset{}
    ensures es == []
  {
    assert |KeysOf(es)| == |Keys(es)|;
  }

  lemma LeftOverLacks(list: seq<Entry>, x: multiset<Key>, y: multiset<Key>, z: multiset<Key>, k: Key)
    requires Keys(list) == y + z && k !in x
    ensures k !in LeftOver(list, x + y)
  {
    FreshIsTheRest(list, x + y);
  }

  lemma LastPastIsKept(es: seq<Entry>, a: nat, n: nat, b: nat)
    requires a <= n < b <= |es| && es[b - 1].key !in Keys(es[..a])
    ensures es[b - 1].key !in LeftOver(es[a..b - 1], Keys(es[..n]))
  {
    KeysCut(es, a, n);
    SliceCut(es, a, n, b - 1);
    LeftOverLacks(es[a..b - 1], Keys(es[..a]), Keys(es[a..n]), Keys(es[n..b - 1]), es[b - 1].key);
  }

  lemma OneMoreKept(es: seq<Entry>, a: nat, n: nat, b: nat, held: multiset<Key>)
    requires a <= n < b <= |es| && FreshOf(es[a..b - 1], held) == es[n..b - 1] && es[b - 1].key !in LeftOver(es[a..b - 1], held)
    ensures FreshOf(es[a..b], held) == es[n..b]
  {
    SliceSnoc(es, a, b);
    SliceSnoc(es, n, b);
    FreshOfSnoc(es[a..b - 1], es[b - 1], held);
  }

  lemma FreshOfSnoc(list: seq<Entry>, last: Entry, held: multiset<Key>)
    requires last.key !in LeftOver(list, held)
    ensures FreshOf(list + [last], held) == FreshOf(list, held) + [last]
  {
    assert (list + [last])[..|list|] == list;
  }

  // ---- one chunk ------------------------------------------------------------------------

  /** The chunk an agent makes of its records [i, j). */
  predicate FaithfulChunk(src: seq<Rec>, i: nat, j: nat, start: int, end: int, list: seq<Entry>) {
    i <= j <= |src| && start == Off(src[..i]) && end == Off(src[..j]) && list == Between(src, i, j)
  }

  /** After the append the file is the longer of what it was and what the chunk reaches. */
  lemma AppendExtends(t: Transcript, src: seq<Rec>, i: nat, j: nat, budget: nat)
    requires Inv(t, src, false) && Distinct(All(src)) && i <= j <= |src| && At(src, Have(t), i)
    ensures var list := Between(src, i, j); var t' := WithFile(t, list, budget);
      && Faithful(t'.file, src)
      && |t'.file| == (if |All(src[..j])| <= |t.file| then |t.file| else |All(src[..j])|)
      && (!Suspect(t) || Kept(t, list) != [] ==> |t'.file| == |All(src[..j])|)
      && Size(t'.file) == Size(t.file) + Size(Appended(t, list, budget))
  {
    var k: nat :| At(src, Have(t), k) && CursorOk(t, src, k, false);
    AtIsUnique(src, Have(t), i, k);
    BetweenIsSlice(src, i, j);
    AppendTail(t, All(src), |All(src[..i])|, |All(src[..j])|, budget);
  }

  lemma BetweenIsSlice(src: seq<Rec>, i: nat, j: nat)
    requires i <= j <= |src|
    ensures |All(src[..i])| <= |All(src[..j])| <= |All(src)|
    ensures Between(src, i, j) == All(src)[|All(src[..i])|..|All(src[..j])|]
  {
    assert src[..|src|] == src;
    AllGrows(src, i, j);
    AllGrows(src, j, |src|);
  }

  lemma TailAppend(file: seq<Line>, app: seq<Line>, es: seq<Entry>, b: nat)
    requires Entries(file) <= es && b <= |es|
    requires Entries(app) == if b <= |file| then [] else es[|file|..b]
    ensures Entries(file + app) == if b <= |file| then es[..|file|] else es[..b]
    ensures Size(file + app) == Size(file) + Size(app)
  {
    SizeAppend(file, app);
    EntriesAppend(file, app);
    if |file| < b { PrefixAppend(es, |file|, b); }
  }

  lemma AppendTail(t: Transcript, es: seq<Entry>, a: nat, b: nat, budget: nat)
    requires Entries(t.file) <= es && Distinct(es) && a <= |t.file| && a <= b <= |es|
    requires a < |t.file| ==> Suspect(t)
    ensures var n, t' := |t.file|, WithFile(t, es[a..b], budget);
      && Entries(t'.file) == (if b <= n then es[..n] else es[..b])
      && (!Suspect(t) || Kept(t, es[a..b]) != [] ==> |t'.file| == b)
      && Size(t'.file) == Size(t.file) + Size(Appended(t, es[a..b], budget))
  {
    KeptIsTheTail(t, es, a, b);
    RenderedEntries(Kept(t, es[a..b]), Base(t), budget);
    TailAppend(t.file, Appended(t, es[a..b], budget), es, b);
  }

  lemma KeptIsTheTail(t: Transcript, es: seq<Entry>, a: nat, b: nat)
    requires Entries(t.file) <= es && Distinct(es) && a <= |t.file| && a <= b <= |es|
    requires a < |t.file| ==> Suspect(t)
    ensures Kept(t, es[a..b]) == if b <= |t.file| then [] else es[|t.file|..b]
  {
    var n := |t.file|;
    assert Entries(t.file) == es[..n];
    forall x | 0 <= x < |es| ensures HeldBelow(es, multiset(KeysOf(es[..n])), n, x) { HeldKeys(es, n, x); }
    FreshIsTheTail(es, multiset(KeysOf(es[..n])), n, a, es[a..b]);
  }

  /** A completed chunk keeps the invariant, in either strength, and never moves the cursor back. */
  lemma ChunkKeepsInv(t: Transcript, src: seq<Rec>, i: nat, j: nat, start: int, end: int,
                      list: seq<Entry>, refused: bool, budget: nat, durable: bool)
    requires Inv(t, src, durable) && Distinct(All(src)) && FaithfulChunk(src, i, j, start, end, list)
    ensures var t' := Ingested(t, start, end, list, refused, budget);
      Inv(t', src, durable) && Have(t') >= Have(t) && |t'.file| >= |t.file|
  {
    Weaken(t, src, durable);
    if !refused && Accepts(t, start, end) {
      var t' := WithSide(t, end, list, budget);
      AppendExtends(t, src, i, j, budget);
      assert At(src, Have(t'), j);
      if |All(src[..j])| < |t'.file| {
        assert SuspectAfter(t, list);
        SizeAtLeastLength(t'.file);
        assert DiskSuspect(t');
      }
      assert CursorOk(t', src, j, durable);
    }
  }

  lemma Weaken(t: Transcript, src: seq<Rec>, durable: bool)
    requires Inv(t, src, durable)
    ensures Inv(t, src, false)
  {
    var i: nat :| At(src, Have(t), i) && CursorOk(t, src, i, durable);
    assert CursorOk(t, src, i, false);
  }

  /** A crash between the file append and the row write: the longer file convicts the old row. */
  lemma CrashAfterAppendKeepsInv(t: Transcript, src: seq<Rec>, i: nat, j: nat, start: int, end: int,
                                 list: seq<Entry>, budget: nat)
    requires Inv(t, src, true) && Distinct(All(src)) && FaithfulChunk(src, i, j, start, end, list)
    requires Accepts(t, start, end)
    ensures Inv(WithFile(t, list, budget).(suspect := false), src, true)
  {
    Weaken(t, src, true);
    AppendExtends(t, src, i, j, budget);
    var t' := WithFile(t, list, budget).(suspect := false);
    SizeAtLeastLength(Appended(t, list, budget));
    assert |t'.file| == |t.file| + |Appended(t, list, budget)|;
    InvAt(t, src, i, true);
    InvAt(t', src, i, true);
  }

  // ---- what an unsafe state does ------------------------------------------------------------

  /** Whatever faithful chunk comes next from the cursor, the file holds no entry twice. */
  ghost predicate NextChunkSafe(t: Transcript, src: seq<Rec>, i: nat)
    requires i <= |src|
  {
    forall j: nat, budget: nat :: i <= j <= |src| ==> Distinct(Entries(AfterChunk(t, src, i, j, budget).file))
  }

  function AfterChunk(t: Transcript, src: seq<Rec>, i: nat, j: nat, budget: nat): Transcript
    requires i <= j <= |src|
  {
    Ingested(t, Off(src[..i]), Off(src[..j]), Between(src, i, j), false, budget)
  }

  /** How many entries the first j records render to. */
  function Upto(src: seq<Rec>, j: nat): (n: nat)
    requires j <= |src|
    ensures n == |All(src[..j])| <= |All(src)| && All(src)[..n] == All(src[..j])
  {
    assert src[..|src|] == src;
    AllGrows(src, j, |src|);
    |All(src[..j])|
  }

  lemma ResentFile(es: seq<Entry>, file: seq<Entry>, a: nat, b: nat)
    requires file <= es && a <= |file| <= b <= |es|
    ensures file + FreshOf(es[a..b], Keys(file)) == es[..b] <==> NoneRecurs(es, a, |file|, b)
  {
    var n := |file|;
    assert es[..n] == file;
    ResendKeepsExactly(es, a, n, b);
    PrefixAppend(es, n, b);
    if file + FreshOf(es[a..b], Keys(file)) == es[..b] { SameTail(file, FreshOf(es[a..b], Keys(file)), es[n..b]); }
  }

  lemma SuspectChunkKeeps(t: Transcript, src: seq<Rec>, i: nat, j: nat, budget: nat)
    requires Suspect(t) && At(src, Have(t), i) && i <= j <= |src| && Off(src[..j]) <= MAX_TRANSCRIPT_BYTES
    ensures Upto(src, i) <= Upto(src, j)
    ensures var list := All(src)[Upto(src, i)..Upto(src, j)];
            Entries(AfterChunk(t, src, i, j, budget).file) == Entries(t.file) + FreshOf(list, Keys(Entries(t.file)))
  {
    OffGrows(src, i, j);
    BetweenIsSlice(src, i, j);
    RenderedEntries(Kept(t, Between(src, i, j)), Base(t), budget);
    EntriesAppend(t.file, Appended(t, Between(src, i, j), budget));
  }

  /** On a source that may repeat keys: a re-send from a suspect cursor over the end of the file leaves
      exactly the source so far, if and only if nothing past the file has the key of an entry before the
      cursor. Otherwise an entry is lost. */
  lemma SuspectChunkExactly(t: Transcript, src: seq<Rec>, i: nat, j: nat, budget: nat)
    requires Suspect(t) && Faithful(t.file, src) && At(src, Have(t), i) && i <= j <= |src| && Off(src[..j]) <= MAX_TRANSCRIPT_BYTES
    requires Upto(src, i) <= |t.file| <= Upto(src, j)
    ensures Entries(AfterChunk(t, src, i, j, budget).file) == All(src[..j])
            <==> NoneRecurs(All(src), Upto(src, i), |t.file|, Upto(src, j))
  {
    SuspectChunkKeeps(t, src, i, j, budget);
    ResentFile(All(src), Entries(t.file), Upto(src, i), Upto(src, j));
  }

  lemma SameTail<T>(p: seq<T>, a: seq<T>, b: seq<T>)
    requires p + a == p + b
    ensures a == b
  {
    assert a == (p + a)[|p|..] == (p + b)[|p|..] == b;
  }

  lemma FaithfulIsDistinct(file: seq<Line>, src: seq<Rec>)
    requires Faithful(file, src) && Distinct(All(src))
    ensures Distinct(Entries(file))
  {
    forall x, y | 0 <= x < y < |file| ensures Differ(Entries(file), x, y) { assert Differ(All(src), x, y); }
  }

  /** A cursor behind its file that nothing convicts: the rest of the source is stored again. */
  lemma BehindDuplicates(t: Transcript, src: seq<Rec>, i: nat, budget: nat)
    requires Faithful(t.file, src) && At(src, Have(t), i) && Off(src) <= MAX_TRANSCRIPT_BYTES
    requires !Suspect(t) && |All(src[..i])| < |t.file|
    ensures !Distinct(Entries(AfterChunk(t, src, i, |src|, budget).file))
  {
    var a, list := |All(src[..i])|, Between(src, i, |src|);
    OffGrows(src, i, |src|);
    assert src[..|src|] == src;
    BetweenIsSlice(src, i, |src|);
    RenderedEntries(list, Base(t), budget);
    var app := Appended(t, list, budget);
    EntriesAppend(t.file, app);
    var es := Entries(t.file + app);
    assert es[a] == All(src)[a] && es[|t.file|] == list[0];
    assert !Differ(es, a, |t.file|);
  }

  /** A cursor that never passes its file is safe exactly when it is suspect or not behind. */
  lemma SafeExactly(t: Transcript, src: seq<Rec>, i: nat)
    requires Faithful(t.file, src) && RowArchive(t) <= Size(t.file) && Distinct(All(src))
    requires At(src, Have(t), i) && |All(src[..i])| <= |t.file| && Off(src) <= MAX_TRANSCRIPT_BYTES
    ensures NextChunkSafe(t, src, i) <==> Suspect(t) || |All(src[..i])| == |t.file|
  {
    if Suspect(t) || |All(src[..i])| == |t.file| {
      forall j: nat, budget: nat | i <= j <= |src| ensures Distinct(Entries(AfterChunk(t, src, i, j, budget).file)) {
        InvAt(t, src, i, false);
        ChunkKeepsInv(t, src, i, j, Off(src[..i]), Off(src[..j]), Between(src, i, j), false, budget, false);
        FaithfulIsDistinct(AfterChunk(t, src, i, j, budget).file, src);
      }
    } else {
      BehindDuplicates(t, src, i, 0);
    }
  }

  /** After a crash between the row write and the sidecar write no faithful chunk duplicates, exactly
      unless the chunk was a suspect one that stored nothing, stopped short of the file's end, and
      found the sidecar's flag not yet set. */
  lemma CrashAfterRowExactly(t: Transcript, src: seq<Rec>, i: nat, j: nat, start: int, end: int,
                             list: seq<Entry>, budget: nat)
    requires Inv(t, src, true) && Distinct(All(src)) && FaithfulChunk(src, i, j, start, end, list)
    requires Accepts(t, start, end) && Off(src) <= MAX_TRANSCRIPT_BYTES
    ensures NextChunkSafe(WithRow(t, end, list, budget).(suspect := false), src, j) <==>
      (!SuspectAfter(t, list) || |All(src[..j])| == |t.file| || (t.side.Some? && t.side.value.unverified))
  {
    Weaken(t, src, true);
    AppendExtends(t, src, i, j, budget);
    var t' := WithRow(t, end, list, budget).(suspect := false);
    SizeAtLeastLength(t'.file);
    SafeExactly(t', src, j);
  }

  /** The same states are those the invariant admits, so they stay safe over whole runs. */
  lemma CrashAfterRowKeepsInv(t: Transcript, src: seq<Rec>, i: nat, j: nat, start: int, end: int,
                              list: seq<Entry>, budget: nat)
    requires Inv(t, src, true) && Distinct(All(src)) && FaithfulChunk(src, i, j, start, end, list)
    requires Accepts(t, start, end)
    requires !SuspectAfter(t, list) || |All(src[..j])| == |t.file| || (t.side.Some? && t.side.value.unverified)
    ensures Inv(WithRow(t, end, list, budget).(suspect := false), src, true)
  {
    Weaken(t, src, true);
    AppendExtends(t, src, i, j, budget);
    var t' := WithRow(t, end, list, budget).(suspect := false);
    SizeAtLeastLength(t'.file);
    InvAt(t', src, j, true);
  }

  /** An append that throws has already cleared the in-memory suspicion. Then no faithful chunk
      duplicates exactly when this one brought nothing new, or disk still convicts the cursor, or it is
      not behind. */
  lemma FailedAppendExactly(t: Transcript, src: seq<Rec>, i: nat, list: seq<Entry>)
    requires Inv(t, src, false) && At(src, Have(t), i) && Distinct(All(src)) && Off(src) <= MAX_TRANSCRIPT_BYTES
    ensures NextChunkSafe(t.(suspect := SuspectAfter(t, list)), src, i) <==>
      (SuspectAfter(t, list) || DiskSuspect(t) || |All(src[..i])| == |t.file|)
  {
    InvAt(t, src, i, false);
    SafeExactly(t.(suspect := SuspectAfter(t, list)), src, i);
  }

  lemma RestartKeepsInv(t: Transcript, src: seq<Rec>)
    requires Inv(t, src, true)
    ensures Inv(t.(suspect := false), src, true)
  {
    var i: nat :| At(src, Have(t), i) && CursorOk(t, src, i, true);
    assert CursorOk(t.(suspect := false), src, i, true);
  }

  lemma GrowKeepsInv(t: Transcript, src: seq<Rec>, more: seq<Rec>, durable: bool)
    requires Inv(t, src, durable)
    ensures Inv(t, src + more, durable)
  {
    var i: nat :| At(src, Have(t), i) && CursorOk(t, src, i, durable);
    assert (src + more)[..i] == src[..i];
    assert (src + more)[..|src|] == src && (src + more)[..|src + more|] == src + more;
    AllGrows(src + more, |src|, |src + more|);
    assert At(src + more, Have(t), i) && CursorOk(t, src + more, i, durable);
  }

  // ---- whole runs ----------------------------------------------------------------------

  /** What can happen to one transcript whose index survives restarts. A chunk names the records it
      was cut from, so stale, repeated and reordered sends are all of this form. */
  datatype Step =
    | Grow(more: seq<Rec>)
    | Chunk(i: nat, j: nat, refused: bool)
    | CrashAfterAppend(i: nat, j: nat)
    | CrashAfterRow(i: nat, j: nat)
    | AppendThrows(i: nat, j: nat)
    | Restart

  datatype World = World(t: Transcript, src: seq<Rec>)

  ghost predicate Allowed(w: World, st: Step) {
    match st
    case Grow(more) => Distinct(All(w.src + more))
    case Chunk(i, j, _) => i <= j <= |w.src|
    case CrashAfterAppend(i, j) => i <= j <= |w.src|
    case CrashAfterRow(i, j) =>
      && i <= j <= |w.src|
      && (!SuspectAfter(w.t, Between(w.src, i, j)) || |All(w.src[..j])| == |w.t.file|
          || (w.t.side.Some? && w.t.side.value.unverified))
    case AppendThrows(i, j) => i <= j <= |w.src|
    case Restart => true
  }

  function Next(w: World, st: Step, budget: nat): World
    requires st.Chunk? || st.CrashAfterAppend? || st.CrashAfterRow? || st.AppendThrows? ==> st.i <= st.j <= |w.src|
  {
    match st
    case Grow(more) => w.(src := w.src + more)
    case Restart => w.(t := w.t.(suspect := false))
    case Chunk(i, j, refused) =>
      w.(t := Ingested(w.t, Off(w.src[..i]), Off(w.src[..j]), Between(w.src, i, j), refused, budget))
    case CrashAfterAppend(i, j) =>
      if !Accepts(w.t, Off(w.src[..i]), Off(w.src[..j])) then w.(t := w.t.(suspect := false))
      else w.(t := WithFile(w.t, Between(w.src, i, j), budget).(suspect := false))
    case CrashAfterRow(i, j) =>
      if !Accepts(w.t, Off(w.src[..i]), Off(w.src[..j])) then w.(t := w.t.(suspect := false))
      else w.(t := WithRow(w.t, Off(w.src[..j]), Between(w.src, i, j), budget).(suspect := false))
    case AppendThrows(i, j) =>
      if !Accepts(w.t, Off(w.src[..i]), Off(w.src[..j])) then w
      else w.(t := w.t.(suspect := SuspectAfter(w.t, Between(w.src, i, j))))
  }

  ghost predicate Legal(w: World, run: seq<Step>, budget: nat)
    decreases |run|
  {
    run != [] ==> Allowed(w, run[0]) && Legal(Next(w, run[0], budget), run[1..], budget)
  }

  ghost function Exec(w: World, run: seq<Step>, budget: nat): World
    requires Legal(w, run, budget)
    decreases |run|
  {
    if run == [] then w else Exec(Next(w, run[0], budget), run[1..], budget)
  }

  lemma StepKeepsInv(w: World, st: Step, budget: nat)
    requires Inv(w.t, w.src, true) && Distinct(All(w.src)) && Allowed(w, st)
    ensures var w' := Next(w, st, budget);
      Inv(w'.t, w'.src, true) && Distinct(All(w'.src)) && Have(w'.t) >= Have(w.t) && w.src <= w'.src
  {
    match st
    case Grow(more) => GrowKeepsInv(w.t, w.src, more, true);
    case Restart => RestartKeepsInv(w.t, w.src);
    case Chunk(i, j, refused) =>
      ChunkKeepsInv(w.t, w.src, i, j, Off(w.src[..i]), Off(w.src[..j]), Between(w.src, i, j), refused, budget, true);
    case CrashAfterAppend(i, j) =>
      RestartKeepsInv(w.t, w.src);
      if Accepts(w.t, Off(w.src[..i]), Off(w.src[..j])) {
        CrashAfterAppendKeepsInv(w.t, w.src, i, j, Off(w.src[..i]), Off(w.src[..j]), Between(w.src, i, j), budget);
      }
    case CrashAfterRow(i, j) =>
      RestartKeepsInv(w.t, w.src);
      if Accepts(w.t, Off(w.src[..i]), Off(w.src[..j])) {
        CrashAfterRowKeepsInv(w.t, w.src, i, j, Off(w.src[..i]), Off(w.src[..j]), Between(w.src, i, j), budget);
      }
    case AppendThrows(i, j) =>
      if Accepts(w.t, Off(w.src[..i]), Off(w.src[..j])) {
        var k: nat :| At(w.src, Have(w.t), k) && CursorOk(w.t, w.src, k, true);
        assert CursorOk(Next(w, st, budget).t, w.src, k, true);
      }
  }

  lemma {:induction false} RunKeepsInv(w: World, run: seq<Step>, budget: nat)
    requires Inv(w.t, w.src, true) && Distinct(All(w.src)) && Legal(w, run, budget)
    ensures var w' := Exec(w, run, budget);
      Inv(w'.t, w'.src, true) && Distinct(All(w'.src)) && Have(w'.t) >= Have(w.t)
    decreases |run|
  {
    if run != [] {
      StepKeepsInv(w, run[0], budget);
      RunKeepsInv(Next(w, run[0], budget), run[1..], budget);
    }
  }

  const EMPTY: Transcript := Transcript([], None, None, false)

  /** Exactly once: after any run from an empty archive the file is a prefix of the rendered source
      with no entry twice, it holds at least what the cursor claims, exactly that when the cursor
      is not suspect, and the cursor sits on a record boundary. */
  lemma IngestIsExactlyOnce(src: seq<Rec>, run: seq<Step>, budget: nat)
    requires Distinct(All(src)) && Legal(World(EMPTY, src), run, budget)
    ensures var w := Exec(World(EMPTY, src), run, budget);
      && Entries(w.t.file) <= All(w.src) && Distinct(Entries(w.t.file))
      && exists i: nat :: At(w.src, Have(w.t), i) &&
           All(w.src[..i]) <= Entries(w.t.file) &&
           (!Suspect(w.t) ==> Entries(w.t.file) == All(w.src[..i]))
  {
    var w0 := World(EMPTY, src);
    assert src[..0] == [];
    assert At(src, 0, 0) && CursorOk(EMPTY, src, 0, true);
    RunKeepsInv(w0, run, budget);
    var w := Exec(w0, run, budget);
    var i: nat :| At(w.src, Have(w.t), i) && CursorOk(w.t, w.src, i, true);
    assert w.src[..|w.src|] == w.src;
    AllGrows(w.src, i, |w.src|);
    assert !Suspect(w.t) ==> |All(w.src[..i])| == |w.t.file|;
    FaithfulIsDistinct(w.t.file, w.src);
  }

  // ---- the message count --------------------------------------------------------------------

  predicate NoRepeats(file: seq<Line>) { forall i, j :: 0 <= i < j < |file| ==> file[i] != file[j] }

  /** Reading a file by first copies counts its lines if and only if no line is repeated. */
  lemma {:induction false} FirstCopiesCount(file: seq<Line>)
    ensures |FirstCopies(file)| <= |file| && (|FirstCopies(file)| == |file| <==> NoRepeats(file))
  {
    if file != [] {
      var n := |file| - 1;
      FirstCopiesCount(file[..n]);
      RepeatsLast(file, n);
    }
  }

  lemma RepeatsLast(file: seq<Line>, n: nat)
    requires |file| == n + 1
    ensures NoRepeats(file) <==> NoRepeats(file[..n]) && file[n] !in file[..n]
  {
    if NoRepeats(file[..n]) && file[n] !in file[..n] {
      forall i, j | 0 <= i < j < |file| ensures file[i] != file[j] {
        assert file[i] == file[..n][i];
        assert j < n ==> file[j] == file[..n][j];
      }
    }
    if NoRepeats(file) {
      assert forall i :: 0 <= i < n ==> file[..n][i] == file[i];
    }
  }

  lemma FaithfulHasNoRepeats(file: seq<Line>, src: seq<Rec>)
    requires Faithful(file, src) && Distinct(All(src))
    ensures NoRepeats(file)
  {
    FaithfulIsDistinct(file, src);
    forall i, j | 0 <= i < j < |file| ensures file[i] != file[j] { assert Differ(Entries(file), i, j); }
  }

  /** A row of its file's size counts the file's lines: the ordinal the next entry is stored under. */
  predicate CountOk(t: Transcript) {
    t.row.Some? && t.row.value.archive == Size(t.file) ==> t.row.value.count == |t.file|
  }

  /** So does the row an accepted chunk writes. */
  lemma ChunkCounts(t: Transcript, src: seq<Rec>, i: nat, j: nat, budget: nat)
    requires Inv(t, src, false) && Distinct(All(src)) && i <= j <= |src| && At(src, Have(t), i) && CountOk(t)
    ensures CountBefore(t) == |t.file|
    ensures var list := Between(src, i, j); NewRow(t, Off(src[..j]), list, budget).count == |WithFile(t, list, budget).file|
  {
    if Suspect(t) {
      FaithfulHasNoRepeats(t.file, src);
      FirstCopiesCount(t.file);
    } else if t.row.None? {
      SizeAtLeastLength(t.file);
    }
    RenderedEntries(Kept(t, Between(src, i, j)), Base(t), budget);
  }

  lemma AppendKeepsCount(t: Transcript, list: seq<Entry>, budget: nat)
    requires CountOk(t) && RowArchive(t) <= Size(t.file)
    ensures CountOk(WithFile(t, list, budget))
  {
    SizeAppend(t.file, Appended(t, list, budget));
    SizeAtLeastLength(Appended(t, list, budget));
  }

  lemma AcceptedAt(t: Transcript, src: seq<Rec>, i: nat, j: nat)
    requires i <= j <= |src| && Accepts(t, Off(src[..i]), Off(src[..j]))
    ensures At(src, Have(t), i)
  {
  }

  lemma StepKeepsCount(w: World, st: Step, budget: nat)
    requires Inv(w.t, w.src, true) && Distinct(All(w.src)) && Allowed(w, st) && CountOk(w.t)
    ensures CountOk(Next(w, st, budget).t)
  {
    Weaken(w.t, w.src, true);
    if (st.Chunk? || st.CrashAfterAppend? || st.CrashAfterRow?) && Accepts(w.t, Off(w.src[..st.i]), Off(w.src[..st.j])) {
      AcceptedAt(w.t, w.src, st.i, st.j);
      ChunkCounts(w.t, w.src, st.i, st.j, budget);
      AppendKeepsCount(w.t, Between(w.src, st.i, st.j), budget);
    }
  }

  /** In every run the entries of an accepted chunk are stored under the ordinals
      that follow the file's own lines. */
  lemma {:induction false} RunKeepsCount(w: World, run: seq<Step>, budget: nat)
    requires Inv(w.t, w.src, true) && Distinct(All(w.src)) && CountOk(w.t) && Legal(w, run, budget)
    ensures CountOk(Exec(w, run, budget).t) && CountBefore(Exec(w, run, budget).t) == |Exec(w, run, budget).t.file|
    decreases |run|
  {
    if run == [] {
      Weaken(w.t, w.src, true);
      var i: nat :| At(w.src, Have(w.t), i) && CursorOk(w.t, w.src, i, false);
      ChunkCounts(w.t, w.src, i, i, budget);
    } else {
      StepKeepsCount(w, run[0], budget);
      StepKeepsInv(w, run[0], budget);
      RunKeepsCount(Next(w, run[0], budget), run[1..], budget);
    }
  }
}
