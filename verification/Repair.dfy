/** The duplicate repair of an archived `.jsonl` (turma/archive.js): the first copy of every line,
    in order, keyed on raw bytes without the trailing blanks a reader's trim drops. */
module Repair {
  import opened Basics

  const NL: Byte := 10

  // ---- the key of a line -------------------------------------------------------------------

  /** How many bytes of `s` its last blank character takes: 0 when it does not end in one. */
  function BlankWidth(s: Bytes): (w: nat)
    ensures w <= |s|
  {
    var e := |s|;
    if e >= 1 && (s[e - 1] == 0x20 || 0x09 <= s[e - 1] <= 0x0d) then 1
    else if e >= 2 && s[e - 1] == 0xa0 && s[e - 2] == 0xc2 then 2
    else if e >= 3 && WideBlank(s[e - 3], s[e - 2], s[e - 1]) then 3
    else 0
  }

  /** The three-byte UTF-8 forms of U+1680, U+2000-200A, U+2028, U+2029, U+202F, U+205F, U+3000
      and U+FEFF. */
  predicate WideBlank(a: Byte, m: Byte, b: Byte) {
    (a == 0xe1 && m == 0x9a && b == 0x80)
    || (a == 0xe2 && m == 0x80 && (0x80 <= b <= 0x8a || b == 0xa8 || b == 0xa9 || b == 0xaf))
    || (a == 0xe2 && m == 0x81 && b == 0x9f)
    || (a == 0xe3 && m == 0x80 && b == 0x80)
    || (a == 0xef && m == 0xbb && b == 0xbf)
  }

  function Stripped(s: Bytes): (r: Bytes)
    ensures r <= s && BlankWidth(r) == 0
  {
    var w := BlankWidth(s);
    if w == 0 then s else Stripped(s[..|s| - w])
  }

  /** The scan from the end. */
  method BlankTailStart(line: Bytes) returns (e: nat)
    ensures e <= |line| && line[..e] == Stripped(line)
  {
    e := |line|;
    assert line[..e] == line;
    while true
      invariant e <= |line| && Stripped(line[..e]) == Stripped(line)
      decreases e
    {
      ghost var s := line[..e];
      if e >= 1 && (line[e - 1] == 0x20 || 0x09 <= line[e - 1] <= 0x0d) {
        assert s[..|s| - 1] == line[..e - 1];
        e := e - 1;
        continue;
      }
      if e >= 2 && line[e - 1] == 0xa0 && line[e - 2] == 0xc2 {
        assert s[..|s| - 2] == line[..e - 2];
        e := e - 2;
        continue;
      }
      if e < 3 { return; }
      if WideBlank(line[e - 3], line[e - 2], line[e - 1]) {
        assert s[..|s| - 3] == line[..e - 3];
        e := e - 3;
        continue;
      }
      return;
    }
  }

  /** A line without its newline, when it has one. */
  function Body(line: Bytes): Bytes {
    if line != [] && line[|line| - 1] == NL then line[..|line| - 1] else line
  }

  function Key(line: Bytes): Bytes { Stripped(Body(line)) }

  /** Trimming the latin1 reading of a key leaves nothing. */
  predicate Void(key: Bytes) {
    forall i :: 0 <= i < |key| ==> 0x09 <= key[i] <= 0x0d || key[i] == 0x20 || key[i] == 0xa0
  }

  // ---- first copies ------------------------------------------------------------------------

  /** Some line of `ls` has this key. */
  ghost predicate Has(ls: seq<Bytes>, key: Bytes) {
    exists i :: 0 <= i < |ls| && Key(ls[i]) == key
  }

  /** A line after `before` is kept: it is blank, or no line before it has its key. */
  ghost predicate Fresh(before: seq<Bytes>, line: Bytes) {
    Void(Key(line)) || !Has(before, Key(line))
  }

  /** The reference: each line that is blank or the first of its key, in order. */
  ghost function First(ls: seq<Bytes>): seq<Bytes> {
    if ls == [] then []
    else
      var before, line := ls[..|ls| - 1], ls[|ls| - 1];
      First(before) + if Fresh(before, line) then [line] else []
  }

  lemma FirstSnoc(ls: seq<Bytes>, line: Bytes)
    ensures First(ls + [line]) == First(ls) + if Fresh(ls, line) then [line] else []
  {
    assert (ls + [line])[..|ls|] == ls;
  }

  lemma HasSnoc(ls: seq<Bytes>, line: Bytes, key: Bytes)
    ensures Has(ls + [line], key) <==> Has(ls, key) || Key(line) == key
  {
    var s := ls + [line];
    assert s[|ls|] == line;
    if Has(ls, key) {
      var i: nat :| i < |ls| && Key(ls[i]) == key;
      assert s[i] == ls[i];
    }
  }

  /** The first copies hold every nonblank key the lines hold, and no other. */
  lemma {:induction false} FirstHasSameKeys(ls: seq<Bytes>, key: Bytes)
    requires !Void(key)
    ensures Has(First(ls), key) <==> Has(ls, key)
  {
    if ls != [] {
      var before, line := ls[..|ls| - 1], ls[|ls| - 1];
      assert ls == before + [line];
      FirstHasSameKeys(before, key);
      HasSnoc(before, line, key);
      HasSnoc(First(before), line, key);
      assert First(before) + [] == First(before);
    }
  }

  /** Histories with the same first copies keep, and grow, the same ones. */
  lemma SameFirst(x: seq<Bytes>, y: seq<Bytes>, line: Bytes)
    requires First(x) == First(y)
    ensures First(x + [line]) == First(y + [line])
  {
    FirstSnoc(x, line);
    FirstSnoc(y, line);
    if !Void(Key(line)) {
      FirstHasSameKeys(x, Key(line));
      FirstHasSameKeys(y, Key(line));
    }
  }

  lemma SplitLast(a: seq<Bytes>, b: seq<Bytes>)
    requires b != []
    ensures a + b == (a + b[..|b| - 1]) + [b[|b| - 1]]
  {
  }

  /** Repairing first and appending later keeps exactly what repairing the whole would. */
  lemma {:induction false} FirstAbsorbs(a: seq<Bytes>, b: seq<Bytes>)
    ensures First(First(a) + b) == First(a + b)
  {
    if b == [] {
      assert First(a) + b == First(a) && a + b == a;
      FirstIdempotent(a);
    } else {
      FirstAbsorbs(a, b[..|b| - 1]);
      SplitLast(First(a), b);
      SplitLast(a, b);
      SameFirst(First(a) + b[..|b| - 1], a + b[..|b| - 1], b[|b| - 1]);
    }
  }

  lemma FirstGrows(x: seq<Bytes>, y: seq<Bytes>, line: Bytes)
    requires First(x) == First(y) && Fresh(y, line)
    ensures First(x + [line]) == First(y) + [line]
  {
    SameFirst(x, y, line);
    FirstSnoc(y, line);
  }

  lemma {:induction false} FirstIdempotent(ls: seq<Bytes>)
    ensures First(First(ls)) == First(ls)
  {
    if ls != [] {
      var before, line := ls[..|ls| - 1], ls[|ls| - 1];
      FirstIdempotent(before);
      FirstUnfolds(ls);
      if Fresh(before, line) { FirstGrows(First(before), before, line); }
    }
  }

  lemma FirstUnfolds(ls: seq<Bytes>)
    requires ls != []
    ensures var before, line := ls[..|ls| - 1], ls[|ls| - 1];
            First(ls) == if Fresh(before, line) then First(before) + [line] else First(before)
  {
    assert First(ls[..|ls| - 1]) + [] == First(ls[..|ls| - 1]);
  }

  lemma PrefixExtends<T>(p: seq<T>, q: seq<T>, x: seq<T>)
    requires p <= q
    ensures p <= q + x
  {
  }

  /** Fewer lines, fewer first copies: a prefix gives a prefix. */
  lemma {:induction false} FirstPrefix(a: seq<Bytes>, b: seq<Bytes>)
    ensures First(a) <= First(a + b)
  {
    if b == [] {
      assert a + b == a;
    } else {
      FirstPrefix(a, b[..|b| - 1]);
      FirstPrefixStep(a, a + b[..|b| - 1], b[|b| - 1]);
      SplitLast(a, b);
    }
  }

  lemma FirstPrefixStep(a: seq<Bytes>, c: seq<Bytes>, line: Bytes)
    requires First(a) <= First(c)
    ensures First(a) <= First(c + [line])
  {
    FirstSnoc(c, line);
    PrefixExtends(First(a), First(c), if Fresh(c, line) then [line] else []);
  }

  lemma {:induction false} FirstPrefixAt(ls: seq<Bytes>, k: nat)
    requires k <= |ls|
    ensures First(ls[..k]) <= First(ls)
  {
    if k == |ls| {
      assert ls[..k] == ls;
    } else {
      var before, line := ls[..|ls| - 1], ls[|ls| - 1];
      FirstPrefixAt(before, k);
      assert before[..k] == ls[..k];
      PrefixExtends(First(ls[..k]), First(before), if Fresh(before, line) then [line] else []);
    }
  }

  /** No nonblank key is held twice. */
  lemma {:induction false} FirstIsUnique(ls: seq<Bytes>, i: nat, j: nat)
    requires i < j < |First(ls)| && !Void(Key(First(ls)[j]))
    ensures Key(First(ls)[i]) != Key(First(ls)[j])
  {
    var before, line := ls[..|ls| - 1], ls[|ls| - 1];
    if j < |First(before)| {
      FirstIsUnique(before, i, j);
    } else {
      FirstHasSameKeys(before, Key(line));
    }
  }

  // ---- lines of a buffer -------------------------------------------------------------------

  function Join(ls: seq<Bytes>): Bytes {
    if ls == [] then [] else Join(ls[..|ls| - 1]) + ls[|ls| - 1]
  }

  /** Ends in its only newline. */
  predicate Closed(line: Bytes) {
    line != [] && line[|line| - 1] == NL && NL !in line[..|line| - 1]
  }

  /** Nonempty, and no newline: what a torn write leaves last. */
  predicate Torn(line: Bytes) { line != [] && NL !in line }

  /** What a buffer splits into: closed lines, then at most one torn one. */
  predicate Shaped(ls: seq<Bytes>) {
    forall i :: 0 <= i < |ls| ==> Closed(ls[i]) || (i == |ls| - 1 && Torn(ls[i]))
  }

  predicate Aligned(buf: Bytes) { buf == [] || buf[|buf| - 1] == NL }

  /** Just past the first newline, or the end. */
  function LineEnd(buf: Bytes): (e: nat)
    requires buf != []
    ensures 1 <= e <= |buf|
  {
    if buf[0] == NL || |buf| == 1 then 1 else 1 + LineEnd(buf[1..])
  }

  lemma {:induction false} LineEndIs(buf: Bytes)
    requires buf != []
    ensures var e := LineEnd(buf); Closed(buf[..e]) || (e == |buf| && Torn(buf))
  {
    if buf[0] != NL && |buf| > 1 {
      LineEndIs(buf[1..]);
      var e := LineEnd(buf[1..]);
      assert buf[..1 + e] == [buf[0]] + buf[1..][..e];
      assert buf[..1 + e][..e] == [buf[0]] + buf[1..][..e - 1];
    }
  }

  function Lines(buf: Bytes): seq<Bytes>
    decreases |buf|
  {
    if buf == [] then [] else [buf[..LineEnd(buf)]] + Lines(buf[LineEnd(buf)..])
  }

  lemma {:induction false} LinesShaped(buf: Bytes)
    ensures Shaped(Lines(buf))
    decreases |buf|
  {
    if buf != [] {
      var e := LineEnd(buf);
      LineEndIs(buf);
      LinesShaped(buf[e..]);
      var rest := Lines(buf[e..]);
      assert Lines(buf) == [buf[..e]] + rest;
      if e == |buf| { assert buf[..e] == buf && rest == []; }
    }
  }

  lemma {:induction false} JoinFront(line: Bytes, ls: seq<Bytes>)
    ensures Join([line] + ls) == line + Join(ls)
  {
    if ls == [] {
      assert [line] + ls == [line] && [line][..0] == [];
    } else {
      JoinFront(line, ls[..|ls| - 1]);
      assert ([line] + ls)[..|ls|] == [line] + ls[..|ls| - 1];
      assert ([line] + ls)[|ls|] == ls[|ls| - 1];
    }
  }

  lemma {:induction false} JoinLines(buf: Bytes)
    ensures Join(Lines(buf)) == buf
    decreases |buf|
  {
    if buf != [] {
      var e := LineEnd(buf);
      JoinLines(buf[e..]);
      JoinFront(buf[..e], Lines(buf[e..]));
    }
  }

  lemma {:induction false} EndOfClosed(line: Bytes, rest: Bytes)
    requires Closed(line)
    ensures LineEnd(line + rest) == |line|
  {
    if line[0] == NL {
    } else {
      assert line[1..][..|line| - 2] == line[..|line| - 1][1..];
      EndOfClosed(line[1..], rest);
      assert (line + rest)[1..] == line[1..] + rest;
    }
  }

  lemma LinesFront(line: Bytes, rest: Bytes)
    requires Closed(line)
    ensures Lines(line + rest) == [line] + Lines(rest)
  {
    EndOfClosed(line, rest);
    assert (line + rest)[..|line|] == line && (line + rest)[|line|..] == rest;
  }

  lemma LinesTorn(line: Bytes)
    requires Torn(line)
    ensures Lines(line) == [line]
  {
    LineEndIs(line);
    assert line[LineEnd(line) - 1] in line;
    assert LineEnd(line) == |line|;
    assert line[..|line|] == line && line[|line|..] == [];
    assert Lines([]) == [];
  }

  lemma {:induction false} LinesJoin(ls: seq<Bytes>)
    requires Shaped(ls)
    ensures Lines(Join(ls)) == ls
  {
    if ls != [] {
      var line, rest := ls[0], ls[1..];
      assert ls == [line] + rest;
      LinesJoin(rest);
      JoinFront(line, rest);
      if Closed(line) {
        LinesFront(line, Join(rest));
      } else {
        assert rest == [] && Join(rest) == [];
        assert line + [] == line;
        LinesTorn(line);
      }
    }
  }

  lemma FirstLine(a: Bytes) returns (line: Bytes, rest: Bytes)
    requires a != [] && Aligned(a)
    ensures a == line + rest && Closed(line) && Aligned(rest) && |rest| < |a|
  {
    var e := LineEnd(a);
    LineEndIs(a);
    line, rest := a[..e], a[e..];
  }

  /** Splitting a line-aligned buffer with more behind it. */
  lemma {:induction false} LinesAppend(a: Bytes, b: Bytes)
    requires Aligned(a)
    ensures Lines(a + b) == Lines(a) + Lines(b)
    decreases |a|
  {
    if a == [] {
      assert a + b == b && Lines(a) == [];
    } else {
      var line, rest := FirstLine(a);
      calc {
        Lines(a + b);
        { Reassoc(line, rest, b); }
        Lines(line + (rest + b));
        { LinesFront(line, rest + b); }
        [line] + Lines(rest + b);
        { LinesAppend(rest, b); }
        [line] + (Lines(rest) + Lines(b));
        { Reassoc([line], Lines(rest), Lines(b)); }
        ([line] + Lines(rest)) + Lines(b);
        { LinesFront(line, rest); }
        Lines(a) + Lines(b);
      }
    }
  }

  // ---- the repair --------------------------------------------------------------------------

  ghost function Dedup(buf: Bytes): Bytes { Join(First(Lines(buf))) }

  predicate AllClosed(ls: seq<Bytes>) { forall i :: 0 <= i < |ls| ==> Closed(ls[i]) }

  lemma {:induction false} FirstAmong(ls: seq<Bytes>)
    ensures |First(ls)| <= |ls|
    ensures AllClosed(ls) ==> AllClosed(First(ls))
  {
    if ls != [] { FirstAmong(ls[..|ls| - 1]); }
  }

  lemma FirstShaped(ls: seq<Bytes>)
    requires Shaped(ls)
    ensures Shaped(First(ls))
  {
    if ls != [] {
      assert AllClosed(ls[..|ls| - 1]);
      FirstAmong(ls[..|ls| - 1]);
    }
  }

  /** The repaired file splits into exactly the first copies. */
  lemma LinesOfDedup(buf: Bytes)
    ensures Lines(Dedup(buf)) == First(Lines(buf))
  {
    LinesShaped(buf);
    FirstShaped(Lines(buf));
    LinesJoin(First(Lines(buf)));
  }

  lemma {:induction false} JoinAppend(a: seq<Bytes>, b: seq<Bytes>)
    ensures Join(a + b) == Join(a) + Join(b)
  {
    if b == [] {
      assert a + b == a && Join(b) == [];
    } else {
      JoinAppend(a, b[..|b| - 1]);
      assert (a + b)[..|a + b| - 1] == a + b[..|b| - 1];
      Reassoc(Join(a), Join(b[..|b| - 1]), b[|b| - 1]);
    }
  }

  /** Line-aligned text repairs to line-aligned text. */
  lemma DedupAligned(a: Bytes)
    requires Aligned(a)
    ensures Aligned(Dedup(a)) && AllClosed(Lines(a))
  {
    AlignedIsClosed(a);
    FirstAmong(Lines(a));
    var f := First(Lines(a));
    if f != [] { assert Closed(f[|f| - 1]); }
  }

  lemma {:induction false} AlignedIsClosed(a: Bytes)
    requires Aligned(a)
    ensures AllClosed(Lines(a))
    decreases |a|
  {
    if a != [] {
      var line, rest := FirstLine(a);
      LinesFront(line, rest);
      AlignedIsClosed(rest);
    }
  }

  /** Repairing twice changes nothing more. */
  lemma DedupIdempotent(buf: Bytes)
    ensures Dedup(Dedup(buf)) == Dedup(buf)
  {
    LinesOfDedup(buf);
    FirstIdempotent(Lines(buf));
  }

  /** A line-aligned older copy repairs to a prefix of what the grown file repairs to. */
  lemma DedupPrefix(a: Bytes, b: Bytes)
    requires Aligned(a)
    ensures Dedup(a) <= Dedup(a + b)
  {
    LinesAppend(a, b);
    FirstPrefix(Lines(a), Lines(b));
    JoinPrefix(First(Lines(a)), First(Lines(a) + Lines(b)));
  }

  lemma JoinPrefix(f: seq<Bytes>, g: seq<Bytes>)
    requires f <= g
    ensures Join(f) <= Join(g)
  {
    JoinAppend(f, g[|f|..]);
    assert g == f + g[|f|..];
  }

  /** Repair, append, repair again equals repairing the whole, for a line-aligned file. */
  lemma DedupAbsorbs(a: Bytes, b: Bytes)
    requires Aligned(a)
    ensures Dedup(Dedup(a) + b) == Dedup(a + b)
  {
    DedupAligned(a);
    LinesOfDedup(a);
    LinesAppend(Dedup(a), b);
    LinesAppend(a, b);
    FirstAbsorbs(Lines(a), Lines(b));
  }

  // ---- torn files --------------------------------------------------------------------------

  lemma JoinOne(ls: seq<Bytes>, line: Bytes, kept: bool)
    ensures Join(ls + if kept then [line] else []) == Join(ls) + if kept then line else []
  {
    assert (ls + [line])[..|ls|] == ls;
    assert ls + [] == ls && Join(ls) + [] == Join(ls);
  }

  lemma LinesOne(line: Bytes)
    requires Torn(line) || Closed(line)
    ensures Lines(line) == [line]
  {
    if Torn(line) { LinesTorn(line); } else { LinesFront(line, []); assert line + [] == line; }
  }

  /** A last piece that is a single line is kept or dropped as such. */
  lemma DedupLast(a: Bytes, line: Bytes)
    requires Aligned(a) && (Torn(line) || Closed(line))
    ensures Dedup(a + line) == Dedup(a) + if Fresh(Lines(a), line) then line else []
  {
    LinesAppend(a, line);
    LinesOne(line);
    FirstSnoc(Lines(a), line);
    JoinOne(First(Lines(a)), line, Fresh(Lines(a), line));
  }

  lemma SamePrefix(d: Bytes, x: Bytes, y: Bytes)
    ensures d + x <= d + y <==> x <= y
  {
    if d + x <= d + y {
      assert x == (d + x)[|d|..] && y == (d + y)[|d|..];
      assert (d + y)[..|d + x|] == d + x;
      assert y[..|x|] == (d + y)[|d|..|d| + |x|];
    }
    if x <= y {
      assert y == x + y[|x|..];
      assert d + y == (d + x) + y[|x|..];
    }
  }

  /** A copy torn inside a line repairs to a prefix of what the completed line gives, unless the
      torn piece is new while the whole line is a copy. */
  lemma TornPrefixExactly(a: Bytes, torn: Bytes, more: Bytes)
    requires Aligned(a) && Torn(torn) && (Torn(torn + more) || Closed(torn + more))
    ensures Dedup(a + torn) <= Dedup(a + (torn + more))
       <==> (Fresh(Lines(a), torn) ==> Fresh(Lines(a), torn + more))
  {
    var whole := torn + more;
    DedupLast(a, torn);
    DedupLast(a, whole);
    SamePrefix(Dedup(a), if Fresh(Lines(a), torn) then torn else [],
               if Fresh(Lines(a), whole) then whole else []);
  }

  lemma PrefixChain<T>(x: seq<T>, y: seq<T>, z: seq<T>)
    requires x <= y && y <= z
    ensures x <= z
  {
  }

  lemma AlignedJoin(a: Bytes, line: Bytes)
    requires Aligned(a) && Closed(line)
    ensures Aligned(a + line)
  {
  }

  /** With lines after it too: such a copy repairs to a prefix of whatever the file grows into, exactly
      when the torn piece is not new while its whole line is a copy. */
  lemma TornPrefixForever(a: Bytes, torn: Bytes, more: Bytes)
    requires Aligned(a) && Torn(torn) && Closed(torn + more)
    ensures (forall rest :: Dedup(a + torn) <= Dedup((a + (torn + more)) + rest))
       <==> (Fresh(Lines(a), torn) ==> Fresh(Lines(a), torn + more))
  {
    var whole := a + (torn + more);
    TornPrefixExactly(a, torn, more);
    AlignedJoin(a, torn + more);
    if Dedup(a + torn) <= Dedup(whole) {
      forall rest ensures Dedup(a + torn) <= Dedup(whole + rest) {
        DedupPrefix(whole, rest);
        PrefixChain(Dedup(a + torn), Dedup(whole), Dedup(whole + rest));
      }
    } else {
      assert whole + [] == whole;
      assert !(Dedup(a + torn) <= Dedup(whole + []));
    }
  }

  /** Torn between a line and blanks its reader trims, the piece has the line's own key. */
  lemma TornBlanksArePrefix(a: Bytes, torn: Bytes, more: Bytes)
    requires Aligned(a) && Torn(torn) && (Torn(torn + more) || Closed(torn + more))
    requires Key(torn) == Key(torn + more)
    ensures Dedup(a + torn) <= Dedup(a + (torn + more))
  {
    TornPrefixExactly(a, torn, more);
  }

  function Letters(n: nat): (s: Bytes)
    ensures |s| == n && forall i :: 0 <= i < n ==> s[i] == 97
  {
    seq(n, _ => 97)
  }

  lemma {:induction false} KeysAreShort(a: Bytes, key: Bytes)
    requires |key| > |a|
    ensures !Has(Lines(a), key)
    decreases |a|
  {
    if a != [] {
      var e := LineEnd(a);
      KeysAreShort(a[e..], key);
      HasCons(a[..e], Lines(a[e..]), key);
    }
  }

  lemma HasCons(line: Bytes, rest: seq<Bytes>, key: Bytes)
    ensures Has([line] + rest, key) ==> Has(rest, key) || Key(line) == key
  {
    var ls := [line] + rest;
    if Has(ls, key) {
      var i: nat :| i < |ls| && Key(ls[i]) == key;
      assert i > 0 ==> ls[i] == rest[i - 1];
    }
  }

  lemma LettersAreFresh(a: Bytes, torn: Bytes, n: nat)
    requires NL !in torn && n > |a|
    ensures Torn(torn + Letters(n)) && Fresh(Lines(a), torn + Letters(n))
  {
    var line := torn + Letters(n);
    assert line[|line| - 1] == 97;
    assert Key(line) == line;
    KeysAreShort(a, line);
  }

  /** On a torn file repair commutes with every later append exactly when the torn piece was kept:
      dropping it lets the rest of its line be read as a line of its own. */
  lemma CommutesExactly(a: Bytes, torn: Bytes)
    requires Aligned(a) && Torn(torn)
    ensures (forall b :: Dedup(Dedup(a + torn) + b) == Dedup((a + torn) + b)) <==> Fresh(Lines(a), torn)
  {
    if Fresh(Lines(a), torn) {
      forall b ensures Dedup(Dedup(a + torn) + b) == Dedup((a + torn) + b) {
        KeptCommutes(a, torn, b);
      }
    } else {
      DroppedDiffers(a, torn);
    }
  }

  lemma KeptCommutes(a: Bytes, torn: Bytes, b: Bytes)
    requires Aligned(a) && Torn(torn) && Fresh(Lines(a), torn)
    ensures Dedup(Dedup(a + torn) + b) == Dedup((a + torn) + b)
  {
    DedupLast(a, torn);
    Reassoc(Dedup(a), torn, b);
    Reassoc(a, torn, b);
    DedupAbsorbs(a, torn + b);
  }

  lemma LongTailIsKept(a: Bytes, torn: Bytes, n: nat)
    requires Aligned(a) && NL !in torn && n > |a|
    ensures |Dedup(a + (torn + Letters(n)))| == |Dedup(a)| + |torn| + n
  {
    LettersAreFresh(a, torn, n);
    DedupLast(a, torn + Letters(n));
  }

  lemma DroppedDiffers(a: Bytes, torn: Bytes)
    requires Aligned(a) && Torn(torn) && !Fresh(Lines(a), torn)
    ensures var b := Letters(|a| + 1); |Dedup(Dedup(a + torn) + b)| < |Dedup((a + torn) + b)|
  {
    DroppedDiffersBy(a, torn, |a| + 1);
  }

  lemma DroppedDiffersBy(a: Bytes, torn: Bytes, n: nat)
    requires Aligned(a) && Torn(torn) && !Fresh(Lines(a), torn) && n > |a|
    ensures |Dedup(Dedup(a + torn) + Letters(n))| < |Dedup((a + torn) + Letters(n))|
  {
    DroppedIsGone(a, torn);
    ShorterAfter(a, torn, n);
    SameRepair(Dedup(a + torn), Dedup(a), Letters(n));
  }

  lemma SameRepair(x: Bytes, y: Bytes, b: Bytes)
    requires x == y
    ensures |Dedup(x + b)| == |Dedup(y + b)|
  {
  }

  lemma DroppedIsGone(a: Bytes, torn: Bytes)
    requires Aligned(a) && Torn(torn) && !Fresh(Lines(a), torn)
    ensures Dedup(a + torn) == Dedup(a)
  {
    DedupLast(a, torn);
    assert Dedup(a) + [] == Dedup(a);
  }

  lemma ShorterAfter(a: Bytes, torn: Bytes, n: nat)
    requires Aligned(a) && Torn(torn) && n > |a|
    ensures |Dedup(Dedup(a) + Letters(n))| < |Dedup((a + torn) + Letters(n))|
  {
    var b := Letters(n);
    LongTailIsKept(a, torn, n);
    Reassoc(a, torn, b);
    LongTailIsKept(a, [], n);
    assert [] + b == b;
    DedupAbsorbs(a, b);
  }

  ghost predicate SeenIs(seen: set<Bytes>, done: seq<Bytes>) {
    forall k :: k in seen <==> Has(done, k)
  }

  lemma SeenSnoc(seen: set<Bytes>, done: seq<Bytes>, line: Bytes)
    requires SeenIs(seen, done)
    ensures SeenIs(seen + {Key(line)}, done + [line])
    ensures Fresh(done, line) <==> Void(Key(line)) || Key(line) !in seen
  {
    forall k ensures k in seen + {Key(line)} <==> Has(done + [line], k) { HasSnoc(done, line, k); }
  }

  /** Where the scan of `all` lines is: past `done`, with these keys and first copies; `rest` to go. */
  ghost predicate Scanned(all: seq<Bytes>, rest: Bytes, done: seq<Bytes>, seen: set<Bytes>, parts: seq<Bytes>) {
    all == done + Lines(rest) && SeenIs(seen, done) && parts == First(done)
  }

  /** The scan with its set of seen keys. `buf.indexOf(10, start)` is `LineEnd` of what is left. */
  method DedupLines(buf: Bytes) returns (out: Bytes, dropped: nat)
    ensures out == Dedup(buf)
    ensures dropped == |Lines(buf)| - |First(Lines(buf))|
    ensures dropped == 0 ==> out == buf
  {
    var parts;
    parts, dropped := ScanLines(buf, Lines(buf));
    JoinLines(buf);
    NoneDropped(Lines(buf));
    out := if dropped > 0 then Join(parts) else buf;
  }

  method ScanLines(buf: Bytes, ghost all: seq<Bytes>) returns (parts: seq<Bytes>, dropped: nat)
    requires all == Lines(buf)
    ensures parts == First(all) && dropped == |all| - |parts|
  {
    var seen: set<Bytes> := {};
    parts, dropped := [], 0;
    var start: nat := 0;
    ghost var done: seq<Bytes>, left := [], buf;
    ScanStarts(all, buf);
    while start < |buf|
      invariant start <= |buf| && left == buf[start..] && dropped == |done| - |parts|
      invariant Scanned(all, left, done, seen, parts)
    {
      var line := LineAt(buf, start, left);
      var isCopy;
      seen, parts, isCopy, done, left := Advance(all, line, seen, parts, done, left);
      if isCopy { dropped := dropped + 1; }
      start := start + |line|;
    }
    ScanEnds(all, left, done, seen, parts);
  }

  lemma ScanStarts(all: seq<Bytes>, buf: Bytes)
    requires all == Lines(buf)
    ensures Scanned(all, buf, [], {}, []) && buf[0..] == buf
  {
  }

  lemma ScanEnds(all: seq<Bytes>, left: Bytes, done: seq<Bytes>, seen: set<Bytes>, parts: seq<Bytes>)
    requires left == [] && Scanned(all, left, done, seen, parts)
    ensures parts == First(all) && done == all
  {
    assert Lines([]) == [] && done + [] == done;
  }

  /** The line at `start`, by the next newline or the end. */
  method LineAt(buf: Bytes, start: nat, ghost left: Bytes) returns (line: Bytes)
    requires start < |buf| && left == buf[start..]
    ensures line == FirstLineOf(left) && start + |line| <= |buf| && left[|line|..] == buf[start + |line|..]
  {
    line := FirstLineOf(buf[start..]);
  }

  method Advance(ghost all: seq<Bytes>, line: Bytes, seen: set<Bytes>, parts: seq<Bytes>, ghost done: seq<Bytes>, ghost left: Bytes)
    returns (seen': set<Bytes>, parts': seq<Bytes>, isCopy: bool, ghost done': seq<Bytes>, ghost left': Bytes)
    requires left != [] && line == FirstLineOf(left) && Scanned(all, left, done, seen, parts)
    ensures Scanned(all, left', done', seen', parts') && left' == left[|line|..]
    ensures |done'| == |done| + 1 && |parts'| == |parts| + if isCopy then 0 else 1
  {
    StepLines(all, left, done);
    seen', parts', isCopy := TakeLine(seen, parts, line, done);
    done', left' := done + [line], left[|line|..];
  }

  function FirstLineOf(rest: Bytes): (line: Bytes)
    requires rest != []
    ensures 1 <= |line| <= |rest|
  {
    rest[..LineEnd(rest)]
  }

  /** One line of the scan. */
  method TakeLine(seen: set<Bytes>, parts: seq<Bytes>, line: Bytes, ghost done: seq<Bytes>)
    returns (seen': set<Bytes>, parts': seq<Bytes>, isCopy: bool)
    requires SeenIs(seen, done) && parts == First(done)
    ensures SeenIs(seen', done + [line]) && parts' == First(done + [line])
    ensures |parts'| == |parts| + if isCopy then 0 else 1
  {
    TakenOrDropped(seen, parts, line, done);
    var key := KeyOf(line);
    isCopy := !Void(key) && key in seen;
    if isCopy {
      assert seen + {key} == seen;
      seen', parts' := seen, parts;
    } else {
      seen', parts' := seen + {key}, parts + [line];
    }
  }

  lemma TakenOrDropped(seen: set<Bytes>, parts: seq<Bytes>, line: Bytes, done: seq<Bytes>)
    requires SeenIs(seen, done) && parts == First(done)
    ensures SeenIs(seen + {Key(line)}, done + [line])
    ensures var copy := !Void(Key(line)) && Key(line) in seen;
            First(done + [line]) == if copy then parts else parts + [line]
  {
    SeenSnoc(seen, done, line);
    FirstSnoc(done, line);
    assert parts + [] == parts;
  }

  method KeyOf(line: Bytes) returns (key: Bytes)
    ensures key == Key(line)
  {
    var body := Body(line);
    var cut := BlankTailStart(body);
    key := body[..cut];
  }

  lemma StepLines(all: seq<Bytes>, rest: Bytes, done: seq<Bytes>)
    requires rest != [] && all == done + Lines(rest)
    ensures var line := FirstLineOf(rest); all == (done + [line]) + Lines(rest[|line|..])
  {
    var line := FirstLineOf(rest);
    Reassoc(done, [line], Lines(rest[|line|..]));
  }

  lemma {:induction false} NoneDropped(ls: seq<Bytes>)
    ensures |First(ls)| == |ls| ==> First(ls) == ls
  {
    if ls != [] {
      FirstAmong(ls[..|ls| - 1]);
      NoneDropped(ls[..|ls| - 1]);
      Rejoin(ls);
    }
  }
}
