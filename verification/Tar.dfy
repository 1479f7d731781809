/** The streaming ustar writer (turma/tar.js) and a reader for the "ustar Interchange Format" of the
    pax utility in POSIX.1-2017. Names are their UTF-8 bytes; a slash is one byte there. */
module Tar {
  import opened Basics

  const BLOCK := 512
  const NAME_MAX := 100
  const PREFIX_MAX := 155
  const SLASH: Byte := 47
  const ZERO_DIGIT: Byte := 48
  const SPACE: Byte := 32

  function Zeros(n: nat): (z: Bytes)
    ensures |z| == n && forall i :: 0 <= i < n ==> z[i] == 0
  {
    seq(n, _ => 0)
  }

  // ---- names ----------------------------------------------------------------------------

  datatype Split = Split(prefix: Bytes, name: Bytes)

  /** Cutting at the slash `i` leaves a prefix and a nonempty name that both fit. */
  predicate Fits(s: Bytes, i: nat) {
    i < |s| && s[i] == SLASH && i <= PREFIX_MAX && 1 <= |s| - i - 1 <= NAME_MAX
  }

  /** The last slash before `n` that fits. */
  function LastFit(s: Bytes, n: nat): (r: Option<nat>)
    requires n <= |s|
    ensures r.Some? ==> r.value < n && Fits(s, r.value)
    ensures forall i :: 0 <= i < n && Fits(s, i) ==> r.Some? && i <= r.value
  {
    if n == 0 then None else if Fits(s, n - 1) then Some(n - 1) else LastFit(s, n - 1)
  }

  function SplitName(s: Bytes): (r: Option<Split>)
    ensures r.Some? ==> Expressible(r.value)
  {
    if s == [] then None
    else if |s| <= NAME_MAX then Some(Split([], s))
    else
      var i := LastFit(s, |s|);
      if i.None? then None else Some(Split(s[..i.value], s[i.value + 1..]))
  }

  /** The search loop. Null exactly when the format cannot express the name. */
  method SplitUstarName(s: Bytes) returns (r: Option<Split>)
    ensures r == SplitName(s)
    ensures r.None? <==> s == [] || (|s| > NAME_MAX && forall i :: 0 <= i < |s| ==> !Fits(s, i))
  {
    if s == [] { return None; }
    if |s| <= NAME_MAX { return Some(Split([], s)); }
    var i: nat := |s|;
    while i > 0
      invariant i <= |s| && LastFit(s, |s|) == LastFit(s, i)
      invariant forall j :: i <= j < |s| ==> !Fits(s, j)
    {
      i := i - 1;
      if s[i] == SLASH {
        var prefix, rest := s[..i], s[i + 1..];
        if rest != [] && |prefix| <= PREFIX_MAX && |rest| <= NAME_MAX {
          return Some(Split(prefix, rest));
        }
      }
    }
    return None;
  }

  // ---- octal ---------------------------------------------------------------------------

  function Digits(n: nat): (d: Bytes)
    ensures |d| >= 1 && forall i :: 0 <= i < |d| ==> ZERO_DIGIT <= d[i] < ZERO_DIGIT + 8
  {
    if n < 8 then [ZERO_DIGIT + n] else Digits(n / 8) + [ZERO_DIGIT + n % 8]
  }

  function ZeroDigits(n: nat): (z: Bytes)
    ensures |z| == n && forall i :: 0 <= i < n ==> z[i] == ZERO_DIGIT
  {
    seq(n, _ => ZERO_DIGIT)
  }

  /** Digits padded to width - 1, and the terminating NUL. */
  function Octal(n: nat, width: nat): Bytes
    requires width >= 1
  {
    var d := Digits(n);
    (if |d| < width - 1 then ZeroDigits(width - 1 - |d|) + d else d) + [0]
  }

  function Value(d: Bytes): int {
    if d == [] then 0 else Value(d[..|d| - 1]) * 8 + (d[|d| - 1] - ZERO_DIGIT)
  }

  function Pow8(k: nat): (p: nat)
    ensures p >= 1
  {
    if k == 0 then 1 else 8 * Pow8(k - 1)
  }

  predicate OctDigit(b: Byte) { ZERO_DIGIT <= b < ZERO_DIGIT + 8 }

  /** How many octal digits a field starts with. */
  function DigitRun(f: Bytes): (n: nat)
    ensures n <= |f| && (forall i :: 0 <= i < n ==> OctDigit(f[i])) && (n < |f| ==> !OctDigit(f[n]))
  {
    if f == [] || !OctDigit(f[0]) then 0 else 1 + DigitRun(f[1..])
  }

  /** A numeric field: octal digits closed by a NUL or a space. */
  function ReadOctal(f: Bytes): Option<int> {
    var n := DigitRun(f);
    if n == 0 || n == |f| || (f[n] != 0 && f[n] != SPACE) then None else Some(Value(f[..n]))
  }

  lemma {:induction false} ValueOfDigits(n: nat)
    ensures Value(Digits(n)) == n
  {
    if n >= 8 {
      ValueOfDigits(n / 8);
      var d := Digits(n);
      assert d[..|d| - 1] == Digits(n / 8);
    } else {
      assert [ZERO_DIGIT + n][..0] == [];
    }
  }

  lemma {:induction false} ValuePadded(k: nat, d: Bytes)
    ensures Value(ZeroDigits(k) + d) == Value(d)
  {
    if d == [] {
      assert ZeroDigits(k) + d == ZeroDigits(k);
      ValueZeros(k);
    } else {
      ValuePadded(k, d[..|d| - 1]);
      var z := ZeroDigits(k) + d;
      assert z[..|z| - 1] == ZeroDigits(k) + d[..|d| - 1];
    }
  }

  lemma {:induction false} ValueZeros(k: nat)
    ensures Value(ZeroDigits(k)) == 0
  {
    if k > 0 {
      assert ZeroDigits(k)[..k - 1] == ZeroDigits(k - 1);
      ValueZeros(k - 1);
    }
  }

  lemma {:induction false} DigitsFit(n: nat, k: nat)
    requires k >= 1
    ensures |Digits(n)| <= k <==> n < Pow8(k)
  {
    if k == 1 {
      assert Pow8(1) == 8 * Pow8(0);
    } else if n >= 8 {
      DigitsFit(n / 8, k - 1);
      assert n < 8 * Pow8(k - 1) <==> n / 8 < Pow8(k - 1);
    } else {
      assert Pow8(k) == 8 * Pow8(k - 1);
    }
  }

  lemma DigitRunIs(f: Bytes, n: nat)
    requires n <= |f| && (forall i :: 0 <= i < n ==> OctDigit(f[i])) && (n < |f| ==> !OctDigit(f[n]))
    ensures DigitRun(f) == n
  {
  }

  lemma ReadTerminated(d: Bytes, rest: Bytes)
    requires d != [] && forall i :: 0 <= i < |d| ==> OctDigit(d[i])
    ensures ReadOctal(d + [0] + rest) == Some(Value(d))
  {
    var f := d + [0] + rest;
    DigitRunIs(f, |d|);
    assert f[..|d|] == d;
  }

  function Padded(n: nat, k: nat): (d: Bytes)
    requires |Digits(n)| <= k
    ensures |d| == k && forall i :: 0 <= i < k ==> OctDigit(d[i])
  {
    ZeroDigits(k - |Digits(n)|) + Digits(n)
  }

  lemma OctalIsPadded(n: nat, width: nat)
    requires width >= 2 && |Digits(n)| <= width - 1
    ensures Octal(n, width) == Padded(n, width - 1) + [0] && Value(Padded(n, width - 1)) == n
  {
    var d := Digits(n);
    ValueOfDigits(n);
    ValuePadded(width - 1 - |d|, d);
    assert ZeroDigits(0) + d == d;
  }

  /** A number that fits its field reads back; one that does not leaves no terminator. */
  lemma OctalRoundTrip(n: nat, width: nat, rest: Bytes)
    requires width >= 2 && n < Pow8(width - 1)
    ensures |Octal(n, width)| == width && ReadOctal(Octal(n, width) + rest) == Some(n)
  {
    DigitsFit(n, width - 1);
    OctalIsPadded(n, width);
    ReadTerminated(Padded(n, width - 1), rest);
  }

  lemma OctalOverflow(n: nat, width: nat)
    requires width >= 2 && n >= Pow8(width - 1)
    ensures |Octal(n, width)| > width && ReadOctal(Octal(n, width)[..width]) == None
  {
    DigitsFit(n, width - 1);
    DigitRunIs(Octal(n, width)[..width], width);
  }

  // ---- the header ------------------------------------------------------------------------

  const Mode: Bytes := [48, 48, 48, 48, 54, 52, 52, 0]
  const Root: Bytes := [48, 48, 48, 48, 48, 48, 48, 0]
  const Spaces: Bytes := [32, 32, 32, 32, 32, 32, 32, 32]
  const Regular: Bytes := [48]
  const Magic: Bytes := [117, 115, 116, 97, 114, 0]
  const Version: Bytes := [48, 48]

  /** `s` in a field of `width` bytes, NUL-padded. */
  function Field(s: Bytes, width: nat): (f: Bytes)
    requires |s| <= width
    ensures |f| == width
  {
    s + Zeros(width - |s|)
  }

  /** A number cut to its twelve-byte field, as a bounded buffer write cuts it. */
  function Twelve(n: nat): (f: Bytes)
    ensures |f| == 12
  {
    Octal(n, 12)[..12]
  }

  /** Octets 0 to 147: name, mode, uid, gid, size, mtime. */
  function Left(name: Bytes, size: nat, mtime: nat): (l: Bytes)
    requires |name| <= NAME_MAX
    ensures |l| == 148
  {
    Field(name, NAME_MAX) + Mode + Root + Root + Twelve(size) + Twelve(mtime)
  }

  /** Octets 156 to 511: type, link name, magic, version, owner and device fields, prefix. */
  function Right(prefix: Bytes): (r: Bytes)
    requires |prefix| <= PREFIX_MAX
    ensures |r| == 356
  {
    Regular + Zeros(100) + Magic + Version + Zeros(80) + Field(prefix, PREFIX_MAX) + Zeros(12)
  }

  function Sum(b: Bytes): (n: nat)
    ensures n <= 255 * |b|
  {
    if b == [] then 0 else Sum(b[..|b| - 1]) + b[|b| - 1]
  }

  predicate Expressible(sp: Split) { |sp.prefix| <= PREFIX_MAX && |sp.name| <= NAME_MAX }

  function HeaderSum(sp: Split, size: nat, mtime: nat): (n: nat)
    requires Expressible(sp)
    ensures n < Pow8(6)
  {
    assert Pow8(1) == 8 && Pow8(2) == 64 && Pow8(3) == 512 && Pow8(4) == 4096 && Pow8(5) == 32768;
    Sum(Left(sp.name, size, mtime) + Spaces + Right(sp.prefix))
  }

  function Checksum(n: nat): Bytes { Octal(n, 7) + [SPACE] }

  function HeaderOf(sp: Split, size: nat, mtime: nat): Bytes
    requires Expressible(sp)
  {
    Left(sp.name, size, mtime) + Checksum(HeaderSum(sp, size, mtime)) + Right(sp.prefix)
  }

  /** One bounded write into the buffer. */
  method Put(buf: array<Byte>, at: nat, s: Bytes)
    requires at + |s| <= buf.Length
    modifies buf
    ensures buf[..] == old(buf[..])[..at] + s + old(buf[..])[at + |s|..]
  {
    var i := 0;
    while i < |s|
      invariant i <= |s|
      invariant forall k :: 0 <= k < i ==> buf[at + k] == s[k]
      invariant forall k :: 0 <= k < buf.Length && !(at <= k < at + i) ==> buf[k] == old(buf[k])
    {
      buf[at + i] := s[i];
      i := i + 1;
    }
    assert buf[..] == old(buf[..])[..at] + s + old(buf[..])[at + |s|..];
  }

  /** A write past everything placed so far, into a buffer that is zero from there on. */
  method Place(buf: array<Byte>, at: nat, s: Bytes, ghost done: Bytes)
    requires |done| <= at && at + |s| <= buf.Length
    requires buf[..] == done + Zeros(buf.Length - |done|)
    modifies buf
    ensures buf[..] == (done + Zeros(at - |done|) + s) + Zeros(buf.Length - at - |s|)
  {
    Put(buf, at, s);
    PutInZeros(done, at, s, buf.Length);
  }

  lemma PutInZeros(done: Bytes, at: nat, s: Bytes, n: nat)
    requires |done| <= at && at + |s| <= n
    ensures var b := done + Zeros(n - |done|);
            b[..at] + s + b[at + |s|..] == (done + Zeros(at - |done|) + s) + Zeros(n - at - |s|)
  {
  }

  /** Everything but the checksum, whose field holds spaces. */
  method Fill(sp: Split, size: nat, mtime: nat) returns (buf: array<Byte>)
    requires Expressible(sp)
    ensures fresh(buf) && buf.Length == BLOCK
    ensures buf[..] == Left(sp.name, size, mtime) + Spaces + Right(sp.prefix)
  {
    buf := FillLeft(sp.name, size, mtime);
    ghost var l := Left(sp.name, size, mtime);
    Place(buf, 148, Spaces, l);
    ghost var d1 := l + Spaces;
    assert l + Zeros(0) + Spaces == d1;
    Place(buf, 156, Regular, d1);
    ghost var d2 := d1 + Regular;
    assert d1 + Zeros(0) + Regular == d2;
    Place(buf, 257, Magic, d2);
    ghost var d3 := d2 + Zeros(100) + Magic;
    Place(buf, 263, Version, d3);
    ghost var d4 := d3 + Version;
    assert d3 + Zeros(0) + Version == d4;
    if sp.prefix != [] {
      Place(buf, 345, sp.prefix, d4);
    }
    FillRight(l, sp.prefix);
  }

  lemma FillRight(l: Bytes, prefix: Bytes)
    requires |l| == 148 && |prefix| <= PREFIX_MAX
    ensures var d := l + Spaces + Regular + Zeros(100) + Magic + Version;
            d + Zeros(80) + prefix + Zeros(BLOCK - 345 - |prefix|) == l + Spaces + Right(prefix)
    ensures prefix == [] ==>
      l + Spaces + Regular + Zeros(100) + Magic + Version + Zeros(247) == l + Spaces + Right(prefix)
  {
    var tail := Zeros(PREFIX_MAX - |prefix|) + Zeros(12);
    assert Zeros(BLOCK - 345 - |prefix|) == tail;
    assert prefix == [] ==> Zeros(247) == Zeros(80) + prefix + tail;
    var m := Regular + Zeros(100) + Magic + Version + Zeros(80);
    assert Right(prefix) == m + prefix + tail;
    assert l + Spaces + Regular + Zeros(100) + Magic + Version + Zeros(80) == l + Spaces + m;
  }

  method FillLeft(name: Bytes, size: nat, mtime: nat) returns (buf: array<Byte>)
    requires |name| <= NAME_MAX
    ensures fresh(buf) && buf.Length == BLOCK
    ensures buf[..] == Left(name, size, mtime) + Zeros(BLOCK - 148)
  {
    buf := new Byte[BLOCK](_ => 0);
    assert buf[..] == [] + Zeros(BLOCK);
    Place(buf, 0, name, []);
    assert [] + Zeros(0) + name == name;
    Place(buf, 100, Mode, name);
    ghost var d1 := Field(name, NAME_MAX) + Mode;
    Place(buf, 108, Root, d1);
    ghost var d2 := d1 + Root;
    assert d1 + Zeros(0) + Root == d2;
    Place(buf, 116, Root, d2);
    ghost var d3 := d2 + Root;
    assert d2 + Zeros(0) + Root == d3;
    Place(buf, 124, Octal(size, 12)[..12], d3);
    ghost var d4 := d3 + Twelve(size);
    assert d3 + Zeros(0) + Twelve(size) == d4;
    Place(buf, 136, Octal(mtime, 12)[..12], d4);
    assert d4 + Zeros(0) + Twelve(mtime) == Left(name, size, mtime);
  }

  /** The header writer: fields in place, the sum over the buffer, the sum written back. */
  method Header(name: Bytes, size: nat, mtime: nat) returns (r: Option<Bytes>)
    ensures r.None? <==> SplitName(name).None?
    ensures r.Some? ==> r.value == HeaderOf(SplitName(name).value, size, mtime)
  {
    var split := SplitUstarName(name);
    if split.None? { return None; }
    var sp := split.value;
    var buf := Fill(sp, size, mtime);
    ghost var l, g := Left(sp.name, size, mtime), Right(sp.prefix);
    var sum: nat, i: nat := 0, 0;
    while i < buf.Length
      invariant i <= buf.Length && sum == Sum(buf[..i])
    {
      assert buf[..i + 1][..i] == buf[..i];
      sum := sum + buf[i];
      i := i + 1;
    }
    assert buf[..i] == l + Spaces + g;
    assert sum == HeaderSum(sp, size, mtime);
    OctalRoundTrip(sum, 7, []);
    Put(buf, 148, Octal(sum, 7) + [SPACE]);
    assert (l + Spaces + g)[..148] == l && (l + Spaces + g)[156..] == g;
    return Some(buf[..]);
  }

  // ---- a POSIX reader --------------------------------------------------------------------

  /** A character field up to its first NUL, or all of it. */
  function Text(f: Bytes): (r: Bytes)
    ensures 0 !in r
  {
    if f == [] || f[0] == 0 then [] else [f[0]] + Text(f[1..])
  }

  function Member(prefix: Bytes, name: Bytes): Bytes {
    if prefix == [] then name else prefix + [SLASH] + name
  }

  /** The recorded checksum is the octet sum with its own field read as spaces. */
  predicate SumVerifies(h: Bytes)
    requires |h| == BLOCK
  {
    ReadOctal(h[148..156]) == Some(Sum(h[..148] + Spaces + h[156..]))
  }

  function NameIn(h: Bytes): Bytes
    requires |h| == BLOCK
  {
    Member(Text(h[345..500]), Text(h[..100]))
  }

  predicate Recognised(h: Bytes)
    requires |h| == BLOCK
  {
    SumVerifies(h) && h[257..263] == Magic && h[263..265] == Version && h[156..157] == Regular
  }

  datatype Entry = Entry(name: Bytes, data: Bytes)

  function Pad(size: nat): (n: nat)
    ensures (size + n) % BLOCK == 0 && n < BLOCK
  {
    if size % BLOCK != 0 then BLOCK - size % BLOCK else 0
  }

  /** Headers, each followed by its data in whole blocks, up to two zero blocks. */
  function ReadAll(s: Bytes): Option<seq<Entry>>
    decreases |s|
  {
    if |s| < BLOCK then None
    else if s[..BLOCK] == Zeros(BLOCK) then
      if |s| >= 2 * BLOCK && s[BLOCK..2 * BLOCK] == Zeros(BLOCK) then Some([]) else None
    else
      var h := s[..BLOCK];
      var n := ReadOctal(h[124..136]);
      if !Recognised(h) || n.None? || n.value < 0 then None
      else
        var size: nat := n.value;
        if |s| < BLOCK + size + Pad(size) then None
        else
          var rest := ReadAll(s[BLOCK + size + Pad(size)..]);
          if rest.None? then None
          else Some([Entry(NameIn(h), s[BLOCK..BLOCK + size])] + rest.value)
  }

  // ---- what the reader makes of a written header -------------------------------------------

  lemma TextOfField(s: Bytes, width: nat)
    requires |s| <= width
    ensures Text(Field(s, width)) == Text(s)
  {
    if s == [] {
    } else {
      assert Field(s, width)[1..] == Field(s[1..], width - 1);
      TextOfField(s[1..], width - 1);
    }
  }

  lemma TextWhole(s: Bytes)
    ensures Text(s) == s <==> 0 !in s
    ensures |Text(s)| <= |s|
  {
    if s != [] {
      TextWhole(s[1..]);
    }
  }

  lemma LeftFields(name: Bytes, size: nat, mtime: nat)
    requires |name| <= NAME_MAX
    ensures var l := Left(name, size, mtime);
            l[..100] == Field(name, NAME_MAX) && l[124..136] == Twelve(size) && l[100] == ZERO_DIGIT
  {
  }

  lemma RightFields(prefix: Bytes)
    requires |prefix| <= PREFIX_MAX
    ensures var r := Right(prefix);
            r[189..344] == Field(prefix, PREFIX_MAX) && r[101..107] == Magic && r[107..109] == Version && r[..1] == Regular
  {
  }

  lemma Slices(l: Bytes, c: Bytes, r: Bytes)
    requires |l| == 148 && |c| == 8 && |r| == 356
    ensures var h := l + c + r;
            |h| == BLOCK && h[..148] == l && h[148..156] == c && h[156..] == r
            && h[..100] == l[..100] && h[124..136] == l[124..136] && h[100] == l[100]
            && h[345..500] == r[189..344] && h[257..263] == r[101..107] && h[263..265] == r[107..109]
            && h[156..157] == r[..1]
  {
  }

  /** The header is one block, is not the end mark, is recognised, and carries name and size. */
  lemma HeaderReads(sp: Split, size: nat, mtime: nat)
    requires Expressible(sp)
    ensures var h := HeaderOf(sp, size, mtime);
            |h| == BLOCK && h != Zeros(BLOCK) && Recognised(h)
            && NameIn(h) == Member(Text(sp.prefix), Text(sp.name)) && h[124..136] == Twelve(size)
  {
    var sum := HeaderSum(sp, size, mtime);
    OctalRoundTrip(sum, 7, [SPACE]);
    Slices(Left(sp.name, size, mtime), Checksum(sum), Right(sp.prefix));
    LeftFields(sp.name, size, mtime);
    RightFields(sp.prefix);
    TextOfField(sp.name, NAME_MAX);
    TextOfField(sp.prefix, PREFIX_MAX);
  }

  /** The size field reads back exactly for sizes below 8 to the 11th. */
  lemma SizeReadsExactly(size: nat)
    ensures ReadOctal(Twelve(size)) == Some(size) <==> size < Pow8(11)
    ensures ReadOctal(Twelve(size)).None? <==> size >= Pow8(11)
  {
    if size < Pow8(11) {
      OctalRoundTrip(size, 12, []);
      assert Octal(size, 12) + [] == Octal(size, 12)[..12];
    } else {
      OctalOverflow(size, 12);
    }
  }

  /** What else a reader takes from a header: mode, owner, group and time, and where a link would point. */
  datatype Meta = Meta(mode: Option<int>, uid: Option<int>, gid: Option<int>, mtime: Option<int>, link: Bytes)

  function MetaIn(h: Bytes): Meta
    requires |h| == BLOCK
  {
    Meta(ReadOctal(h[100..108]), ReadOctal(h[108..116]), ReadOctal(h[116..124]), ReadOctal(h[136..148]), Text(h[157..257]))
  }

  lemma MetaSlices(l: Bytes, c: Bytes, r: Bytes)
    requires |l| == 148 && |c| == 8 && |r| == 356
    ensures var h := l + c + r;
            h[100..108] == l[100..108] && h[108..116] == l[108..116] && h[116..124] == l[116..124] && h[136..148] == l[136..148]
            && h[157..257] == r[1..101]
  {
  }

  lemma MetaFields(name: Bytes, size: nat, mtime: nat, prefix: Bytes)
    requires |name| <= NAME_MAX && |prefix| <= PREFIX_MAX
    ensures var l := Left(name, size, mtime);
            l[100..108] == Mode && l[108..116] == Root && l[116..124] == Root && l[136..148] == Twelve(mtime)
    ensures Right(prefix)[1..101] == Zeros(100)
  {
  }

  lemma DigitsRead(d: Bytes, n: int)
    requires |d| == 7 && Value(d) == n && forall i :: 0 <= i < 7 ==> OctDigit(d[i])
    ensures ReadOctal(d + [0]) == Some(n)
  {
    ReadTerminated(d, []);
    assert d + [0] + [] == d + [0];
  }

  lemma OwnerReads()
    ensures ReadOctal(Root) == Some(0)
  {
    ValueZeros(7);
    DigitsRead(ZeroDigits(7), 0);
    assert ZeroDigits(7) + [0] == Root;
  }

  lemma ModeValue(d: Bytes)
    requires d == [48, 48, 48, 48, 54, 52, 52]
    ensures Value(d) == 6 * 64 + 4 * 8 + 4
  {
    ValuePadded(4, [54, 52, 52]);
    assert ZeroDigits(4) + [54, 52, 52] == d;
    assert [54, 52, 52][..2] == [54, 52] && [54, 52][..1] == [54] && [54][..0] == [];
  }

  lemma ModeReads()
    ensures ReadOctal(Mode) == Some(6 * 64 + 4 * 8 + 4)
  {
    var d: Bytes := [48, 48, 48, 48, 54, 52, 52];
    ModeValue(d);
    DigitsRead(d, 6 * 64 + 4 * 8 + 4);
    assert d + [0] == Mode;
  }

  /** The reader finds a plain file of mode 0644, owned by root, without a link; its time reads back for
      times below 8 to the 11th, and not at all from there on. */
  lemma MetaReadsExactly(sp: Split, size: nat, mtime: nat)
    requires Expressible(sp)
    ensures |HeaderOf(sp, size, mtime)| == BLOCK
    ensures MetaIn(HeaderOf(sp, size, mtime))
         == Meta(Some(6 * 64 + 4 * 8 + 4), Some(0), Some(0), if mtime < Pow8(11) then Some(mtime) else None, [])
  {
    var sum := HeaderSum(sp, size, mtime);
    HeaderReads(sp, size, mtime);
    OctalRoundTrip(sum, 7, [SPACE]);
    MetaSlices(Left(sp.name, size, mtime), Checksum(sum), Right(sp.prefix));
    MetaFields(sp.name, size, mtime, sp.prefix);
    ModeReads();
    OwnerReads();
    SizeReadsExactly(mtime);
  }

  /** The name the reader recovers is the one packed exactly when it holds no NUL and was not
      split at a leading slash. */
  lemma NameReadsExactly(s: Bytes)
    requires SplitName(s).Some?
    ensures var sp := SplitName(s).value;
            Member(Text(sp.prefix), Text(sp.name)) == s
            <==> 0 !in s && !(|s| > NAME_MAX && LastFit(s, |s|) == Some(0))
  {
    var sp := SplitName(s).value;
    MemberIsClean(sp.prefix, sp.name);
    if |s| > NAME_MAX {
      var i := LastFit(s, |s|).value;
      CutAt(s, i);
    } else if 0 !in s {
      MemberWhole([], s);
    }
  }

  lemma CutAt(s: Bytes, i: nat)
    requires i < |s| && s[i] == SLASH
    ensures 0 !in s && i > 0 ==> Member(Text(s[..i]), Text(s[i + 1..])) == s
    ensures i == 0 ==> Member(Text(s[..i]), Text(s[i + 1..])) != s
  {
    if i == 0 {
      TextWhole(s[1..]);
      assert |Member(Text(s[..0]), Text(s[1..]))| < |s|;
    } else if 0 !in s {
      MemberWhole(s[..i], s[i + 1..]);
      Around(s, i);
    }
  }

  lemma Around<T>(s: seq<T>, i: nat)
    requires i < |s|
    ensures s == s[..i] + [s[i]] + s[i + 1..]
  {
  }

  lemma MemberIsClean(prefix: Bytes, name: Bytes)
    ensures 0 !in Member(Text(prefix), Text(name))
  {
  }

  lemma MemberWhole(prefix: Bytes, name: Bytes)
    requires 0 !in prefix && 0 !in name
    ensures Member(Text(prefix), Text(name)) == Member(prefix, name)
  {
    TextWhole(prefix);
    TextWhole(name);
  }

  /** Such a name exists: a slash and a hundred letters comes back without the slash. */
  lemma LeadingSlashIsLost()
    ensures var s: Bytes := [SLASH] + seq(100, _ => 97);
            SplitName(s).Some? && Member(Text(SplitName(s).value.prefix), Text(SplitName(s).value.name)) == s[1..]
  {
    var s: Bytes := [SLASH] + seq(100, _ => 97);
    assert Fits(s, 0);
    assert LastFit(s, |s|) == Some(0);
    assert s[..0] == [];
    TextWhole(s[1..]);
  }

  // ---- the stream ------------------------------------------------------------------------

  /** A file to pack: its recorded size, and the chunks a read of it yields. */
  datatype File = File(name: Bytes, size: nat, chunks: seq<Bytes>)

  function Concat(c: seq<Bytes>): Bytes {
    if c == [] then [] else Concat(c[..|c| - 1]) + c[|c| - 1]
  }

  /** Exactly `size` octets: the content cut off, or filled up with NULs. */
  function Payload(content: Bytes, size: nat): (p: Bytes)
    ensures |p| == size
  {
    if |content| >= size then content[..size] else content + Zeros(size - |content|)
  }

  predicate Packable(f: File) { SplitName(f.name).Some? }

  function MemberBytes(f: File, mtime: nat): Bytes
    requires Packable(f)
  {
    HeaderOf(SplitName(f.name).value, f.size, mtime) + Payload(Concat(f.chunks), f.size) + Zeros(Pad(f.size))
  }

  function One(f: File, mtime: nat): Bytes { if Packable(f) then MemberBytes(f, mtime) else [] }

  function Members(fs: seq<File>, mtime: nat): Bytes {
    if fs == [] then [] else Members(fs[..|fs| - 1], mtime) + One(fs[|fs| - 1], mtime)
  }

  /** The archive: the packable members in order, then two zero blocks. */
  function Archive(fs: seq<File>, mtime: nat): Bytes { Members(fs, mtime) + Zeros(2 * BLOCK) }

  function Named(fs: seq<File>, keep: File -> bool): (r: seq<Bytes>) {
    if fs == [] then []
    else
      var m := Named(fs[..|fs| - 1], keep);
      var f := fs[|fs| - 1];
      if keep(f) then m + [f.name] else m
  }

  function Skipped(fs: seq<File>): seq<Bytes> { Named(fs, (f: File) => !Packable(f)) }

  function Short(fs: seq<File>): seq<Bytes> {
    Named(fs, (f: File) => Packable(f) && |Concat(f.chunks)| < f.size)
  }

  lemma {:induction false} PrefixOfConcat(c: seq<Bytes>, k: nat)
    requires k <= |c|
    ensures Concat(c[..k]) <= Concat(c)
  {
    if k == |c| {
      assert c[..k] == c;
    } else {
      PrefixOfConcat(c[..|c| - 1], k);
      assert c[..|c| - 1][..k] == c[..k];
    }
  }

  /** At most the first `size` octets. */
  function Cut(content: Bytes, size: nat): Bytes { if |content| >= size then content[..size] else content }

  lemma ConcatNext(c: seq<Bytes>, i: nat)
    requires i < |c|
    ensures Concat(c[..i + 1]) == Concat(c[..i]) + c[i]
  {
    assert c[..i + 1][..i] == c[..i];
  }

  lemma CutGrows(x: Bytes, chunk: Bytes, size: nat)
    requires |Cut(x, size)| < size
    ensures var room := size - |Cut(x, size)|;
            Cut(x + chunk, size) == Cut(x, size) + if |chunk| > room then chunk[..room] else chunk
  {
  }

  lemma CutIsFull(x: Bytes, content: Bytes, size: nat)
    requires x <= content && |Cut(x, size)| == size
    ensures Cut(content, size) == Cut(x, size)
  {
  }

  /** One member of the generator: chunks cut to the room left, then the shortfall. */
  method Stream(f: File) returns (out: Bytes, wasShort: bool)
    ensures out == Payload(Concat(f.chunks), f.size)
    ensures wasShort <==> |Concat(f.chunks)| < f.size
  {
    out := [];
    var written: nat, i: nat := 0, 0;
    while i < |f.chunks|
      invariant i <= |f.chunks| && written == |out| <= f.size
      invariant out == Cut(Concat(f.chunks[..i]), f.size)
    {
      var chunk := f.chunks[i];
      var room := f.size - written;
      if room <= 0 { break; }
      ConcatNext(f.chunks, i);
      CutGrows(Concat(f.chunks[..i]), chunk, f.size);
      var part := if |chunk| > room then chunk[..room] else chunk;
      written := written + |part|;
      out := out + part;
      i := i + 1;
    }
    StreamEnds(f, i, out);
    wasShort := written < f.size;
    if wasShort {
      out := out + Zeros(f.size - written);
    }
  }

  /** Out of chunks or out of room, what went out is the whole content, cut. */
  lemma StreamEnds(f: File, i: nat, out: Bytes)
    requires i <= |f.chunks| && out == Cut(Concat(f.chunks[..i]), f.size) && (i == |f.chunks| || |out| == f.size)
    ensures out == Cut(Concat(f.chunks), f.size)
  {
    if i == |f.chunks| {
      assert f.chunks[..i] == f.chunks;
    } else {
      PrefixOfConcat(f.chunks, i);
      CutIsFull(Concat(f.chunks[..i]), Concat(f.chunks), f.size);
    }
  }

  /** The names listed are those of the files meant, in order. */
  lemma {:induction false} NamedAre(fs: seq<File>, keep: File -> bool, n: Bytes)
    ensures n in Named(fs, keep) <==> exists i :: 0 <= i < |fs| && keep(fs[i]) && fs[i].name == n
  {
    if fs != [] {
      var front, f := fs[..|fs| - 1], fs[|fs| - 1];
      NamedAre(front, keep, n);
      assert Named(fs, keep) == if keep(f) then Named(front, keep) + [f.name] else Named(front, keep);
      assert forall i :: 0 <= i < |front| ==> front[i] == fs[i];
    }
  }

  /** Nothing is dropped in silence: a file's name is among those skipped exactly when it cannot be
      expressed, and among the short ones exactly when it is packed and its content ran out. */
  lemma ReportsExactly(fs: seq<File>, n: Bytes)
    ensures n in Skipped(fs) <==> exists i :: 0 <= i < |fs| && fs[i].name == n && SplitName(n).None?
    ensures n in Short(fs) <==> exists i :: 0 <= i < |fs| && fs[i].name == n && SplitName(n).Some? && |Concat(fs[i].chunks)| < fs[i].size
  {
    NamedAre(fs, (f: File) => !Packable(f), n);
    NamedAre(fs, (f: File) => Packable(f) && |Concat(f.chunks)| < f.size, n);
  }

  /** The packer without its compression: what is skipped, what came up short, what is written. */
  method Pack(fs: seq<File>, mtime: nat) returns (out: Bytes, skipped: seq<Bytes>, short: seq<Bytes>)
    ensures out == Archive(fs, mtime) && skipped == Skipped(fs) && short == Short(fs)
  {
    out, skipped, short := [], [], [];
    var i: nat := 0;
    while i < |fs|
      invariant i <= |fs| && out == Members(fs[..i], mtime)
      invariant skipped == Skipped(fs[..i]) && short == Short(fs[..i])
    {
      var f := fs[i];
      assert fs[..i + 1][..i] == fs[..i];
      var h := Header(f.name, f.size, mtime);
      if h.None? {
        skipped := skipped + [f.name];
      } else {
        var data, wasShort := Stream(f);
        out := out + (h.value + data + Zeros(Pad(f.size)));
        if wasShort { short := short + [f.name]; }
      }
      i := i + 1;
    }
    assert fs[..|fs|] == fs;
    out := out + Zeros(2 * BLOCK);
  }

  /** What a reader should find: the packable files, each with exactly its recorded size. */
  function Contents(fs: seq<File>): seq<Entry> {
    if fs == [] then []
    else
      var f := fs[0];
      (if Packable(f) then [Entry(f.name, Payload(Concat(f.chunks), f.size))] else []) + Contents(fs[1..])
  }

  /** What a caller can check: no NUL, no split at a leading slash, eleven octal digits of size. */
  predicate Survives(f: File) {
    0 !in f.name && !(|f.name| > NAME_MAX && LastFit(f.name, |f.name|) == Some(0)) && f.size < Pow8(11)
  }

  /** Every name without a NUL or a leading slash is such a name. */
  lemma RelativeNamesSurvive(f: File)
    requires 0 !in f.name && (f.name != [] ==> f.name[0] != SLASH) && f.size < Pow8(11)
    ensures Survives(f)
  {
  }

  lemma MembersLast(fs: seq<File>, mtime: nat)
    requires fs != []
    ensures Members(fs, mtime) == Members(fs[..|fs| - 1], mtime) + One(fs[|fs| - 1], mtime)
  {
  }

  lemma FrontOfTail<T>(s: seq<T>, n: nat)
    requires |s| == n + 1 && n >= 1
    ensures s[..n][1..] == s[1..][..n - 1] && s[..n][0] == s[0] && |s[1..]| == n && s[1..][n - 1] == s[n]
  {
  }

  lemma {:induction false} MembersFront(fs: seq<File>, mtime: nat)
    requires fs != []
    ensures Members(fs, mtime) == One(fs[0], mtime) + Members(fs[1..], mtime)
  {
    if |fs| == 1 {
      assert fs[..0] == [] && fs[1..] == [];
      assert Members([], mtime) == [];
    } else {
      var n := |fs| - 1;
      MembersFront(fs[..n], mtime);
      FrontOfTail(fs, n);
      MembersLast(fs, mtime);
      MembersLast(fs[1..], mtime);
      Reassoc(One(fs[0], mtime), Members(fs[1..][..n - 1], mtime), One(fs[n], mtime));
    }
  }

  /** Reading one member off the front of any stream. */
  lemma ReadMember(f: File, mtime: nat, rest: Bytes)
    requires Packable(f)
    ensures var r, s := ReadAll(rest), ReadAll(MemberBytes(f, mtime) + rest);
            var sp := SplitName(f.name).value;
            s == if r.None? || f.size >= Pow8(11) then None
                 else Some([Entry(Member(Text(sp.prefix), Text(sp.name)), Payload(Concat(f.chunks), f.size))] + r.value)
  {
    var sp := SplitName(f.name).value;
    HeaderReads(sp, f.size, mtime);
    SizeReadsExactly(f.size);
    CutMember(HeaderOf(sp, f.size, mtime), Payload(Concat(f.chunks), f.size), Zeros(Pad(f.size)), rest);
  }

  lemma CutMember(h: Bytes, data: Bytes, pad: Bytes, rest: Bytes)
    requires |h| == BLOCK
    ensures var s := h + data + pad + rest;
            s[..BLOCK] == h && s[BLOCK..BLOCK + |data|] == data && s[BLOCK + |data| + |pad|..] == rest
  {
  }

  predicate AllSurvive(fs: seq<File>) {
    forall i :: 0 <= i < |fs| ==> (Packable(fs[i]) ==> Survives(fs[i]))
  }

  /** One more member in front: it and the rest must read back. */
  lemma MemberReadsBack(f: File, mtime: nat, rest: Bytes, contents: seq<Entry>)
    requires Packable(f)
    ensures ReadAll(MemberBytes(f, mtime) + rest) == Some([Entry(f.name, Payload(Concat(f.chunks), f.size))] + contents)
       <==> Survives(f) && ReadAll(rest) == Some(contents)
  {
    ReadMember(f, mtime, rest);
    NameReadsExactly(f.name);
    var e := Entry(f.name, Payload(Concat(f.chunks), f.size));
    ConsEqual(ReadAll(MemberBytes(f, mtime) + rest), ReadAll(rest), [e] + contents, contents);
  }

  lemma AllSurviveFront(fs: seq<File>)
    requires fs != []
    ensures AllSurvive(fs) <==> (Packable(fs[0]) ==> Survives(fs[0])) && AllSurvive(fs[1..])
  {
    assert forall i :: 1 <= i < |fs| ==> fs[i] == fs[1..][i - 1];
  }

  lemma ArchiveFront(fs: seq<File>, mtime: nat)
    requires fs != []
    ensures Archive(fs, mtime) == One(fs[0], mtime) + Archive(fs[1..], mtime)
  {
    MembersFront(fs, mtime);
    Reassoc(One(fs[0], mtime), Members(fs[1..], mtime), Zeros(2 * BLOCK));
  }

  lemma EmptyArchive(mtime: nat)
    ensures ReadAll(Archive([], mtime)) == Some([])
  {
    var z := Zeros(2 * BLOCK);
    assert z[..BLOCK] == Zeros(BLOCK) && z[BLOCK..2 * BLOCK] == Zeros(BLOCK);
    assert Archive([], mtime) == z;
  }

  /** A POSIX reader recovers every packable member, its name and exactly `size` octets, precisely
      when each of them survives. */
  lemma {:induction false} RoundTrip(fs: seq<File>, mtime: nat)
    ensures ReadAll(Archive(fs, mtime)) == Some(Contents(fs)) <==> AllSurvive(fs)
  {
    if fs == [] {
      EmptyArchive(mtime);
    } else {
      RoundTrip(fs[1..], mtime);
      RoundTripStep(fs, mtime);
    }
  }

  lemma RoundTripStep(fs: seq<File>, mtime: nat)
    requires fs != [] && (ReadAll(Archive(fs[1..], mtime)) == Some(Contents(fs[1..])) <==> AllSurvive(fs[1..]))
    ensures ReadAll(Archive(fs, mtime)) == Some(Contents(fs)) <==> AllSurvive(fs)
  {
    var f, rest := fs[0], Archive(fs[1..], mtime);
    ArchiveFront(fs, mtime);
    AllSurviveFront(fs);
    if Packable(f) {
      MemberReadsBack(f, mtime, rest, Contents(fs[1..]));
    } else {
      assert [] + rest == rest && [] + Contents(fs[1..]) == Contents(fs[1..]);
    }
  }

  /** Two lists with heads agree exactly when heads and tails do. */
  lemma ConsEqual(a: Option<seq<Entry>>, a': Option<seq<Entry>>, c: seq<Entry>, c': seq<Entry>)
    requires |c| >= 1 && c[1..] == c'
    requires a.None? || (a'.Some? && |a.value| >= 1 && a.value[1..] == a'.value)
    ensures a == Some(c) <==> a.Some? && a.value[0] == c[0] && a' == Some(c')
  {
    if a.Some? && a.value[0] == c[0] && a' == Some(c') {
      assert a.value == [a.value[0]] + a.value[1..] && c == [c[0]] + c[1..];
    }
  }

  predicate Whole(b: Bytes) { |b| % BLOCK == 0 }

  lemma JoinWhole(a: Bytes, b: Bytes)
    requires Whole(a) && Whole(b)
    ensures Whole(a + b)
  {
  }

  lemma BlocksAddUp(size: nat)
    ensures (BLOCK + size + Pad(size)) % BLOCK == 0
  {
    assert (size + Pad(size)) % BLOCK == 0;
  }

  lemma MemberLength(f: File, mtime: nat)
    requires Packable(f)
    ensures |MemberBytes(f, mtime)| == BLOCK + f.size + Pad(f.size)
  {
    HeaderReads(SplitName(f.name).value, f.size, mtime);
  }

  lemma OneIsWhole(f: File, mtime: nat)
    ensures Whole(One(f, mtime))
  {
    if Packable(f) {
      MemberLength(f, mtime);
      BlocksAddUp(f.size);
    }
  }

  lemma {:induction false} MembersWhole(fs: seq<File>, mtime: nat)
    ensures Whole(Members(fs, mtime))
  {
    if fs != [] {
      var front, last := Members(fs[..|fs| - 1], mtime), One(fs[|fs| - 1], mtime);
      MembersWhole(fs[..|fs| - 1], mtime);
      OneIsWhole(fs[|fs| - 1], mtime);
      JoinWhole(front, last);
      assert Members(fs, mtime) == front + last;
    }
  }

  /** Whatever the names and sizes, the stream is whole blocks. */
  lemma WholeBlocks(fs: seq<File>, mtime: nat)
    ensures |Archive(fs, mtime)| % BLOCK == 0
  {
    MembersWhole(fs, mtime);
    JoinWhole(Members(fs, mtime), Zeros(2 * BLOCK));
  }
}
