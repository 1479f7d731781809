/** What the byte scan of the repair means for text: it trims a line as String#trimEnd would, and a key
    counts as blank when trimming its bytes, read one character each, leaves nothing. */
module RepairText {
  import opened Basics
  import opened Trimming
  import opened Repair

  lemma OneByteEnds(s: Bytes, n: Byte)
    requires n < 0x80
    ensures BlankWidth(s + [n]) == if n == 0x20 || 0x09 <= n <= 0x0d then 1 else 0
  {
  }

  lemma TwoBytesEnd(s: Bytes, a: Byte, b: Byte)
    requires 0xC2 <= a < 0xE0 && 0x80 <= b < 0xC0
    ensures BlankWidth(s + [a, b]) == if a == 0xC2 && b == 0xA0 then 2 else 0
  {
    var t := s + [a, b];
    assert t[|t| - 1] == b && t[|t| - 2] == a;
  }

  lemma ThreeBytesEnd(s: Bytes, a: Byte, m: Byte, b: Byte)
    requires 0xE0 <= a < 0xF0 && 0x80 <= m < 0xC0 && 0x80 <= b < 0xC0
    ensures BlankWidth(s + [a, m, b]) == if WideBlank(a, m, b) then 3 else 0
  {
    var t := s + [a, m, b];
    assert t[|t| - 1] == b && t[|t| - 2] == m && t[|t| - 3] == a;
  }

  lemma FourBytesEnd(s: Bytes, l: Byte, a: Byte, m: Byte, b: Byte)
    requires 0x80 <= a < 0xC0 && 0x80 <= m < 0xC0 && 0x80 <= b < 0xC0
    ensures BlankWidth(s + [l, a, m, b]) == 0
  {
    var t := s + [l, a, m, b];
    assert t[|t| - 1] == b && t[|t| - 2] == m && t[|t| - 3] == a;
  }

  /** The three-byte blanks are the wide ones, decoded. */
  lemma WideIsBlank(c: char)
    requires 0x800 <= c as int < 0x1_0000
    ensures var n := c as int; WideBlank(0xE0 + n / 4096, 0x80 + n / 64 % 64, 0x80 + n % 64) <==> Blank(c)
  {
  }

  /** Whatever comes before a character, the scan takes just its bytes if it is blank, and stops at it if
      it is not. */
  lemma BlankWidthExactly(s: Bytes, c: char)
    ensures BlankWidth(s + Utf8(c)) == if Blank(c) then |Utf8(c)| else 0
  {
    var n := c as int;
    if n < 0x80 {
      OneByteEnds(s, n);
    } else if n < 0x800 {
      TwoBytesEnd(s, 0xC0 + n / 64, 0x80 + n % 64);
    } else if n < 0x1_0000 {
      ThreeBytesEnd(s, 0xE0 + n / 4096, 0x80 + n / 64 % 64, 0x80 + n % 64);
      WideIsBlank(c);
    } else {
      FourBytesEnd(s, 0xF0 + n / 262144, 0x80 + n / 4096 % 64, 0x80 + n / 64 % 64, 0x80 + n % 64);
    }
  }

  lemma StripsOne(b: Bytes, c: char)
    ensures Stripped(b + Utf8(c)) == if Blank(c) then Stripped(b) else b + Utf8(c)
  {
    BlankWidthExactly(b, c);
    CutEnd(b, Utf8(c));
  }

  lemma CutEnd<T>(a: seq<T>, b: seq<T>)
    ensures (a + b)[..|a + b| - |b|] == a
  {
  }

  /** So stripping the bytes of a text is trimming its end. */
  lemma {:induction false} StrippedIsTrimmed(s: string)
    ensures Stripped(Encoded(s)) == Encoded(TrimRight(s))
  {
    if s != "" {
      var front, c := s[..|s| - 1], s[|s| - 1];
      StripsOne(Encoded(front), c);
      if Blank(c) { StrippedIsTrimmed(front); }
    }
  }

  lemma BodyOfLine(b: Bytes)
    ensures Body(b + [NL]) == b
  {
    assert (b + [NL])[..|b|] == b;
  }

  /** The key of a line is its text without the trailing blanks, whatever those are. */
  lemma LineKeyIsTrimmed(s: string)
    ensures Key(Encoded(s) + [NL]) == Encoded(TrimRight(s))
  {
    BodyOfLine(Encoded(s));
    StrippedIsTrimmed(s);
  }

  /** A key's bytes read as Latin-1, one character each. */
  function Latin1(key: Bytes): string { seq(|key|, i requires 0 <= i < |key| => key[i] as char) }

  lemma VoidIsAllBlank(key: Bytes)
    ensures Void(key) <==> AllBlank(Latin1(key))
  {
    if AllBlank(Latin1(key)) {
      forall i | 0 <= i < |key| ensures 0x09 <= key[i] <= 0x0d || key[i] == 0x20 || key[i] == 0xa0 { assert Blank(Latin1(key)[i]); }
    }
  }
}
