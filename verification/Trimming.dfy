/** Blanks and trimming as String#trim has them, and the UTF-8 form of text. */
module Trimming {
  import opened Basics

  predicate Blank(c: char) {
    || c == ' ' || ('\U{0009}' <= c <= '\U{000D}') || c == '\U{00A0}' || c == '\U{1680}'
    || ('\U{2000}' <= c <= '\U{200A}') || c == '\U{2028}' || c == '\U{2029}'
    || c == '\U{202F}' || c == '\U{205F}' || c == '\U{3000}' || c == '\U{FEFF}'
  }

  function TrimLeft(s: string): string { if s != "" && Blank(s[0]) then TrimLeft(s[1..]) else s }

  function TrimRight(s: string): string {
    if s != "" && Blank(s[|s| - 1]) then TrimRight(s[..|s| - 1]) else s
  }

  function Trim(s: string): string { TrimRight(TrimLeft(s)) }

  predicate AllBlank(s: string) { forall i :: 0 <= i < |s| ==> Blank(s[i]) }

  /** Blanks around a text that starts and ends with none are what is trimmed. */
  lemma TrimStripsBlanks(pre: string, s: string, post: string)
    requires AllBlank(pre) && AllBlank(post) && s != "" && !Blank(s[0]) && !Blank(s[|s| - 1])
    ensures Trim(pre + s + post) == s
  {
    Reassoc(pre, s, post);
    TrimLeftStrips(pre, s + post);
    TrimRightStrips(s, post);
  }

  lemma {:induction false} TrimLeftStrips(pre: string, s: string)
    requires AllBlank(pre) && s != "" && !Blank(s[0])
    ensures TrimLeft(pre + s) == s
  {
    if pre == "" {
      assert pre + s == s;
    } else {
      TrimLeftStrips(pre[1..], s);
      assert (pre + s)[1..] == pre[1..] + s;
    }
  }

  lemma {:induction false} TrimRightStrips(s: string, post: string)
    requires AllBlank(post) && s != "" && !Blank(s[|s| - 1])
    ensures TrimRight(s + post) == s
  {
    if post == "" {
      assert s + post == s;
    } else {
      TrimRightStrips(s, post[..|post| - 1]);
      DropLast(s, post);
    }
  }

  // ---- UTF-8 ----------------------------------------------------------------------------------

  function Utf8(c: char): (b: Bytes)
    ensures 1 <= |b| <= 4
  {
    var n := c as int;
    if n < 0x80 then [n]
    else if n < 0x800 then [0xC0 + n / 64, 0x80 + n % 64]
    else if n < 0x1_0000 then [0xE0 + n / 4096, 0x80 + n / 64 % 64, 0x80 + n % 64]
    else [0xF0 + n / 262144, 0x80 + n / 4096 % 64, 0x80 + n / 64 % 64, 0x80 + n % 64]
  }

  function Encoded(s: string): Bytes {
    if s == "" then [] else Encoded(s[..|s| - 1]) + Utf8(s[|s| - 1])
  }
}
