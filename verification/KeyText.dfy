/** The printed form of keys (`key__decode_char`, `key__decode_str`, Libedit/key.c) and
    the parser of escapes (`parse__escape`, `parse__string`, Libedit/parse.c).

    Strings are sequences of bytes without their terminating zero.  Character classes are
    those of the C locale. */
module KeyText {
  import opened Bytes
  import opened Options

  const CARET: byte := 94
  const BACKSLASH: byte := 92
  const ZERO: byte := 48

  predicate IsControl(b: byte) {
    b < 32 || b == 127
  }

  predicate IsPrintable(b: byte) {
    32 <= b < 127
  }

  predicate IsOctal(b: byte) {
    ZERO <= b < ZERO + 8
  }

  // ---------- printing ----------

  function Octal(hi: int, mid: int, lo: int): seq<byte>
    requires 0 <= hi < 8 && 0 <= mid < 8 && 0 <= lo < 8
  {
    [BACKSLASH, ZERO + hi, ZERO + mid, ZERO + lo]
  }

  function Control(b: byte): seq<byte>
    requires IsControl(b)
  {
    [CARET, if b == 127 then 63 else b + 64]
  }

  /** The printed form of one byte of a key. */
  function CharForm(b: byte): seq<byte> {
    if IsControl(b) then Control(b)
    else if b == CARET || b == BACKSLASH then [BACKSLASH, b]
    else if IsPrintable(b) then [b]
    else Octal(b / 64 % 8, b / 8 % 8, b % 8)
  }

  /** The printed form of one byte of a string.  A signed char loses its top bits in the
      right shift: the first octal digit of a byte from 0200 on comes out as 6 or 7. */
  function StrForm(b: byte, signedChar: bool): seq<byte> {
    if b >= 128 && signedChar then Octal(b / 64 % 8 + 4, b / 8 % 8, b % 8) else CharForm(b)
  }

  function KeyForm(s: seq<byte>): seq<byte> {
    if s == [] then [] else CharForm(s[0]) + KeyForm(s[1..])
  }

  function StrBody(s: seq<byte>, signedChar: bool): seq<byte> {
    if s == [] then [] else StrForm(s[0], signedChar) + StrBody(s[1..], signedChar)
  }

  function Opening(sep: seq<byte>): seq<byte> {
    if |sep| > 0 then [sep[0]] else []
  }

  function Closing(sep: seq<byte>): seq<byte> {
    if |sep| > 1 then [sep[1]] else []
  }

  /** `key__decode_str`: an empty string prints as ^@. */
  function StringForm(s: seq<byte>, sep: seq<byte>, signedChar: bool): seq<byte> {
    Opening(sep) + (if s == [] then [CARET, 64] else StrBody(s, signedChar)) + Closing(sep)
  }

  // ---------- parsing ----------

  /** Up to n octal digits: their value and what follows. */
  function OctalRun(s: seq<byte>, n: nat, acc: int): (int, seq<byte>) {
    if n == 0 || s == [] || !IsOctal(s[0]) then (acc, s)
    else OctalRun(s[1..], n - 1, acc * 8 + (s[0] - ZERO))
  }

  /** A char as an int. */
  function CharCode(b: byte, signedChar: bool): int {
    if signedChar && b >= 128 then b - 256 else b
  }

  /** The char an int is stored as. */
  function ByteOf(c: int): byte {
    c % 256
  }

  /** `parse__escape`: the int it returns and what follows the escape, or nothing if it
      returns -1, which is meant for an invalid escape.  The branch for ^X tests whether the
      caret itself is a letter, so it is never taken: a caret stands for itself. */
  function Escape(s: seq<byte>, signedChar: bool): Option<(int, seq<byte>)> {
    if |s| < 2 then None
    else if s[0] == BACKSLASH then
      var c := s[1];
      var rest := s[2..];
      if c == 97 then Some((7, rest))
      else if c == 98 then Some((8, rest))
      else if c == 116 then Some((9, rest))
      else if c == 110 then Some((10, rest))
      else if c == 118 then Some((11, rest))
      else if c == 102 then Some((12, rest))
      else if c == 114 then Some((13, rest))
      else if c == 101 then Some((27, rest))
      else if IsOctal(c) then
        var (v, rest') := OctalRun(s[1..], 3, 0);
        if 0 <= v < 256 then Some((v, rest')) else None
      else Returned(CharCode(c, signedChar), rest)
    else Returned(CharCode(s[0], signedChar), s[1..])
  }

  function Returned(c: int, rest: seq<byte>): Option<(int, seq<byte>)> {
    if c == -1 then None else Some((c, rest))
  }

  lemma {:induction false} OctalRunShrinks(s: seq<byte>, n: nat, acc: int)
    ensures |OctalRun(s, n, acc).1| <= |s|
    ensures n > 0 && s != [] && IsOctal(s[0]) ==> |OctalRun(s, n, acc).1| < |s|
    decreases n
  {
    if !(n == 0 || s == [] || !IsOctal(s[0])) { OctalRunShrinks(s[1..], n - 1, acc * 8 + (s[0] - ZERO)); }
  }

  lemma EscapeShrinks(s: seq<byte>, signedChar: bool)
    ensures Escape(s, signedChar).Some? ==> |Escape(s, signedChar).value.1| < |s|
  {
    if |s| >= 2 { OctalRunShrinks(s[1..], 3, 0); }
  }

  /** `parse__string`. */
  function Parse(s: seq<byte>, signedChar: bool): Option<seq<byte>>
    decreases |s|
  {
    if s == [] then Some([])
    else if s[0] == BACKSLASH || s[0] == CARET then
      EscapeShrinks(s, signedChar);
      match Escape(s, signedChar)
      case None => None
      case Some((c, rest)) => Prepend(ByteOf(c), Parse(rest, signedChar))
    else Prepend(s[0], Parse(s[1..], signedChar))
  }

  function Prepend(c: byte, r: Option<seq<byte>>): Option<seq<byte>> {
    match r
    case None => None
    case Some(v) => Some([c] + v)
  }

  // ---------- printing and parsing ----------

  lemma OctalOfByte(b: byte)
    requires 128 <= b
    ensures b / 64 % 8 * 64 + b / 8 % 8 * 8 + b % 8 == b && 2 <= b / 64 % 8 <= 3
  {
    assert b / 64 % 8 == b / 64;
    assert b / 8 == b / 64 * 8 + b / 8 % 8;
  }

  lemma OctalParses(hi: int, mid: int, lo: int, rest: seq<byte>, signedChar: bool)
    requires 0 <= hi < 8 && 0 <= mid < 8 && 0 <= lo < 8
    ensures Escape(Octal(hi, mid, lo) + rest, signedChar) ==
      if hi < 4 then Some((hi * 64 + mid * 8 + lo, rest)) else None
  {
    var s := Octal(hi, mid, lo) + rest;
    var d0, d1, d2 := ZERO + hi, ZERO + mid, ZERO + lo;
    assert s[1..] == [d0, d1, d2] + rest;
    var s1, s2 := [d1, d2] + rest, [d2] + rest;
    assert s[1..][1..] == s1 && s1[1..] == s2 && s2[1..] == rest;
    assert OctalRun(s2, 1, hi * 8 + mid) == OctalRun(rest, 0, (hi * 8 + mid) * 8 + lo);
    assert OctalRun(s1, 2, hi) == OctalRun(s2, 1, hi * 8 + mid);
    assert OctalRun(s[1..], 3, 0) == OctalRun(s1, 2, hi);
  }

  lemma OctalFormParses(b: byte, rest: seq<byte>, signedChar: bool)
    requires b >= 128
    ensures Parse(Octal(b / 64 % 8, b / 8 % 8, b % 8) + rest, signedChar) == Prepend(b, Parse(rest, signedChar))
  {
    hide Escape;
    OctalOfByte(b);
    OctalParses(b / 64 % 8, b / 8 % 8, b % 8, rest, signedChar);
  }

  lemma PlainFormParses(b: byte, rest: seq<byte>, signedChar: bool)
    requires IsPrintable(b)
    ensures b != CARET && b != BACKSLASH ==> Parse([b] + rest, signedChar) == Prepend(b, Parse(rest, signedChar))
    ensures b == CARET || b == BACKSLASH ==> Parse([BACKSLASH, b] + rest, signedChar) == Prepend(b, Parse(rest, signedChar))
  {
    hide OctalRun;
    if b == CARET || b == BACKSLASH {
      assert ([BACKSLASH, b] + rest)[2..] == rest;
    } else {
      hide Escape;
      assert ([b] + rest)[1..] == rest;
    }
  }

  /** The printed form of a byte that is not a control character parses back to it,
      whatever follows. */
  lemma CharFormParses(b: byte, rest: seq<byte>, signedChar: bool)
    requires !IsControl(b)
    ensures Parse(CharForm(b) + rest, signedChar) == Prepend(b, Parse(rest, signedChar))
  {
    hide Parse, Octal;
    if b < 128 {
      PlainFormParses(b, rest, signedChar);
    } else {
      OctalFormParses(b, rest, signedChar);
    }
  }

  /** The printed form of a control character never parses back to it. */
  lemma ControlNeverParses(b: byte, rest: seq<byte>, signedChar: bool)
    requires IsControl(b)
    ensures var r := Parse(CharForm(b) + rest, signedChar); r.Some? ==> r.value != [] && r.value[0] == CARET
  {
  }

  /** Printing a key and parsing it gives the key back exactly when no byte of it is a
      control character. */
  lemma {:induction false} KeyRoundTrip(s: seq<byte>, signedChar: bool)
    ensures Parse(KeyForm(s), signedChar) == Some(s) <==> forall i :: 0 <= i < |s| ==> !IsControl(s[i])
    decreases |s|
  {
    if s != [] {
      var rest := KeyForm(s[1..]);
      KeyRoundTrip(s[1..], signedChar);
      if IsControl(s[0]) {
        ControlNeverParses(s[0], rest, signedChar);
      } else {
        CharFormParses(s[0], rest, signedChar);
        ConsEqual(s, Parse(rest, signedChar));
      }
    }
  }

  lemma ConsEqual(s: seq<byte>, r: Option<seq<byte>>)
    requires s != []
    ensures Prepend(s[0], r) == Some(s) <==> r == Some(s[1..])
  {
    assert s == [s[0]] + s[1..];
    if r.Some? { assert ([s[0]] + r.value)[1..] == r.value; }
  }

  predicate Survives(b: byte, signedChar: bool) {
    if signedChar then IsPrintable(b) else !IsControl(b)
  }

  /** Printing a string without separators and parsing it gives the string back exactly
      when it is not empty and all of it is printable; where char is unsigned, bytes from
      0200 on survive too. */
  lemma StringRoundTrip(s: seq<byte>, signedChar: bool)
    ensures Parse(StringForm(s, [], signedChar), signedChar) == Some(s) <==>
      s != [] && forall i :: 0 <= i < |s| ==> Survives(s[i], signedChar)
  {
    if s == [] {
      assert StringForm(s, [], signedChar) == [CARET, 64];
      assert Escape([CARET, 64], signedChar) == Some((CARET, [CARET, 64][1..]));
    } else {
      assert StringForm(s, [], signedChar) == StrBody(s, signedChar);
      BodyRoundTrip(s, signedChar);
    }
  }

  lemma {:induction false} BodyRoundTrip(s: seq<byte>, signedChar: bool)
    ensures Parse(StrBody(s, signedChar), signedChar) == Some(s) <==> forall i :: 0 <= i < |s| ==> Survives(s[i], signedChar)
    decreases |s|
  {
    if s != [] {
      var rest := StrBody(s[1..], signedChar);
      BodyRoundTrip(s[1..], signedChar);
      if s[0] >= 128 && signedChar {
        OctalOfByte(s[0]);
        OctalParses(s[0] / 64 % 8 + 4, s[0] / 8 % 8, s[0] % 8, rest, signedChar);
      } else if IsControl(s[0]) {
        ControlNeverParses(s[0], rest, signedChar);
      } else {
        CharFormParses(s[0], rest, signedChar);
        ConsEqual(s, Parse(rest, signedChar));
      }
    }
  }

  /** The escapes for control characters, by their ASCII names: bell, backspace, tab, newline,
      vertical tab, form feed, return and escape. */
  const BEL: byte := 0x07
  const BS: byte := 0x08
  const HT: byte := 0x09
  const LF: byte := 0x0A
  const VT: byte := 0x0B
  const FF: byte := 0x0C
  const CR: byte := 0x0D
  const ESC: byte := 0x1B

  function ControlOf(letter: char): Option<byte> {
    match letter
    case 'a' => Some(BEL)
    case 'b' => Some(BS)
    case 't' => Some(HT)
    case 'n' => Some(LF)
    case 'v' => Some(VT)
    case 'f' => Some(FF)
    case 'r' => Some(CR)
    case 'e' => Some(ESC)
    case _ => None
  }

  /** Behind a backslash each of the eight letters stands for its control character. */
  lemma LetterParses(letter: char, rest: seq<byte>, signedChar: bool)
    requires ControlOf(letter).Some?
    ensures letter as int < 128 &&
      Parse([BACKSLASH, letter as int] + rest, signedChar) == Prepend(ControlOf(letter).value, Parse(rest, signedChar))
  {
    var s: seq<byte> := [BACKSLASH, letter as int] + rest;
    assert s[2..] == rest;
  }

  /** One or two octal digits before something else are read as they stand. */
  lemma OneDigitParses(d: byte, rest: seq<byte>, signedChar: bool)
    requires d < 8 && (rest == [] || !IsOctal(rest[0]))
    ensures Escape([BACKSLASH, ZERO + d] + rest, signedChar) == Some((d as int, rest))
  {
    var s, t: seq<byte> := [BACKSLASH, ZERO + d] + rest, [ZERO + d] + rest;
    assert s[1..] == t && t[1..] == rest;
    assert OctalRun(t, 3, 0) == OctalRun(rest, 2, d) == (d as int, rest);
  }

  lemma TwoDigitsParse(d: byte, e: byte, rest: seq<byte>, signedChar: bool)
    requires d < 8 && e < 8 && (rest == [] || !IsOctal(rest[0]))
    ensures Escape([BACKSLASH, ZERO + d, ZERO + e] + rest, signedChar) == Some((8 * d + e, rest))
  {
    var s: seq<byte> := [BACKSLASH, ZERO + d, ZERO + e] + rest;
    var t: seq<byte>, u: seq<byte> := [ZERO + d, ZERO + e] + rest, [ZERO + e] + rest;
    assert s[1..] == t && t[1..] == u && u[1..] == rest;
    assert OctalRun(u, 2, d) == OctalRun(rest, 1, d * 8 + e) == (d * 8 + e, rest);
    assert OctalRun(t, 3, 0) == OctalRun(u, 2, d);
  }

  /** A byte that has no meaning of its own behind a backslash. */
  predicate PlainBehind(b: byte) {
    !IsOctal(b) && b !in [97, 98, 116, 110, 118, 102, 114, 101]
  }

  /** Behind a backslash such a byte stands for itself, except 0377 where char is signed: it
      is mistaken for the -1 of an invalid escape. */
  lemma EscapedByteParses(b: byte, rest: seq<byte>, signedChar: bool)
    requires PlainBehind(b)
    ensures Parse([BACKSLASH, b] + rest, signedChar) ==
      if signedChar && b == 255 then None else Prepend(b, Parse(rest, signedChar))
  {
    var s := [BACKSLASH, b] + rest;
    assert s[2..] == rest;
  }

  // ---------- inputs that do not come back ----------

  /** ^A, the printed form of the byte 1, parses to a caret and an A. */
  lemma ControlExample(signedChar: bool)
    ensures KeyForm([1]) == [CARET, 65] && Parse([CARET, 65], signedChar) == Some([CARET, 65])
  {
    var s: seq<byte>, t: seq<byte> := [CARET, 65], [65];
    assert KeyForm([1]) == CharForm(1) + KeyForm([]);
    assert s[1..] == t && t[1..] == [];
    assert t + [] == t && [CARET] + t == s;
    assert Parse(t, signedChar) == Some(t);
    assert Escape(s, signedChar) == Some((94, t));
  }

  /** Where char is signed, the byte 0200 prints as \600, which does not parse. */
  lemma SignedExample()
    ensures StringForm([128], [], true) == [BACKSLASH, 54, 48, 48] && Parse([BACKSLASH, 54, 48, 48], true) == None
  {
    assert StrBody([128], true) == StrForm(128, true) + StrBody([], true);
    assert Octal(6, 0, 0) + [] == [BACKSLASH, 54, 48, 48];
    OctalParses(6, 0, 0, [], true);
  }

  // ---------- the code ----------

  /** Writes the printed form of `ch` at buf[cnt..]; returns the index of its last byte. */
  method DecodeChar(buf: array<byte>, cnt: nat, ch: byte) returns (last: nat)
    requires cnt + 4 <= buf.Length
    modifies buf
    ensures last + 1 == cnt + |CharForm(ch)|
    ensures buf[..last + 1] == old(buf[..cnt]) + CharForm(ch)
    ensures forall i :: last < i < buf.Length ==> buf[i] == old(buf[i])
  {
    last := cnt;
    if ch == 0 {
      buf[last] := CARET;
      last := last + 1;
      buf[last] := 64;
      return;
    }
    if ch < 32 || ch == 127 {
      buf[last] := CARET;
      last := last + 1;
      if ch == 127 {
        buf[last] := 63;
      } else {
        buf[last] := ch + 64;
      }
    } else if ch == CARET {
      buf[last] := BACKSLASH;
      last := last + 1;
      buf[last] := CARET;
    } else if ch == BACKSLASH {
      buf[last] := BACKSLASH;
      last := last + 1;
      buf[last] := BACKSLASH;
    } else if 32 <= ch < 127 {
      buf[last] := ch;
    } else {
      buf[last] := BACKSLASH;
      last := last + 1;
      buf[last] := ZERO + ch / 64 % 8;
      last := last + 1;
      buf[last] := ZERO + ch / 8 % 8;
      last := last + 1;
      buf[last] := ZERO + ch % 8;
    }
  }

  /** The body of the loop of `key__decode_str`. */
  method AppendForm(before: seq<byte>, c: byte, signedChar: bool) returns (b: seq<byte>)
    ensures b == before + StrForm(c, signedChar)
  {
    b := before;
    if c < 32 || c == 127 {
      b := b + [CARET];
      if c == 127 {
        b := b + [63];
      } else {
        b := b + [c + 64];
      }
    } else if c == CARET || c == BACKSLASH {
      b := b + [BACKSLASH];
      b := b + [c];
    } else if 32 <= c < 127 {
      b := b + [c];
    } else {
      b := b + [BACKSLASH];
      b := b + [ZERO + c / 64 % 8 + (if signedChar then 4 else 0)];
      b := b + [ZERO + c / 8 % 8];
      b := b + [ZERO + c % 8];
    }
  }

  /** `key__decode_str`, the output as the bytes before the terminating zero. */
  method DecodeStr(str: seq<byte>, sep: seq<byte>, signedChar: bool) returns (b: seq<byte>)
    ensures b == StringForm(str, sep, signedChar)
  {
    hide StrForm, CharForm;
    b := [];
    if |sep| > 0 {
      b := b + [sep[0]];
    }
    if str == [] {
      b := b + [CARET, 64];
      if |sep| > 1 {
        b := b + [sep[1]];
      }
      return;
    }
    ghost var open := b;
    var p := 0;
    while p < |str|
      invariant 0 <= p <= |str|
      invariant b + StrBody(str[p..], signedChar) == open + StrBody(str, signedChar)
    {
      var c := str[p];
      b := AppendForm(b, c, signedChar);
      assert str[p..][0] == c && str[p..][1..] == str[p + 1..];
      p := p + 1;
    }
    assert b == open + StrBody(str, signedChar);
    if |sep| > 1 {
      b := b + [sep[1]];
    }
  }

  /** `parse__escape` on the string from position p; the new position, and -1 for an
      invalid escape. */
  method ParseEscape(s: seq<byte>, start: nat, signedChar: bool) returns (c: int, p: nat)
    requires start < |s|
    ensures match Escape(s[start..], signedChar)
      case None => c == -1
      case Some((v, rest)) => c == v && start < p <= |s| && s[p..] == rest
  {
    p := start;
    if p + 1 == |s| {
      return -1, p;
    }
    assert s[start..][1..] == s[start + 1..];
    assert s[start..][2..] == s[start + 2..];
    if s[p] == BACKSLASH {
      p := p + 1;
      match s[p]
      case 97 => c := 7;
      case 98 => c := 8;
      case 116 => c := 9;
      case 110 => c := 10;
      case 118 => c := 11;
      case 102 => c := 12;
      case 114 => c := 13;
      case 101 => c := 27;
      case _ =>
        if ZERO <= s[p] <= ZERO + 7 {
          OctalRunShrinks(s[p..], 3, 0);
          c, p := ParseOctal(s, p);
          if c >= 256 {
            return -1, p;
          }
          p := p - 1;
        } else {
          c := CharCode(s[p], signedChar);
        }
    } else {
      c := CharCode(s[p], signedChar);
    }
    p := p + 1;
  }

  /** The octal loop of `parse__escape`: at most three digits. */
  method ParseOctal(s: seq<byte>, start: nat) returns (c: int, p: nat)
    requires start < |s| && IsOctal(s[start])
    ensures start < p <= |s| && 0 <= c && (c, s[p..]) == OctalRun(s[start..], 3, 0)
  {
    c, p := 0, start;
    var cnt := 0;
    while cnt < 3
      invariant 0 <= cnt <= 3 && p == start + cnt && p <= |s| && 0 <= c
      invariant OctalRun(s[p..], 3 - cnt, c) == OctalRun(s[start..], 3, 0)
    {
      if p == |s| || s[p] < ZERO || s[p] > ZERO + 7 {
        break;
      }
      assert s[p..][1..] == s[p + 1..];
      c := c * 8 + (s[p] - ZERO);
      p := p + 1;
      cnt := cnt + 1;
    }
  }

  /** What has been put out, then the rest. */
  function After(rv: seq<byte>, r: Option<seq<byte>>): Option<seq<byte>> {
    match r
    case None => None
    case Some(v) => Some(rv + v)
  }

  lemma AfterPrepend(rv: seq<byte>, c: byte, r: Option<seq<byte>>)
    ensures After(rv, Prepend(c, r)) == After(rv + [c], r)
  {
    if r.Some? { assert rv + ([c] + r.value) == (rv + [c]) + r.value; }
  }

  /** `parse__string`. */
  method ParseString(s: seq<byte>, signedChar: bool) returns (out: Option<seq<byte>>)
    ensures out == Parse(s, signedChar)
  {
    var rv: seq<byte> := [];
    var p := 0;
    assert s[0..] == s;
    assert After([], Parse(s, signedChar)) == Parse(s, signedChar) by {
      if Parse(s, signedChar).Some? { assert [] + Parse(s, signedChar).value == Parse(s, signedChar).value; }
    }
    while p < |s|
      invariant 0 <= p <= |s|
      invariant Parse(s, signedChar) == After(rv, Parse(s[p..], signedChar))
      decreases |s| - p
    {
      if s[p] == BACKSLASH || s[p] == CARET {
        var c, q := ParseEscape(s, p, signedChar);
        if c == -1 {
          return None;
        }
        AfterPrepend(rv, ByteOf(c), Parse(s[q..], signedChar));
        rv := rv + [ByteOf(c)];
        p := q;
      } else {
        assert s[p..][1..] == s[p + 1..];
        AfterPrepend(rv, s[p], Parse(s[p + 1..], signedChar));
        rv := rv + [s[p]];
        p := p + 1;
      }
    }
    assert rv + [] == rv;
    return Some(rv);
  }
}
